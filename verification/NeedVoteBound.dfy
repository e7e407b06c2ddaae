/**
 The bound need_vote alone would give: sessions that call it before every vote and add at
 most one success per passed check, with checks and additions interleaved freely.
 */
module NeedVoteBound {
  import W = WxVote

  datatype State = State(success: int, busy: set<string>)

  datatype Action = Check(ip: string) | Add(ip: string) | GiveUp(ip: string)

  predicate Enabled(target: int, all: set<string>, s: State, a: Action) {
    match a
    case Check(ip) => ip in all && ip !in s.busy && target > s.success
    case _ => a.ip in s.busy
  }

  function Step(s: State, a: Action): State {
    match a
    case Check(ip) => s.(busy := s.busy + {ip})
    case Add(ip) => State(s.success + 1, s.busy - {ip})
    case GiveUp(ip) => s.(busy := s.busy - {ip})
  }

  predicate IsRun(target: int, all: set<string>, s: State, run: seq<Action>)
    decreases |run|
  {
    run == [] || (Enabled(target, all, s, run[0]) && IsRun(target, all, Step(s, run[0]), run[1..]))
  }

  function Exec(s: State, run: seq<Action>): State
    decreases |run|
  {
    if run == [] then s else Exec(Step(s, run[0]), run[1..])
  }

  /** The latest action of `ip` in the run is a check, or it has none and was busy before. */
  predicate LastChecked(s: State, run: seq<Action>, ip: string) {
    if run == [] then ip in s.busy
    else
      var last := run[|run| - 1];
      if last.ip == ip then last.Check? else LastChecked(s, run[..|run| - 1], ip)
  }

  function Adds(run: seq<Action>): nat {
    if run == [] then 0 else (if run[0].Add? then 1 else 0) + Adds(run[1..])
  }

  lemma {:induction false} LastCheckedTail(s: State, run: seq<Action>, ip: string)
    requires run != []
    ensures LastChecked(s, run, ip) == LastChecked(Step(s, run[0]), run[1..], ip)
    decreases |run|
  {
    var n := |run| - 1;
    if n > 0 {
      LastCheckedTail(s, run[..n], ip);
      assert run[..n][1..] == run[1..][..n - 1];
    } else {
      assert LastChecked(s, run[..0], ip) == (ip in s.busy);
    }
  }

  /** The count is the number of additions, and busy are those that checked and neither added nor gave up since. */
  lemma {:induction false} ExecCounts(s: State, run: seq<Action>, ip: string)
    ensures Exec(s, run).success == s.success + Adds(run)
    ensures ip in Exec(s, run).busy <==> LastChecked(s, run, ip)
    decreases |run|
  {
    if run != [] {
      ExecCounts(Step(s, run[0]), run[1..], ip);
      LastCheckedTail(s, run, ip);
    }
  }

  lemma FewerBusy(all: set<string>, busy: set<string>, ip: string)
    requires busy <= all && ip in all && ip !in busy
    ensures |busy| + 1 <= |all|
  {
    assert all == busy + {ip} + (all - busy - {ip});
  }

  /** Successes and sessions under way never exceed the target by more than the sessions less one. */
  lemma {:induction false} OvershootBound(target: int, all: set<string>, s: State, run: seq<Action>)
    requires s.busy <= all && s.success + |s.busy| <= target - 1 + |all|
    requires IsRun(target, all, s, run)
    ensures var e := Exec(s, run); e.busy <= all && e.success + |e.busy| <= target - 1 + |all|
    decreases |run|
  {
    if run != [] {
      if run[0].Check? {
        FewerBusy(all, s.busy, run[0].ip);
      }
      OvershootBound(target, all, Step(s, run[0]), run[1..]);
    }
  }

  lemma {:induction false} RunsJoin(target: int, all: set<string>, s: State, first: seq<Action>, second: seq<Action>)
    requires IsRun(target, all, s, first) && IsRun(target, all, Exec(s, first), second)
    ensures IsRun(target, all, s, first + second) && Exec(s, first + second) == Exec(Exec(s, first), second)
    decreases |first|
  {
    if first == [] {
      assert first + second == second;
    } else {
      RunsJoin(target, all, Step(s, first[0]), first[1..], second);
      assert (first + second)[1..] == first[1..] + second;
    }
  }

  lemma OneStep(target: int, all: set<string>, s: State, a: Action)
    requires Enabled(target, all, s, a)
    ensures IsRun(target, all, s, [a]) && Exec(s, [a]) == Step(s, a)
  {
    assert IsRun(target, all, Step(s, a), [][..]);
    assert [a][1..] == [];
  }

  /** Checks of all sessions first, their additions afterwards. */
  lemma {:induction false} AllCheckThenAdd(target: int, all: set<string>, s: State, free: set<string>)
    returns (run: seq<Action>)
    requires free <= all && free !! s.busy && target > s.success
    ensures IsRun(target, all, s, run)
    ensures Exec(s, run) == State(s.success + |free|, s.busy)
    decreases free
  {
    run := [];
    if free != {} {
      var ip :| ip in free;
      var checked := State(s.success, s.busy + {ip});
      var inner := AllCheckThenAdd(target, all, checked, free - {ip});
      var m := Exec(checked, inner);
      OneStep(target, all, s, Check(ip));
      OneStep(target, all, m, Add(ip));
      RunsJoin(target, all, checked, inner, [Add(ip)]);
      RunsJoin(target, all, s, [Check(ip)], inner + [Add(ip)]);
      assert m.busy - {ip} == s.busy;
      run := [Check(ip)] + (inner + [Add(ip)]);
    }
  }

  /** One session at a time brings the count to any value up to the target. */
  lemma {:induction false} OneByOne(target: int, all: set<string>, s: State, ip: string, k: nat)
    returns (run: seq<Action>)
    requires ip in all && ip !in s.busy && s.success + k <= target
    ensures IsRun(target, all, s, run)
    ensures Exec(s, run) == State(s.success + k, s.busy)
    decreases k
  {
    run := [];
    if k > 0 {
      var checked := State(s.success, s.busy + {ip});
      OneStep(target, all, s, Check(ip));
      OneStep(target, all, checked, Add(ip));
      assert checked.busy - {ip} == s.busy;
      var m := State(s.success + 1, s.busy);
      var rest := OneByOne(target, all, m, ip, k - 1);
      RunsJoin(target, all, checked, [Add(ip)], rest);
      RunsJoin(target, all, s, [Check(ip)], [Add(ip)] + rest);
      run := [Check(ip)] + ([Add(ip)] + rest);
    }
  }

  /** The bound is reached: it is exact for every target of at least one and every set of sessions. */
  lemma OvershootBoundIsTight(target: int, all: set<string>)
    requires target >= 1 && all != {}
    ensures exists run :: IsRun(target, all, State(0, {}), run)
                       && Exec(State(0, {}), run) == State(target - 1 + |all|, {})
  {
    var ip :| ip in all;
    var up := OneByOne(target, all, State(0, {}), ip, target - 1);
    var over := AllCheckThenAdd(target, all, State(target - 1, {}), all);
    RunsJoin(target, all, State(0, {}), up, over);
  }

  // ---------------------------------------------------------------- on the task object

  /** Sessions that ask need_vote of the task object and count on it. */
  class CheckingSessions {
    const vote: W.WxVote
    const all: set<string>
    var busy: set<string>

    function Abs(): State
      reads this, vote
    {
      State(vote.successCount, busy)
    }

    constructor (vote: W.WxVote, all: set<string>)
      ensures this.vote == vote && this.all == all && Abs() == State(vote.successCount, {})
    {
      this.vote, this.all, busy := vote, all, {};
    }

    /** The guard of a check is what need_vote answers. */
    method Ask(ip: string) returns (passed: bool)
      requires ip in all && ip !in busy
      modifies this
      ensures passed == old(vote.NeedVote()) == Enabled(vote.targetCount, all, old(Abs()), Check(ip))
      ensures Abs() == if passed then Step(old(Abs()), Check(ip)) else old(Abs())
    {
      passed := vote.NeedVote();
      if passed {
        busy := busy + {ip};
      }
    }

    method Finish(ip: string, succeeded: bool)
      requires ip in busy
      modifies this, vote`successCount
      ensures Abs() == Step(old(Abs()), if succeeded then Add(ip) else GiveUp(ip))
    {
      if succeeded {
        vote.AddSucCount(1);
      }
      busy := busy - {ip};
    }

    /** Lets the sessions run by a schedule; a turn that cannot be made is skipped. */
    method Interleave(schedule: seq<Action>) returns (ghost run: seq<Action>)
      modifies this, vote`successCount
      ensures run == Made(vote.targetCount, all, old(Abs()), schedule) && Abs() == Exec(old(Abs()), run)
      ensures old(busy) <= all && old(vote.successCount + |busy|) <= vote.targetCount - 1 + |all| ==>
        vote.successCount <= vote.targetCount - 1 + |all|
    {
      ghost var s := Abs();
      run := Made(vote.targetCount, all, s, schedule);
      for i := 0 to |schedule|
        invariant Exec(Abs(), Made(vote.targetCount, all, Abs(), schedule[i..])) == Exec(s, run)
      {
        var a := schedule[i];
        MadeNext(vote.targetCount, all, Abs(), schedule, i);
        if a.Check? && a.ip in all && a.ip !in busy {
          var _ := Ask(a.ip);
        } else if !a.Check? && a.ip in busy {
          Finish(a.ip, a.Add?);
        }
      }
      if s.busy <= all && s.success + |s.busy| <= vote.targetCount - 1 + |all| {
        OvershootBound(vote.targetCount, all, s, run);
      }
    }
  }

  // ---------------------------------------------------------------- schedules

  function After(target: int, all: set<string>, s: State, a: Action): State {
    if Enabled(target, all, s, a) then Step(s, a) else s
  }

  /** What is done of a schedule when the turns that cannot be made are skipped. */
  function Made(target: int, all: set<string>, s: State, schedule: seq<Action>): (run: seq<Action>)
    ensures IsRun(target, all, s, run)
    decreases |schedule|
  {
    if schedule == [] then []
    else
      var rest := Made(target, all, After(target, all, s, schedule[0]), schedule[1..]);
      assert ([schedule[0]] + rest)[1..] == rest;
      if Enabled(target, all, s, schedule[0]) then [schedule[0]] + rest else rest
  }

  lemma MadeNext(target: int, all: set<string>, s: State, schedule: seq<Action>, i: nat)
    requires i < |schedule|
    ensures var next := After(target, all, s, schedule[i]);
            Exec(s, Made(target, all, s, schedule[i..])) == Exec(next, Made(target, all, next, schedule[i + 1..]))
  {
    assert schedule[i..][1..] == schedule[i + 1..];
    var rest := Made(target, all, After(target, all, s, schedule[i]), schedule[i + 1..]);
    assert ([schedule[i]] + rest)[1..] == rest;
  }

  /** A schedule that is a run is made as it stands. */
  lemma {:induction false} RunIsMade(target: int, all: set<string>, s: State, run: seq<Action>)
    requires IsRun(target, all, s, run)
    ensures Made(target, all, s, run) == run
    decreases |run|
  {
    if run != [] {
      RunIsMade(target, all, Step(s, run[0]), run[1..]);
    }
  }
}
