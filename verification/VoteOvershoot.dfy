/** What the gate of a vote task lets through when its steps are not atomic. */
module VoteOvershoot {
  import opened Counting
  import opened IdleList
  import opened Accounts
  import opened Devices
  import opened VoteTask
  import opened VoteQuota

  /** Idle accounts a session could still take for the url of the task. */
  function Waiting(task: Task, s: State): nat {
    |Keep(s.idle, CanVote(s.records, task.url))|
  }

  /** What a session does to get from taking an account to the start of a vote. */
  function PassGate(ip: string): seq<Action> {
    [Take(ip), CheckWait(ip)]
  }

  /** What a session does for a successful vote. */
  function CastVote(ip: string): seq<Action> {
    [Begin(ip), Reply(ip, VoteOk)] + [AddSuccess(ip), Release(ip), End(ip)]
  }

  lemma PassingTheGate(task: Task, s: State, ip: string)
    requires ip in s.sessions && s.sessions[ip].Taking?
    requires !NeedWait(task, s) && Waiting(task, s) > 0
    ensures First(s.idle, CanVote(s.records, task.url)) < |s.idle|
    ensures var i := First(s.idle, CanVote(s.records, task.url));
            && IsRun(task, s, PassGate(ip))
            && Exec(task, s, PassGate(ip)) ==
               s.(idle := Without(s.idle, i), sessions := s.sessions[ip := Starting(s.idle[i])])
    ensures Waiting(task, Exec(task, s, PassGate(ip))) == Waiting(task, s) - 1
  {
    var able := CanVote(s.records, task.url);
    var i := First(s.idle, able);
    if i == |s.idle| {
      KeepNone(s.idle, able);
    } else {
      TakeOne(s.idle, able);
      var s1 := AfterTake(task, s, ip);
      TwoSteps(task, s, Take(ip), CheckWait(ip));
      assert s1.sessions[ip := Starting(s.idle[i])] == s.sessions[ip := Starting(s.idle[i])];
    }
  }

  lemma VoteSteps(task: Task, s: State, ip: string)
    requires ip in s.sessions && s.sessions[ip].Starting?
    ensures IsRun(task, s, CastVote(ip))
    ensures var acc := s.sessions[ip].acc;
            Exec(task, s, CastVote(ip)) ==
            State(MarkVoted(s.records, acc, task.url), s.idle + [acc], s.devices[ip := WX_VOTE_END],
                  s.success + 1, s.sessions[ip := Taking], s.lost, s.marks + [acc], s.dailies)
  {
    var s1 := BeginAndMark(task, s, ip);
    ThreeSteps(task, s1, AddSuccess(ip), Release(ip), End(ip));
    RunsJoin(task, s, [Begin(ip), Reply(ip, VoteOk)], [AddSuccess(ip), Release(ip), End(ip)]);
    var e := Exec(task, s, CastVote(ip));
    assert e.sessions == s.sessions[ip := Taking];
    assert e.devices == s.devices[ip := WX_VOTE_END];
  }

  lemma BeginAndMark(task: Task, s: State, ip: string) returns (s1: State)
    requires ip in s.sessions && s.sessions[ip].Starting?
    ensures IsRun(task, s, [Begin(ip), Reply(ip, VoteOk)])
    ensures s1 == Exec(task, s, [Begin(ip), Reply(ip, VoteOk)])
    ensures var acc := s.sessions[ip].acc;
            s1 == State(MarkVoted(s.records, acc, task.url), s.idle, s.devices[ip := WX_VOTING], s.success,
                        s.sessions[ip := Voting(acc)][ip := Marked(acc)], s.lost, s.marks + [acc], s.dailies)
  {
    TwoSteps(task, s, Begin(ip), Reply(ip, VoteOk));
    s1 := Exec(task, s, [Begin(ip), Reply(ip, VoteOk)]);
  }

  /** A vote leaves the accounts still to be taken as they were. */
  lemma CastingAVote(task: Task, before: Records, loaded: set<string>, s: State, ip: string)
    requires Inv(task, before, loaded, s)
    requires ip in s.sessions && s.sessions[ip].Starting? && VotingDevices(s.devices) == 0
    ensures IsRun(task, s, CastVote(ip))
    ensures var e := Exec(task, s, CastVote(ip));
            && Inv(task, before, loaded, e)
            && e.success == s.success + 1
            && e.sessions == s.sessions[ip := Taking]
            && VotingDevices(e.devices) == 0
            && Waiting(task, e) == Waiting(task, s)
  {
    VoteSteps(task, s, ip);
    RunKeepsInv(task, before, loaded, s, CastVote(ip));
    var acc, e := s.sessions[ip].acc, Exec(task, s, CastVote(ip));
    TallyUpdate(s.devices, ip, WX_VOTE_END, Is(WX_VOTING));
    assert Held(s.sessions, acc);
    KeepConcat(s.idle, [acc], CanVote(e.records, task.url));
    SameKeep(s.idle, CanVote(e.records, task.url), CanVote(s.records, task.url));
    assert Keep([acc], CanVote(e.records, task.url)) == [];
  }

  /** A state of the task in which no device is set to voting. */
  ghost predicate Calm(task: Task, before: Records, loaded: set<string>, s: State) {
    Inv(task, before, loaded, s) && VotingDevices(s.devices) == 0
  }

  ghost predicate NoOutsider(run: seq<Action>) {
    forall a :: a in run ==> !a.Other?
  }

  /** The sessions get from one state to another by themselves. */
  ghost predicate Leads(task: Task, s: State, run: seq<Action>, e: State) {
    IsRun(task, s, run) && e == Exec(task, s, run) && NoOutsider(run)
  }

  lemma LeadsJoin(task: Task, s: State, first: seq<Action>, m: State, second: seq<Action>, e: State)
    requires Leads(task, s, first, m) && Leads(task, m, second, e)
    ensures Leads(task, s, first + second, e)
  {
    RunsJoin(task, s, first, second);
  }

  /** Every start of a vote directly follows its own check at the gate. */
  predicate AtomicGate(run: seq<Action>) {
    forall i :: 0 <= i < |run| && run[i].Begin? ==> i > 0 && run[i - 1] == CheckWait(run[i].ip)
  }

  lemma AtomicGatesJoin(first: seq<Action>, second: seq<Action>)
    requires AtomicGate(first) && AtomicGate(second)
    ensures AtomicGate(first + second)
  {
  }

  lemma Restored(sessions: map<string, Phase>, ip: string, p: Phase)
    requires ip in sessions
    ensures sessions[ip := p][ip := sessions[ip]] == sessions
  {
  }

  /** Back to the gate and straight on. */
  lemma MovedTwice(sessions: map<string, Phase>, ip: string, p: Phase, q: Phase)
    ensures sessions[ip := p][ip := q] == sessions[ip := q]
  {
  }

  lemma Pass(task: Task, before: Records, loaded: set<string>, s: State, ip: string)
    returns (run: seq<Action>, e: State, acc: string)
    requires Calm(task, before, loaded, s)
    requires ip in s.sessions && s.sessions[ip].Taking?
    requires s.success != task.target && Waiting(task, s) > 0
    ensures Leads(task, s, run, e) && Calm(task, before, loaded, e)
    ensures e.success == s.success && Waiting(task, e) == Waiting(task, s) - 1
    ensures e.sessions == s.sessions[ip := Starting(acc)] && run == PassGate(ip)
  {
    run := PassGate(ip);
    PassingTheGate(task, s, ip);
    RunKeepsInv(task, before, loaded, s, run);
    e := Exec(task, s, run);
    acc := e.sessions[ip].acc;
  }

  lemma Cast(task: Task, before: Records, loaded: set<string>, s: State, ip: string)
    returns (run: seq<Action>, e: State)
    requires Calm(task, before, loaded, s)
    requires ip in s.sessions && s.sessions[ip].Starting?
    ensures Leads(task, s, run, e) && Calm(task, before, loaded, e)
    ensures e.success == s.success + 1 && Waiting(task, e) == Waiting(task, s)
    ensures e.sessions == s.sessions[ip := Taking] && run == CastVote(ip)
  {
    run := CastVote(ip);
    CastingAVote(task, before, loaded, s, ip);
    e := Exec(task, s, run);
  }

  lemma VoteOnce(task: Task, before: Records, loaded: set<string>, s: State, ip: string)
    returns (run: seq<Action>, e: State)
    requires Calm(task, before, loaded, s)
    requires ip in s.sessions && s.sessions[ip].Taking?
    requires s.success != task.target && Waiting(task, s) > 0
    ensures Leads(task, s, run, e) && Calm(task, before, loaded, e)
    ensures e.success == s.success + 1 && Waiting(task, e) == Waiting(task, s) - 1
    ensures e.sessions == s.sessions && AtomicGate(run)
  {
    var pass, m, acc := Pass(task, before, loaded, s, ip);
    var cast;
    cast, e := Cast(task, before, loaded, m, ip);
    Restored(s.sessions, ip, Starting(acc));
    LeadsJoin(task, s, pass, m, cast, e);
    AtomicStart(ip);
    run := pass + cast;
  }

  /** The gate stays open for `k` votes in a row of one session. */
  predicate StaysOpen(task: Task, success: int, k: nat) {
    success > task.target || success + k <= task.target
  }

  lemma {:induction false} VoteInARow(task: Task, before: Records, loaded: set<string>, s: State, ip: string, k: nat)
    returns (run: seq<Action>, e: State)
    requires Calm(task, before, loaded, s)
    requires ip in s.sessions && s.sessions[ip].Taking?
    requires k <= Waiting(task, s) && StaysOpen(task, s.success, k)
    ensures Leads(task, s, run, e) && Calm(task, before, loaded, e)
    ensures e.success == s.success + k && Waiting(task, e) == Waiting(task, s) - k
    ensures e.sessions == s.sessions && AtomicGate(run)
    decreases k
  {
    if k == 0 {
      run, e := [], s;
    } else {
      var once, m := VoteOnce(task, before, loaded, s, ip);
      var rest;
      rest, e := VoteInARow(task, before, loaded, m, ip, k - 1);
      LeadsJoin(task, s, once, m, rest, e);
      AtomicGatesJoin(once, rest);
      run := once + rest;
    }
  }

  /** Two sessions pass the gate before either is set to voting, and both vote. */
  lemma PassTogether(task: Task, before: Records, loaded: set<string>, s: State, t: string, u: string)
    returns (run: seq<Action>, e: State)
    requires Calm(task, before, loaded, s)
    requires t in s.sessions && u in s.sessions && t != u && s.sessions[t].Taking? && s.sessions[u].Taking?
    requires s.success == task.target - 1 && Waiting(task, s) >= 2
    ensures Leads(task, s, run, e) && Calm(task, before, loaded, e)
    ensures e.success == task.target + 1 && Waiting(task, e) == Waiting(task, s) - 2
    ensures e.sessions == s.sessions
  {
    var pass, s1, acc := Pass(task, before, loaded, s, t);
    var vote, s2 := VoteOnce(task, before, loaded, s1, u);
    var cast;
    cast, e := Cast(task, before, loaded, s2, t);
    Restored(s.sessions, t, Starting(acc));
    LeadsJoin(task, s1, vote, s2, cast, e);
    LeadsJoin(task, s, pass, s1, vote + cast, e);
    run := pass + (vote + cast);
  }

  lemma VoteOfEveryAccount(task: Task, s: State, t: string, u: string) returns (run: seq<Action>, e: State)
    requires Initial(s) && VotingDevices(s.devices) == 0 && task.target >= 1
    requires t in s.sessions && u in s.sessions && t != u && s.sessions[t].Taking? && s.sessions[u].Taking?
    requires Waiting(task, s) > task.target
    ensures Leads(task, s, run, e) && e.success == Waiting(task, s)
  {
    InitialInv(task, s);
    var before, loaded := s.records, Members(s.idle);
    var up, s1 := VoteInARow(task, before, loaded, s, t, task.target - 1);
    var over, s2 := PassTogether(task, before, loaded, s1, t, u);
    var rest;
    rest, e := VoteInARow(task, before, loaded, s2, t, Waiting(task, s2));
    LeadsJoin(task, s1, over, s2, rest, e);
    LeadsJoin(task, s, up, s1, over + rest, e);
    run := up + (over + rest);
  }

  /**
   The target is no bound for two or more sessions: whenever more accounts than the target
   are available, some interleaving of two sessions makes every one of them vote.
   */
  lemma OvershootReachesEveryAccount(task: Task, s: State, t: string, u: string)
    requires Initial(s) && VotingDevices(s.devices) == 0 && task.target >= 1
    requires t in s.sessions && u in s.sessions && t != u && s.sessions[t].Taking? && s.sessions[u].Taking?
    requires Waiting(task, s) > task.target
    ensures exists run :: IsRun(task, s, run) && NoOutsider(run) && Exec(task, s, run).success == Waiting(task, s)
  {
    var run, e := VoteOfEveryAccount(task, s, t, u);
    assert Leads(task, s, run, e);
  }

  /** A negative target is already exceeded at the start, so one session is enough. */
  lemma NegativeTargetIsNoLimit(task: Task, s: State, t: string)
    requires Initial(s) && VotingDevices(s.devices) == 0 && task.target < 0
    requires t in s.sessions && s.sessions[t].Taking?
    ensures exists run :: IsRun(task, s, run) && NoOutsider(run) && Exec(task, s, run).success == Waiting(task, s)
  {
    InitialInv(task, s);
    var run, e := VoteInARow(task, s.records, Members(s.idle), s, t, Waiting(task, s));
    assert Leads(task, s, run, e);
  }

  // ---------------------------------------------------------------- an atomic gate alone

  lemma TakeFor(task: Task, before: Records, loaded: set<string>, s: State, ip: string)
    returns (run: seq<Action>, e: State, acc: string)
    requires Calm(task, before, loaded, s)
    requires ip in s.sessions && s.sessions[ip].Taking? && Waiting(task, s) > 0
    ensures Leads(task, s, run, e) && Calm(task, before, loaded, e) && AtomicGate(run)
    ensures e.success == s.success && Waiting(task, e) == Waiting(task, s) - 1
    ensures e.sessions == s.sessions[ip := Gate(acc)]
  {
    var able := CanVote(s.records, task.url);
    var i := First(s.idle, able);
    if i == |s.idle| {
      KeepNone(s.idle, able);
    } else {
      TakeOne(s.idle, able);
      acc := s.idle[i];
    }
    run := [Take(ip)];
    OneStep(task, s, Take(ip));
    RunKeepsInv(task, before, loaded, s, run);
    e := Exec(task, s, run);
  }

  lemma Mark(task: Task, before: Records, loaded: set<string>, s: State, ip: string)
    returns (run: seq<Action>, e: State, acc: string)
    requires Calm(task, before, loaded, s)
    requires ip in s.sessions && s.sessions[ip].Starting?
    ensures Leads(task, s, run, e) && run == [Begin(ip), Reply(ip, VoteOk)]
    ensures e.success == s.success && e.sessions == s.sessions[ip := Marked(acc)]
    ensures VotingDevices(e.devices) == 1 && IsVotingDevice(e.devices, ip)
  {
    acc := s.sessions[ip].acc;
    run := [Begin(ip), Reply(ip, VoteOk)];
    e := BeginAndMark(task, s, ip);
    MovedTwice(s.sessions, ip, Voting(acc), Marked(acc));
    TallyZero(s.devices, Is(WX_VOTING));
    TallyUpdate(s.devices, ip, WX_VOTING, Is(WX_VOTING));
  }

  lemma AtomicStart(ip: string)
    ensures AtomicGate(PassGate(ip) + [Begin(ip), Reply(ip, VoteOk)])
    ensures AtomicGate(PassGate(ip) + CastVote(ip))
  {
    assert PassGate(ip) + [Begin(ip), Reply(ip, VoteOk)] == [Take(ip), CheckWait(ip), Begin(ip), Reply(ip, VoteOk)];
    AtomicGatesJoin(PassGate(ip) + [Begin(ip), Reply(ip, VoteOk)], [AddSuccess(ip), Release(ip), End(ip)]);
    assert PassGate(ip) + CastVote(ip) ==
           PassGate(ip) + [Begin(ip), Reply(ip, VoteOk)] + [AddSuccess(ip), Release(ip), End(ip)];
  }

  /** One session passes the gate and its vote is recorded. */
  lemma PassAndMark(task: Task, before: Records, loaded: set<string>, s: State, ip: string)
    returns (run: seq<Action>, e: State, acc: string)
    requires Calm(task, before, loaded, s)
    requires ip in s.sessions && s.sessions[ip].Taking?
    requires s.success != task.target && Waiting(task, s) > 0
    ensures Leads(task, s, run, e) && AtomicGate(run)
    ensures e.success == s.success && e.sessions == s.sessions[ip := Marked(acc)]
    ensures VotingDevices(e.devices) == 1 && IsVotingDevice(e.devices, ip)
  {
    var pass, m;
    pass, m, acc := Pass(task, before, loaded, s, ip);
    var mark, acc';
    mark, e, acc' := Mark(task, before, loaded, m, ip);
    MovedTwice(s.sessions, ip, Starting(acc), Marked(acc'));
    LeadsJoin(task, s, pass, m, mark, e);
    AtomicStart(ip);
    run, acc := pass + mark, acc';
  }

  /** One vote is recorded but not counted, another session is at the gate, and no place is left. */
  ghost predicate FullQuota(task: Task, s: State, t: string, u: string) {
    && Quota(task, s) && s.success == task.target - 1 && VotingDevices(s.devices) == 1
    && t in s.sessions && u in s.sessions && s.sessions[t].Marked? && s.sessions[u].Gate?
    && !IsVotingDevice(s.devices, u)
  }

  lemma OnlyVotingDevice(devices: Statuses, t: string, u: string)
    requires VotingDevices(devices) == 1 && IsVotingDevice(devices, t) && t != u
    ensures !IsVotingDevice(devices, u)
  {
    var voting := Where(devices, Is(WX_VOTING));
    assert {t} <= voting;
    SubsetSize({t}, voting);
    assert u !in voting;
  }

  lemma QuotaIsFull(task: Task, sessions: map<string, Phase>, e: State, t: string, u: string, acc: string, acc': string)
    requires forall ip :: ip in sessions ==> sessions[ip].Taking? || sessions[ip].DailyTaking?
    requires t in sessions && u in sessions && t != u
    requires e.sessions == sessions[u := Gate(acc)][t := Marked(acc')]
    requires e.success == task.target - 1 && VotingDevices(e.devices) == 1 && IsVotingDevice(e.devices, t)
    ensures FullQuota(task, e, t, u)
  {
    OnlyVotingDevice(e.devices, t, u);
  }

  lemma FillQuota(task: Task, before: Records, loaded: set<string>, s: State, t: string, u: string)
    returns (run: seq<Action>, e: State)
    requires Calm(task, before, loaded, s) && s.success == task.target - 1 && Waiting(task, s) >= 2
    requires forall ip :: ip in s.sessions ==> s.sessions[ip].Taking? || s.sessions[ip].DailyTaking?
    requires t in s.sessions && u in s.sessions && t != u && s.sessions[t].Taking? && s.sessions[u].Taking?
    ensures Leads(task, s, run, e) && AtomicGate(run) && FullQuota(task, e, t, u)
  {
    var take, m, acc := TakeFor(task, before, loaded, s, u);
    var mark, acc';
    mark, e, acc' := PassAndMark(task, before, loaded, m, t);
    LeadsJoin(task, s, take, m, mark, e);
    AtomicGatesJoin(take, mark);
    run := take + mark;
    QuotaIsFull(task, s.sessions, e, t, u, acc, acc');
  }

  /** A full quota is reached from every fresh start with two vote sessions and accounts to spare. */
  lemma FullQuotaIsReachable(task: Task, s: State, t: string, u: string) returns (run: seq<Action>, e: State)
    requires Initial(s) && VotingDevices(s.devices) == 0 && task.target >= 1
    requires t in s.sessions && u in s.sessions && t != u && s.sessions[t].Taking? && s.sessions[u].Taking?
    requires Waiting(task, s) > task.target
    ensures Leads(task, s, run, e) && AtomicGate(run) && FullQuota(task, e, t, u)
  {
    InitialInv(task, s);
    var before, loaded := s.records, Members(s.idle);
    var up, m := VoteInARow(task, before, loaded, s, t, task.target - 1);
    var fill;
    fill, e := FillQuota(task, before, loaded, m, t, u);
    LeadsJoin(task, s, up, m, fill, e);
    AtomicGatesJoin(up, fill);
    run := up + fill;
  }

  lemma AnswerAndCount(task: Task, s: State, ip: string) returns (run: seq<Action>, e: State)
    requires ip in s.sessions && s.sessions[ip].Voting?
    ensures Leads(task, s, run, e) && AtomicGate(run) && e.success == s.success + 1
  {
    run := [Reply(ip, VoteOk), AddSuccess(ip)];
    TwoSteps(task, s, Reply(ip, VoteOk), AddSuccess(ip));
    e := Exec(task, s, run);
  }

  /**
   Making the gate and the start of a vote one step does not keep the target: two sessions
   and accounts to spare are enough to exceed it, from every fresh start.
   */
  lemma AtomicGateAloneOvershoots(task: Task, s: State, t: string, u: string)
    requires Initial(s) && VotingDevices(s.devices) == 0 && task.target >= 1
    requires t in s.sessions && u in s.sessions && t != u && s.sessions[t].Taking? && s.sessions[u].Taking?
    requires Waiting(task, s) > task.target
    ensures exists run :: IsRun(task, s, run) && NoOutsider(run) && AtomicGate(run)
                       && Exec(task, s, run).success == task.target + 1
  {
    var fill, m := FullQuotaIsReachable(task, s, t, u);
    var over := OverlappingFinish(t, u);
    FinishMustBeAtomic(task, m, t, u);
    var n := Exec(task, m, over);
    var count, e := AnswerAndCount(task, n, u);
    LeadsJoin(task, m, over, n, count, e);
    LeadsJoin(task, s, fill, m, over + count, e);
    AtomicGatesJoin(over, count);
    AtomicGatesJoin(fill, over + count);
    assert Leads(task, s, fill + (over + count), e);
  }
}
