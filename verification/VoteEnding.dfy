/** When the sessions of a vote task can all return, and when they wait forever. */
module VoteEnding {
  import opened Counting
  import opened IdleList
  import opened Accounts
  import opened Devices
  import opened VoteTask
  import opened VoteQuota
  import opened VoteOvershoot

  /** A session that has set its device to voting and not yet to vote end. */
  predicate OnTheWay(p: Phase) {
    p.Voting? || p.Marked? || p.Releasing? || p.Ending?
  }

  ghost predicate IsStale(s: State, ip: string) {
    IsVotingDevice(s.devices, ip) && !(ip in s.sessions && OnTheWay(s.sessions[ip]))
  }

  /** Devices in the voting status that no session is voting on. */
  ghost function StaleDevices(s: State): set<string> {
    set ip | ip in s.devices && IsStale(s, ip)
  }

  ghost predicate NoStale(s: State) {
    forall ip :: ip in s.devices ==> !IsStale(s, ip)
  }

  predicate IsQuiet(a: Action) {
    !a.SendFails? && !a.Other?
  }

  /** No failed send and no status change from outside. */
  ghost predicate Quiet(run: seq<Action>) {
    forall a :: a in run ==> IsQuiet(a)
  }

  /** A quiet step that keeps its device voting keeps its session on the way. */
  lemma QuietStepStaysOnTheWay(task: Task, s: State, a: Action)
    requires Enabled(s, a) && IsQuiet(a)
    ensures var s' := Step(task, s, a);
            a.ip in s'.devices && s'.devices[a.ip] == WX_VOTING ==>
              OnTheWay(s'.sessions[a.ip]) || (IsVotingDevice(s.devices, a.ip) && !OnTheWay(s.sessions[a.ip]))
  {
  }

  lemma StepKeepsNoStale(task: Task, s: State, a: Action)
    requires NoStale(s) && Enabled(s, a) && IsQuiet(a)
    ensures NoStale(Step(task, s, a))
  {
    var s' := Step(task, s, a);
    SessionOfStep(task, s, a);
    StatusOfStep(task, s, a);
    QuietStepStaysOnTheWay(task, s, a);
    forall ip | ip in s'.devices
      ensures !IsStale(s', ip)
    {
      assert ip != a.ip && ip in s.devices ==> !IsStale(s, ip);
    }
  }

  lemma {:induction false} RunKeepsNoStale(task: Task, s: State, run: seq<Action>)
    requires NoStale(s) && IsRun(task, s, run) && Quiet(run)
    ensures NoStale(Exec(task, s, run))
    decreases |run|
  {
    if run != [] {
      assert run[0] in run;
      StepKeepsNoStale(task, s, run[0]);
      RunKeepsNoStale(task, Step(task, s, run[0]), run[1..]);
    }
  }

  // ---------------------------------------------------------------- waiting forever

  /** Every session has returned or is held at the gate, and not all have returned. */
  ghost predicate AllAtGate(s: State) {
    && (forall ip :: ip in s.sessions ==>
          s.sessions[ip].Gate? || s.sessions[ip].Recheck? || s.sessions[ip].Done?)
    && exists ip :: ip in s.sessions && !s.sessions[ip].Done?
  }

  /** Nobody is voting, yet the gate counts enough voting devices to hold everybody back. */
  ghost predicate Stalled(task: Task, s: State) {
    AllAtGate(s) && NeedWait(task, s) && NeedVote(task, s)
  }

  /** Sessions held at the gate are stalled exactly when stale devices make up what is missing. */
  lemma StalledIffStaleDevices(task: Task, s: State)
    requires AllAtGate(s)
    ensures Stalled(task, s) <==> |StaleDevices(s)| == task.target - s.success > 0
  {
    forall ip
      ensures ip in StaleDevices(s) <==> ip in Where(s.devices, Is(WX_VOTING))
    {
    }
    assert StaleDevices(s) == Where(s.devices, Is(WX_VOTING));
  }

  /** Without a failed send or outside change nothing ever stalls. */
  lemma QuietRunsNeverStall(task: Task, s: State, run: seq<Action>)
    requires VotingDevices(s.devices) == 0 && IsRun(task, s, run) && Quiet(run)
    ensures !Stalled(task, Exec(task, s, run))
  {
    TallyZero(s.devices, Is(WX_VOTING));
    RunKeepsNoStale(task, s, run);
    var e := Exec(task, s, run);
    assert StaleDevices(e) == {};
    if AllAtGate(e) {
      StalledIffStaleDevices(task, e);
    }
  }

  lemma StepKeepsStalled(task: Task, s: State, a: Action)
    requires Stalled(task, s) && Enabled(s, a) && !a.Other?
    ensures Stalled(task, Step(task, s, a))
  {
    var s' := Step(task, s, a);
    assert a.CheckWait? || a.CheckNeed?;
    assert a.ip in s'.sessions && !s'.sessions[a.ip].Done?;
  }

  /** A stalled task never ends: joining its sessions waits forever. */
  lemma {:induction false} StalledForever(task: Task, s: State, run: seq<Action>)
    requires Stalled(task, s) && IsRun(task, s, run) && NoOutsider(run)
    ensures Stalled(task, Exec(task, s, run)) && !AllDone(Exec(task, s, run))
    decreases |run|
  {
    if run != [] {
      assert run[0] in run;
      StepKeepsStalled(task, s, run[0]);
      StalledForever(task, Step(task, s, run[0]), run[1..]);
    }
  }

  /**
   A failed send leaves the device set to voting; if that device was the last one missing
   to the target and no other session is left, the session then waits for itself.
   */
  lemma FailedSendCanStall(task: Task, s: State, ip: string)
    requires ip in s.sessions && s.sessions[ip].Voting?
    requires forall t :: t in s.sessions && t != ip ==> s.sessions[t].Done?
    requires NeedWait(task, s) && NeedVote(task, s) && Waiting(task, s) > 0
    ensures var run := [SendFails(ip), Take(ip), CheckWait(ip)];
            IsRun(task, s, run) && Stalled(task, Exec(task, s, run))
  {
    var able := CanVote(s.records, task.url);
    if First(s.idle, able) == |s.idle| {
      KeepNone(s.idle, able);
    }
    ThreeSteps(task, s, SendFails(ip), Take(ip), CheckWait(ip));
    assert ip in Exec(task, s, [SendFails(ip), Take(ip), CheckWait(ip)]).sessions;
  }

  /** The start of the last vote a lone session needs. */
  lemma BeginLastVote(task: Task, s: State, ip: string)
    returns (run: seq<Action>, e: State)
    requires ip in s.sessions && s.sessions[ip].Starting? && VotingDevices(s.devices) == 0
    requires s.success == task.target - 1
    requires forall t :: t in s.sessions && t != ip ==> s.sessions[t].Done?
    ensures Leads(task, s, run, e)
    ensures ip in e.sessions && e.sessions[ip].Voting? && NeedWait(task, e) && NeedVote(task, e)
    ensures forall t :: t in e.sessions && t != ip ==> e.sessions[t].Done?
    ensures Waiting(task, e) == Waiting(task, s)
  {
    run := [Begin(ip)];
    OneStep(task, s, Begin(ip));
    e := Step(task, s, Begin(ip));
    TallyUpdate(s.devices, ip, WX_VOTING, Is(WX_VOTING));
    TallyZero(s.devices, Is(WX_VOTING));
  }

  lemma FailLastSend(task: Task, s: State, ip: string) returns (run: seq<Action>, e: State)
    requires ip in s.sessions && s.sessions[ip].Voting?
    requires forall t :: t in s.sessions && t != ip ==> s.sessions[t].Done?
    requires NeedWait(task, s) && NeedVote(task, s) && Waiting(task, s) > 0
    ensures Leads(task, s, run, e) && Stalled(task, e)
  {
    run := [SendFails(ip), Take(ip), CheckWait(ip)];
    FailedSendCanStall(task, s, ip);
    e := Exec(task, s, run);
  }

  lemma RunToStall(task: Task, s: State, ip: string) returns (run: seq<Action>, stalled: State)
    requires Initial(s) && VotingDevices(s.devices) == 0 && task.target >= 1
    requires s.sessions.Keys == {ip} && s.sessions[ip].Taking?
    requires Waiting(task, s) > task.target
    ensures Leads(task, s, run, stalled) && Stalled(task, stalled)
  {
    InitialInv(task, s);
    var before, loaded := s.records, Members(s.idle);
    var up, s1 := VoteInARow(task, before, loaded, s, ip, task.target - 1);
    var pass, s2, acc := Pass(task, before, loaded, s1, ip);
    var begin, s3 := BeginLastVote(task, s2, ip);
    var fail, e := FailLastSend(task, s3, ip);
    LeadsJoin(task, s2, begin, s3, fail, e);
    LeadsJoin(task, s1, pass, s2, begin + fail, e);
    LeadsJoin(task, s, up, s1, pass + (begin + fail), e);
    run := up + (pass + (begin + fail));
    stalled := e;
  }

  /** Every task with one session, a positive target and accounts to spare can stall. */
  lemma StallIsReachable(task: Task, s: State, ip: string)
    requires Initial(s) && VotingDevices(s.devices) == 0 && task.target >= 1
    requires s.sessions.Keys == {ip} && s.sessions[ip].Taking?
    requires Waiting(task, s) > task.target
    ensures exists run :: IsRun(task, s, run) && Stalled(task, Exec(task, s, run))
  {
    var run, e := RunToStall(task, s, ip);
    assert Leads(task, s, run, e);
  }

  // ---------------------------------------------------------------- finishing

  ghost predicate AllDone(s: State) {
    forall ip :: ip in s.sessions ==> s.sessions[ip].Done?
  }

  /** How much work is left in a phase if every answer fails to come. */
  function Rank(p: Phase): nat {
    match p
    case Done => 0
    case Leaving => 1
    case Taking => 2
    case DailyTaking => 2
    case DailyHolding(_) => 3
    case Ending => 3
    case Voting(_) => 4
    case Starting(_) => 5
    case Gate(_) => 6
    case Recheck(_) => 6
    case Releasing(_) => 14
    case Marked(_) => 15
  }

  ghost function Remaining(s: State): nat {
    10 * |s.idle| + Weight(s.sessions, Rank)
  }

  predicate AtGate(p: Phase) {
    p.Gate? || p.Recheck?
  }

  /** The next step of a session that needs nobody else. */
  function NextStep(ip: string, p: Phase): Action
    requires !p.Done? && !AtGate(p)
  {
    match p
    case Taking => Take(ip)
    case Starting(_) => Begin(ip)
    case Voting(_) => Reply(ip, NoAnswer)
    case Marked(_) => AddSuccess(ip)
    case Releasing(_) => Release(ip)
    case Ending => End(ip)
    case Leaving => Leave(ip)
    case DailyTaking => DailyTake(ip)
    case DailyHolding(_) => DailyLose(ip)
  }

  /** A step lowers the rank of its session and the ten of every idle account together. */
  ghost predicate LowersRank(task: Task, s: State, a: Action)
    requires Enabled(s, a) && a.ip in s.sessions
  {
    var s' := Step(task, s, a);
    a.ip in s'.sessions && 10 * |s'.idle| + Rank(s'.sessions[a.ip]) < 10 * |s.idle| + Rank(s.sessions[a.ip])
  }

  lemma TakeLowersRank(task: Task, s: State, ip: string)
    requires ip in s.sessions && (s.sessions[ip].Taking? || s.sessions[ip].DailyTaking?)
    ensures Enabled(s, NextStep(ip, s.sessions[ip])) && LowersRank(task, s, NextStep(ip, s.sessions[ip]))
  {
  }

  lemma NextStepLowersRank(task: Task, s: State, ip: string)
    requires ip in s.sessions && !s.sessions[ip].Done? && !AtGate(s.sessions[ip])
    requires !s.sessions[ip].Taking? && !s.sessions[ip].DailyTaking?
    ensures Enabled(s, NextStep(ip, s.sessions[ip])) && LowersRank(task, s, NextStep(ip, s.sessions[ip]))
  {
  }

  lemma NextStepSpends(task: Task, s: State, ip: string)
    requires ip in s.sessions && !s.sessions[ip].Done? && !AtGate(s.sessions[ip])
    ensures var a := NextStep(ip, s.sessions[ip]);
            Enabled(s, a) && IsQuiet(a) && Remaining(Step(task, s, a)) < Remaining(s)
  {
    if s.sessions[ip].Taking? || s.sessions[ip].DailyTaking? {
      TakeLowersRank(task, s, ip);
    } else {
      NextStepLowersRank(task, s, ip);
    }
    var s' := Step(task, s, NextStep(ip, s.sessions[ip]));
    SessionOfStep(task, s, NextStep(ip, s.sessions[ip]));
    WeightUpdate(s.sessions, Rank, ip, s'.sessions[ip]);
  }

  /** With nobody voting, the gate lets a session through or sends it away. */
  lemma GateSpends(task: Task, s: State, ip: string) returns (run: seq<Action>)
    requires ip in s.sessions && s.sessions[ip].Gate? && VotingDevices(s.devices) == 0
    ensures IsRun(task, s, run) && Quiet(run) && Remaining(Exec(task, s, run)) < Remaining(s)
  {
    var acc := s.sessions[ip].acc;
    if NeedWait(task, s) {
      run := [CheckWait(ip), CheckNeed(ip)];
      TwoSteps(task, s, CheckWait(ip), CheckNeed(ip));
      MovedTwice(s.sessions, ip, Recheck(acc), Leaving);
      WeightUpdate(s.sessions, Rank, ip, Leaving);
    } else {
      run := [CheckWait(ip)];
      OneStep(task, s, CheckWait(ip));
      WeightUpdate(s.sessions, Rank, ip, Starting(acc));
    }
  }

  lemma RecheckSpends(task: Task, s: State, ip: string) returns (run: seq<Action>)
    requires ip in s.sessions && s.sessions[ip].Recheck? && VotingDevices(s.devices) == 0
    ensures IsRun(task, s, run) && Quiet(run) && Remaining(Exec(task, s, run)) < Remaining(s)
  {
    var acc := s.sessions[ip].acc;
    if NeedVote(task, s) {
      run := [CheckNeed(ip), CheckWait(ip)];
      TwoSteps(task, s, CheckNeed(ip), CheckWait(ip));
      MovedTwice(s.sessions, ip, Gate(acc), Starting(acc));
      WeightUpdate(s.sessions, Rank, ip, Starting(acc));
    } else {
      run := [CheckNeed(ip)];
      OneStep(task, s, CheckNeed(ip));
      WeightUpdate(s.sessions, Rank, ip, Leaving);
    }
  }

  lemma NobodyVoting(s: State)
    requires NoStale(s)
    requires forall ip :: ip in s.sessions ==> s.sessions[ip].Done? || AtGate(s.sessions[ip])
    ensures VotingDevices(s.devices) == 0
  {
    forall ip | ip in s.devices
      ensures !Is(WX_VOTING)(s.devices[ip])
    {
      assert !IsStale(s, ip);
    }
    TallyZero(s.devices, Is(WX_VOTING));
  }

  /** An unfinished task without stale devices can make progress. */
  lemma Progress(task: Task, s: State) returns (run: seq<Action>)
    requires NoStale(s) && !AllDone(s)
    ensures IsRun(task, s, run) && Quiet(run) && Remaining(Exec(task, s, run)) < Remaining(s)
  {
    if ip :| ip in s.sessions && !s.sessions[ip].Done? && !AtGate(s.sessions[ip]) {
      var a := NextStep(ip, s.sessions[ip]);
      NextStepSpends(task, s, ip);
      OneStep(task, s, a);
      run := [a];
    } else {
      NobodyVoting(s);
      var ip :| ip in s.sessions && !s.sessions[ip].Done?;
      if s.sessions[ip].Gate? {
        run := GateSpends(task, s, ip);
      } else {
        run := RecheckSpends(task, s, ip);
      }
    }
  }

  lemma {:induction false} Finish(task: Task, s: State) returns (run: seq<Action>, e: State)
    requires NoStale(s)
    ensures Leads(task, s, run, e) && Quiet(run) && AllDone(e)
    decreases Remaining(s)
  {
    if AllDone(s) {
      run, e := [], s;
    } else {
      var first := Progress(task, s);
      var m := Exec(task, s, first);
      RunKeepsNoStale(task, s, first);
      var rest;
      rest, e := Finish(task, m);
      LeadsJoin(task, s, first, m, rest, e);
      run := first + rest;
    }
  }

  /**
   Whatever the sessions have done, as long as no send failed and no status was changed from
   outside, they can go on so that all of them return and the join ends.
   */
  lemma QuietTaskCanAlwaysFinish(task: Task, s: State, run: seq<Action>)
    requires VotingDevices(s.devices) == 0 && IsRun(task, s, run) && Quiet(run)
    ensures exists rest :: IsRun(task, Exec(task, s, run), rest) && Quiet(rest)
                        && AllDone(Exec(task, Exec(task, s, run), rest))
  {
    TallyZero(s.devices, Is(WX_VOTING));
    RunKeepsNoStale(task, s, run);
    var rest, e := Finish(task, Exec(task, s, run));
    assert Leads(task, Exec(task, s, run), rest, e);
  }
}
