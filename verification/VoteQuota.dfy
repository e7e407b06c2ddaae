/** How far the success count of a vote task can go beyond its target. */
module VoteQuota {
  import opened Counting
  import opened Devices
  import opened VoteTask

  // ---------------------------------------------------------------- joining runs

  lemma {:induction false} RunsJoin(task: Task, s: State, first: seq<Action>, second: seq<Action>)
    requires IsRun(task, s, first) && IsRun(task, Exec(task, s, first), second)
    ensures IsRun(task, s, first + second)
    ensures Exec(task, s, first + second) == Exec(task, Exec(task, s, first), second)
    decreases |first|
  {
    if first == [] {
      assert first + second == second;
    } else {
      RunsJoin(task, Step(task, s, first[0]), first[1..], second);
      assert (first + second)[1..] == first[1..] + second;
    }
  }

  lemma OneStep(task: Task, s: State, a: Action)
    requires Enabled(s, a)
    ensures IsRun(task, s, [a]) && Exec(task, s, [a]) == Step(task, s, a)
  {
    assert [a][1..] == [];
    assert IsRun(task, Step(task, s, a), []);
  }

  lemma TwoSteps(task: Task, s: State, a: Action, b: Action)
    requires Enabled(s, a) && Enabled(Step(task, s, a), b)
    ensures IsRun(task, s, [a, b]) && Exec(task, s, [a, b]) == Step(task, Step(task, s, a), b)
  {
    OneStep(task, s, a);
    OneStep(task, Step(task, s, a), b);
    RunsJoin(task, s, [a], [b]);
    assert [a] + [b] == [a, b];
  }

  lemma ThreeSteps(task: Task, s: State, a: Action, b: Action, c: Action)
    requires Enabled(s, a) && Enabled(Step(task, s, a), b)
    requires Enabled(Step(task, Step(task, s, a), b), c)
    ensures IsRun(task, s, [a, b, c])
    ensures Exec(task, s, [a, b, c]) == Step(task, Step(task, Step(task, s, a), b), c)
  {
    OneStep(task, s, a);
    TwoSteps(task, Step(task, s, a), b, c);
    RunsJoin(task, s, [a], [b, c]);
    assert [a] + [b, c] == [a, b, c];
  }

  // ---------------------------------------------------------------- atomic gate and finish

  /** Steps of one session with no other session in between. */
  datatype Block =
    | Single(action: Action)
    | GateAndBegin(ip: string)    // let through and set to voting
    | CountAndEnd(ip: string)     // count the success, put the account back, set to vote end

  function Unfold(b: Block): seq<Action> {
    match b
    case Single(a) => [a]
    case GateAndBegin(ip) => [CheckWait(ip), Begin(ip)]
    case CountAndEnd(ip) => [AddSuccess(ip), Release(ip), End(ip)]
  }

  predicate IsVotingDevice(devices: Statuses, ip: string) {
    ip in devices && devices[ip] == WX_VOTING
  }

  /** A start and a finish only happen as whole blocks, and outsiders leave voting devices alone. */
  ghost predicate Atomic(task: Task, s: State, b: Block) {
    match b
    case Single(a) =>
      && Enabled(s, a)
      && !a.Begin? && !a.AddSuccess?
      && (a.CheckWait? ==> NeedWait(task, s))
      && (a.Other? ==> a.status != WX_VOTING && !IsVotingDevice(s.devices, a.ip))
    case GateAndBegin(ip) => Enabled(s, CheckWait(ip)) && !NeedWait(task, s)
    case CountAndEnd(ip) => Enabled(s, AddSuccess(ip))
  }

  ghost predicate Quota(task: Task, s: State) {
    && s.success + VotingDevices(s.devices) <= task.target
    && forall ip :: ip in s.sessions ==>
         && !s.sessions[ip].Starting?
         && (s.sessions[ip].Voting? || s.sessions[ip].Marked? ==> IsVotingDevice(s.devices, ip))
  }

  lemma GateKeepsQuota(task: Task, s: State, ip: string)
    requires Quota(task, s) && Atomic(task, s, GateAndBegin(ip))
    ensures var run := Unfold(GateAndBegin(ip)); IsRun(task, s, run) && Quota(task, Exec(task, s, run))
  {
    TwoSteps(task, s, CheckWait(ip), Begin(ip));
    TallyUpdate(s.devices, ip, WX_VOTING, Is(WX_VOTING));
  }

  lemma FinishKeepsQuota(task: Task, s: State, ip: string)
    requires Quota(task, s) && Atomic(task, s, CountAndEnd(ip))
    ensures var run := Unfold(CountAndEnd(ip)); IsRun(task, s, run) && Quota(task, Exec(task, s, run))
  {
    ThreeSteps(task, s, AddSuccess(ip), Release(ip), End(ip));
    TallyUpdate(s.devices, ip, WX_VOTE_END, Is(WX_VOTING));
  }

  lemma SingleKeepsQuota(task: Task, s: State, a: Action)
    requires Quota(task, s) && Atomic(task, s, Single(a))
    ensures IsRun(task, s, [a]) && Quota(task, Exec(task, s, [a]))
  {
    OneStep(task, s, a);
    StatusOfStep(task, s, a);
    SessionOfStep(task, s, a);
    SuccessOfStep(task, s, a);
    if !a.Other? {
      StartingOfStep(task, s, a);
      InFlightOfStep(task, s, a);
    }
    if Step(task, s, a).devices != s.devices {
      TallyUpdate(s.devices, a.ip, Step(task, s, a).devices[a.ip], Is(WX_VOTING));
    }
  }

  predicate InFlight(p: Phase) {
    p.Voting? || p.Marked?
  }

  /** A step changes no session but its own. */
  lemma SessionOfStep(task: Task, s: State, a: Action)
    requires Enabled(s, a)
    ensures var s' := Step(task, s, a);
            if a.Other? then s'.sessions == s.sessions
            else a.ip in s'.sessions && s'.sessions == s.sessions[a.ip := s'.sessions[a.ip]]
  {
  }

  /** Only the gate lets a session start. */
  lemma StartingOfStep(task: Task, s: State, a: Action)
    requires Enabled(s, a) && !a.Other?
    ensures Step(task, s, a).sessions[a.ip].Starting? <==> a.CheckWait? && !NeedWait(task, s)
  {
  }

  /** Only Begin and a recorded vote leave a session in flight. */
  lemma InFlightOfStep(task: Task, s: State, a: Action)
    requires Enabled(s, a) && !a.Other?
    ensures InFlight(Step(task, s, a).sessions[a.ip]) <==> a.Begin? || a == Reply(a.ip, VoteOk)
  {
  }

  lemma SuccessOfStep(task: Task, s: State, a: Action)
    requires Enabled(s, a)
    ensures Step(task, s, a).success == s.success + Bit(a.AddSuccess?)
  {
  }

  /** A step touches at most the device it is named after. */
  lemma StatusOfStep(task: Task, s: State, a: Action)
    requires Enabled(s, a)
    ensures var s' := Step(task, s, a);
            s'.devices == s.devices ||
            (a.ip in s'.devices && s'.devices == s.devices[a.ip := s'.devices[a.ip]] &&
             (s'.devices[a.ip] == WX_VOTING ==> a.Begin? || a == Other(a.ip, WX_VOTING)))
  {
  }

  lemma BlockKeepsQuota(task: Task, s: State, b: Block)
    requires Quota(task, s) && Atomic(task, s, b)
    ensures IsRun(task, s, Unfold(b)) && Quota(task, Exec(task, s, Unfold(b)))
  {
    match b
    case Single(a) => SingleKeepsQuota(task, s, a);
    case GateAndBegin(ip) => GateKeepsQuota(task, s, ip);
    case CountAndEnd(ip) => FinishKeepsQuota(task, s, ip);
  }

  ghost predicate IsBlockRun(task: Task, s: State, blocks: seq<Block>)
    decreases |blocks|
  {
    blocks == [] ||
    (Atomic(task, s, blocks[0]) && IsRun(task, s, Unfold(blocks[0])) &&
     IsBlockRun(task, Exec(task, s, Unfold(blocks[0])), blocks[1..]))
  }

  ghost function ExecBlocks(task: Task, s: State, blocks: seq<Block>): State
    requires IsBlockRun(task, s, blocks)
    decreases |blocks|
  {
    if blocks == [] then s else ExecBlocks(task, Exec(task, s, Unfold(blocks[0])), blocks[1..])
  }

  /** With atomic starts and finishes, successes plus voting devices never exceed the target. */
  lemma {:induction false} AtomicGateKeepsQuota(task: Task, s: State, blocks: seq<Block>)
    requires Quota(task, s) && IsBlockRun(task, s, blocks)
    ensures Quota(task, ExecBlocks(task, s, blocks))
    ensures ExecBlocks(task, s, blocks).success <= task.target
    decreases |blocks|
  {
    if blocks != [] {
      BlockKeepsQuota(task, s, blocks[0]);
      AtomicGateKeepsQuota(task, Exec(task, s, Unfold(blocks[0])), blocks[1..]);
    }
  }

  /** Then the equality test of the gate refuses exactly the starts that would exceed the target. */
  lemma EqualityTestIsEnough(task: Task, s: State, ip: string)
    requires Quota(task, s) && !IsVotingDevice(s.devices, ip)
    ensures NeedWait(task, s) <==>
            s.success + VotingDevices(s.devices[ip := WX_VOTING]) > task.target
  {
    TallyUpdate(s.devices, ip, WX_VOTING, Is(WX_VOTING));
  }

  // ---------------------------------------------------------------- without atomicity

  /** Let through by the gate and not yet counted as a success. */
  predicate Claiming(p: Phase) {
    p.Starting? || InFlight(p)
  }

  ghost function ClaimingSessions(s: State): nat {
    Tally(s.sessions, Claiming)
  }

  /** Successes counted and successes the gate has let through. */
  ghost function Claims(s: State): int {
    s.success + ClaimingSessions(s)
  }

  ghost predicate ClaimsWithinTarget(task: Task, s: State, run: seq<Action>)
    requires IsRun(task, s, run)
    decreases |run|
  {
    Claims(s) <= task.target && (run == [] || ClaimsWithinTarget(task, Step(task, s, run[0]), run[1..]))
  }

  /** Whenever a session asks at the gate with all places claimed, the status table shows it. */
  ghost predicate TableShowsFullClaims(task: Task, s: State, run: seq<Action>)
    requires IsRun(task, s, run)
    decreases |run|
  {
    run == [] ||
    ((run[0].CheckWait? && Claims(s) == task.target ==> VotingDevices(s.devices) == ClaimingSessions(s)) &&
     TableShowsFullClaims(task, Step(task, s, run[0]), run[1..]))
  }

  /** Claims grow exactly when the gate lets a session through. */
  lemma ClaimsOfStep(task: Task, s: State, a: Action)
    requires Enabled(s, a)
    ensures if a.CheckWait? && !NeedWait(task, s) then Claims(Step(task, s, a)) == Claims(s) + 1
            else Claims(Step(task, s, a)) <= Claims(s)
  {
    SessionOfStep(task, s, a);
    SuccessOfStep(task, s, a);
    if !a.Other? {
      StartingOfStep(task, s, a);
      InFlightOfStep(task, s, a);
      TallyUpdate(s.sessions, a.ip, Step(task, s, a).sessions[a.ip], Claiming);
    }
  }

  /**
   The gate as written keeps the claims within the target throughout a run, outside status
   changes included, exactly when at every check made with all places claimed the number of
   voting devices is the number of claiming sessions.
   */
  lemma {:induction false} GateSufficesIff(task: Task, s: State, run: seq<Action>)
    requires IsRun(task, s, run) && Claims(s) <= task.target
    ensures ClaimsWithinTarget(task, s, run) <==> TableShowsFullClaims(task, s, run)
    decreases |run|
  {
    if run != [] {
      ClaimsOfStep(task, s, run[0]);
      if Claims(Step(task, s, run[0])) <= task.target {
        GateSufficesIff(task, Step(task, s, run[0]), run[1..]);
      }
    }
  }

  /**
   Outsiders must leave voting devices alone: when a phone that is voting disconnects, the gate
   counts a free place, and even an atomic start lets one session too many in.
   */
  lemma DisconnectFreesAPlace(task: Task, s: State, t: string, u: string)
    requires Quota(task, s) && s.success + VotingDevices(s.devices) == task.target == Claims(s)
    requires t in s.sessions && u in s.sessions && s.sessions[t].Voting? && s.sessions[u].Gate?
    ensures var run := [Other(t, OFFLINE)] + Unfold(GateAndBegin(u));
            IsRun(task, s, run) && Claims(Exec(task, s, run)) == task.target + 1
  {
    OneStep(task, s, Other(t, OFFLINE));
    var m := Step(task, s, Other(t, OFFLINE));
    TallyUpdate(s.devices, t, OFFLINE, Is(WX_VOTING));
    assert !NeedWait(task, m);
    var acc := s.sessions[u].acc;
    TwoSteps(task, m, CheckWait(u), Begin(u));
    ClaimsOfStep(task, m, CheckWait(u));
    TallyUpdate(Step(task, m, CheckWait(u)).sessions, u, Voting(acc), Claiming);
    RunsJoin(task, s, [Other(t, OFFLINE)], [CheckWait(u), Begin(u)]);
  }

  /** What a session does that ends while another one passes the gate and begins. */
  function OverlappingFinish(t: string, u: string): seq<Action> {
    [AddSuccess(t)] + [CheckWait(u), Begin(u)] + [Release(t), End(t)]
  }

  /**
   An atomic gate alone is not enough: between the counting of a success and the change of
   its device a full quota shows as one too many, and the equality lets another session in.
   */
  lemma FinishMustBeAtomic(task: Task, s: State, t: string, u: string)
    requires Quota(task, s) && s.success + VotingDevices(s.devices) == task.target
    requires t in s.sessions && u in s.sessions && s.sessions[t].Marked? && s.sessions[u].Gate?
    requires !IsVotingDevice(s.devices, u)
    ensures IsRun(task, s, OverlappingFinish(t, u))
    ensures var e := Exec(task, s, OverlappingFinish(t, u));
            && u in e.sessions && e.sessions[u].Voting? && e.success == s.success + 1
            && e.success + VotingDevices(e.devices) == task.target + 1
  {
    OneStep(task, s, AddSuccess(t));
    var s1 := Step(task, s, AddSuccess(t));
    TwoSteps(task, s1, CheckWait(u), Begin(u));
    TallyUpdate(s1.devices, u, WX_VOTING, Is(WX_VOTING));
    RunsJoin(task, s, [AddSuccess(t)], [CheckWait(u), Begin(u)]);
    var s3 := Exec(task, s1, [CheckWait(u), Begin(u)]);
    TwoSteps(task, s3, Release(t), End(t));
    TallyUpdate(s3.devices, t, WX_VOTE_END, Is(WX_VOTING));
    RunsJoin(task, s, [AddSuccess(t)] + [CheckWait(u), Begin(u)], [Release(t), End(t)]);
  }
}
