/**
 One vote task: a session per device, all sharing the account list, the vote records, the
 status table and the success counter. Every step is one call of a session into a shared
 object; a take is atomic here (TakeProtocol says when that is sound). Sessions of the daily
 task may run at the same time and draw from the same list.
 */
module VoteTask {
  import opened Counting
  import opened IdleList
  import opened Accounts
  import opened Devices

  datatype Task = Task(url: string, target: int)

  datatype Phase =
    | Taking                  // about to ask for an account
    | Gate(acc: string)       // about to ask need_wait_vote
    | Recheck(acc: string)    // told to wait, about to ask need_vote
    | Starting(acc: string)   // let through, about to set the device to voting
    | Voting(acc: string)     // device set to voting, waiting for the phone
    | Marked(acc: string)     // vote recorded, about to count the success
    | Releasing(acc: string)  // about to put the account back
    | Ending                  // about to set the device to vote end
    | Leaving                 // about to set the device to idle
    | Done
    | DailyTaking
    | DailyHolding(acc: string)

  datatype State = State(
    records: Records, idle: seq<string>, devices: Statuses, success: int,
    sessions: map<string, Phase>,
    lost: seq<string>,   // accounts taken and never put back
    marks: seq<string>,  // accounts for which a vote was recorded
    dailies: seq<string>) // accounts whose daily task was recorded as finished

  datatype Answer = VoteOk | VoteFailed(abnormal: bool) | NoAnswer

  /** Sessions are named by the ip of their device. */
  datatype Action =
    | Take(ip: string)
    | CheckWait(ip: string)
    | CheckNeed(ip: string)
    | Begin(ip: string)
    | SendFails(ip: string)
    | Reply(ip: string, answer: Answer)
    | AddSuccess(ip: string)
    | Release(ip: string)
    | End(ip: string)
    | Leave(ip: string)
    | DailyTake(ip: string)
    | DailyReturn(ip: string, done: bool, abnormal: bool)
    | DailyLose(ip: string)
    | Other(ip: string, status: int)  // the connection pool changes a status

  predicate Holding(p: Phase) {
    p.Gate? || p.Recheck? || p.Starting? || p.Voting? || p.Marked? || p.Releasing? || p.DailyHolding?
  }

  ghost function VotingDevices(devices: Statuses): nat {
    Tally(devices, Is(WX_VOTING))
  }

  ghost predicate NeedWait(task: Task, s: State) {
    s.success + VotingDevices(s.devices) == task.target
  }

  predicate NeedVote(task: Task, s: State) {
    task.target > s.success
  }

  predicate Enabled(s: State, a: Action) {
    a.Other? ||
    (a.ip in s.sessions &&
     var p := s.sessions[a.ip];
     match a
     case Take(_) => p.Taking?
     case CheckWait(_) => p.Gate?
     case CheckNeed(_) => p.Recheck?
     case Begin(_) => p.Starting?
     case SendFails(_) => p.Voting?
     case Reply(_, _) => p.Voting?
     case AddSuccess(_) => p.Marked?
     case Release(_) => p.Releasing?
     case End(_) => p.Ending?
     case Leave(_) => p.Leaving?
     case DailyTake(_) => p.DailyTaking?
     case DailyReturn(_, _, _) => p.DailyHolding?
     case DailyLose(_) => p.DailyHolding?)
  }

  function Move(s: State, ip: string, p: Phase): State {
    s.(sessions := s.sessions[ip := p])
  }

  function Drop(s: State, ip: string, p: Phase, acc: string): State {
    Move(s, ip, p).(lost := s.lost + [acc])
  }

  function PutBack(s: State, ip: string, p: Phase, acc: string): State {
    Move(s, ip, p).(idle := s.idle + [acc])
  }

  function TakeOut(s: State, ip: string, i: nat, p: Phase): State
    requires i < |s.idle|
  {
    Move(s, ip, p).(idle := Without(s.idle, i))
  }

  function Status(s: State, ip: string, status: int): State {
    s.(devices := s.devices[ip := status])
  }

  function AfterTake(task: Task, s: State, ip: string): State {
    var i := First(s.idle, CanVote(s.records, task.url));
    if i == |s.idle| then Move(s, ip, Leaving) else TakeOut(s, ip, i, Gate(s.idle[i]))
  }

  function AfterDailyTake(s: State, ip: string): State {
    var i := First(s.idle, CanDoDaily(s.records));
    if i == |s.idle| then Move(s, ip, Leaving)
    else Status(TakeOut(s, ip, i, DailyHolding(s.idle[i])), ip, DAILY_TASK)
         .(records := Touched(s.records, s.idle[i]))
  }

  function AfterReply(task: Task, s: State, ip: string, acc: string, answer: Answer): State {
    match answer
    case VoteOk =>
      Move(s, ip, Marked(acc)).(records := MarkVoted(s.records, acc, task.url), marks := s.marks + [acc])
    case VoteFailed(abnormal) =>
      Move(s, ip, Releasing(acc))
      .(records := if abnormal then WithStatus(s.records, acc, ABNORMAL) else s.records)
    case NoAnswer => Drop(s, ip, Ending, acc)
  }

  function AfterDailyReturn(s: State, ip: string, acc: string, done: bool, abnormal: bool): State {
    Status(PutBack(s, ip, DailyTaking, acc), ip, DAILY_TASK_END)
    .(records := if done then WithDaily(s.records, acc, DAILY_FINISHED)
                 else if abnormal then WithStatus(s.records, acc, ABNORMAL)
                 else s.records,
      dailies := if done then s.dailies + [acc] else s.dailies)
  }

  ghost function Step(task: Task, s: State, a: Action): State
    requires Enabled(s, a)
  {
    match a
    case Take(ip) => AfterTake(task, s, ip)
    case CheckWait(ip) =>
      var acc := s.sessions[ip].acc;
      Move(s, ip, if NeedWait(task, s) then Recheck(acc) else Starting(acc))
    case CheckNeed(ip) =>
      var acc := s.sessions[ip].acc;
      if NeedVote(task, s) then Move(s, ip, Gate(acc)) else Drop(s, ip, Leaving, acc)
    case Begin(ip) => Status(Move(s, ip, Voting(s.sessions[ip].acc)), ip, WX_VOTING)
    case SendFails(ip) => Drop(s, ip, Taking, s.sessions[ip].acc)
    case Reply(ip, answer) => AfterReply(task, s, ip, s.sessions[ip].acc, answer)
    case AddSuccess(ip) => Move(s, ip, Releasing(s.sessions[ip].acc)).(success := s.success + 1)
    case Release(ip) => PutBack(s, ip, Ending, s.sessions[ip].acc)
    case End(ip) => Status(Move(s, ip, Taking), ip, WX_VOTE_END)
    case Leave(ip) => Status(Move(s, ip, Done), ip, ONLINE_IDLE)
    case DailyTake(ip) => AfterDailyTake(s, ip)
    case DailyReturn(ip, done, abnormal) => AfterDailyReturn(s, ip, s.sessions[ip].acc, done, abnormal)
    case DailyLose(ip) => Status(Drop(s, ip, DailyTaking, s.sessions[ip].acc), ip, DAILY_TASK_END)
    case Other(ip, status) => Status(s, ip, status)
  }

  ghost predicate IsRun(task: Task, s: State, run: seq<Action>)
    decreases |run|
  {
    run == [] || (Enabled(s, run[0]) && IsRun(task, Step(task, s, run[0]), run[1..]))
  }

  ghost function Exec(task: Task, s: State, run: seq<Action>): State
    requires IsRun(task, s, run)
    decreases |run|
  {
    if run == [] then s else Exec(task, Step(task, s, run[0]), run[1..])
  }

  /** The records after a step are the result of at most one setter or lookup. */
  lemma RecordsAfter(task: Task, s: State, a: Action) returns (acc: string)
    requires Enabled(s, a)
    ensures var r, r' := s.records, Step(task, s, a).records;
            || r' == r
            || (r' == Touched(r, acc) && a.DailyTake? && acc in s.idle)
            || r' == MarkVoted(r, acc, task.url)
            || r' == WithStatus(r, acc, ABNORMAL)
            || r' == WithDaily(r, acc, DAILY_FINISHED)
  {
    if a.DailyTake? {
      var i := First(s.idle, CanDoDaily(s.records));
      acc := if i < |s.idle| then s.idle[i] else "";
    } else {
      acc := if a.Reply? || a.DailyReturn? then s.sessions[a.ip].acc else "";
    }
  }

  // ---------------------------------------------------------------- who has an account

  ghost predicate Held(sessions: map<string, Phase>, acc: string) {
    exists ip :: ip in sessions && Holding(sessions[ip]) && sessions[ip].acc == acc
  }

  /** Every loaded account is idle, held by one session, or lost, and only one of these. */
  ghost predicate Owned(loaded: set<string>, idle: seq<string>, lost: seq<string>, sessions: map<string, Phase>) {
    && Distinct(idle) && Distinct(lost)
    && (forall acc :: acc in idle ==> acc in loaded && acc !in lost && !Held(sessions, acc))
    && (forall acc :: acc in lost ==> acc in loaded && !Held(sessions, acc))
    && (forall acc :: Held(sessions, acc) ==> acc in loaded)
    && (forall acc :: acc in loaded ==> acc in idle || acc in lost || Held(sessions, acc))
    && (forall t, u :: t in sessions && u in sessions && t != u && Holding(sessions[t]) && Holding(sessions[u])
          ==> sessions[t].acc != sessions[u].acc)
  }

  /** Holding the same account before and after, or none before and after. */
  predicate SameHold(p: Phase, q: Phase) {
    if Holding(p) then Holding(q) && q.acc == p.acc else !Holding(q)
  }

  lemma HeldAfter(sessions: map<string, Phase>, ip: string, p: Phase, acc: string)
    requires ip in sessions
    requires forall t, u :: t in sessions && u in sessions && t != u && Holding(sessions[t]) && Holding(sessions[u])
               ==> sessions[t].acc != sessions[u].acc
    ensures Held(sessions[ip := p], acc) <==>
            if Holding(p) && p.acc == acc then true
            else if Holding(sessions[ip]) && sessions[ip].acc == acc then false
            else Held(sessions, acc)
  {
    var sessions' := sessions[ip := p];
    if Holding(p) && p.acc == acc {
      assert Holding(sessions'[ip]);
    } else if t :| t in sessions && t != ip && Holding(sessions[t]) && sessions[t].acc == acc {
      assert sessions'[t] == sessions[t];
    }
  }

  lemma OwnedAfterMove(loaded: set<string>, s: State, ip: string, p: Phase)
    requires Owned(loaded, s.idle, s.lost, s.sessions)
    requires ip in s.sessions && SameHold(s.sessions[ip], p)
    ensures Owned(loaded, s.idle, s.lost, s.sessions[ip := p])
  {
    forall acc
      ensures Held(s.sessions[ip := p], acc) == Held(s.sessions, acc)
    {
      HeldAfter(s.sessions, ip, p, acc);
    }
  }

  lemma OwnedAfterDrop(loaded: set<string>, s: State, ip: string, p: Phase)
    requires Owned(loaded, s.idle, s.lost, s.sessions)
    requires ip in s.sessions && Holding(s.sessions[ip]) && !Holding(p)
    ensures Owned(loaded, s.idle, s.lost + [s.sessions[ip].acc], s.sessions[ip := p])
  {
    var mine := s.sessions[ip].acc;
    assert Held(s.sessions, mine);
    forall acc
      ensures Held(s.sessions[ip := p], acc) == (acc != mine && Held(s.sessions, acc))
    {
      HeldAfter(s.sessions, ip, p, acc);
    }
  }

  lemma OwnedAfterPutBack(loaded: set<string>, s: State, ip: string, p: Phase)
    requires Owned(loaded, s.idle, s.lost, s.sessions)
    requires ip in s.sessions && Holding(s.sessions[ip]) && !Holding(p)
    ensures Owned(loaded, s.idle + [s.sessions[ip].acc], s.lost, s.sessions[ip := p])
  {
    var mine := s.sessions[ip].acc;
    assert Held(s.sessions, mine);
    forall acc
      ensures Held(s.sessions[ip := p], acc) == (acc != mine && Held(s.sessions, acc))
    {
      HeldAfter(s.sessions, ip, p, acc);
    }
  }

  lemma OwnedAfterTakeOut(loaded: set<string>, s: State, ip: string, i: nat, p: Phase)
    requires Owned(loaded, s.idle, s.lost, s.sessions)
    requires ip in s.sessions && !Holding(s.sessions[ip])
    requires i < |s.idle| && Holding(p) && p.acc == s.idle[i]
    ensures Owned(loaded, Without(s.idle, i), s.lost, s.sessions[ip := p])
  {
    var mine := s.idle[i];
    assert mine in s.idle;
    WithoutOne(s.idle, i);
    forall acc
      ensures Held(s.sessions[ip := p], acc) == (acc == mine || Held(s.sessions, acc))
    {
      HeldAfter(s.sessions, ip, p, acc);
    }
    forall t | t in s.sessions && Holding(s.sessions[t])
      ensures s.sessions[t].acc != mine
    {
      assert Held(s.sessions, s.sessions[t].acc);
    }
  }

  lemma TakeKeepsOwned(task: Task, loaded: set<string>, s: State, a: Action)
    requires Owned(loaded, s.idle, s.lost, s.sessions) && Enabled(s, a) && (a.Take? || a.DailyTake?)
    ensures var s' := Step(task, s, a); Owned(loaded, s'.idle, s'.lost, s'.sessions)
  {
    var i := First(s.idle, if a.Take? then CanVote(s.records, task.url) else CanDoDaily(s.records));
    if i == |s.idle| {
      OwnedAfterMove(loaded, s, a.ip, Leaving);
    } else {
      OwnedAfterTakeOut(loaded, s, a.ip, i, if a.Take? then Gate(s.idle[i]) else DailyHolding(s.idle[i]));
    }
  }

  lemma GateKeepsOwned(task: Task, loaded: set<string>, s: State, a: Action)
    requires Owned(loaded, s.idle, s.lost, s.sessions) && Enabled(s, a)
    requires a.CheckWait? || a.CheckNeed? || a.Begin?
    ensures var s' := Step(task, s, a); Owned(loaded, s'.idle, s'.lost, s'.sessions)
  {
    var acc := s.sessions[a.ip].acc;
    if a.Begin? {
      OwnedAfterMove(loaded, s, a.ip, Voting(acc));
    } else if a.CheckWait? {
      OwnedAfterMove(loaded, s, a.ip, if NeedWait(task, s) then Recheck(acc) else Starting(acc));
    } else if NeedVote(task, s) {
      OwnedAfterMove(loaded, s, a.ip, Gate(acc));
    } else {
      OwnedAfterDrop(loaded, s, a.ip, Leaving);
    }
  }

  lemma ReplyKeepsOwned(task: Task, loaded: set<string>, s: State, a: Action)
    requires Owned(loaded, s.idle, s.lost, s.sessions) && Enabled(s, a) && a.Reply?
    ensures var s' := Step(task, s, a); Owned(loaded, s'.idle, s'.lost, s'.sessions)
  {
    var acc := s.sessions[a.ip].acc;
    match a.answer
    case VoteOk => OwnedAfterMove(loaded, s, a.ip, Marked(acc));
    case VoteFailed(_) => OwnedAfterMove(loaded, s, a.ip, Releasing(acc));
    case NoAnswer => OwnedAfterDrop(loaded, s, a.ip, Ending);
  }

  /** Conservation and exclusive ownership are kept by every step. */
  lemma StepKeepsOwned(task: Task, loaded: set<string>, s: State, a: Action)
    requires Owned(loaded, s.idle, s.lost, s.sessions) && Enabled(s, a)
    ensures var s' := Step(task, s, a); Owned(loaded, s'.idle, s'.lost, s'.sessions)
  {
    match a
    case Take(_) => TakeKeepsOwned(task, loaded, s, a);
    case DailyTake(_) => TakeKeepsOwned(task, loaded, s, a);
    case AddSuccess(ip) => OwnedAfterMove(loaded, s, ip, Releasing(s.sessions[ip].acc));
    case Release(ip) => OwnedAfterPutBack(loaded, s, ip, Ending);
    case End(ip) => OwnedAfterMove(loaded, s, ip, Taking);
    case Leave(ip) => OwnedAfterMove(loaded, s, ip, Done);
    case DailyReturn(ip, _, _) => OwnedAfterPutBack(loaded, s, ip, DailyTaking);
    case DailyLose(ip) => OwnedAfterDrop(loaded, s, ip, DailyTaking);
    case SendFails(ip) => OwnedAfterDrop(loaded, s, ip, Taking);
    case Reply(_, _) => ReplyKeepsOwned(task, loaded, s, a);
    case Other(_, _) =>
    case _ => GateKeepsOwned(task, loaded, s, a);
  }

  // ---------------------------------------------------------------- one vote per account

  predicate IsMarked(p: Phase) {
    p.Marked?
  }

  predicate HoldsToVote(p: Phase) {
    p.Gate? || p.Recheck? || p.Starting? || p.Voting?
  }

  /** The marks of the run are exactly the new voters, each once, and the counter follows them. */
  ghost predicate Tallied(task: Task, before: Records, s: State) {
    && s.records.Keys == before.Keys
    && Distinct(s.marks)
    && (forall acc :: acc in s.marks ==> acc !in Voters(before, task.url))
    && Voters(s.records, task.url) == Voters(before, task.url) + Members(s.marks)
    && s.success + Tally(s.sessions, IsMarked) == |s.marks|
    && forall ip :: ip in s.sessions && HoldsToVote(s.sessions[ip]) ==>
         s.sessions[ip].acc in s.records && s.sessions[ip].acc !in Voters(s.records, task.url)
  }

  /** Account records and ownership belong together: every account ever handed out has a record. */
  ghost predicate Inv(task: Task, before: Records, loaded: set<string>, s: State) {
    && loaded <= before.Keys
    && Owned(loaded, s.idle, s.lost, s.sessions)
    && Tallied(task, before, s)
  }

  /** A step that records no vote and keeps success plus marked sessions keeps the tally. */
  lemma TalliedAfterMove(task: Task, before: Records, s: State, s': State, ip: string, p: Phase)
    requires Tallied(task, before, s) && ip in s.sessions
    requires s'.records.Keys == s.records.Keys
    requires Voters(s'.records, task.url) == Voters(s.records, task.url)
    requires s'.marks == s.marks && s'.sessions == s.sessions[ip := p]
    requires s'.success + Bit(p.Marked?) == s.success + Bit(s.sessions[ip].Marked?)
    requires HoldsToVote(p) ==> p.acc in s.records && p.acc !in Voters(s.records, task.url)
    ensures Tallied(task, before, s')
  {
    TallyUpdate(s.sessions, ip, p, IsMarked);
  }

  lemma VotersAfterSetter(records: Records, acc: string, url: string)
    ensures forall status :: Voters(WithStatus(records, acc, status), url) == Voters(records, url)
    ensures forall daily :: Voters(WithDaily(records, acc, daily), url) == Voters(records, url)
    ensures acc in records ==> Voters(MarkVoted(records, acc, url), url) == Voters(records, url) + {acc}
  {
  }

  lemma TakeKeepsTallied(task: Task, before: Records, loaded: set<string>, s: State, a: Action)
    requires Inv(task, before, loaded, s) && Enabled(s, a) && (a.Take? || a.DailyTake?)
    ensures Tallied(task, before, Step(task, s, a))
  {
    var s' := Step(task, s, a);
    var i := First(s.idle, if a.Take? then CanVote(s.records, task.url) else CanDoDaily(s.records));
    if i < |s.idle| {
      assert s.idle[i] in s.idle;
      assert Touched(s.records, s.idle[i]) == s.records;
    }
    TalliedAfterMove(task, before, s, s', a.ip, s'.sessions[a.ip]);
  }

  lemma MarkKeepsTallied(task: Task, before: Records, loaded: set<string>, s: State, ip: string)
    requires Inv(task, before, loaded, s) && Enabled(s, Reply(ip, VoteOk))
    ensures Tallied(task, before, Step(task, s, Reply(ip, VoteOk)))
  {
    var acc := s.sessions[ip].acc;
    TallyUpdate(s.sessions, ip, Marked(acc), IsMarked);
    VotersAfterSetter(s.records, acc, task.url);
    assert Members(s.marks + [acc]) == Members(s.marks) + {acc};
    assert acc !in Members(s.marks);
    forall t | t in s.sessions && t != ip && HoldsToVote(s.sessions[t])
      ensures s.sessions[t].acc != acc
    {
      assert Holding(s.sessions[t]) && Holding(s.sessions[ip]);
    }
  }

  lemma AnswerKeepsTallied(task: Task, before: Records, loaded: set<string>, s: State, a: Action)
    requires Inv(task, before, loaded, s) && Enabled(s, a)
    requires (a.Reply? && !a.answer.VoteOk?) || a.DailyReturn? || a.DailyLose?
    ensures Tallied(task, before, Step(task, s, a))
  {
    var s' := Step(task, s, a);
    VotersAfterSetter(s.records, s.sessions[a.ip].acc, task.url);
    TalliedAfterMove(task, before, s, s', a.ip, s'.sessions[a.ip]);
  }

  lemma GateKeepsTallied(task: Task, before: Records, loaded: set<string>, s: State, a: Action)
    requires Inv(task, before, loaded, s) && Enabled(s, a)
    requires a.CheckWait? || a.CheckNeed? || a.Begin?
    ensures Tallied(task, before, Step(task, s, a))
  {
    var s' := Step(task, s, a);
    TalliedAfterMove(task, before, s, s', a.ip, s'.sessions[a.ip]);
  }

  lemma QuietStepKeepsTallied(task: Task, before: Records, loaded: set<string>, s: State, a: Action)
    requires Inv(task, before, loaded, s) && Enabled(s, a)
    requires a.SendFails? || a.AddSuccess? || a.Release? || a.End? || a.Leave?
    ensures Tallied(task, before, Step(task, s, a))
  {
    var s' := Step(task, s, a);
    TalliedAfterMove(task, before, s, s', a.ip, s'.sessions[a.ip]);
  }

  lemma StepKeepsTallied(task: Task, before: Records, loaded: set<string>, s: State, a: Action)
    requires Inv(task, before, loaded, s) && Enabled(s, a)
    ensures Tallied(task, before, Step(task, s, a))
  {
    match a
    case Take(_) => TakeKeepsTallied(task, before, loaded, s, a);
    case DailyTake(_) => TakeKeepsTallied(task, before, loaded, s, a);
    case DailyReturn(_, _, _) => AnswerKeepsTallied(task, before, loaded, s, a);
    case DailyLose(_) => AnswerKeepsTallied(task, before, loaded, s, a);
    case Reply(ip, answer) =>
      if answer.VoteOk? {
        MarkKeepsTallied(task, before, loaded, s, ip);
      } else {
        AnswerKeepsTallied(task, before, loaded, s, a);
      }
    case Other(_, _) =>
    case CheckWait(_) => GateKeepsTallied(task, before, loaded, s, a);
    case CheckNeed(_) => GateKeepsTallied(task, before, loaded, s, a);
    case Begin(_) => GateKeepsTallied(task, before, loaded, s, a);
    case _ => QuietStepKeepsTallied(task, before, loaded, s, a);
  }

  lemma {:induction false} RunKeepsInv(task: Task, before: Records, loaded: set<string>, s: State, run: seq<Action>)
    requires Inv(task, before, loaded, s) && IsRun(task, s, run)
    ensures Inv(task, before, loaded, Exec(task, s, run))
    decreases |run|
  {
    if run != [] {
      StepKeepsOwned(task, loaded, s, run[0]);
      StepKeepsTallied(task, before, loaded, s, run[0]);
      RunKeepsInv(task, before, loaded, Step(task, s, run[0]), run[1..]);
    }
  }

  /** A fresh task: nothing counted, nothing held, every idle account recorded and listed once. */
  ghost predicate Initial(s: State) {
    && s.success == 0 && s.lost == [] && s.marks == [] && s.dailies == []
    && WellListed(s.records, s.idle)
    && forall ip :: ip in s.sessions ==> s.sessions[ip].Taking? || s.sessions[ip].DailyTaking?
  }

  lemma InitialInv(task: Task, s: State)
    requires Initial(s)
    ensures Inv(task, s.records, Members(s.idle), s)
  {
    TallyZero(s.sessions, IsMarked);
    forall acc
      ensures !Held(s.sessions, acc)
    {
    }
    assert Members(s.marks) == {};
  }

  /**
   In every reachable state the accounts that were idle at the start are split, without
   overlap, into idle, held and lost ones, no two sessions hold the same account, and no
   lookup has created or removed a record.
   */
  lemma AccountsAreConserved(task: Task, s: State, run: seq<Action>)
    requires Initial(s) && IsRun(task, s, run)
    ensures var e := Exec(task, s, run);
            && Owned(Members(s.idle), e.idle, e.lost, e.sessions)
            && e.records.Keys == s.records.Keys
  {
    InitialInv(task, s);
    RunKeepsInv(task, s.records, Members(s.idle), s, run);
  }

  // ---------------------------------------------------------------- lost accounts

  /** The steps after which a session no longer has its account and has not put it back. */
  predicate Loses(task: Task, s: State, a: Action) {
    a.SendFails? || a.DailyLose? || (a.Reply? && a.answer.NoAnswer?) || (a.CheckNeed? && !NeedVote(task, s))
  }

  ghost predicate NeverLoses(task: Task, s: State, run: seq<Action>)
    requires IsRun(task, s, run)
    decreases |run|
  {
    run == [] || (!Loses(task, s, run[0]) && NeverLoses(task, Step(task, s, run[0]), run[1..]))
  }

  lemma LostByStep(task: Task, s: State, a: Action)
    requires Enabled(s, a)
    ensures |Step(task, s, a).lost| == |s.lost| + Bit(Loses(task, s, a))
  {
  }

  lemma {:induction false} LostIffLoses(task: Task, s: State, run: seq<Action>)
    requires IsRun(task, s, run)
    ensures |Exec(task, s, run).lost| >= |s.lost|
    ensures |Exec(task, s, run).lost| == |s.lost| <==> NeverLoses(task, s, run)
    decreases |run|
  {
    if run != [] {
      LostByStep(task, s, run[0]);
      LostIffLoses(task, Step(task, s, run[0]), run[1..]);
    }
  }

  ghost function HeldAccounts(sessions: map<string, Phase>): set<string> {
    set ip | ip in sessions && Holding(sessions[ip]) :: sessions[ip].acc
  }

  /**
   Idle and held accounts are together exactly the accounts of the start if and only if no
   send failed, no answer stayed out, and no session left through the gate with an account.
   */
  lemma NothingLostIff(task: Task, s: State, run: seq<Action>)
    requires Initial(s) && IsRun(task, s, run)
    ensures var e := Exec(task, s, run);
            && (e.lost == [] <==> NeverLoses(task, s, run))
            && (Members(e.idle) + HeldAccounts(e.sessions) == Members(s.idle) <==> NeverLoses(task, s, run))
  {
    var e := Exec(task, s, run);
    AccountsAreConserved(task, s, run);
    LostIffLoses(task, s, run);
    forall acc
      ensures acc in HeldAccounts(e.sessions) <==> Held(e.sessions, acc)
    {
    }
    if e.lost != [] {
      assert e.lost[0] in e.lost;
    }
  }

  // ---------------------------------------------------------------- the count

  /**
   However the sessions interleave, no account votes twice for the url of the task, and the
   counter plus the votes not yet counted equals the growth in the number of voters.
   */
  lemma OneVotePerAccount(task: Task, s: State, run: seq<Action>)
    requires Initial(s) && IsRun(task, s, run)
    ensures var e := Exec(task, s, run);
            && Distinct(e.marks)
            && Voters(s.records, task.url) <= Voters(e.records, task.url)
            && e.success + Tally(e.sessions, IsMarked) ==
               |Voters(e.records, task.url)| - |Voters(s.records, task.url)|
  {
    var e := Exec(task, s, run);
    InitialInv(task, s);
    RunKeepsInv(task, s.records, Members(s.idle), s, run);
    DistinctSize(e.marks);
    assert Voters(s.records, task.url) !! Members(e.marks);
  }

  /** When all sessions have returned, the reported count is exactly the number of new voters. */
  lemma ReportIsExact(task: Task, s: State, run: seq<Action>)
    requires Initial(s) && IsRun(task, s, run)
    requires forall ip :: ip in Exec(task, s, run).sessions ==> !Exec(task, s, run).sessions[ip].Marked?
    ensures var e := Exec(task, s, run);
            e.success == |Voters(e.records, task.url)| - |Voters(s.records, task.url)| == |e.marks|
  {
    OneVotePerAccount(task, s, run);
    InitialInv(task, s);
    RunKeepsInv(task, s.records, Members(s.idle), s, run);
    TallyZero(Exec(task, s, run).sessions, IsMarked);
  }

  /** A task casts votes for its own url only. */
  lemma {:induction false} OtherUrlsUntouched(task: Task, s: State, run: seq<Action>, url: string)
    requires IsRun(task, s, run) && url != task.url
    ensures Voters(Exec(task, s, run).records, url) == Voters(s.records, url)
    decreases |run|
  {
    if run != [] {
      var acc := RecordsAfter(task, s, run[0]);
      SettersForOtherUrl(s.records, acc, task.url, url);
      OtherUrlsUntouched(task, Step(task, s, run[0]), run[1..], url);
    }
  }

  lemma SettersForOtherUrl(records: Records, acc: string, voted: string, url: string)
    requires voted != url
    ensures Voters(Touched(records, acc), url) == Voters(records, url)
    ensures Voters(MarkVoted(records, acc, voted), url) == Voters(records, url)
    ensures Voters(WithStatus(records, acc, ABNORMAL), url) == Voters(records, url)
    ensures Voters(WithDaily(records, acc, DAILY_FINISHED), url) == Voters(records, url)
  {
    VotersAfterSetter(records, acc, url);
  }
}
