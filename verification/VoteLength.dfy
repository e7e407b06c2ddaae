/** How long the sessions of a vote task can go on. */
module VoteLength {
  import opened Counting
  import opened IdleList
  import opened Accounts
  import opened Devices
  import opened VoteTask
  import opened VoteQuota
  import opened VoteOvershoot
  import opened VoteTarget

  /** Steps the sessions still spend on an account: seven to make it vote, two for its daily task. */
  function AccountWork(url: string, records: Records, acc: string): nat {
    7 * Bit(CanVote(records, url)(acc)) + 2 * Bit(CanDoDaily(records)(acc))
  }

  function IdleWork(url: string, records: Records, idle: seq<string>): nat {
    7 * |Keep(idle, CanVote(records, url))| + 2 * |Keep(idle, CanDoDaily(records))|
  }

  /** Steps a session still makes, and the work its account causes once it is put back. */
  function SessionWork(url: string, records: Records, p: Phase): nat {
    match p
    case Done => 0
    case Leaving => 1
    case Taking => 2
    case DailyTaking => 2
    case Ending => 3
    case Releasing(acc) => 4 + AccountWork(url, records, acc)
    case Marked(acc) => 5 + AccountWork(url, records, acc)
    case Voting(acc) => 6 + 2 * Bit(CanDoDaily(records)(acc))
    case Starting(acc) => 7 + 2 * Bit(CanDoDaily(records)(acc))
    case Gate(acc) => 8 + 2 * Bit(CanDoDaily(records)(acc))
    case Recheck(acc) => 9 + 2 * Bit(CanDoDaily(records)(acc))
    case DailyHolding(acc) => 3 + 7 * Bit(CanVote(records, url)(acc))
  }

  function PhaseWork(url: string, records: Records): Phase -> nat {
    p => SessionWork(url, records, p)
  }

  /** An upper bound for the steps of all sessions together, if nothing has to be repeated. */
  ghost function Work(task: Task, s: State): nat {
    IdleWork(task.url, s.records, s.idle) + Weight(s.sessions, PhaseWork(task.url, s.records))
  }

  /** Extra steps: waiting at the gate, failed answers that keep an account eligible, and outsiders. */
  ghost function Extra(task: Task, s: State, a: Action): nat {
    if a.CheckWait? && NeedWait(task, s) then 2
    else if a.Reply? && a.answer == VoteFailed(false) then 6
    else if a.DailyReturn? && !a.done && !a.abnormal then 2
    else if a.Other? then 1
    else 0
  }

  ghost function ExtraSteps(task: Task, s: State, run: seq<Action>): nat
    requires IsRun(task, s, run)
    decreases |run|
  {
    if run == [] then 0 else Extra(task, s, run[0]) + ExtraSteps(task, Step(task, s, run[0]), run[1..])
  }

  /** Every idle or held account has a record. */
  ghost predicate Recorded(s: State) {
    && (forall acc :: acc in s.idle ==> acc in s.records)
    && forall ip :: ip in s.sessions && Holding(s.sessions[ip]) ==> s.sessions[ip].acc in s.records
  }

  // ---------------------------------------------------------------- the work of the idle accounts

  lemma IdleWorkShrinks(task: Task, s: State, a: Action)
    requires Enabled(s, a) && Recorded(s)
    ensures IdleWork(task.url, Step(task, s, a).records, s.idle) <= IdleWork(task.url, s.records, s.idle)
  {
    var r, r' := s.records, Step(task, s, a).records;
    forall acc
      ensures CanVote(r', task.url)(acc) ==> CanVote(r, task.url)(acc)
      ensures CanDoDaily(r')(acc) ==> CanDoDaily(r)(acc)
    {
      EligibilityShrinks(task, s, a, acc);
    }
    KeepFewer(s.idle, CanVote(r', task.url), CanVote(r, task.url));
    KeepFewer(s.idle, CanDoDaily(r'), CanDoDaily(r));
  }

  lemma IdleWorkWithout(url: string, records: Records, idle: seq<string>, i: nat)
    requires i < |idle|
    ensures IdleWork(url, records, idle) ==
            IdleWork(url, records, Without(idle, i)) + AccountWork(url, records, idle[i])
  {
    KeepWithout(idle, i, CanVote(records, url));
    KeepWithout(idle, i, CanDoDaily(records));
  }

  lemma IdleWorkPlus(url: string, records: Records, idle: seq<string>, acc: string)
    ensures IdleWork(url, records, idle + [acc]) == IdleWork(url, records, idle) + AccountWork(url, records, acc)
  {
    KeepConcat(idle, [acc], CanVote(records, url));
    KeepConcat(idle, [acc], CanDoDaily(records));
  }

  // ---------------------------------------------------------------- one step

  /** A step of a session uses up one unit of the work of the list and of that session. */
  ghost predicate Spends(task: Task, s: State, a: Action)
    requires Enabled(s, a) && a.ip in s.sessions
  {
    var s' := Step(task, s, a);
    && a.ip in s'.sessions
    && 1 + IdleWork(task.url, s'.records, s'.idle) + SessionWork(task.url, s'.records, s'.sessions[a.ip])
       <= IdleWork(task.url, s.records, s.idle) + SessionWork(task.url, s.records, s.sessions[a.ip]) + Extra(task, s, a)
  }

  lemma TakeSpends(task: Task, s: State, ip: string)
    requires Enabled(s, Take(ip))
    ensures Spends(task, s, Take(ip))
  {
    var i := First(s.idle, CanVote(s.records, task.url));
    if i < |s.idle| {
      IdleWorkWithout(task.url, s.records, s.idle, i);
    }
  }

  lemma DailyTakeSpends(task: Task, s: State, ip: string)
    requires Enabled(s, DailyTake(ip)) && Recorded(s)
    ensures Spends(task, s, DailyTake(ip))
  {
    var i := First(s.idle, CanDoDaily(s.records));
    if i < |s.idle| {
      assert s.idle[i] in s.idle;
      assert Touched(s.records, s.idle[i]) == s.records;
      IdleWorkWithout(task.url, s.records, s.idle, i);
    }
  }

  lemma PutBackSpends(task: Task, s: State, a: Action)
    requires Enabled(s, a) && Recorded(s) && (a.Release? || a.DailyReturn?)
    ensures Spends(task, s, a)
  {
    IdleWorkShrinks(task, s, a);
    IdleWorkPlus(task.url, Step(task, s, a).records, s.idle, s.sessions[a.ip].acc);
  }

  /** With the list as it was, only the work of the session matters. */
  lemma SameIdleSpends(task: Task, s: State, a: Action)
    requires Enabled(s, a) && Recorded(s) && a.ip in s.sessions
    requires var s' := Step(task, s, a);
             && s'.idle == s.idle && a.ip in s'.sessions
             && 1 + SessionWork(task.url, s'.records, s'.sessions[a.ip])
                <= SessionWork(task.url, s.records, s.sessions[a.ip]) + Extra(task, s, a)
    ensures Spends(task, s, a)
  {
    IdleWorkShrinks(task, s, a);
    assert IdleWork(task.url, Step(task, s, a).records, Step(task, s, a).idle)
        <= IdleWork(task.url, s.records, s.idle);
  }

  lemma MarkSpends(task: Task, s: State, ip: string)
    requires Enabled(s, Reply(ip, VoteOk)) && Recorded(s)
    ensures Spends(task, s, Reply(ip, VoteOk))
  {
    var acc := s.sessions[ip].acc;
    SettersShrinkEligibility(s.records, acc, task.url, acc);
    assert !CanVote(MarkVoted(s.records, acc, task.url), task.url)(acc);
    SameIdleSpends(task, s, Reply(ip, VoteOk));
  }

  lemma RejectionSpends(task: Task, s: State, ip: string)
    requires Enabled(s, Reply(ip, VoteFailed(true))) && Recorded(s)
    ensures Spends(task, s, Reply(ip, VoteFailed(true)))
  {
    var acc := s.sessions[ip].acc;
    assert AccountWork(task.url, WithStatus(s.records, acc, ABNORMAL), acc) == 0;
    SameIdleSpends(task, s, Reply(ip, VoteFailed(true)));
  }

  lemma FailureSpends(task: Task, s: State, ip: string, answer: Answer)
    requires Enabled(s, Reply(ip, answer)) && Recorded(s) && (answer == VoteFailed(false) || answer == NoAnswer)
    ensures Spends(task, s, Reply(ip, answer))
  {
    SameIdleSpends(task, s, Reply(ip, answer));
  }

  lemma AnswerSpends(task: Task, s: State, ip: string, answer: Answer)
    requires Enabled(s, Reply(ip, answer)) && Recorded(s)
    ensures Spends(task, s, Reply(ip, answer))
  {
    match answer
    case VoteOk => MarkSpends(task, s, ip);
    case VoteFailed(abnormal) =>
      if abnormal {
        RejectionSpends(task, s, ip);
      } else {
        FailureSpends(task, s, ip, answer);
      }
    case NoAnswer => FailureSpends(task, s, ip, answer);
  }

  lemma GateSpends(task: Task, s: State, a: Action)
    requires Enabled(s, a) && Recorded(s) && (a.CheckWait? || a.CheckNeed? || a.Begin? || a.SendFails?)
    ensures Spends(task, s, a)
  {
    SameIdleSpends(task, s, a);
  }

  lemma ReturnSpends(task: Task, s: State, a: Action)
    requires Enabled(s, a) && Recorded(s) && (a.AddSuccess? || a.End? || a.Leave? || a.DailyLose?)
    ensures Spends(task, s, a)
  {
    SameIdleSpends(task, s, a);
  }

  lemma StepSpends(task: Task, s: State, a: Action)
    requires Enabled(s, a) && Recorded(s) && !a.Other?
    ensures Spends(task, s, a)
  {
    match a
    case Take(ip) => TakeSpends(task, s, ip);
    case DailyTake(ip) => DailyTakeSpends(task, s, ip);
    case Release(_) => PutBackSpends(task, s, a);
    case DailyReturn(_, _, _) => PutBackSpends(task, s, a);
    case Reply(ip, answer) => AnswerSpends(task, s, ip, answer);
    case AddSuccess(_) => ReturnSpends(task, s, a);
    case End(_) => ReturnSpends(task, s, a);
    case Leave(_) => ReturnSpends(task, s, a);
    case DailyLose(_) => ReturnSpends(task, s, a);
    case _ => GateSpends(task, s, a);
  }

  lemma OtherSessionsShrink(task: Task, s: State, a: Action, rest: map<string, Phase>)
    requires Enabled(s, a) && Recorded(s)
    ensures Weight(rest, PhaseWork(task.url, Step(task, s, a).records)) <= Weight(rest, PhaseWork(task.url, s.records))
  {
    var w, w' := PhaseWork(task.url, s.records), PhaseWork(task.url, Step(task, s, a).records);
    forall ip | ip in rest
      ensures w'(rest[ip]) <= w(rest[ip])
    {
      if Holding(rest[ip]) {
        EligibilityShrinks(task, s, a, rest[ip].acc);
      }
    }
    WeightShrinks(rest, w, w');
  }

  lemma SplitWork(task: Task, s: State, ip: string)
    requires ip in s.sessions
    ensures Work(task, s) == IdleWork(task.url, s.records, s.idle) + SessionWork(task.url, s.records, s.sessions[ip])
                             + Weight(s.sessions - {ip}, PhaseWork(task.url, s.records))
  {
    WeightWithout(s.sessions, PhaseWork(task.url, s.records), ip);
  }

  lemma StepUsesWork(task: Task, s: State, a: Action)
    requires Enabled(s, a) && Recorded(s)
    ensures 1 + Work(task, Step(task, s, a)) <= Work(task, s) + Extra(task, s, a)
  {
    if !a.Other? {
      var s' := Step(task, s, a);
      StepSpends(task, s, a);
      SessionOfStep(task, s, a);
      assert s'.sessions - {a.ip} == s.sessions - {a.ip};
      SplitWork(task, s, a.ip);
      SplitWork(task, s', a.ip);
      OtherSessionsShrink(task, s, a, s.sessions - {a.ip});
    }
  }

  lemma RecordsStay(task: Task, s: State, a: Action)
    requires Enabled(s, a)
    ensures s.records.Keys <= Step(task, s, a).records.Keys
  {
    var acc := RecordsAfter(task, s, a);
  }

  lemma StepKeepsRecorded(task: Task, s: State, a: Action)
    requires Enabled(s, a) && Recorded(s)
    ensures Recorded(Step(task, s, a))
  {
    RecordsStay(task, s, a);
    SessionOfStep(task, s, a);
    if !a.Other? {
      OwnAccountRecorded(task, s, a);
    }
    IdleComesFrom(task, s, a);
  }

  lemma OwnAccountRecorded(task: Task, s: State, a: Action)
    requires Enabled(s, a) && Recorded(s) && !a.Other?
    ensures var p' := Step(task, s, a).sessions[a.ip]; Holding(p') ==> p'.acc in s.records
  {
  }

  lemma IdleComesFrom(task: Task, s: State, a: Action)
    requires Enabled(s, a)
    ensures forall acc :: acc in Step(task, s, a).idle ==>
              acc in s.idle || ((a.Release? || a.DailyReturn?) && acc == s.sessions[a.ip].acc)
  {
  }

  // ---------------------------------------------------------------- whole runs

  /** Every run is at most as long as the work it uses up and its extra steps. */
  lemma {:induction false} RunUsesWork(task: Task, s: State, run: seq<Action>)
    requires Recorded(s) && IsRun(task, s, run)
    ensures |run| + Work(task, Exec(task, s, run)) <= Work(task, s) + ExtraSteps(task, s, run)
    decreases |run|
  {
    if run != [] {
      StepUsesWork(task, s, run[0]);
      StepKeepsRecorded(task, s, run[0]);
      RunUsesWork(task, Step(task, s, run[0]), run[1..]);
    }
  }

  lemma WorkAtStart(task: Task, s: State)
    requires Initial(s)
    ensures Recorded(s)
    ensures Work(task, s) == 7 * Waiting(task, s) + 2 * |Keep(s.idle, CanDoDaily(s.records))| + 2 * |s.sessions|
  {
    WeightConstant(s.sessions, PhaseWork(task.url, s.records), 2);
  }

  /**
   From a fresh start no schedule is longer than seven steps for every account that can vote,
   two for every account due for its daily task, two for every session, and the extra steps
   for waiting, for failed answers and for outside changes.
   */
  lemma {:induction false} RunsAreBounded(task: Task, s: State, run: seq<Action>)
    requires Initial(s) && IsRun(task, s, run)
    ensures |run| <= 7 * Waiting(task, s) + 2 * |Keep(s.idle, CanDoDaily(s.records))| + 2 * |s.sessions|
                     + ExtraSteps(task, s, run)
  {
    WorkAtStart(task, s);
    RunUsesWork(task, s, run);
  }
}
