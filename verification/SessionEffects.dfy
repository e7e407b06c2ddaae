/** What the sessions of a run leave behind in the records and the status table. */
module SessionEffects {
  import opened IdleList
  import opened Accounts
  import opened Devices
  import opened VoteTask
  import opened VoteQuota

  // ---------------------------------------------------------------- one daily task per account

  ghost predicate DailyTallied(before: Records, s: State) {
    && Distinct(s.dailies)
    && (forall acc :: acc in s.dailies ==> acc !in Finishers(before))
    && Finishers(s.records) == Finishers(before) + Members(s.dailies)
    && forall ip :: ip in s.sessions && s.sessions[ip].DailyHolding? ==> s.sessions[ip].acc !in Finishers(s.records)
  }

  lemma FinishersAfterSetter(records: Records, acc: string, url: string)
    ensures forall status :: Finishers(WithStatus(records, acc, status)) == Finishers(records)
    ensures Finishers(MarkVoted(records, acc, url)) == Finishers(records)
    ensures Finishers(Touched(records, acc)) == Finishers(records)
    ensures acc in records ==> Finishers(WithDaily(records, acc, DAILY_FINISHED)) == Finishers(records) + {acc}
  {
  }

  lemma FinishKeepsDailyTallied(task: Task, before: Records, loaded: set<string>, s: State, a: Action)
    requires Inv(task, before, loaded, s) && DailyTallied(before, s)
    requires Enabled(s, a) && a.DailyReturn? && a.done
    ensures DailyTallied(before, Step(task, s, a))
  {
    var acc := s.sessions[a.ip].acc;
    assert Held(s.sessions, acc);
    FinishersAfterSetter(s.records, acc, task.url);
    assert Members(s.dailies + [acc]) == Members(s.dailies) + {acc};
    assert acc !in Members(s.dailies);
    forall t | t in s.sessions && t != a.ip && s.sessions[t].DailyHolding?
      ensures s.sessions[t].acc != acc
    {
      assert Holding(s.sessions[t]) && Holding(s.sessions[a.ip]);
    }
  }

  lemma TakeKeepsDailyTallied(task: Task, before: Records, s: State, a: Action)
    requires DailyTallied(before, s) && Enabled(s, a) && a.DailyTake?
    ensures DailyTallied(before, Step(task, s, a))
  {
    var i := First(s.idle, CanDoDaily(s.records));
    if i < |s.idle| {
      FinishersAfterSetter(s.records, s.idle[i], task.url);
    }
  }

  lemma OtherKeepsFinishers(task: Task, s: State, a: Action)
    requires Enabled(s, a) && !a.DailyTake? && (a.DailyReturn? ==> !a.done)
    ensures Finishers(Step(task, s, a).records) == Finishers(s.records)
    ensures Step(task, s, a).dailies == s.dailies
    ensures !a.Other? ==> !Step(task, s, a).sessions[a.ip].DailyHolding?
  {
    if a.Reply? || a.DailyReturn? {
      FinishersAfterSetter(s.records, s.sessions[a.ip].acc, task.url);
    }
  }

  lemma OtherKeepsDailyTallied(task: Task, before: Records, s: State, a: Action)
    requires DailyTallied(before, s) && Enabled(s, a)
    requires !a.DailyTake? && (a.DailyReturn? ==> !a.done)
    ensures DailyTallied(before, Step(task, s, a))
  {
    SessionOfStep(task, s, a);
    OtherKeepsFinishers(task, s, a);
  }

  lemma {:induction false} RunKeepsDailyTallied(task: Task, before: Records, loaded: set<string>, s: State,
                                                run: seq<Action>)
    requires Inv(task, before, loaded, s) && DailyTallied(before, s) && IsRun(task, s, run)
    ensures DailyTallied(before, Exec(task, s, run))
    decreases |run|
  {
    if run != [] {
      var a := run[0];
      StepKeepsOwned(task, loaded, s, a);
      StepKeepsTallied(task, before, loaded, s, a);
      if a.DailyTake? {
        TakeKeepsDailyTallied(task, before, s, a);
      } else if a.DailyReturn? && a.done {
        FinishKeepsDailyTallied(task, before, loaded, s, a);
      } else {
        OtherKeepsDailyTallied(task, before, s, a);
      }
      RunKeepsDailyTallied(task, before, loaded, Step(task, s, a), run[1..]);
    }
  }

  /** Between two resets no account finishes its daily task twice. */
  lemma OneDailyTaskPerAccount(task: Task, s: State, run: seq<Action>)
    requires Initial(s) && IsRun(task, s, run)
    ensures var e := Exec(task, s, run);
            && Distinct(e.dailies)
            && |Finishers(e.records)| - |Finishers(s.records)| == |e.dailies|
  {
    InitialInv(task, s);
    RunKeepsDailyTallied(task, s.records, Members(s.idle), s, run);
    var e := Exec(task, s, run);
    DistinctSize(e.dailies);
    assert Finishers(s.records) !! Members(e.dailies);
  }

  // ---------------------------------------------------------------- failed logins

  /** An abnormal account that is not held, unless by a session about to put it back. */
  ghost predicate Retired(s: State, acc: string) {
    && acc in s.records && s.records[acc].status == ABNORMAL
    && forall ip :: ip in s.sessions && Holding(s.sessions[ip]) && s.sessions[ip].acc == acc ==>
         s.sessions[ip].Releasing?
  }

  /** A session that puts its account back or holds another one does not touch `acc`. */
  lemma StepKeepsAbnormal(task: Task, s: State, a: Action, acc: string)
    requires Enabled(s, a) && acc in s.records && s.records[acc].status == ABNORMAL
    requires !a.Other? && Holding(s.sessions[a.ip]) && s.sessions[a.ip].acc == acc ==> s.sessions[a.ip].Releasing?
    ensures var s' := Step(task, s, a); acc in s'.records && s'.records[acc] == s.records[acc]
  {
  }

  lemma StepHandsOutOthers(task: Task, s: State, a: Action, acc: string)
    requires Enabled(s, a) && !a.Other? && acc in s.records && s.records[acc].status == ABNORMAL
    requires Holding(s.sessions[a.ip]) && s.sessions[a.ip].acc == acc ==> s.sessions[a.ip].Releasing?
    ensures var p' := Step(task, s, a).sessions[a.ip];
            Holding(p') && p'.acc == acc ==> p'.Releasing?
  {
  }

  lemma StepKeepsRetired(task: Task, s: State, a: Action, acc: string)
    requires Enabled(s, a) && Retired(s, acc)
    ensures Retired(Step(task, s, a), acc) && Step(task, s, a).records[acc] == s.records[acc]
  {
    SessionOfStep(task, s, a);
    StepKeepsAbnormal(task, s, a, acc);
    if !a.Other? {
      StepHandsOutOthers(task, s, a, acc);
    }
  }

  /** A retired account is never handed out again and its record is frozen. */
  lemma {:induction false} RetiredForever(task: Task, s: State, run: seq<Action>, acc: string)
    requires IsRun(task, s, run) && Retired(s, acc)
    ensures Retired(Exec(task, s, run), acc) && Exec(task, s, run).records[acc] == s.records[acc]
    decreases |run|
  {
    if run != [] {
      StepKeepsRetired(task, s, run[0], acc);
      RetiredForever(task, Step(task, s, run[0]), run[1..], acc);
    }
  }

  /** The answer of a phone whose login was rejected, in a vote or in a daily session. */
  predicate RejectsLogin(a: Action) {
    (a.Reply? && a.answer == VoteFailed(true)) || (a.DailyReturn? && !a.done && a.abnormal)
  }

  /**
   From the moment its login is rejected an account stays abnormal, and whatever all
   sessions do afterwards it is only ever put back and never handed out.
   */
  lemma RejectedLoginIsFinal(task: Task, loaded: set<string>, s: State, a: Action, run: seq<Action>)
    requires Owned(loaded, s.idle, s.lost, s.sessions) && Enabled(s, a) && RejectsLogin(a)
    requires s.sessions[a.ip].acc in s.records
    requires IsRun(task, Step(task, s, a), run)
    ensures Retired(Exec(task, Step(task, s, a), run), s.sessions[a.ip].acc)
  {
    var acc := s.sessions[a.ip].acc;
    forall t | t in s.sessions && t != a.ip && Holding(s.sessions[t])
      ensures s.sessions[t].acc != acc
    {
      assert Holding(s.sessions[a.ip]);
    }
    RetiredForever(task, Step(task, s, a), run, acc);
  }

  // ---------------------------------------------------------------- what a run does to each record

  datatype Effect = Votes | Finishes | Rejected

  /** The session that holds `acc` gets the answer with this effect. */
  predicate Causes(s: State, a: Action, acc: string, effect: Effect) {
    && (a.Reply? || a.DailyReturn?) && a.ip in s.sessions
    && Holding(s.sessions[a.ip]) && s.sessions[a.ip].acc == acc
    && match effect
       case Votes => a == Reply(a.ip, VoteOk)
       case Finishes => a.DailyReturn? && a.done
       case Rejected => RejectsLogin(a)
  }

  ghost predicate Occurs(task: Task, s: State, run: seq<Action>, acc: string, effect: Effect)
    requires IsRun(task, s, run)
    decreases |run|
  {
    run != [] && (Causes(s, run[0], acc, effect) || Occurs(task, Step(task, s, run[0]), run[1..], acc, effect))
  }

  /** The record of an account after some of the effects. */
  function Affected(account: Account, url: string, votes: bool, finishes: bool, rejected: bool): Account {
    Account(account.profile,
            if finishes then DAILY_FINISHED else account.daily,
            if rejected then ABNORMAL else account.status,
            account.voted + if votes then {url} else {})
  }

  lemma RecordAfterStep(task: Task, s: State, a: Action, acc: string)
    requires Enabled(s, a) && acc in s.records
    ensures acc in Step(task, s, a).records
    ensures Step(task, s, a).records[acc] ==
            Affected(s.records[acc], task.url, Causes(s, a, acc, Votes), Causes(s, a, acc, Finishes),
                     Causes(s, a, acc, Rejected))
  {
  }

  /**
   What a whole run does to an account: its status changes exactly when the session that holds
   it gets a rejected login, it gains the url of the task exactly when that session gets a
   successful vote, its daily mark is set exactly by a finished daily task, and nothing else.
   */
  lemma {:induction false} RecordAfterRun(task: Task, s: State, run: seq<Action>, acc: string)
    requires IsRun(task, s, run) && acc in s.records
    ensures var e := Exec(task, s, run);
            && acc in e.records
            && e.records[acc].profile == s.records[acc].profile
            && e.records[acc].status ==
               (if Occurs(task, s, run, acc, Rejected) then ABNORMAL else s.records[acc].status)
            && e.records[acc].daily ==
               (if Occurs(task, s, run, acc, Finishes) then DAILY_FINISHED else s.records[acc].daily)
            && e.records[acc].voted ==
               s.records[acc].voted + (if Occurs(task, s, run, acc, Votes) then {task.url} else {})
    decreases |run|
  {
    if run != [] {
      RecordAfterStep(task, s, run[0], acc);
      RecordAfterRun(task, Step(task, s, run[0]), run[1..], acc);
    }
  }

  // ---------------------------------------------------------------- when a session gives up

  predicate HasLeft(p: Phase) {
    p.Leaving? || p.Done?
  }

  /** The session of `ip` finds nobody to take, or asks at the gate when the target is met. */
  predicate Concludes(task: Task, s: State, a: Action, ip: string) {
    && a.ip == ip
    && ((a.Take? && forall acc :: acc in s.idle ==> !CanVote(s.records, task.url)(acc)) ||
        (a.DailyTake? && forall acc :: acc in s.idle ==> !CanDoDaily(s.records)(acc)) ||
        (a.CheckNeed? && task.target <= s.success))
  }

  ghost predicate Concluded(task: Task, s: State, run: seq<Action>, ip: string)
    requires IsRun(task, s, run)
    decreases |run|
  {
    run != [] && (Concludes(task, s, run[0], ip) || Concluded(task, Step(task, s, run[0]), run[1..], ip))
  }

  lemma TakeLeavesIff(task: Task, s: State, a: Action)
    requires Enabled(s, a) && (a.Take? || a.DailyTake?)
    ensures HasLeft(Step(task, s, a).sessions[a.ip]) <==> Concludes(task, s, a, a.ip)
  {
    var ok := if a.Take? then CanVote(s.records, task.url) else CanDoDaily(s.records);
    var i := First(s.idle, ok);
    assert i < |s.idle| ==> s.idle[i] in s.idle;
  }

  lemma StepLeavesIff(task: Task, s: State, a: Action)
    requires Enabled(s, a) && !a.Other? && !a.Take? && !a.DailyTake?
    ensures HasLeft(Step(task, s, a).sessions[a.ip]) <==> HasLeft(s.sessions[a.ip]) || Concludes(task, s, a, a.ip)
  {
  }

  /** A session returns exactly when it has found nobody to take or the target met: it never gives up early. */
  lemma {:induction false} LeavesIffConcluded(task: Task, s: State, run: seq<Action>, ip: string)
    requires IsRun(task, s, run) && ip in s.sessions
    ensures var e := Exec(task, s, run);
            && ip in e.sessions
            && (HasLeft(e.sessions[ip]) <==> HasLeft(s.sessions[ip]) || Concluded(task, s, run, ip))
    decreases |run|
  {
    if run != [] {
      SessionOfStep(task, s, run[0]);
      if run[0].Take? || run[0].DailyTake? {
        TakeLeavesIff(task, s, run[0]);
      } else if !run[0].Other? {
        StepLeavesIff(task, s, run[0]);
      }
      LeavesIffConcluded(task, Step(task, s, run[0]), run[1..], ip);
    }
  }

  // ---------------------------------------------------------------- devices of sessions

  /** The statuses the device of a session may have in each phase, `found` being the one at the start. */
  predicate Shows(p: Phase, status: int, found: int) {
    match p
    case Voting(_) => status == WX_VOTING
    case Marked(_) => status == WX_VOTING
    case Releasing(_) => status == WX_VOTING
    case Ending => status == WX_VOTING
    case DailyHolding(_) => status == DAILY_TASK
    case Done => status == ONLINE_IDLE
    case DailyTaking => status == found || status == DAILY_TASK_END
    case Leaving => status == found || status == DAILY_TASK_END || status == WX_VOTING || status == WX_VOTE_END
    case _ => status == found || status == WX_VOTING || status == WX_VOTE_END
  }

  /** Each device shows what its session is doing, and a device without a session is left alone. */
  ghost predicate DevicesShow(before: Statuses, s: State) {
    && s.devices.Keys == before.Keys
    && (forall ip :: ip in s.sessions ==> ip in before && Shows(s.sessions[ip], s.devices[ip], before[ip]))
    && forall ip :: ip in before && ip !in s.sessions ==> s.devices[ip] == before[ip]
  }

  lemma StepKeepsShows(task: Task, s: State, a: Action, found: int)
    requires Enabled(s, a) && !a.Other? && a.ip in s.devices
    requires Shows(s.sessions[a.ip], s.devices[a.ip], found)
    ensures var s' := Step(task, s, a);
            a.ip in s'.devices && Shows(s'.sessions[a.ip], s'.devices[a.ip], found)
  {
  }

  /** Throughout a run without outside changes every device shows the phase of its session. */
  lemma {:induction false} DevicesShowPhases(task: Task, before: Statuses, s: State, run: seq<Action>)
    requires DevicesShow(before, s) && IsRun(task, s, run) && forall a :: a in run ==> !a.Other?
    ensures DevicesShow(before, Exec(task, s, run))
    decreases |run|
  {
    if run != [] {
      assert run[0] in run;
      StepKeepsShows(task, s, run[0], before[run[0].ip]);
      SessionOfStep(task, s, run[0]);
      StatusOfStep(task, s, run[0]);
      DevicesShowPhases(task, before, Step(task, s, run[0]), run[1..]);
    }
  }

  // ---------------------------------------------------------------- devices of finished sessions

  ghost predicate DoneIsIdle(s: State) {
    forall ip :: ip in s.sessions && s.sessions[ip].Done? ==> ip in s.devices && s.devices[ip] == ONLINE_IDLE
  }

  /** Unless the connection pool interferes, every finished session leaves its device idle. */
  lemma {:induction false} FinishedDevicesAreIdle(task: Task, s: State, run: seq<Action>)
    requires DoneIsIdle(s) && IsRun(task, s, run) && forall a :: a in run ==> !a.Other?
    ensures DoneIsIdle(Exec(task, s, run))
    decreases |run|
  {
    if run != [] {
      assert run[0] in run;
      SessionOfStep(task, s, run[0]);
      StatusOfStep(task, s, run[0]);
      FinishedDevicesAreIdle(task, Step(task, s, run[0]), run[1..]);
    }
  }
}
