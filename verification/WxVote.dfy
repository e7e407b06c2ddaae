/** The vote task object, and the sessions it runs on the shared objects. */
module WxVote {
  import opened Counting
  import opened IdleList
  import opened Accounts
  import opened AccountMgr
  import opened Devices
  import opened VoteTask
  import VoteQuota

  datatype Report = Report(taskId: int, taskCmd: int, resultCode: int, successCount: int, msg: string)

  datatype Outcome = Returned(report: Report) | StillJoining

  /** A step of some session; `stored` says whether the statement it executes succeeds. */
  datatype Turn = Turn(action: Action, stored: bool)

  function Sum(adds: seq<int>): int {
    if adds == [] then 0 else Sum(adds[..|adds| - 1]) + adds[|adds| - 1]
  }

  /** The arguments of the calls of add_suc_count in a run. */
  function Additions(run: seq<Action>): seq<int> {
    if run == [] then []
    else (if run[0].AddSuccess? then [1] else []) + Additions(run[1..])
  }

  /** The shared state when the sessions of a task start, beside sessions of the daily task. */
  function Started(records: Records, idle: seq<string>, devices: Statuses, success: int,
                   started: set<string>, daily: set<string>): State {
    State(records, idle, devices, success,
          map ip | ip in started + daily :: if ip in started then Taking else DailyTaking, [], [], [])
  }

  ghost function AfterTurn(task: Task, s: State, turn: Turn): State {
    if Enabled(s, turn.action) then Step(task, s, turn.action) else s
  }

  /** What the sessions do when they get to run by a schedule and a turn that cannot be made is skipped. */
  ghost function Made(task: Task, s: State, schedule: seq<Turn>): (run: seq<Action>)
    ensures IsRun(task, s, run)
    decreases |schedule|
  {
    if schedule == [] then []
    else
      var a := schedule[0].action;
      if Enabled(s, a) then
        var rest := Made(task, Step(task, s, a), schedule[1..]);
        assert ([a] + rest)[1..] == rest;
        [a] + rest
      else Made(task, s, schedule[1..])
  }

  /** The state in which a fresh task object leaves the shared objects after a schedule. */
  ghost function TaskEnd(task: Task, records: Records, idle: seq<string>, devices: Statuses, daily: set<string>,
                         schedule: seq<Turn>): State
  {
    var s := Started(records, idle, devices, 0, Where(devices, Is(ONLINE_IDLE)), daily);
    Exec(task, s, Made(task, s, schedule))
  }

  /** Every statement the sessions execute is stored. */
  predicate AllStored(schedule: seq<Turn>) {
    forall i :: 0 <= i < |schedule| ==> schedule[i].stored
  }

  ghost predicate HaveReturned(s: State, started: set<string>) {
    forall ip :: ip in started ==> ip in s.sessions && s.sessions[ip].Done?
  }

  /** The setter of the account manager a step calls, if any. */
  datatype Storing = Nothing | Stores(setter: Setter)

  function StoredBy(task: Task, s: State, a: Action): Storing
    requires Enabled(s, a)
  {
    match a
    case Reply(ip, VoteOk) => Stores(SetVote(s.sessions[ip].acc, task.url))
    case Reply(ip, VoteFailed(true)) => Stores(SetStatus(s.sessions[ip].acc, ABNORMAL))
    case DailyReturn(ip, true, _) => Stores(SetDaily(s.sessions[ip].acc, DAILY_FINISHED))
    case DailyReturn(ip, false, true) => Stores(SetStatus(s.sessions[ip].acc, ABNORMAL))
    case _ => Nothing
  }

  /** The tables after a turn; a setter of an unknown account stores nothing. */
  function TablesAfter(task: Task, s: State, tables: Tables, turn: Turn): Tables {
    if !Enabled(s, turn.action) then tables
    else
      match StoredBy(task, s, turn.action)
      case Nothing => tables
      case Stores(setter) => AfterCall(Store(s.records, tables), SetterCall(setter, turn.stored)).tables
  }

  ghost function TablesMade(task: Task, s: State, tables: Tables, schedule: seq<Turn>): Tables
    decreases |schedule|
  {
    if schedule == [] then tables
    else TablesMade(task, AfterTurn(task, s, schedule[0]), TablesAfter(task, s, tables, schedule[0]), schedule[1..])
  }

  class WxVote {
    var successCount: int
    var targetCount: int

    constructor ()
      ensures successCount == 0
    {
      successCount := 0;
    }

    method AddSucCount(n: int)
      modifies this`successCount
      ensures successCount == old(successCount) + n
    {
      successCount := successCount + n;
    }

    predicate NeedVote()
      reads this
    {
      targetCount > successCount
    }

    method NeedWaitVote(devices: DeviceMgr) returns (wait: bool)
      ensures wait <==> successCount + Tally(devices.devices, Is(WX_VOTING)) == targetCount
    {
      var voting := devices.GetStatusCount(WX_VOTING);
      wait := successCount + voting == targetCount;
    }

    method IdleDevices(devices: DeviceMgr) returns (found: set<string>)
      ensures found == Where(devices.devices, Is(ONLINE_IDLE))
    {
      found := {};
      var todo := devices.devices.Keys;
      while todo != {}
        invariant todo <= devices.devices.Keys
        invariant forall ip :: ip in found <==>
          ip in devices.devices && ip !in todo && devices.devices[ip] == ONLINE_IDLE
        decreases todo
      {
        var ip :| ip in todo;
        if devices.devices[ip] == ONLINE_IDLE {
          found := found + {ip};
        }
        todo := todo - {ip};
      }
      assert found == Where(devices.devices, Is(ONLINE_IDLE));
    }

    /**
     `schedule` is the order in which the sessions get to run until the task is looked at
     again; a turn of a session that cannot make it is skipped. `run` is what was done, and any
     run is what some schedule makes (`EveryRunIsMade`).
     */
    method DoTask(taskId: int, taskCmd: int, votesCnt: int, url: string,
                  accounts: WxAccountMgr, devices: DeviceMgr, daily: set<string>, schedule: seq<Turn>)
      returns (outcome: Outcome, started: set<string>, ghost run: seq<Action>)
      modifies this, accounts, devices
      ensures targetCount == votesCnt
      ensures old(|Keep(accounts.idle, CountsForVote(accounts.records, url))|) < votesCnt ==>
        && outcome == Returned(Report(taskId, taskCmd, -1, 0, "There's no too many accounts."))
        && started == {} && run == [] && successCount == old(successCount)
        && accounts.Abs() == old(accounts.Abs()) && accounts.idle == old(accounts.idle)
        && devices.devices == old(devices.devices)
      ensures old(|Keep(accounts.idle, CountsForVote(accounts.records, url))|) >= votesCnt ==>
        var s := Started(old(accounts.records), old(accounts.idle), old(devices.devices),
                         old(successCount), started, daily);
        && started == Where(old(devices.devices), Is(ONLINE_IDLE))
        && run == Made(Task(url, votesCnt), s, schedule)
        && var e := Exec(Task(url, votesCnt), s, run);
           && accounts.records == e.records && accounts.idle == e.idle && devices.devices == e.devices
           && accounts.tables == TablesMade(Task(url, votesCnt), s, old(accounts.tables), schedule)
           && (outcome.Returned? <==> HaveReturned(e, started))
           && (outcome.Returned? ==> successCount == 0)
           && (outcome.Returned? ==>
                 outcome.report == Report(taskId, taskCmd, 0, old(successCount) + Sum(Additions(run)), "ok"))
           && (outcome.Returned? && Initial(s) ==>
                 outcome.report.successCount == |Voters(e.records, url)| - |Voters(old(accounts.records), url)|)
      ensures old(WellListed(accounts.records, accounts.idle)) && old(successCount) == 0 ==>
        WellListed(accounts.records, accounts.idle)
      ensures old(WellListed(accounts.records, accounts.idle)) && old(successCount) == 0 ==>
        Follows(old(accounts.Abs()), AllStored(schedule), accounts.Abs())
      ensures forall u :: u != url ==> Voters(accounts.records, u) == old(Voters(accounts.records, u))
      ensures 0 <= votesCnt <= old(|Keep(accounts.idle, CountsForVote(accounts.records, url))|) ==>
        old(|Takes(accounts.idle, CanVote(accounts.records, url), votesCnt)|) == votesCnt
    {
      targetCount := votesCnt;
      started, run := {}, [];
      var available := accounts.GetIdleNotVoteCount(url);
      if available < targetCount {
        return Returned(Report(taskId, taskCmd, -1, 0, "There's no too many accounts.")), started, run;
      }
      if votesCnt >= 0 {
        AdmissionIsSound(accounts.records, accounts.idle, url, votesCnt);
      }
      started := IdleDevices(devices);
      var sessions := new VoteSessions(Task(url, votesCnt), accounts, devices, this, started, daily);
      ghost var s := sessions.Abs();
      run := sessions.Join(schedule);
      TaskKeeps(Task(url, votesCnt), s, run);
      if Initial(s) {
        ScheduleFollows(Task(url, votesCnt), s, old(accounts.tables), schedule);
      }
      var all := sessions.AllReturned(started);
      if !all {
        return StillJoining, started, run;
      }
      outcome := Returned(Report(taskId, taskCmd, 0, successCount, "ok"));
      if Initial(s) {
        JoinedReportIsExact(Task(url, votesCnt), s, run, started);
      }
      successCount := 0;
    }
  }

  /** The sessions of one task: a phase per device, and every step on the shared objects. */
  class VoteSessions {
    const task: Task
    const accounts: WxAccountMgr
    const devices: DeviceMgr
    const vote: WxVote
    var sessions: map<string, Phase>
    var lost: seq<string>
    var marks: seq<string>
    var dailies: seq<string>

    function Abs(): State
      reads this, accounts, devices, vote
    {
      State(accounts.records, accounts.idle, devices.devices, vote.successCount, sessions, lost, marks, dailies)
    }

    constructor (task: Task, accounts: WxAccountMgr, devices: DeviceMgr, vote: WxVote,
                 started: set<string>, daily: set<string>)
      ensures this.task == task && this.accounts == accounts && this.devices == devices && this.vote == vote
      ensures Abs() == Started(accounts.records, accounts.idle, devices.devices, vote.successCount, started, daily)
    {
      this.task, this.accounts, this.devices, this.vote := task, accounts, devices, vote;
      sessions := map ip | ip in started + daily :: if ip in started then Taking else DailyTaking;
      lost, marks, dailies := [], [], [];
    }

    method TakeTurn(ip: string)
      requires Enabled(Abs(), Take(ip))
      modifies this, accounts
      ensures Abs() == Step(task, old(Abs()), Take(ip)) && accounts.tables == old(accounts.tables)
    {
      var found, acc := accounts.GetIdleNotVoteAccount(task.url);
      sessions := sessions[ip := if found then Gate(acc) else Leaving];
    }

    method GateTurn(a: Action)
      requires Enabled(Abs(), a) && (a.CheckWait? || a.CheckNeed? || a.Begin?)
      requires vote.targetCount == task.target
      modifies this, devices
      ensures Abs() == Step(task, old(Abs()), a)
    {
      var acc := sessions[a.ip].acc;
      match a
      case CheckWait(ip) =>
        var wait := vote.NeedWaitVote(devices);
        sessions := sessions[ip := if wait then Recheck(acc) else Starting(acc)];
      case CheckNeed(ip) =>
        if vote.NeedVote() {
          sessions := sessions[ip := Gate(acc)];
        } else {
          sessions := sessions[ip := Leaving];
          lost := lost + [acc];
        }
      case Begin(ip) =>
        devices.SetStatus(ip, WX_VOTING);
        sessions := sessions[ip := Voting(acc)];
    }

    method AnswerTurn(ip: string, answer: Answer, stored: bool)
      requires Enabled(Abs(), Reply(ip, answer))
      modifies this, accounts
      ensures Abs() == Step(task, old(Abs()), Reply(ip, answer))
      ensures accounts.tables == TablesAfter(task, old(Abs()), old(accounts.tables), Turn(Reply(ip, answer), stored))
    {
      var acc := sessions[ip].acc;
      match answer
      case VoteOk =>
        accounts.SetVoteStatus(acc, task.url, VOTED, stored);
        sessions := sessions[ip := Marked(acc)];
        marks := marks + [acc];
      case VoteFailed(abnormal) =>
        if abnormal {
          accounts.SetAccStatus(acc, ABNORMAL, stored);
        }
        sessions := sessions[ip := Releasing(acc)];
      case NoAnswer =>
        sessions := sessions[ip := Ending];
        lost := lost + [acc];
    }

    method FinishTurn(a: Action)
      requires Enabled(Abs(), a)
      requires a.SendFails? || a.AddSuccess? || a.Release? || a.End? || a.Leave? || a.DailyLose? || a.Other?
      modifies this, accounts, devices, vote`successCount
      ensures Abs() == Step(task, old(Abs()), a) && accounts.tables == old(accounts.tables)
    {
      match a
      case SendFails(ip) =>
        lost := lost + [sessions[ip].acc];
        sessions := sessions[ip := Taking];
      case AddSuccess(ip) =>
        vote.AddSucCount(1);
        sessions := sessions[ip := Releasing(sessions[ip].acc)];
      case Release(ip) =>
        accounts.SetIdleAccount(sessions[ip].acc);
        sessions := sessions[ip := Ending];
      case End(ip) =>
        devices.SetStatus(ip, WX_VOTE_END);
        sessions := sessions[ip := Taking];
      case Leave(ip) =>
        devices.SetStatus(ip, ONLINE_IDLE);
        sessions := sessions[ip := Done];
      case DailyLose(ip) =>
        lost := lost + [sessions[ip].acc];
        devices.SetStatus(ip, DAILY_TASK_END);
        sessions := sessions[ip := DailyTaking];
      case Other(ip, status) => devices.SetStatus(ip, status);
    }

    method DailyTakeTurn(ip: string)
      requires Enabled(Abs(), DailyTake(ip))
      modifies this, accounts, devices
      ensures Abs() == Step(task, old(Abs()), DailyTake(ip)) && accounts.tables == old(accounts.tables)
    {
      var found, acc := accounts.GetIdleNotDailyTaskAccount();
      if found {
        devices.SetStatus(ip, DAILY_TASK);
      }
      sessions := sessions[ip := if found then DailyHolding(acc) else Leaving];
    }

    method DailyReturnTurn(ip: string, done: bool, abnormal: bool, stored: bool)
      requires Enabled(Abs(), DailyReturn(ip, done, abnormal))
      modifies this, accounts, devices
      ensures Abs() == Step(task, old(Abs()), DailyReturn(ip, done, abnormal))
      ensures accounts.tables ==
              TablesAfter(task, old(Abs()), old(accounts.tables), Turn(DailyReturn(ip, done, abnormal), stored))
    {
      var acc := sessions[ip].acc;
      if done {
        accounts.SetEverydayTask(acc, DAILY_FINISHED, stored);
        dailies := dailies + [acc];
      } else if abnormal {
        accounts.SetAccStatus(acc, ABNORMAL, stored);
      }
      accounts.SetIdleAccount(acc);
      devices.SetStatus(ip, DAILY_TASK_END);
      sessions := sessions[ip := DailyTaking];
    }

    /**
     Every step of the protocol is what the calls on the shared objects do, and the tables change
     by the setter of the step and no other.
     */
    method Perform(turn: Turn)
      requires Enabled(Abs(), turn.action) && vote.targetCount == task.target
      modifies this, accounts, devices, vote`successCount
      ensures Abs() == Step(task, old(Abs()), turn.action)
      ensures accounts.tables == TablesAfter(task, old(Abs()), old(accounts.tables), turn)
    {
      match turn.action
      case Take(ip) => TakeTurn(ip);
      case CheckWait(_) => GateTurn(turn.action);
      case CheckNeed(_) => GateTurn(turn.action);
      case Begin(_) => GateTurn(turn.action);
      case Reply(ip, answer) => AnswerTurn(ip, answer, turn.stored);
      case DailyTake(ip) => DailyTakeTurn(ip);
      case DailyReturn(ip, done, abnormal) => DailyReturnTurn(ip, done, abnormal, turn.stored);
      case _ => FinishTurn(turn.action);
    }

    /** Lets the sessions run by a schedule. */
    method Join(schedule: seq<Turn>) returns (ghost run: seq<Action>)
      requires vote.targetCount == task.target
      modifies this, accounts, devices, vote`successCount
      ensures run == Made(task, old(Abs()), schedule) && Abs() == Exec(task, old(Abs()), run)
      ensures accounts.tables == TablesMade(task, old(Abs()), old(accounts.tables), schedule)
    {
      run := Made(task, Abs(), schedule);
      ghost var end, tables := Exec(task, Abs(), run), TablesMade(task, Abs(), accounts.tables, schedule);
      for i := 0 to |schedule|
        invariant Exec(task, Abs(), Made(task, Abs(), schedule[i..])) == end
        invariant TablesMade(task, Abs(), accounts.tables, schedule[i..]) == tables
      {
        MadeNext(task, Abs(), accounts.tables, schedule, i);
        if Enabled(Abs(), schedule[i].action) {
          Perform(schedule[i]);
        }
      }
    }

    method AllReturned(started: set<string>) returns (all: bool)
      ensures all <==> forall ip :: ip in started ==> ip in sessions && sessions[ip].Done?
    {
      var todo := started;
      while todo != {}
        invariant todo <= started
        invariant forall ip :: ip in started - todo ==> ip in sessions && sessions[ip].Done?
        decreases todo
      {
        var ip :| ip in todo;
        if ip !in sessions || !sessions[ip].Done? {
          return false;
        }
        todo := todo - {ip};
      }
      all := true;
    }
  }

  // ---------------------------------------------------------------- schedules

  lemma MadeNext(task: Task, s: State, tables: Tables, schedule: seq<Turn>, i: nat)
    requires i < |schedule|
    ensures var next := AfterTurn(task, s, schedule[i]);
            && Exec(task, s, Made(task, s, schedule[i..])) == Exec(task, next, Made(task, next, schedule[i + 1..]))
            && TablesMade(task, s, tables, schedule[i..]) ==
               TablesMade(task, next, TablesAfter(task, s, tables, schedule[i]), schedule[i + 1..])
  {
    assert schedule[i..][1..] == schedule[i + 1..];
    if Enabled(s, schedule[i].action) {
      var rest := Made(task, Step(task, s, schedule[i].action), schedule[i + 1..]);
      assert ([schedule[i].action] + rest)[1..] == rest;
    }
  }

  function ActionsOf(schedule: seq<Turn>): seq<Action> {
    seq(|schedule|, i requires 0 <= i < |schedule| => schedule[i].action)
  }

  /** A schedule that is a run is made as it stands, so the sessions can do every run of the protocol. */
  lemma {:induction false} EveryRunIsMade(task: Task, s: State, schedule: seq<Turn>)
    requires IsRun(task, s, ActionsOf(schedule))
    ensures Made(task, s, schedule) == ActionsOf(schedule)
    decreases |schedule|
  {
    if schedule != [] {
      assert ActionsOf(schedule)[1..] == ActionsOf(schedule[1..]);
      EveryRunIsMade(task, Step(task, s, schedule[0].action), schedule[1..]);
    }
  }

  /** What a task leaves as it was, and what it counts. */
  lemma TaskKeeps(task: Task, s: State, run: seq<Action>)
    requires IsRun(task, s, run)
    ensures var e := Exec(task, s, run);
            && (forall url :: url != task.url ==> Voters(e.records, url) == Voters(s.records, url))
            && (Initial(s) ==> WellListed(e.records, e.idle) && e.records.Keys == s.records.Keys)
            && e.success == s.success + Sum(Additions(run))
  {
    if Initial(s) {
      AccountsAreConserved(task, s, run);
    }
    forall url | url != task.url
      ensures Voters(Exec(task, s, run).records, url) == Voters(s.records, url)
    {
      OtherUrlsUntouched(task, s, run, url);
    }
    CountIsTheSum(task, s, run);
  }

  // ---------------------------------------------------------------- the tables

  /** A store that still agrees with its tables if every statement was stored, and never lags behind them. */
  ghost predicate Follows(before: Store, allStored: bool, st: Store) {
    && (InSync(before) && allStored ==> InSync(st))
    && (NeverAhead(before) ==> NeverAhead(st))
  }

  lemma FollowsOn(before: Store, first: bool, st: Store, second: bool, st': Store)
    requires Follows(before, first, st) && Follows(st, second, st')
    ensures Follows(before, first && second, st')
  {
  }

  lemma StepRecords(task: Task, s: State, a: Action)
    requires Enabled(s, a)
    ensures s.records.Keys <= Step(task, s, a).records.Keys
    ensures StoredBy(task, s, a).Nothing? && Step(task, s, a).records.Keys == s.records.Keys ==>
              Step(task, s, a).records == s.records
  {
    var acc := RecordsAfter(task, s, a);
  }

  lemma TurnFollows(task: Task, s: State, tables: Tables, turn: Turn)
    requires AfterTurn(task, s, turn).records.Keys == s.records.Keys
    ensures Follows(Store(s.records, tables), turn.stored,
                    Store(AfterTurn(task, s, turn).records, TablesAfter(task, s, tables, turn)))
  {
    if Enabled(s, turn.action) {
      StepRecords(task, s, turn.action);
      match StoredBy(task, s, turn.action)
      case Nothing =>
      case Stores(setter) =>
        var st, c := Store(s.records, tables), SetterCall(setter, turn.stored);
        assert Store(AfterTurn(task, s, turn).records, TablesAfter(task, s, tables, turn)) == AfterCall(st, c);
        if InSync(st) {
          AgreementKeptIff(st, c);
        }
        if NeverAhead(st) {
          CallKeepsNeverAhead(st, c);
        }
    }
  }

  lemma {:induction false} KeysOnlyGrow(task: Task, s: State, schedule: seq<Turn>)
    ensures s.records.Keys <= Exec(task, s, Made(task, s, schedule)).records.Keys
    decreases |schedule|
  {
    if schedule != [] {
      if Enabled(s, schedule[0].action) {
        StepRecords(task, s, schedule[0].action);
      }
      MadeNext(task, s, Tables([], []), schedule, 0);
      assert schedule[0..] == schedule;
      KeysOnlyGrow(task, AfterTurn(task, s, schedule[0]), schedule[1..]);
    }
  }

  /** As long as no record is created, what a schedule does to memory and tables keeps them together. */
  lemma {:induction false} ScheduleFollows(task: Task, s: State, tables: Tables, schedule: seq<Turn>)
    requires Exec(task, s, Made(task, s, schedule)).records.Keys == s.records.Keys
    ensures Follows(Store(s.records, tables), AllStored(schedule),
                    Store(Exec(task, s, Made(task, s, schedule)).records, TablesMade(task, s, tables, schedule)))
    decreases |schedule|
  {
    if schedule != [] {
      var next := AfterTurn(task, s, schedule[0]);
      MadeNext(task, s, tables, schedule, 0);
      assert schedule[0..] == schedule;
      if Enabled(s, schedule[0].action) {
        StepRecords(task, s, schedule[0].action);
      }
      KeysOnlyGrow(task, next, schedule[1..]);
      TurnFollows(task, s, tables, schedule[0]);
      ScheduleFollows(task, next, TablesAfter(task, s, tables, schedule[0]), schedule[1..]);
    }
  }

  // ---------------------------------------------------------------- the reported count

  lemma {:induction false} SumJoin(a: seq<int>, b: seq<int>)
    ensures Sum(a + b) == Sum(a) + Sum(b)
  {
    if b == [] {
      assert a + b == a;
    } else {
      assert (a + b)[..|a + b| - 1] == a + b[..|b| - 1];
      SumJoin(a, b[..|b| - 1]);
    }
  }

  /** The counter grows by the sum of the additions of the run. */
  lemma {:induction false} CountIsTheSum(task: Task, s: State, run: seq<Action>)
    requires IsRun(task, s, run)
    ensures Exec(task, s, run).success == s.success + Sum(Additions(run))
    decreases |run|
  {
    if run != [] {
      VoteQuota.SuccessOfStep(task, s, run[0]);
      CountIsTheSum(task, Step(task, s, run[0]), run[1..]);
      SumJoin(if run[0].AddSuccess? then [1] else [], Additions(run[1..]));
      assert Sum([1]) == 1;
    }
  }

  /** Only the started sessions have to return for the count to be exact. */
  lemma JoinedReportIsExact(task: Task, s: State, run: seq<Action>, started: set<string>)
    requires Initial(s) && IsRun(task, s, run)
    requires forall ip :: ip in s.sessions && !s.sessions[ip].DailyTaking? ==> ip in started
    requires forall ip :: ip in started ==> ip in Exec(task, s, run).sessions && Exec(task, s, run).sessions[ip].Done?
    ensures var e := Exec(task, s, run);
            e.success == |Voters(e.records, task.url)| - |Voters(s.records, task.url)|
  {
    DailySessionsStayDaily(task, s, run, started);
    ReportIsExact(task, s, run);
  }

  predicate IsDaily(p: Phase) {
    p.DailyTaking? || p.DailyHolding? || p.Leaving? || p.Done?
  }

  lemma {:induction false} DailySessionsStayDaily(task: Task, s: State, run: seq<Action>, started: set<string>)
    requires IsRun(task, s, run)
    requires forall ip :: ip in s.sessions && ip !in started ==> IsDaily(s.sessions[ip])
    ensures var e := Exec(task, s, run);
            forall ip :: ip in e.sessions && ip !in started ==> IsDaily(e.sessions[ip])
    decreases |run|
  {
    if run != [] {
      VoteQuota.SessionOfStep(task, s, run[0]);
      DailySessionsStayDaily(task, Step(task, s, run[0]), run[1..], started);
    }
  }

  lemma SumWithout(before: seq<int>, x: int, after: seq<int>)
    ensures Sum(before + [x] + after) == Sum(before + after) + x
    ensures multiset(before + [x] + after) == multiset(before + after) + multiset{x}
  {
    SumJoin(before + [x], after);
    SumJoin(before, [x]);
    SumJoin(before, after);
    assert Sum([x]) == x;
  }

  lemma SameBagWithout(a: multiset<int>, b: multiset<int>, x: int)
    requires a + multiset{x} == b + multiset{x}
    ensures a == b
  {
    assert a == a + multiset{x} - multiset{x};
    assert b == b + multiset{x} - multiset{x};
  }

  /** The report does not depend on how the additions of the sessions interleave. */
  lemma {:induction false} SumIgnoresOrder(a: seq<int>, b: seq<int>)
    requires multiset(a) == multiset(b)
    ensures Sum(a) == Sum(b)
    decreases |a|
  {
    if a == [] {
      assert |b| == |multiset(b)| == 0;
    } else {
      var n := |a| - 1;
      var x, init := a[n], a[..n];
      assert a == init + [x];
      assert x in multiset(b);
      var i :| 0 <= i < |b| && b[i] == x;
      var before, after := b[..i], b[i + 1..];
      assert b == before + [x] + after;
      SumWithout(before, x, after);
      SameBagWithout(multiset(init), multiset(before + after), x);
      SumIgnoresOrder(init, before + after);
    }
  }

  // ---------------------------------------------------------------- the start of a task

  /** A task begins within its quota exactly when its target is not negative. */
  lemma TaskStartsWithinQuotaIff(task: Task, records: Records, idle: seq<string>, devices: Statuses, daily: set<string>)
    requires forall ip :: ip in devices ==> devices[ip] != WX_VOTING
    ensures var s := Started(records, idle, devices, 0, Where(devices, Is(ONLINE_IDLE)), daily);
            VoteQuota.Quota(task, s) <==> task.target >= 0
  {
    TallyZero(devices, Is(WX_VOTING));
  }

  /** The first task after a complete load of a table without repeated accounts starts afresh. */
  lemma TaskAfterLoadIsInitial(info: seq<Row>, votes: seq<Vote>, devices: Statuses, started: set<string>,
                               daily: set<string>)
    requires forall i, j :: 0 <= i < j < |info| ==> info[i].acc != info[j].acc
    ensures Initial(Started(Loaded(info, votes), LoadedNames(info), devices, 0, started, daily))
  {
    LoadedHasRow(info, votes);
  }

  /** From such a load on, the accounts of the table are idle, held or lost, and only one of these. */
  lemma LoadedAccountsAreConserved(task: Task, info: seq<Row>, votes: seq<Vote>, devices: Statuses,
                                   started: set<string>, daily: set<string>, run: seq<Action>)
    requires forall i, j :: 0 <= i < j < |info| ==> info[i].acc != info[j].acc
    requires IsRun(task, Started(Loaded(info, votes), LoadedNames(info), devices, 0, started, daily), run)
    ensures var s := Started(Loaded(info, votes), LoadedNames(info), devices, 0, started, daily);
            var e := Exec(task, s, run);
            && Owned(set row | row in info :: row.acc, e.idle, e.lost, e.sessions)
            && e.records.Keys == set row | row in info :: row.acc
  {
    var s := Started(Loaded(info, votes), LoadedNames(info), devices, 0, started, daily);
    TaskAfterLoadIsInitial(info, votes, devices, started, daily);
    AccountsAreConserved(task, s, run);
    LoadedHasRow(info, votes);
    forall acc
      ensures acc in Members(LoadedNames(info)) <==> acc in (set row | row in info :: row.acc)
    {
      if acc in LoadedNames(info) {
        var i :| 0 <= i < |info| && LoadedNames(info)[i] == acc;
        assert info[i] in info;
      }
      if acc in (set row | row in info :: row.acc) {
        var i :| 0 <= i < |info| && info[i].acc == acc;
        assert LoadedNames(info)[i] == acc;
      }
    }
    assert Members(LoadedNames(info)) == set row | row in info :: row.acc;
  }
}
