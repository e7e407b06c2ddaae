/** The worker loop: pop an entry, run it, store its result, mark it finished. */
module MainTask {
  import opened Counting
  import opened WorkQueue
  import opened Accounts
  import opened AccountMgr
  import opened Devices
  import opened WxVote
  import opened IdleList
  import opened VoteTask

  const CMD_SCHE_WX_VOTE := 0x1000_0000

  /** A queued entry, its description already parsed. */
  datatype TaskInfo = TaskInfo(id: int, cmd: int, votesCnt: int, url: string)

  /** A result string: empty, or the text of a report. */
  datatype Text = Empty | Json(report: Report)

  datatype Write = SetResult(id: int, result: Text) | SetFinished(id: int)

  /** An entry the loop has finished, with the report of its vote if it was one. */
  datatype Served = Voted(info: TaskInfo, report: Report) | Ignored(info: TaskInfo)

  /** What other threads and the sessions do while the loop serves one entry. */
  datatype Round = Round(before: seq<Section<TaskInfo>>, waits: seq<seq<Section<TaskInfo>>>,
                         daily: set<string>, schedule: seq<Turn>)

  /** Where the loop stands when its observation ends. */
  datatype Standing =
    | Between              // about to pop
    | Waiting              // asleep in pop_task
    | Ended                // the default entry of a drained queue does not parse
    | Joining(info: TaskInfo) // the sessions of this entry have not all returned

  /** Why the loop stands where it does: the queue has nothing for it, or a vote has not ended. */
  predicate Justified(standing: Standing, tasks: seq<TaskInfo>, stopped: bool) {
    match standing
    case Between => true
    case Waiting => tasks == [] && !stopped
    case Ended => tasks == [] && stopped
    case Joining(info) => info.cmd == CMD_SCHE_WX_VOTE
  }

  /** The result string lives across iterations and only a vote replaces it. */
  function ResultAfter(served: Served, result: Text): Text {
    if served.Voted? then Json(served.report) else result
  }

  /** What the loop writes for the entries it serves, starting from a given result string. */
  function Writes(served: seq<Served>, result: Text): seq<Write>
    decreases |served|
  {
    if served == [] then []
    else
      var result' := ResultAfter(served[0], result);
      [SetResult(served[0].info.id, result'), SetFinished(served[0].info.id)] + Writes(served[1..], result')
  }

  function LastResult(served: seq<Served>, result: Text): Text
    decreases |served|
  {
    if served == [] then result else LastResult(served[1..], ResultAfter(served[0], result))
  }

  function Infos(served: seq<Served>): seq<TaskInfo> {
    seq(|served|, i requires 0 <= i < |served| => served[i].info)
  }

  /** The entry the loop has popped and not finished. */
  function Unfinished(standing: Standing): seq<TaskInfo> {
    if standing.Joining? then [standing.info] else []
  }

  /** A vote reports on its own entry; anything else is not a vote command. */
  predicate Fits(served: Served) {
    if served.Voted? then
      && served.info.cmd == CMD_SCHE_WX_VOTE
      && served.report.taskId == served.info.id && served.report.taskCmd == served.info.cmd
      && (served.report.resultCode == 0 || (served.report.resultCode == -1 && served.report.successCount == 0))
    else served.info.cmd != CMD_SCHE_WX_VOTE
  }

  /** The report of a vote is what it added to the records; all else leaves every vote as it was. */
  ghost predicate Exact(served: Served, before: Records, after: Records) {
    && (forall url :: url != served.info.url ==> Voters(after, url) == Voters(before, url))
    && if served.Voted? && served.report.resultCode == 0
       then served.report.successCount == |Voters(after, served.info.url)| - |Voters(before, served.info.url)|
       else after == before
  }

  /**
   `snaps` are the store before the first and after each entry served: every report is exact, and
   memory and tables stay together as far as the statements are stored.
   */
  ghost predicate Chronicle(served: seq<Served>, snaps: seq<Store>, rounds: seq<Round>) {
    && |snaps| == |served| + 1 && |served| <= |rounds|
    && forall k :: 0 <= k < |served| ==> Recorded(served[k], snaps[k], rounds[k], snaps[k + 1])
  }

  ghost predicate Recorded(served: Served, before: Store, round: Round, after: Store) {
    Exact(served, before.records, after.records) && Follows(before, AllStored(round.schedule), after)
  }

  lemma ChronicleGrows(served: seq<Served>, snaps: seq<Store>, rounds: seq<Round>, done: seq<Served>, st: Store)
    requires Chronicle(served, snaps, rounds) && |done| <= 1 && |served| < |rounds|
    requires done != [] ==> Recorded(done[0], snaps[|served|], rounds[|served|], st)
    ensures Chronicle(served + done, if done == [] then snaps else snaps + [st], rounds)
  {
    if done == [] {
      assert served + done == served;
    } else {
      var served', snaps' := served + done, snaps + [st];
      forall k | 0 <= k < |served'|
        ensures Recorded(served'[k], snaps'[k], rounds[k], snaps'[k + 1])
      {
        if k < |served| {
          assert Recorded(served[k], snaps[k], rounds[k], snaps[k + 1]);
        } else {
          assert served'[k] == done[0] && snaps'[k + 1] == st;
        }
      }
    }
  }

  /** Successes reported for one url. */
  function Reported(served: seq<Served>, url: string): int {
    if served == [] then 0
    else
      var last := served[|served| - 1];
      Reported(served[..|served| - 1], url)
      + if last.Voted? && last.info.url == url then last.report.successCount else 0
  }

  /** Enough idle accounts are counted for the vote. */
  predicate Admits(records: Records, idle: seq<string>, info: TaskInfo) {
    |Keep(idle, CountsForVote(records, info.url))| >= info.votesCnt
  }

  predicate RoundsStored(rounds: seq<Round>, n: nat)
    requires n <= |rounds|
  {
    forall j :: 0 <= j < n ==> AllStored(rounds[j].schedule)
  }

  predicate Peaceful(round: Round) {
    OnlyAdds(round.before) && forall k :: 0 <= k < |round.waits| ==> OnlyAdds(round.waits[k])
  }

  /** No other thread pops or clears the queue. */
  predicate NobodyTakes(rounds: seq<Round>) {
    forall r :: 0 <= r < |rounds| ==> Peaceful(rounds[r])
  }

  class MainTask {
    var written: seq<Write>

    constructor ()
      ensures written == []
    {
      written := [];
    }

    /**
     A vote runs on a fresh task object and reports -1 exactly when too few accounts are
     counted; any other command leaves the result and the shared objects alone.
     */
    method DoWorkQueue(info: TaskInfo, result: Text, accounts: WxAccountMgr, devices: DeviceMgr,
                       daily: set<string>, schedule: seq<Turn>)
      returns (joined: bool, result': Text)
      modifies accounts, devices
      ensures info.cmd != CMD_SCHE_WX_VOTE ==>
        && joined && result' == result
        && accounts.Abs() == old(accounts.Abs()) && accounts.idle == old(accounts.idle)
        && devices.devices == old(devices.devices)
      ensures info.cmd == CMD_SCHE_WX_VOTE && joined ==> result'.Json? && Fits(Voted(info, result'.report))
      ensures info.cmd == CMD_SCHE_WX_VOTE && joined ==>
        (result'.report.resultCode == -1 <==> !old(Admits(accounts.records, accounts.idle, info)))
      ensures info.cmd == CMD_SCHE_WX_VOTE && joined && result'.report.resultCode == 0 &&
              old(WellListed(accounts.records, accounts.idle)) ==>
        result'.report.successCount ==
        |Voters(accounts.records, info.url)| - |Voters(old(accounts.records), info.url)|
      ensures joined && (info.cmd == CMD_SCHE_WX_VOTE ==> result'.report.resultCode == -1) ==>
        && accounts.Abs() == old(accounts.Abs()) && accounts.idle == old(accounts.idle)
        && devices.devices == old(devices.devices)
      ensures old(WellListed(accounts.records, accounts.idle)) ==> WellListed(accounts.records, accounts.idle)
      ensures old(WellListed(accounts.records, accounts.idle)) ==>
        Follows(old(accounts.Abs()), AllStored(schedule), accounts.Abs())
      ensures forall url :: url != info.url ==> Voters(accounts.records, url) == old(Voters(accounts.records, url))
      ensures !joined ==> result' == result && info.cmd == CMD_SCHE_WX_VOTE
      ensures !joined ==> old(Admits(accounts.records, accounts.idle, info))
      ensures info.cmd == CMD_SCHE_WX_VOTE && old(Admits(accounts.records, accounts.idle, info)) ==>
        var e := TaskEnd(Task(info.url, info.votesCnt), old(accounts.records), old(accounts.idle),
                         old(devices.devices), daily, schedule);
        && accounts.records == e.records && accounts.idle == e.idle && devices.devices == e.devices
        && (joined <==> HaveReturned(e, Where(old(devices.devices), Is(ONLINE_IDLE))))
    {
      if info.cmd != CMD_SCHE_WX_VOTE {
        return true, result;
      }
      var vote := new WxVote();
      var outcome, started, run := vote.DoTask(info.id, info.cmd, info.votesCnt, info.url,
                                               accounts, devices, daily, schedule);
      match outcome
      case StillJoining => return false, result;
      case Returned(report) =>
        joined := true;
        result' := Json(report);
    }

    method PopEntry(queue: WorkQueue<TaskInfo>, round: Round) returns (popped: PopResult<TaskInfo>)
      requires queue.Valid()
      modifies queue
      ensures queue.Valid() && old(queue.accepted) <= queue.accepted
      ensures Peaceful(round) ==>
        queue.removed == old(queue.removed) + if popped.Taken? then [popped.task] else []
      ensures !popped.Taken? ==> queue.tasks == [] && (popped.StillWaiting? <==> !queue.isStopped)
    {
      queue.Interfere(round.before);
      popped := queue.PopTask(round.waits);
    }

    /** One iteration of the loop, up to where it is held up. */
    method ServeOne(queue: WorkQueue<TaskInfo>, accounts: WxAccountMgr, devices: DeviceMgr,
                    round: Round, result: Text)
      returns (standing: Standing, done: seq<Served>, result': Text)
      requires queue.Valid()
      modifies this, queue, accounts, devices
      ensures queue.Valid() && old(queue.accepted) <= queue.accepted
      ensures if standing == Between then |done| == 1 && Fits(done[0]) else done == []
      ensures old(WellListed(accounts.records, accounts.idle)) ==>
        && WellListed(accounts.records, accounts.idle)
        && (done != [] ==> Exact(done[0], old(accounts.records), accounts.records))
        && Follows(old(accounts.Abs()), AllStored(round.schedule), accounts.Abs())
      ensures Justified(standing, queue.tasks, queue.isStopped)
      ensures done == [] && !standing.Joining? ==> accounts.Abs() == old(accounts.Abs())
      ensures result' == LastResult(done, result) && written == old(written) + Writes(done, result)
      ensures Peaceful(round) ==>
        queue.removed == old(queue.removed) + Infos(done) + Unfinished(standing)
    {
      done, result' := [], result;
      var popped := PopEntry(queue, round);
      if !popped.Taken? {
        return if popped.Drained? then Ended else Waiting, done, result';
      }
      var info := popped.task;
      var joined;
      joined, result' := DoWorkQueue(info, result, accounts, devices, round.daily, round.schedule);
      if !joined {
        return Joining(info), done, result';
      }
      standing := Between;
      done := [if info.cmd == CMD_SCHE_WX_VOTE then Voted(info, result'.report) else Ignored(info)];
      written := written + [SetResult(info.id, result')];
      written := written + [SetFinished(info.id)];
      assert Infos(done) == [info];
      assert Writes(done, result) == [SetResult(info.id, result'), SetFinished(info.id)];
    }

    /**
     Observes the loop for some rounds. Every entry it finishes gets one result and one
     finished mark, and as long as nobody else takes entries out, what it finished, the entry
     it is at and the queue are exactly the entries of the start and those accepted since.
     `snaps` are the store before the first and after each finished entry. If no account is
     listed twice at the start, every report is the growth in voters between two of them, so the
     reports for a url add up to the votes cast for it; and a reload would reproduce the store
     as long as all statements are stored.
     */
    method StartWorkQueue(queue: WorkQueue<TaskInfo>, accounts: WxAccountMgr, devices: DeviceMgr, rounds: seq<Round>)
      returns (served: seq<Served>, standing: Standing, ghost snaps: seq<Store>)
      requires queue.Valid()
      modifies this, queue, accounts, devices
      ensures queue.Valid() && old(queue.accepted) <= queue.accepted
      ensures written == old(written) + Writes(served, Empty)
      ensures forall k :: 0 <= k < |served| ==> Fits(served[k])
      ensures NobodyTakes(rounds) ==>
        old(queue.tasks) + queue.accepted[|old(queue.accepted)|..] ==
        Infos(served) + Unfinished(standing) + queue.tasks
      ensures if standing == Between then |served| == |rounds| else |served| < |rounds|
      ensures Justified(standing, queue.tasks, queue.isStopped)
      ensures |snaps| == |served| + 1 && snaps[0] == old(accounts.Abs())
      ensures !standing.Joining? ==> snaps[|served|] == accounts.Abs()
      ensures old(WellListed(accounts.records, accounts.idle)) ==>
        && Chronicle(served, snaps, rounds)
        && (forall url :: Reported(served, url) ==
              |Voters(snaps[|served|].records, url)| - |Voters(snaps[0].records, url)|)
        && Follows(snaps[0], RoundsStored(rounds, |served|), snaps[|served|])
        && (standing.Joining? ==> Follows(snaps[|served|], AllStored(rounds[|served|].schedule), accounts.Abs()))
    {
      var result := Empty;
      snaps := [accounts.Abs()];
      ghost var listed := WellListed(accounts.records, accounts.idle);
      served, standing := [], Between;
      var r := 0;
      while r < |rounds| && standing == Between
        invariant 0 <= r <= |rounds| && |served| == if standing == Between then r else r - 1
        invariant Justified(standing, queue.tasks, queue.isStopped)
        invariant queue.Valid() && old(queue.accepted) <= queue.accepted
        invariant written == old(written) + Writes(served, Empty) && result == LastResult(served, Empty)
        invariant forall k :: 0 <= k < |served| ==> Fits(served[k])
        invariant NobodyTakes(rounds) ==>
          queue.removed == old(queue.removed) + (Infos(served) + Unfinished(standing))
        invariant |snaps| == |served| + 1 && snaps[0] == old(accounts.Abs())
        invariant !standing.Joining? ==> snaps[|served|] == accounts.Abs()
        invariant listed ==> WellListed(accounts.records, accounts.idle)
        invariant listed ==> Chronicle(served, snaps, rounds)
        invariant listed && standing.Joining? ==>
          Follows(snaps[|served|], AllStored(rounds[|served|].schedule), accounts.Abs())
        decreases |rounds| - r
      {
        var done;
        standing, done, result := ServeOne(queue, accounts, devices, rounds[r], result);
        WritesJoin(served, Empty, done);
        assert Infos(served + done) == Infos(served) + Infos(done);
        if listed {
          ChronicleGrows(served, snaps, rounds, done, accounts.Abs());
        }
        if done != [] {
          snaps := snaps + [accounts.Abs()];
        }
        served := served + done;
        r := r + 1;
      }
      if listed {
        ReportsAddUp(served, snaps, rounds);
        StoresFollow(served, snaps, rounds);
      }
      if NobodyTakes(rounds) {
        EntriesBalance(old(queue.removed), old(queue.tasks), queue.accepted,
                       Infos(served) + Unfinished(standing), queue.tasks);
      }
    }
  }

  /** Exact reports add up to the growth in voters, for every url. */
  lemma {:induction false} ReportsAddUp(served: seq<Served>, snaps: seq<Store>, rounds: seq<Round>)
    requires Chronicle(served, snaps, rounds) && forall k :: 0 <= k < |served| ==> Fits(served[k])
    ensures forall url :: Reported(served, url) ==
              |Voters(snaps[|served|].records, url)| - |Voters(snaps[0].records, url)|
    decreases |served|
  {
    if served != [] {
      var n := |served| - 1;
      ReportsAddUp(served[..n], snaps[..n + 1], rounds);
      assert Recorded(served[n], snaps[n], rounds[n], snaps[n + 1]);
    }
  }

  lemma {:induction false} StoresFollow(served: seq<Served>, snaps: seq<Store>, rounds: seq<Round>)
    requires Chronicle(served, snaps, rounds)
    ensures Follows(snaps[0], RoundsStored(rounds, |served|), snaps[|served|])
    decreases |served|
  {
    if served != [] {
      var n := |served| - 1;
      StoresFollow(served[..n], snaps[..n + 1], rounds);
      FollowsOn(snaps[0], RoundsStored(rounds, n), snaps[n], AllStored(rounds[n].schedule), snaps[n + 1]);
    }
  }

  lemma EntriesBalance(removed: seq<TaskInfo>, tasks: seq<TaskInfo>, accepted: seq<TaskInfo>,
                       out: seq<TaskInfo>, tasks': seq<TaskInfo>)
    requires removed + tasks <= accepted && accepted == removed + out + tasks'
    ensures tasks + accepted[|removed + tasks|..] == out + tasks'
  {
    assert accepted[|removed|..] == out + tasks';
    assert accepted[|removed|..] == tasks + accepted[|removed + tasks|..];
  }

  lemma {:induction false} WritesJoin(served: seq<Served>, result: Text, more: seq<Served>)
    ensures Writes(served + more, result) == Writes(served, result) + Writes(more, LastResult(served, result))
    ensures LastResult(served + more, result) == LastResult(more, LastResult(served, result))
    decreases |served|
  {
    if served == [] {
      assert served + more == more;
    } else {
      assert (served + more)[1..] == served[1..] + more;
      WritesJoin(served[1..], ResultAfter(served[0], result), more);
    }
  }

  // ---------------------------------------------------------------- which report is written

  /** The report of the latest vote up to position `k`, or `initial` if there is none. */
  function LatestReport(served: seq<Served>, k: nat, initial: Text): Text
    requires k < |served|
  {
    if served[k].Voted? then Json(served[k].report)
    else if k == 0 then initial else LatestReport(served, k - 1, initial)
  }

  lemma {:induction false} LatestReportTail(served: seq<Served>, k: nat, result: Text)
    requires 0 < k < |served|
    ensures LatestReport(served[1..], k - 1, ResultAfter(served[0], result)) == LatestReport(served, k, result)
  {
    if k > 1 {
      LatestReportTail(served, k - 1, result);
    }
  }

  lemma {:induction false} WritesFrom(served: seq<Served>, result: Text, k: nat)
    requires k < |served|
    ensures |Writes(served, result)| == 2 * |served|
    ensures Writes(served, result)[2 * k] == SetResult(served[k].info.id, LatestReport(served, k, result))
    ensures Writes(served, result)[2 * k + 1] == SetFinished(served[k].info.id)
    decreases |served|
  {
    var result' := ResultAfter(served[0], result);
    if k > 0 {
      WritesFrom(served[1..], result', k - 1);
      LatestReportTail(served, k, result);
    } else if |served| > 1 {
      WritesFrom(served[1..], result', 0);
    }
  }

  /**
   Each finished entry gets exactly one result and then one finished mark, in pop order; an
   entry that is no vote gets the report of the vote before it.
   */
  lemma WorkerWritesLatestReports(served: seq<Served>, k: nat)
    requires k < |served|
    ensures |Writes(served, Empty)| == 2 * |served|
    ensures Writes(served, Empty)[2 * k] == SetResult(served[k].info.id, LatestReport(served, k, Empty))
    ensures Writes(served, Empty)[2 * k + 1] == SetFinished(served[k].info.id)
  {
    WritesFrom(served, Empty, k);
  }
}
