/** The account manager: records, idle list and tables, updated in place. */
module AccountMgr {
  import opened IdleList
  import opened Accounts

  /** Where a statement of a load throws, if any does. */
  datatype LoadFailure =
    | NoFailure
    | RowsFail(row: nat)   // fetching this row, or noticing the end after the last one
    | VotesFail(row: nat)  // querying the votes of this row
  {
    predicate Hits(rows: nat) {
      (RowsFail? && row <= rows) || (VotesFail? && row < rows)
    }
  }

  class WxAccountMgr {
    var records: Records
    var idle: seq<string>
    var tables: Tables

    function Abs(): Store
      reads this
    {
      Store(records, tables)
    }

    constructor (tables: Tables)
      ensures records == map[] && idle == [] && this.tables == tables
    {
      records, idle, this.tables := map[], [], tables;
    }

    method ReadVotes(acc: string) returns (urls: set<string>)
      ensures urls == VotesOf(tables.votes, acc)
    {
      urls := {};
      for i := 0 to |tables.votes|
        invariant urls == VotesOf(tables.votes[..i], acc)
      {
        var v := tables.votes[i];
        assert tables.votes[..i + 1] == tables.votes[..i] + [v];
        VotesOfAppended(tables.votes[..i], v, acc);
        if v.acc == acc {
          urls := urls + {v.url};
        }
      }
      assert tables.votes[..|tables.votes|] == tables.votes;
    }

    /** The name is listed before the votes of the account are queried and the record is inserted. */
    method LoadData(failure: LoadFailure) returns (ok: bool)
      modifies this`records, this`idle
      ensures ok <==> !failure.Hits(|tables.info|)
      ensures var read := if ok then |tables.info| else failure.row;
              && records == Loaded(tables.info[..read], tables.votes)
              && idle == LoadedNames(tables.info[..if failure == VotesFail(read) && !ok then read + 1 else read])
      ensures ok ==> InSync(Abs())
    {
      records := map[];
      idle := [];
      for i := 0 to |tables.info|
        invariant records == Loaded(tables.info[..i], tables.votes)
        invariant idle == LoadedNames(tables.info[..i])
        invariant failure.Hits(|tables.info|) ==> i <= failure.row
      {
        if failure == RowsFail(i) {
          return false;
        }
        var row := tables.info[i];
        assert tables.info[..i + 1][..i] == tables.info[..i];
        idle := idle + [row.acc];
        if failure == VotesFail(i) {
          return false;
        }
        var urls := ReadVotes(row.acc);
        if row.acc !in records {
          records := records[row.acc := Account(row.profile, row.daily, row.status, urls)];
        }
      }
      assert tables.info[..|tables.info|] == tables.info;
      ok := failure != RowsFail(|tables.info|);
    }

    function GetVoteStatus(acc: string, url: string): (status: int)
      reads this
      ensures status == NOT_VOTE <==> acc in records && url !in records[acc].voted
      ensures status == VOTED <==> acc !in records || acc in Voters(records, url)
    {
      VoteStatus(records, acc, url)
    }

    method SetVoteStatus(acc: string, url: string, status: int, stored: bool)
      modifies this`records, this`tables
      ensures Abs() == AfterCall(old(Abs()), SetterCall(SetVote(acc, url), stored))
      ensures records.Keys == old(records).Keys && acc !in old(records) ==> tables == old(tables)
      ensures forall a :: a in records ==>
        records[a] == if a == acc then old(records)[a].(voted := old(records)[a].voted + {url}) else old(records)[a]
      ensures acc in records ==>
        tables == Tables(old(tables).info, old(tables).votes + if stored then [Vote(acc, url)] else [])
    {
      if acc !in records {
        return;
      }
      records := records[acc := records[acc].(voted := records[acc].voted + {url})];
      if stored {
        InfoUnchangedByVote(tables.info, acc, url);
        tables := tables.(votes := tables.votes + [Vote(acc, url)]);
      }
    }

    method SetAccStatus(acc: string, status: int, stored: bool)
      modifies this`records, this`tables
      ensures Abs() == AfterCall(old(Abs()), SetterCall(SetStatus(acc, status), stored))
      ensures records.Keys == old(records).Keys && tables.votes == old(tables).votes
      ensures forall a :: a in records ==>
        records[a] == if a == acc then old(records)[a].(status := status) else old(records)[a]
      ensures |tables.info| == |old(tables).info|
      ensures forall i :: 0 <= i < |tables.info| ==>
        var row := old(tables).info[i];
        tables.info[i] == if stored && acc in records && row.acc == acc then row.(status := status) else row
    {
      if acc !in records {
        return;
      }
      records := records[acc := records[acc].(status := status)];
      if stored {
        tables := tables.(info := UpdatedInfo(tables.info, SetStatus(acc, status)));
      }
    }

    method SetEverydayTask(acc: string, done: int, stored: bool)
      modifies this`records, this`tables
      ensures Abs() == AfterCall(old(Abs()), SetterCall(SetDaily(acc, done), stored))
      ensures records.Keys == old(records).Keys && tables.votes == old(tables).votes
      ensures forall a :: a in records ==>
        records[a] == if a == acc then old(records)[a].(daily := done) else old(records)[a]
      ensures |tables.info| == |old(tables).info|
      ensures forall i :: 0 <= i < |tables.info| ==>
        var row := old(tables).info[i];
        tables.info[i] == if stored && acc in records && row.acc == acc then row.(daily := done) else row
    {
      if acc !in records {
        return;
      }
      records := records[acc := records[acc].(daily := done)];
      if stored {
        tables := tables.(info := UpdatedInfo(tables.info, SetDaily(acc, done)));
      }
    }

    /** One statement per account; `stored(acc)` says whether it succeeds. */
    method ResetAllEverydayTask(stored: string -> bool)
      modifies this`records, this`tables
      ensures records == ResetDaily(old(records)) && records.Keys == old(records).Keys
      ensures forall acc :: acc in records ==>
        records[acc].daily == DAILY_NOT_FINISHED && records[acc] == old(records)[acc].(daily := records[acc].daily)
      ensures tables.votes == old(tables).votes && |tables.info| == |old(tables).info|
      ensures forall i :: 0 <= i < |tables.info| ==>
        var row := old(tables).info[i];
        tables.info[i] == if row.acc in records && stored(row.acc) then row.(daily := DAILY_NOT_FINISHED) else row
      ensures old(InSync(Abs())) && (forall acc :: acc in records ==> stored(acc)) ==> InSync(Abs())
    {
      var todo := records.Keys;
      while todo != {}
        invariant todo <= records.Keys == old(records).Keys
        invariant forall acc :: acc in records ==>
          records[acc] == if acc in todo then old(records)[acc]
                          else old(records)[acc].(daily := DAILY_NOT_FINISHED)
        invariant tables.votes == old(tables).votes && |tables.info| == |old(tables).info|
        invariant forall i :: 0 <= i < |tables.info| ==>
          var row := old(tables).info[i];
          tables.info[i] == if row.acc in records && row.acc !in todo && stored(row.acc)
                            then row.(daily := DAILY_NOT_FINISHED) else row
        invariant old(InSync(Abs())) && (forall acc :: acc in old(records) ==> stored(acc)) ==> InSync(Abs())
        decreases todo
      {
        var acc :| acc in todo;
        ghost var before := Abs();
        SetEverydayTask(acc, DAILY_NOT_FINISHED, stored(acc));
        if InSync(before) {
          AgreementKeptIff(before, SetterCall(SetDaily(acc, DAILY_NOT_FINISHED), stored(acc)));
        }
        todo := todo - {acc};
      }
    }

    /** Takes the first idle account that has not voted for `url` and is not abnormal. */
    method GetIdleNotVoteAccount(url: string) returns (found: bool, acc: string)
      modifies this`idle
      ensures var i := First(old(idle), CanVote(records, url));
              && (found <==> i < |old(idle)|)
              && (found ==> acc == old(idle)[i] && idle == Without(old(idle), i))
              && (!found ==> idle == old(idle))
      ensures found ==> acc in records && acc !in Voters(records, url) && records[acc].status != ABNORMAL
      ensures !found ==> forall a :: a in idle ==>
        a !in records || a in Voters(records, url) || records[a].status == ABNORMAL
    {
      var i := 0;
      while i < |idle|
        invariant 0 <= i <= |idle|
        invariant forall j :: 0 <= j < i ==> !CanVote(records, url)(idle[j])
      {
        if GetVoteStatus(idle[i], url) == VOTED || records[idle[i]].status == ABNORMAL {
          i := i + 1;
          continue;
        }
        FirstIs(idle, CanVote(records, url), i);
        acc := idle[i];
        idle := idle[..i] + idle[i + 1..];
        return true, acc;
      }
      return false, "";
    }

    method GetIdleNotVoteCount(url: string) returns (cnt: nat)
      ensures cnt == |Keep(idle, CountsForVote(records, url))|
    {
      cnt := 0;
      for i := 0 to |idle|
        invariant cnt == |Keep(idle[..i], CountsForVote(records, url))|
      {
        assert idle[..i + 1] == idle[..i] + [idle[i]];
        KeepConcat(idle[..i], [idle[i]], CountsForVote(records, url));
        if GetVoteStatus(idle[i], url) == NOT_VOTE && records[idle[i]].status == NORMAL {
          cnt := cnt + 1;
        }
      }
      assert idle[..|idle|] == idle;
    }

    /** The lookup of a name without a record creates a blank one, which is then taken. */
    method GetIdleNotDailyTaskAccount() returns (found: bool, acc: string)
      modifies this`idle, this`records
      ensures var i := First(old(idle), CanDoDaily(old(records)));
              && (found <==> i < |old(idle)|)
              && (found ==> acc == old(idle)[i] && idle == Without(old(idle), i))
              && (!found ==> idle == old(idle))
      ensures found ==>
        acc in records && records[acc].daily != DAILY_FINISHED && records[acc].status != ABNORMAL
      ensures !found ==> forall a :: a in idle ==>
        a in records && (records[a].daily == DAILY_FINISHED || records[a].status == ABNORMAL)
      ensures records == if found then Touched(old(records), acc) else old(records)
      ensures forall a :: CanDoDaily(records)(a) == CanDoDaily(old(records))(a)
    {
      ghost var able := CanDoDaily(records);
      var i := 0;
      while i < |idle|
        invariant 0 <= i <= |idle|
        invariant records == old(records) && idle == old(idle)
        invariant forall j :: 0 <= j < i ==> !able(idle[j])
      {
        acc := idle[i];
        if acc !in records {
          records := records[acc := BLANK_ACCOUNT];
        }
        if records[acc].daily == DAILY_FINISHED || records[acc].status == ABNORMAL {
          i := i + 1;
          continue;
        }
        FirstIs(idle, able, i);
        idle := idle[..i] + idle[i + 1..];
        return true, acc;
      }
      return false, "";
    }

    method SetIdleAccount(acc: string)
      modifies this`idle
      ensures idle == old(idle) + [acc]
    {
      idle := idle + [acc];
    }
  }

  lemma VotesOfAppended(votes: seq<Vote>, v: Vote, acc: string)
    ensures VotesOf(votes + [v], acc) == VotesOf(votes, acc) + if v.acc == acc then {v.url} else {}
  {
    VotesOfUpdated(votes, SetVote(v.acc, v.url), acc);
  }

  lemma InfoUnchangedByVote(info: seq<Row>, acc: string, url: string)
    ensures UpdatedInfo(info, SetVote(acc, url)) == info
  {
  }
}
