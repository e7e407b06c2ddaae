/** Account records, their eligibility for a task, and the two tables they are stored in. */
module Accounts {
  import opened IdleList

  const VOTED := 1
  const NOT_VOTE := 2
  const DAILY_NOT_FINISHED := 0
  const DAILY_FINISHED := 1
  const NORMAL := 0
  const ABNORMAL := 1

  datatype Profile = Profile(imei: string, imsi: string, nickname: string, password: string, wxh: string)

  datatype Account = Account(profile: Profile, daily: int, status: int, voted: set<string>)

  type Records = map<string, Account>

  /** What `operator[]` inserts for a missing key. */
  const BLANK_ACCOUNT := Account(Profile("", "", "", "", ""), 0, 0, {})

  function VoteStatus(records: Records, acc: string, url: string): int {
    if acc !in records then VOTED
    else if url !in records[acc].voted then NOT_VOTE
    else VOTED
  }

  /** The test of a take for a vote. */
  function CanVote(records: Records, url: string): string -> bool {
    acc => VoteStatus(records, acc, url) != VOTED && acc in records && records[acc].status != ABNORMAL
  }

  /** The test of the admission count. */
  function CountsForVote(records: Records, url: string): string -> bool {
    acc => VoteStatus(records, acc, url) == NOT_VOTE && acc in records && records[acc].status == NORMAL
  }

  /** The test of a take for the daily task; a missing record is created blank and passes. */
  function CanDoDaily(records: Records): string -> bool {
    acc => acc in records ==> records[acc].daily != DAILY_FINISHED && records[acc].status != ABNORMAL
  }

  function NotAbnormal(records: Records): string -> bool {
    acc => acc in records ==> records[acc].status != ABNORMAL
  }

  /** `operator[]` on a name without a record creates a blank one. */
  function Touched(records: Records, acc: string): Records {
    if acc in records then records else records[acc := BLANK_ACCOUNT]
  }

  function MarkVoted(records: Records, acc: string, url: string): Records {
    if acc !in records then records
    else records[acc := records[acc].(voted := records[acc].voted + {url})]
  }

  function WithStatus(records: Records, acc: string, status: int): Records {
    if acc !in records then records else records[acc := records[acc].(status := status)]
  }

  function WithDaily(records: Records, acc: string, daily: int): Records {
    if acc !in records then records else records[acc := records[acc].(daily := daily)]
  }

  function ResetDaily(records: Records): Records {
    map acc | acc in records :: records[acc].(daily := DAILY_NOT_FINISHED)
  }

  ghost function Voters(records: Records, url: string): set<string> {
    set acc | acc in records && url in records[acc].voted
  }

  ghost function Finishers(records: Records): set<string> {
    set acc | acc in records && records[acc].daily == DAILY_FINISHED
  }

  /** The answer depends on nothing but the record and its votes. */
  lemma VoteStatusIff(records: Records, acc: string, url: string)
    ensures VoteStatus(records, acc, url) == NOT_VOTE <==> acc in records && acc !in Voters(records, url)
    ensures VoteStatus(records, acc, url) == VOTED <==> acc !in records || acc in Voters(records, url)
  {
  }

  /** The record a lookup creates makes a name that could not vote eligible for everything. */
  lemma CreatedRecordIsFresh(records: Records, acc: string, url: string)
    requires acc !in records
    ensures !CanVote(records, url)(acc)
    ensures var records' := Touched(records, acc);
            && acc in records' && acc !in Voters(records', url) && acc !in Finishers(records')
            && CanVote(records', url)(acc) && CountsForVote(records', url)(acc) && CanDoDaily(records')(acc)
            && forall other :: other in records ==> other in records' && records'[other] == records[other]
  {
  }

  /** A reset leaves nobody finished and touches nothing but the daily marks. */
  lemma ResetFinishesNobody(records: Records)
    ensures Finishers(ResetDaily(records)) == {} && ResetDaily(records).Keys == records.Keys
    ensures forall acc :: acc in records ==>
              && ResetDaily(records)[acc].profile == records[acc].profile
              && ResetDaily(records)[acc].status == records[acc].status
              && ResetDaily(records)[acc].voted == records[acc].voted
  {
  }

  // ---------------------------------------------------------------- admission

  /** The admission count never promises more than the takes can deliver. */
  lemma AdmissionIsSound(records: Records, idle: seq<string>, url: string, n: nat)
    requires n <= |Keep(idle, CountsForVote(records, url))|
    ensures var got := Takes(idle, CanVote(records, url), n);
            && |got| == n
            && (forall acc :: acc in got ==> acc in idle && CanVote(records, url)(acc))
            && (Distinct(idle) ==> Distinct(got))
  {
    KeepFewer(idle, CountsForVote(records, url), CanVote(records, url));
    TakesAreThePrefix(idle, CanVote(records, url), n);
    KeepMembers(idle, CanVote(records, url));
    if Distinct(idle) {
      KeepDistinct(idle, CanVote(records, url));
    }
  }

  /**
   The count is exactly the number of takes that succeed in a row if and only if every idle
   account that has not voted and is not abnormal is normal.
   */
  lemma AdmissionIsExactIff(records: Records, idle: seq<string>, url: string)
    ensures (forall n: nat :: |Takes(idle, CanVote(records, url), n)| == n <==>
                         n <= |Keep(idle, CountsForVote(records, url))|)
       <==> (forall acc :: acc in idle && CanVote(records, url)(acc) ==> records[acc].status == NORMAL)
  {
    var able, counted := CanVote(records, url), CountsForVote(records, url);
    KeepFewer(idle, counted, able);
    forall n: nat
      ensures |Takes(idle, able, n)| == n <==> n <= |Keep(idle, able)|
    {
      TakesAreThePrefix(idle, able, n);
    }
    var all := |Keep(idle, able)|;
    if |Keep(idle, counted)| < all {
      assert |Takes(idle, able, all)| == all;
      var acc :| acc in idle && able(acc) && !counted(acc);
      assert records[acc].status != NORMAL;
    } else {
      forall acc | acc in idle && able(acc)
        ensures records[acc].status == NORMAL
      {
        assert counted(acc);
      }
    }
  }

  /** The idle list names every account at most once, and only accounts with a record. */
  predicate WellListed(records: Records, idle: seq<string>) {
    Distinct(idle) && forall acc :: acc in idle ==> acc in records
  }

  /** After a reset the daily takes return the non-abnormal idle accounts in order, then fail. */
  lemma DailyTakesAfterReset(records: Records, idle: seq<string>, n: nat)
    ensures var due := Keep(idle, NotAbnormal(records));
            Takes(idle, CanDoDaily(ResetDaily(records)), n) == due[..Min(n, |due|)]
  {
    TakesAreThePrefix(idle, CanDoDaily(ResetDaily(records)), n);
    SameKeep(idle, CanDoDaily(ResetDaily(records)), NotAbnormal(records));
  }

  // ---------------------------------------------------------------- tables

  datatype Row = Row(acc: string, profile: Profile, daily: int, status: int)

  datatype Vote = Vote(acc: string, url: string)

  /** The account table and the table of cast votes. */
  datatype Tables = Tables(info: seq<Row>, votes: seq<Vote>)

  function VotesOf(votes: seq<Vote>, acc: string): set<string> {
    set v | v in votes && v.acc == acc :: v.url
  }

  function AccountOf(row: Row, votes: seq<Vote>): Account {
    Account(row.profile, row.daily, row.status, VotesOf(votes, row.acc))
  }

  /** Inserting rows in order; a row whose key is already present is ignored. */
  function Loaded(info: seq<Row>, votes: seq<Vote>): Records {
    if info == [] then map[]
    else
      var records, row := Loaded(info[..|info| - 1], votes), info[|info| - 1];
      if row.acc in records then records else records[row.acc := AccountOf(row, votes)]
  }

  function LoadedNames(info: seq<Row>): seq<string> {
    seq(|info|, i requires 0 <= i < |info| => info[i].acc)
  }

  datatype Setter =
    | SetVote(acc: string, url: string)
    | SetStatus(acc: string, status: int)
    | SetDaily(acc: string, daily: int)

  /** A setter call together with whether its statement succeeded. */
  datatype SetterCall = SetterCall(setter: Setter, stored: bool)

  datatype Store = Store(records: Records, tables: Tables)

  function InMemory(records: Records, s: Setter): Records {
    match s
    case SetVote(acc, url) => MarkVoted(records, acc, url)
    case SetStatus(acc, status) => WithStatus(records, acc, status)
    case SetDaily(acc, daily) => WithDaily(records, acc, daily)
  }

  function UpdatedRow(row: Row, s: Setter): Row {
    if row.acc != s.acc then row
    else
      match s
      case SetVote(_, _) => row
      case SetStatus(_, status) => row.(status := status)
      case SetDaily(_, daily) => row.(daily := daily)
  }

  function UpdatedInfo(info: seq<Row>, s: Setter): seq<Row> {
    seq(|info|, i requires 0 <= i < |info| => UpdatedRow(info[i], s))
  }

  function UpdatedVotes(votes: seq<Vote>, s: Setter): seq<Vote> {
    if s.SetVote? then votes + [Vote(s.acc, s.url)] else votes
  }

  function InTables(tables: Tables, s: Setter): Tables {
    Tables(UpdatedInfo(tables.info, s), UpdatedVotes(tables.votes, s))
  }

  function AfterCall(st: Store, c: SetterCall): Store {
    if c.setter.acc !in st.records then st
    else Store(InMemory(st.records, c.setter),
               if c.stored then InTables(st.tables, c.setter) else st.tables)
  }

  function AfterCalls(st: Store, calls: seq<SetterCall>): Store
    decreases |calls|
  {
    if calls == [] then st else AfterCalls(AfterCall(st, calls[0]), calls[1..])
  }

  /** Reloading would reproduce the records in memory. */
  predicate InSync(st: Store) {
    st.records == Loaded(st.tables.info, st.tables.votes)
  }

  lemma VotesOfUpdated(votes: seq<Vote>, s: Setter, acc: string)
    ensures VotesOf(UpdatedVotes(votes, s), acc) ==
            VotesOf(votes, acc) + if s.SetVote? && s.acc == acc then {s.url} else {}
  {
    if s.SetVote? {
      var v := Vote(s.acc, s.url);
      assert UpdatedVotes(votes, s) == votes + [v];
      forall u | u in VotesOf(votes, acc)
        ensures u in VotesOf(votes + [v], acc)
      {
        assert Vote(acc, u) in votes + [v];
      }
      assert v in votes + [v];
    }
  }

  lemma InsertCommutes(before: Records, row: Row, votes: seq<Vote>, s: Setter)
    requires row.acc !in before
    requires VotesOf(UpdatedVotes(votes, s), row.acc) ==
             VotesOf(votes, row.acc) + if s.SetVote? && s.acc == row.acc then {s.url} else {}
    ensures InMemory(before[row.acc := AccountOf(row, votes)], s) ==
            InMemory(before, s)[row.acc := AccountOf(UpdatedRow(row, s), UpdatedVotes(votes, s))]
  {
    var added, added' := AccountOf(row, votes), AccountOf(UpdatedRow(row, s), UpdatedVotes(votes, s));
    if s.acc == row.acc {
      assert InMemory(before[row.acc := added], s) == before[row.acc := added'];
    } else {
      assert added' == added;
      if s.acc in before {
        var changed := InMemory(before, s)[s.acc];
        assert InMemory(before[row.acc := added], s) == before[row.acc := added][s.acc := changed];
      }
    }
  }

  lemma {:induction false} LoadedAfterUpdate(info: seq<Row>, votes: seq<Vote>, s: Setter)
    ensures Loaded(UpdatedInfo(info, s), UpdatedVotes(votes, s)) == InMemory(Loaded(info, votes), s)
  {
    if info != [] {
      var n := |info| - 1;
      assert UpdatedInfo(info, s)[..n] == UpdatedInfo(info[..n], s);
      LoadedAfterUpdate(info[..n], votes, s);
      VotesOfUpdated(votes, s, info[n].acc);
      if info[n].acc !in Loaded(info[..n], votes) {
        InsertCommutes(Loaded(info[..n], votes), info[n], votes, s);
      }
    }
  }

  lemma {:induction false} LoadedHasRow(info: seq<Row>, votes: seq<Vote>)
    ensures forall acc :: acc in Loaded(info, votes) <==> acc in LoadedNames(info)
  {
    if info != [] {
      var n := |info| - 1;
      LoadedHasRow(info[..n], votes);
      assert LoadedNames(info) == LoadedNames(info[..n]) + [info[n].acc];
    }
  }

  /** A loaded account is the first row of its name, with exactly the urls of its vote rows. */
  lemma {:induction false} LoadedIsFirstRow(info: seq<Row>, votes: seq<Vote>, i: nat)
    requires i < |info| && forall j :: 0 <= j < i ==> info[j].acc != info[i].acc
    ensures var row, records := info[i], Loaded(info, votes);
            && row.acc in records
            && records[row.acc].profile == row.profile
            && records[row.acc].daily == row.daily
            && records[row.acc].status == row.status
            && forall url :: url in records[row.acc].voted <==> Vote(row.acc, url) in votes
  {
    var n := |info| - 1;
    LoadedHasRow(info[..n], votes);
    if i < n {
      LoadedIsFirstRow(info[..n], votes, i);
    } else {
      assert info[n].acc !in LoadedNames(info[..n]);
      forall url
        ensures url in VotesOf(votes, info[n].acc) <==> Vote(info[n].acc, url) in votes
      {
      }
    }
  }

  /** Who can be taken, and who counts, read off the tables of a complete load. */
  lemma EligibleAfterLoad(info: seq<Row>, votes: seq<Vote>, url: string, i: nat)
    requires i < |info| && forall j :: 0 <= j < i ==> info[j].acc != info[i].acc
    ensures var row, records := info[i], Loaded(info, votes);
            && (CanVote(records, url)(row.acc) <==> row.status != ABNORMAL && Vote(row.acc, url) !in votes)
            && (CountsForVote(records, url)(row.acc) <==> row.status == NORMAL && Vote(row.acc, url) !in votes)
            && (CanDoDaily(records)(row.acc) <==> row.status != ABNORMAL && row.daily != DAILY_FINISHED)
  {
    LoadedIsFirstRow(info, votes, i);
  }

  /** A name without a row never votes, but a daily take hands it out. */
  lemma EligibleWithoutRow(info: seq<Row>, votes: seq<Vote>, url: string, acc: string)
    requires acc !in LoadedNames(info)
    ensures var records := Loaded(info, votes);
            !CanVote(records, url)(acc) && !CountsForVote(records, url)(acc) && CanDoDaily(records)(acc)
  {
    LoadedHasRow(info, votes);
  }

  function OpenRow(votes: seq<Vote>, url: string): Row -> bool {
    (row: Row) => row.status == NORMAL && Vote(row.acc, url) !in votes
  }

  /** After a load of unique accounts the admission count is the number of normal rows without a vote row. */
  lemma AdmissionCountsRows(info: seq<Row>, votes: seq<Vote>, url: string)
    requires forall i, j :: 0 <= i < j < |info| ==> info[i].acc != info[j].acc
    ensures |Keep(LoadedNames(info), CountsForVote(Loaded(info, votes), url))| == |Keep(info, OpenRow(votes, url))|
  {
    forall i | 0 <= i < |info|
      ensures CountsForVote(Loaded(info, votes), url)(LoadedNames(info)[i]) == OpenRow(votes, url)(info[i])
    {
      EligibleAfterLoad(info, votes, url, i);
    }
    SameCount(LoadedNames(info), CountsForVote(Loaded(info, votes), url), info, OpenRow(votes, url));
  }

  /** One call keeps memory and tables in agreement exactly when it was stored or changed nothing. */
  lemma AgreementKeptIff(st: Store, c: SetterCall)
    requires InSync(st)
    ensures InSync(AfterCall(st, c)) <==> c.stored || InMemory(st.records, c.setter) == st.records
  {
    LoadedAfterUpdate(st.tables.info, st.tables.votes, c.setter);
  }

  /** If every statement succeeds, reloading reproduces exactly the records in memory. */
  lemma {:induction false} ReloadReproducesMemory(st: Store, calls: seq<SetterCall>)
    requires InSync(st)
    requires forall c :: c in calls ==> c.stored
    ensures InSync(AfterCalls(st, calls))
    decreases |calls|
  {
    if calls != [] {
      AgreementKeptIff(st, calls[0]);
      ReloadReproducesMemory(AfterCall(st, calls[0]), calls[1..]);
    }
  }

  /** `older` has the accounts and profiles of `newer`, and no vote that `newer` lacks. */
  ghost predicate Lags(older: Records, newer: Records) {
    && older.Keys == newer.Keys
    && forall acc :: acc in older ==>
         older[acc].voted <= newer[acc].voted && older[acc].profile == newer[acc].profile
  }

  lemma SetterKeepsLag(older: Records, newer: Records, s: Setter)
    requires Lags(older, newer)
    ensures Lags(older, InMemory(newer, s))
    ensures Lags(InMemory(older, s), InMemory(newer, s))
  {
    SetterKeepsOthers(older, s);
    SetterKeepsOthers(newer, s);
  }

  lemma SetterKeepsOthers(records: Records, s: Setter)
    ensures InMemory(records, s).Keys == records.Keys
    ensures forall acc :: acc in records && acc != s.acc ==> InMemory(records, s)[acc] == records[acc]
    ensures s.acc in records ==>
              InMemory(records, s)[s.acc].profile == records[s.acc].profile &&
              InMemory(records, s)[s.acc].voted == records[s.acc].voted + if s.SetVote? then {s.url} else {}
  {
  }

  /** What a reload would give never runs ahead of memory. */
  ghost predicate NeverAhead(st: Store) {
    Lags(Loaded(st.tables.info, st.tables.votes), st.records)
  }

  lemma CallKeepsNeverAhead(st: Store, c: SetterCall)
    requires NeverAhead(st)
    ensures NeverAhead(AfterCall(st, c))
  {
    LoadedAfterUpdate(st.tables.info, st.tables.votes, c.setter);
    SetterKeepsLag(Loaded(st.tables.info, st.tables.votes), st.records, c.setter);
  }

  lemma {:induction false} FailedStatementsOnlyLag(st: Store, calls: seq<SetterCall>)
    requires NeverAhead(st)
    ensures NeverAhead(AfterCalls(st, calls))
    decreases |calls|
  {
    if calls != [] {
      CallKeepsNeverAhead(st, calls[0]);
      FailedStatementsOnlyLag(AfterCall(st, calls[0]), calls[1..]);
    }
  }

  /** Votes only grow, and no setter adds or removes a record. */
  lemma {:induction false} VotesOnlyGrow(st: Store, calls: seq<SetterCall>)
    ensures var e := AfterCalls(st, calls);
            && e.records.Keys == st.records.Keys
            && forall acc :: acc in st.records ==> st.records[acc].voted <= e.records[acc].voted
    decreases |calls|
  {
    if calls != [] {
      VotesOnlyGrow(AfterCall(st, calls[0]), calls[1..]);
    }
  }
}
