/**
 A take is two critical sections: it selects a list node under the read lock and erases
 that node under the write lock. Other threads may run in between.
 */
module TakeProtocol {
  import opened IdleList
  import opened Accounts

  datatype Node = Node(id: nat, name: string)

  datatype Want = ForVote(url: string) | ForDaily

  datatype Grant = Grant(tid: nat, node: Node)

  /** `pending` maps a thread between its two sections to the node it selected. */
  datatype State = State(
    nodes: seq<Node>, records: Records, nextId: nat,
    pending: map<nat, Node>, got: seq<Grant>)

  datatype Action =
    | Scan(tid: nat, want: Want)
    | Erase(tid: nat)
    | Append(name: string)
    | Set(setter: Setter)

  function Eligible(records: Records, want: Want): Node -> bool {
    match want
    case ForVote(url) => (n: Node) => CanVote(records, url)(n.name)
    case ForDaily => (n: Node) => CanDoDaily(records)(n.name)
  }

  /** The daily scan creates a record for a name that has none. */
  function RecordsAfterScan(records: Records, want: Want, name: string): Records {
    if want.ForDaily? then Touched(records, name) else records
  }

  function Selected(s: State, want: Want): nat {
    First(s.nodes, Eligible(s.records, want))
  }

  predicate Enabled(s: State, a: Action) {
    match a
    case Scan(t, _) => t !in s.pending
    case Erase(t) => t in s.pending && s.pending[t] in s.nodes
    case _ => true
  }

  function IsNode(node: Node): Node -> bool {
    n => n == node
  }

  function Step(s: State, a: Action): State
    requires Enabled(s, a)
  {
    match a
    case Scan(t, want) =>
      var i := Selected(s, want);
      if i == |s.nodes| then s
      else s.(records := RecordsAfterScan(s.records, want, s.nodes[i].name),
              pending := s.pending[t := s.nodes[i]],
              got := s.got + [Grant(t, s.nodes[i])])
    case Erase(t) =>
      FirstInRange(s.nodes, s.pending[t]);
      s.(nodes := Without(s.nodes, First(s.nodes, IsNode(s.pending[t]))), pending := s.pending - {t})
    case Append(name) => s.(nodes := s.nodes + [Node(s.nextId, name)], nextId := s.nextId + 1)
    case Set(setter) => s.(records := InMemory(s.records, setter))
  }

  lemma FirstInRange(nodes: seq<Node>, node: Node)
    requires node in nodes
    ensures First(nodes, IsNode(node)) < |nodes|
  {
  }

  /** The queue of idle accounts as one atomic object. */
  datatype Atomic = Atomic(nodes: seq<Node>, records: Records, nextId: nat, got: seq<Grant>)

  /** The atomic take happens at the scan; the erase is invisible. */
  function AtomicStep(s: Atomic, a: Action): Atomic {
    match a
    case Scan(t, want) =>
      var i := First(s.nodes, Eligible(s.records, want));
      if i == |s.nodes| then s
      else Atomic(Without(s.nodes, i), RecordsAfterScan(s.records, want, s.nodes[i].name),
                  s.nextId, s.got + [Grant(t, s.nodes[i])])
    case Erase(_) => s
    case Append(name) => s.(nodes := s.nodes + [Node(s.nextId, name)], nextId := s.nextId + 1)
    case Set(setter) => s.(records := InMemory(s.records, setter))
  }

  function Free(pending: map<nat, Node>): Node -> bool {
    n => n !in pending.Values
  }

  function Abstract(s: State): Atomic {
    Atomic(Keep(s.nodes, Free(s.pending)), s.records, s.nextId, s.got)
  }

  /** No two threads are about to erase the same node. */
  predicate Exclusive(pending: map<nat, Node>) {
    forall t, u :: t in pending && u in pending && t != u ==> pending[t] != pending[u]
  }

  predicate WellFormed(s: State) {
    && Distinct(s.nodes)
    && (forall n :: n in s.nodes ==> n.id < s.nextId)
    && (forall t :: t in s.pending ==> s.pending[t] in s.nodes)
    && Exclusive(s.pending)
  }

  /** The node a scan would select is not already selected by a thread that has not erased it. */
  predicate Clear(s: State, a: Action) {
    a.Scan? && Selected(s, a.want) < |s.nodes| ==> s.nodes[Selected(s, a.want)] !in s.pending.Values
  }

  // ---------------------------------------------------------------- list facts

  /** Hiding entries does not make an eligible one appear. */
  lemma NoneAmongKept(s: seq<Node>, keep: Node -> bool, ok: Node -> bool)
    requires First(s, ok) == |s|
    ensures First(Keep(s, keep), ok) == |Keep(s, keep)|
  {
    KeepMembers(s, keep);
    forall n | n in Keep(s, keep)
      ensures !ok(n)
    {
      var j :| 0 <= j < |s| && s[j] == n;
    }
  }

  lemma FirstAfter(before: seq<Node>, x: Node, rest: seq<Node>, ok: Node -> bool)
    requires ok(x) && forall n :: n in before ==> !ok(n)
    ensures First(before + ([x] + rest), ok) == |before|
    ensures Without(before + ([x] + rest), |before|) == before + rest
  {
    FirstIs(before + ([x] + rest), ok, |before|);
  }

  lemma SplitKeep(before: seq<Node>, x: Node, rest: seq<Node>, keep: Node -> bool)
    ensures Keep(before + ([x] + rest), keep) ==
            Keep(before, keep) + ((if keep(x) then [x] else []) + Keep(rest, keep))
  {
    KeepConcat(before, [x] + rest, keep);
    assert ([x] + rest)[1..] == rest;
  }

  lemma FoundAmongKept(before: seq<Node>, x: Node, rest: seq<Node>,
                       keep: Node -> bool, keep': Node -> bool, ok: Node -> bool)
    requires ok(x) && forall n :: n in before ==> !ok(n)
    requires keep(x) && !keep'(x)
    requires forall n :: n in before ==> keep'(n) == keep(n)
    requires forall n :: n in rest ==> keep'(n) == keep(n)
    ensures var s := before + ([x] + rest);
            && First(Keep(s, keep), ok) == |Keep(before, keep)|
            && Keep(s, keep) == Keep(before, keep) + ([x] + Keep(rest, keep))
            && Without(Keep(s, keep), |Keep(before, keep)|) == Keep(s, keep')
  {
    SplitKeep(before, x, rest, keep);
    SplitKeep(before, x, rest, keep');
    SameKeep(before, keep, keep');
    SameKeep(rest, keep, keep');
    KeepMembers(before, keep);
    FirstAfter(Keep(before, keep), x, Keep(rest, keep), ok);
    assert [] + Keep(rest, keep) == Keep(rest, keep);
  }

  /** Hiding entries other than the first eligible one does not change which one is found. */
  lemma FirstAmongKept(s: seq<Node>, keep: Node -> bool, keep': Node -> bool, ok: Node -> bool)
    requires Distinct(s)
    requires First(s, ok) < |s| && keep(s[First(s, ok)])
    requires forall n :: n in s ==> keep'(n) == (keep(n) && n != s[First(s, ok)])
    ensures var kept := Keep(s, keep);
            var k := First(kept, ok);
            k < |kept| && kept[k] == s[First(s, ok)] && Without(kept, k) == Keep(s, keep')
  {
    var i := First(s, ok);
    var before, x, rest := s[..i], s[i], s[i + 1..];
    SplitDistinct(s, i);
    FoundAmongKept(before, x, rest, keep, keep', ok);
  }

  lemma SplitDistinct(s: seq<Node>, i: nat)
    requires i < |s| && Distinct(s)
    ensures s == s[..i] + ([s[i]] + s[i + 1..])
    ensures forall n :: n in s[..i] || n in s[i + 1..] ==> n in s && n != s[i]
    ensures forall n :: n in s[..i] ==> exists j :: 0 <= j < i && s[j] == n
  {
  }

  lemma {:induction false} KeepAfterErase(s: seq<Node>, i: nat, p: Node -> bool, q: Node -> bool)
    requires i < |s| && !p(s[i])
    requires forall j :: 0 <= j < |s| && j != i ==> p(s[j]) == q(s[j])
    ensures Keep(Without(s, i), q) == Keep(s, p)
  {
    if i == 0 {
      assert Without(s, i) == s[1..];
      SameKeep(s[1..], p, q);
    } else {
      KeepAfterErase(s[1..], i - 1, p, q);
      assert Without(s, i) == [s[0]] + Without(s[1..], i - 1);
    }
  }

  // ---------------------------------------------------------------- refinement

  lemma ScanRefines(s: State, a: Action)
    requires WellFormed(s) && a.Scan? && Enabled(s, a) && Clear(s, a)
    ensures WellFormed(Step(s, a)) && Abstract(Step(s, a)) == AtomicStep(Abstract(s), a)
  {
    var s' := Step(s, a);
    var i := Selected(s, a.want);
    if i == |s.nodes| {
      NoneAmongKept(s.nodes, Free(s.pending), Eligible(s.records, a.want));
    } else {
      PendingAdded(s.pending, a.tid, s.nodes[i]);
      FirstAmongKept(s.nodes, Free(s.pending), Free(s'.pending), Eligible(s.records, a.want));
    }
  }

  lemma PendingAdded(pending: map<nat, Node>, t: nat, node: Node)
    requires t !in pending
    ensures pending[t := node].Values == pending.Values + {node}
  {
    var pending' := pending[t := node];
    forall n | n in pending.Values
      ensures n in pending'.Values
    {
      var u :| u in pending && pending[u] == n;
      assert pending'[u] == n;
    }
    assert pending'[t] == node;
  }

  lemma PendingRemoved(pending: map<nat, Node>, t: nat)
    requires t in pending && Exclusive(pending)
    ensures (pending - {t}).Values == pending.Values - {pending[t]}
  {
    var pending' := pending - {t};
    forall n | n in pending.Values && n != pending[t]
      ensures n in pending'.Values
    {
      var u :| u in pending && pending[u] == n;
      assert pending'[u] == n;
    }
  }

  lemma EraseRefines(s: State, a: Action)
    requires WellFormed(s) && a.Erase? && Enabled(s, a)
    ensures WellFormed(Step(s, a)) && Abstract(Step(s, a)) == Abstract(s)
  {
    var s' := Step(s, a);
    var node := s.pending[a.tid];
    var i := First(s.nodes, IsNode(node));
    FirstInRange(s.nodes, node);
    PendingRemoved(s.pending, a.tid);
    WithoutOne(s.nodes, i);
    KeepAfterErase(s.nodes, i, Free(s.pending), Free(s'.pending));
  }

  lemma AppendRefines(s: State, a: Action)
    requires WellFormed(s) && a.Append?
    ensures WellFormed(Step(s, a)) && Abstract(Step(s, a)) == AtomicStep(Abstract(s), a)
  {
    var node := Node(s.nextId, a.name);
    KeepConcat(s.nodes, [node], Free(s.pending));
    assert node !in s.nodes;
    assert Keep([node], Free(s.pending)) == [node];
  }

  lemma StepRefines(s: State, a: Action)
    requires WellFormed(s) && Enabled(s, a) && Clear(s, a)
    ensures WellFormed(Step(s, a)) && Abstract(Step(s, a)) == AtomicStep(Abstract(s), a)
  {
    match a
    case Scan(_, _) => ScanRefines(s, a);
    case Erase(_) => EraseRefines(s, a);
    case Append(_) => AppendRefines(s, a);
    case Set(_) =>
  }

  ghost predicate IsRun(s: State, run: seq<Action>)
    decreases |run|
  {
    run == [] || (Enabled(s, run[0]) && IsRun(Step(s, run[0]), run[1..]))
  }

  ghost function Exec(s: State, run: seq<Action>): State
    requires IsRun(s, run)
    decreases |run|
  {
    if run == [] then s else Exec(Step(s, run[0]), run[1..])
  }

  ghost function AtomicExec(s: Atomic, run: seq<Action>): Atomic
    decreases |run|
  {
    if run == [] then s else AtomicExec(AtomicStep(s, run[0]), run[1..])
  }

  ghost predicate ClearThroughout(s: State, run: seq<Action>)
    requires IsRun(s, run)
    decreases |run|
  {
    run == [] || (Clear(s, run[0]) && ClearThroughout(Step(s, run[0]), run[1..]))
  }

  ghost predicate ExclusiveThroughout(s: State, run: seq<Action>)
    requires IsRun(s, run)
    decreases |run|
  {
    Exclusive(s.pending) && (run == [] || ExclusiveThroughout(Step(s, run[0]), run[1..]))
  }

  /** A run whose scans are all clear behaves as atomic takes, with every other node in its place. */
  lemma {:induction false} ClearRunsRefineAtomicTakes(s: State, run: seq<Action>)
    requires WellFormed(s) && IsRun(s, run) && ClearThroughout(s, run)
    ensures WellFormed(Exec(s, run))
    ensures Abstract(Exec(s, run)) == AtomicExec(Abstract(s), run)
    decreases |run|
  {
    if run != [] {
      StepRefines(s, run[0]);
      ClearRunsRefineAtomicTakes(Step(s, run[0]), run[1..]);
    }
  }

  /** Two threads hold the same node at some point exactly when some scan was not clear. */
  lemma {:induction false} ExclusiveIffClear(s: State, run: seq<Action>)
    requires WellFormed(s) && IsRun(s, run)
    ensures ExclusiveThroughout(s, run) <==> ClearThroughout(s, run)
    decreases |run|
  {
    if run != [] {
      if Clear(s, run[0]) {
        StepRefines(s, run[0]);
        ExclusiveIffClear(Step(s, run[0]), run[1..]);
      } else {
        var t, node := run[0].tid, s.nodes[Selected(s, run[0].want)];
        var u :| u in s.pending && s.pending[u] == node;
        var pending' := Step(s, run[0]).pending;
        assert pending'[t] == pending'[u] == node;
      }
    }
  }

  /** No thread scans while another one is between its scan and its erase. */
  ghost predicate OneTakeAtATime(s: State, run: seq<Action>)
    requires IsRun(s, run)
    decreases |run|
  {
    run == [] ||
    ((run[0].Scan? ==> s.pending == map[]) && OneTakeAtATime(Step(s, run[0]), run[1..]))
  }

  /** Every step looks like the atomic one. */
  ghost predicate AtomicThroughout(s: State, run: seq<Action>)
    requires IsRun(s, run)
    decreases |run|
  {
    run == [] ||
    (Abstract(Step(s, run[0])) == AtomicStep(Abstract(s), run[0]) && AtomicThroughout(Step(s, run[0]), run[1..]))
  }

  /** A scan of a selected node grants what no atomic take could grant. */
  lemma UnclearScanIsNotAtomic(s: State, a: Action)
    requires a.Scan? && Enabled(s, a) && !Clear(s, a)
    ensures Abstract(Step(s, a)) != AtomicStep(Abstract(s), a)
  {
    var node := s.nodes[Selected(s, a.want)];
    var kept := Keep(s.nodes, Free(s.pending));
    var k := First(kept, Eligible(s.records, a.want));
    KeepMembers(s.nodes, Free(s.pending));
    assert Step(s, a).got[|s.got|] == Grant(a.tid, node);
    if k < |kept| {
      assert kept[k] in kept;
      assert AtomicStep(Abstract(s), a).got[|s.got|] == Grant(a.tid, kept[k]);
    } else {
      assert AtomicStep(Abstract(s), a).got == s.got;
    }
  }

  /** The take refines the atomic one, step by step, exactly when every scan is clear. */
  lemma {:induction false} AtomicIffClear(s: State, run: seq<Action>)
    requires WellFormed(s) && IsRun(s, run)
    ensures AtomicThroughout(s, run) <==> ClearThroughout(s, run)
    decreases |run|
  {
    if run != [] {
      if Clear(s, run[0]) {
        StepRefines(s, run[0]);
        AtomicIffClear(Step(s, run[0]), run[1..]);
      } else {
        UnclearScanIsNotAtomic(s, run[0]);
      }
    }
  }

  /** With at most one take between its two sections, releases and setters cannot disturb it. */
  lemma {:induction false} SerialTakesAreAtomic(s: State, run: seq<Action>)
    requires WellFormed(s) && IsRun(s, run) && OneTakeAtATime(s, run)
    ensures ExclusiveThroughout(s, run)
    ensures Abstract(Exec(s, run)) == AtomicExec(Abstract(s), run)
    decreases |run|
  {
    if run != [] {
      assert run[0].Scan? ==> s.pending.Values == {};
      StepRefines(s, run[0]);
      SerialTakesAreAtomic(Step(s, run[0]), run[1..]);
    }
  }

  /** A record created by a scan changes nobody's eligibility. */
  lemma ScanKeepsEligible(records: Records, want: Want, name: string)
    ensures forall n :: Eligible(RecordsAfterScan(records, want, name), want)(n) == Eligible(records, want)(n)
  {
    if want.ForDaily? {
      var records' := Touched(records, name);
      forall n: Node
        ensures CanDoDaily(records')(n.name) == CanDoDaily(records)(n.name)
      {
      }
    }
  }

  /** A second scan for the same purpose selects the node the first one selected. */
  lemma SecondScanSelectsTheSame(s: State, want: Want, t: nat, u: nat)
    requires s.pending == map[] && t != u && Selected(s, want) < |s.nodes|
    ensures Enabled(s, Scan(t, want)) && Enabled(Step(s, Scan(t, want)), Scan(u, want))
    ensures var node := s.nodes[Selected(s, want)];
            var e := Step(Step(s, Scan(t, want)), Scan(u, want));
            && e.nodes == s.nodes
            && e.pending == map[t := node, u := node]
            && e.got == s.got + [Grant(t, node), Grant(u, node)]
  {
    var i := Selected(s, want);
    var s1 := Step(s, Scan(t, want));
    ScanKeepsEligible(s.records, want, s.nodes[i].name);
    FirstIs(s.nodes, Eligible(s1.records, want), i);
  }

  /**
   Two overlapping takes for the same purpose are granted the same account, and once one of
   them has erased its node the other holds an iterator to a node that is gone.
   */
  lemma OverlappingTakesCollide(s: State, want: Want, t: nat, u: nat)
    requires WellFormed(s) && s.pending == map[] && t != u
    requires Selected(s, want) < |s.nodes|
    ensures var run := [Scan(t, want), Scan(u, want), Erase(t)];
            && IsRun(s, run)
            && var e := Exec(s, run);
               && e.got == s.got + [Grant(t, s.nodes[Selected(s, want)]), Grant(u, s.nodes[Selected(s, want)])]
               && !Enabled(e, Erase(u))
  {
    var node := s.nodes[Selected(s, want)];
    SecondScanSelectsTheSame(s, want, t, u);
    FirstInRange(s.nodes, node);
    WithoutOne(s.nodes, First(s.nodes, IsNode(node)));
    ThreeSteps(s, [Scan(t, want), Scan(u, want), Erase(t)]);
  }

  function Names(nodes: seq<Node>): seq<string> {
    seq(|nodes|, i requires 0 <= i < |nodes| => nodes[i].name)
  }

  /** The test of the account manager for a take of this kind. */
  function NameTest(records: Records, want: Want): string -> bool {
    match want
    case ForVote(url) => CanVote(records, url)
    case ForDaily => CanDoDaily(records)
  }

  /** On the names, the atomic take is the take of the account manager. */
  lemma AtomicTakeIsTheManagersTake(s: Atomic, t: nat, want: Want)
    ensures var i := First(Names(s.nodes), NameTest(s.records, want));
            var s' := AtomicStep(s, Scan(t, want));
            if i == |s.nodes| then s' == s
            else
              && s'.got == s.got + [Grant(t, s.nodes[i])]
              && Names(s'.nodes) == Without(Names(s.nodes), i)
              && s'.records == if want == ForDaily then Touched(s.records, Names(s.nodes)[i]) else s.records
  {
    var i := First(Names(s.nodes), NameTest(s.records, want));
    forall j | 0 <= j < |s.nodes|
      ensures Eligible(s.records, want)(s.nodes[j]) == NameTest(s.records, want)(Names(s.nodes)[j])
    {
    }
    if i < |s.nodes| {
      FirstIs(s.nodes, Eligible(s.records, want), i);
    }
  }

  /** On the names, the atomic release and the setters are those of the account manager. */
  lemma AtomicReleaseIsTheManagersRelease(s: Atomic, name: string, setter: Setter)
    ensures var s' := AtomicStep(s, Append(name));
            && Names(s'.nodes) == Names(s.nodes) + [name]
            && s'.records == s.records && s'.got == s.got
    ensures var s' := AtomicStep(s, Set(setter));
            && Names(s'.nodes) == Names(s.nodes) && s'.got == s.got
            && s'.records == InMemory(s.records, setter)
  {
    var s' := AtomicStep(s, Append(name));
    assert s'.nodes[..|s.nodes|] == s.nodes;
  }

  /** Between takes the list itself is the atomic one: every granted node has been erased. */
  lemma NothingPendingIsAtomic(s: State, run: seq<Action>)
    requires WellFormed(s) && s.pending == map[] && IsRun(s, run) && ClearThroughout(s, run)
    requires Exec(s, run).pending == map[]
    ensures var e, a := Exec(s, run), AtomicExec(Atomic(s.nodes, s.records, s.nextId, s.got), run);
            && e.nodes == a.nodes && e.records == a.records && e.got == a.got
  {
    ClearRunsRefineAtomicTakes(s, run);
    KeepAll(s.nodes, Free(s.pending));
    KeepAll(Exec(s, run).nodes, Free(Exec(s, run).pending));
  }

  lemma {:induction false} KeepAll(s: seq<Node>, ok: Node -> bool)
    requires forall n :: n in s ==> ok(n)
    ensures Keep(s, ok) == s
  {
    if s != [] {
      KeepAll(s[1..], ok);
    }
  }

  lemma ThreeSteps(s: State, run: seq<Action>)
    requires |run| == 3
    requires Enabled(s, run[0]) && Enabled(Step(s, run[0]), run[1])
    requires Enabled(Step(Step(s, run[0]), run[1]), run[2])
    ensures IsRun(s, run) && Exec(s, run) == Step(Step(Step(s, run[0]), run[1]), run[2])
  {
    var s1 := Step(s, run[0]);
    var s2 := Step(s1, run[1]);
    assert run[1..][0] == run[1] && run[1..][1..][0] == run[2];
    assert run[1..][1..][1..] == [];
    assert IsRun(Step(s2, run[2]), []);
    assert IsRun(s2, run[1..][1..]);
    assert Exec(s2, run[1..][1..]) == Step(s2, run[2]);
    assert Exec(s1, run[1..]) == Step(s2, run[2]);
  }
}
