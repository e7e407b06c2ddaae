/**
 The blocking queue: a deque, a stop flag and a mutex.
 Each method body between two lock operations is one critical section; what other
 threads do while the lock is free is an explicit argument of the method.
 */
module WorkQueue {

  /** What the mutex guards. */
  datatype Monitor<T> = Monitor(tasks: seq<T>, stopped: bool)

  /** One critical section of some thread. */
  datatype Section<T> = PushSection(task: T) | PopSection | StopSection | WipeSection

  datatype PopResult<T> = Taken(task: T) | Drained(blank: T) | StillWaiting

  function After<T>(q: Monitor<T>, s: Section<T>): Monitor<T> {
    match s
    case PushSection(task) => if q.stopped then q else q.(tasks := q.tasks + [task])
    case PopSection => if q.tasks == [] then q else q.(tasks := q.tasks[1..])
    case StopSection => q.(stopped := true)
    case WipeSection => Monitor([], false)
  }

  function AfterAll<T>(q: Monitor<T>, ss: seq<Section<T>>): Monitor<T> {
    if ss == [] then q else After(AfterAll(q, ss[..|ss| - 1]), ss[|ss| - 1])
  }

  /** The tasks the sections push while the queue is open. */
  function AcceptedBy<T>(q: Monitor<T>, ss: seq<Section<T>>): seq<T> {
    if ss == [] then []
    else
      var before, last := ss[..|ss| - 1], ss[|ss| - 1];
      AcceptedBy(q, before) +
      if last.PushSection? && !AfterAll(q, before).stopped then [last.task] else []
  }

  /** None of the sections takes a task out. */
  predicate OnlyAdds<T>(ss: seq<Section<T>>) {
    forall i :: 0 <= i < |ss| ==> ss[i].PushSection? || ss[i].StopSection?
  }

  /** A popping thread may leave its wait loop. */
  predicate Ready<T>(q: Monitor<T>) {
    q.tasks != [] || q.stopped
  }

  /** The monitor when a popping thread holds the lock for the k-th time. */
  function Seen<T>(q: Monitor<T>, waits: seq<seq<Section<T>>>, k: nat): Monitor<T>
    requires k <= |waits|
  {
    if k == 0 then q else AfterAll(Seen(q, waits, k - 1), waits[k - 1])
  }

  /** `k` is the first time the popping thread holds the lock and may leave the loop. */
  ghost predicate FirstReady<T>(q: Monitor<T>, waits: seq<seq<Section<T>>>, k: nat) {
    && k <= |waits|
    && Ready(Seen(q, waits, k))
    && forall j :: 0 <= j < k ==> !Ready(Seen(q, waits, j))
  }

  class WorkQueue<T(==)> {
    const blank: T
    var tasks: seq<T>
    var isStopped: bool
    ghost var accepted: seq<T>  // every task ever queued, in order
    ghost var removed: seq<T>   // every task popped or cleared away, in order

    function Abs(): Monitor<T>
      reads this
    {
      Monitor(tasks, isStopped)
    }

    ghost predicate Valid()
      reads this
    {
      accepted == removed + tasks
    }

    constructor (blank: T)
      ensures Valid() && this.blank == blank && Abs() == Monitor([], false)
      ensures accepted == []
    {
      this.blank, tasks, isStopped := blank, [], false;
      accepted, removed := [], [];
    }

    method Stop()
      requires Valid()
      modifies this`isStopped
      ensures Valid() && Abs() == After(old(Abs()), StopSection)
      ensures Ready(Abs())
    {
      isStopped := true;
    }

    /** `owesNotify`: the caller still has to notify one sleeper after unlocking. */
    method PushTask(task: T) returns (owesNotify: bool)
      requires Valid()
      modifies this`tasks, this`accepted
      ensures owesNotify == !old(isStopped)
      ensures Valid() && Abs() == After(old(Abs()), PushSection(task))
      ensures accepted == old(accepted) + if owesNotify then [task] else []
    {
      if isStopped {
        return false;
      }
      tasks := tasks + [task];
      accepted := accepted + [task];
      owesNotify := true;
    }

    method Wipe()
      requires Valid()
      modifies this`tasks, this`isStopped, this`removed
      ensures Valid() && Abs() == After(old(Abs()), WipeSection)
      ensures removed == old(removed) + old(tasks)
    {
      removed := removed + tasks;
      tasks := [];
      isStopped := false;
    }

    method PopFront() returns (task: T)
      requires Valid() && tasks != []
      modifies this`tasks, this`removed
      ensures Valid() && old(tasks) == [task] + tasks
      ensures removed == old(removed) + [task]
    {
      task := tasks[0];
      removed := removed + [task];
      tasks := tasks[1..];
    }

    /** Other threads run their critical sections while the lock is free. */
    method Interfere(others: seq<Section<T>>)
      requires Valid()
      modifies this
      ensures Valid() && Abs() == AfterAll(old(Abs()), others)
      ensures accepted == old(accepted) + AcceptedBy(old(Abs()), others)
      ensures OnlyAdds(others) ==> removed == old(removed)
    {
      for i := 0 to |others|
        invariant Valid() && Abs() == AfterAll(old(Abs()), others[..i])
        invariant accepted == old(accepted) + AcceptedBy(old(Abs()), others[..i])
        invariant OnlyAdds(others) ==> removed == old(removed)
      {
        assert others[..i + 1][..i] == others[..i];
        match others[i]
        case PushSection(task) => var _ := PushTask(task);
        case PopSection => if tasks != [] { var _ := PopFront(); }
        case StopSection => Stop();
        case WipeSection => Wipe();
      }
      assert others[..|others|] == others;
    }

    /**
     `waits[k]` is what the other threads do while this one sleeps for the k-th time;
     a thread that is not woken again is reported as still waiting.
     */
    method PopTask(waits: seq<seq<Section<T>>>) returns (r: PopResult<T>)
      requires Valid()
      modifies this
      ensures Valid() && old(accepted) <= accepted
      ensures r.StillWaiting? <==> forall k :: 0 <= k <= |waits| ==> !Ready(Seen(old(Abs()), waits, k))
      ensures r.StillWaiting? ==> Abs() == Seen(old(Abs()), waits, |waits|) && tasks == [] && !isStopped
      ensures r.Taken? ==> exists k: nat | FirstReady(old(Abs()), waits, k) ::
        Seen(old(Abs()), waits, k) == Monitor([r.task] + tasks, isStopped)
      ensures r.Drained? ==> r.blank == blank && tasks == [] && isStopped
      ensures r.Drained? ==> exists k: nat | FirstReady(old(Abs()), waits, k) ::
        Seen(old(Abs()), waits, k) == Abs()
      ensures (forall k :: 0 <= k < |waits| ==> OnlyAdds(waits[k])) ==>
        removed == old(removed) + if r.Taken? then [r.task] else []
    {
      ghost var q := Abs();
      var k := 0;
      while tasks == []
        invariant Valid() && old(accepted) <= accepted
        invariant 0 <= k <= |waits|
        invariant Abs() == Seen(q, waits, k)
        invariant forall j :: 0 <= j < k ==> !Ready(Seen(q, waits, j))
        invariant (forall j :: 0 <= j < |waits| ==> OnlyAdds(waits[j])) ==> removed == old(removed)
        decreases |waits| - k
      {
        if isStopped {
          assert FirstReady(q, waits, k);
          return Drained(blank);
        }
        if k == |waits| {
          return StillWaiting;
        }
        Interfere(waits[k]);
        k := k + 1;
      }
      assert FirstReady(q, waits, k);
      var task := PopFront();
      r := Taken(task);
    }

    /**
     Two critical sections, with `between` run by other threads after the first: every task
     accepted until the second one is gone afterwards.
     */
    method Clear(between: seq<Section<T>>)
      requires Valid()
      modifies this
      ensures Valid() && Abs() == Monitor([], false)
      ensures accepted == old(accepted) + AcceptedBy(After(old(Abs()), StopSection), between)
      ensures removed == accepted
      ensures OnlyAdds(between) ==> accepted == old(accepted) && removed == old(removed) + old(tasks)
    {
      Stop();
      ghost var q := Abs();
      Interfere(between);
      ClosedQueueAcceptsNothing(q, between);
      Wipe();
    }
  }

  /** While nobody clears it, a stopped queue stays stopped and takes nothing in. */
  lemma {:induction false} ClosedQueueAcceptsNothing<T>(q: Monitor<T>, ss: seq<Section<T>>)
    requires q.stopped
    ensures OnlyAdds(ss) ==> AcceptedBy(q, ss) == [] && AfterAll(q, ss) == q
  {
    if ss != [] {
      ClosedQueueAcceptsNothing(q, ss[..|ss| - 1]);
    }
  }
}
