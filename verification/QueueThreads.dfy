/**
 Any number of threads using one work queue, interleaved at lock granularity.
 A notification is sent after unlocking, so it is a step of its own; a sleeper may
 also wake spuriously; clear is a stop followed by a second critical section.
 */
module QueueThreads {
  import opened Counting
  import opened WorkQueue

  datatype Phase<T> =
    | Outside
    | Pushing(task: T)        // called push_task, lock not yet held
    | OwesOne                 // pushed and unlocked, notify_one still to come
    | Stopping(clearing: bool) // called stop (or clear), lock not yet held
    | OwesAll(clearing: bool)  // stop flag set and unlocked, notify_all still to come
    | Clearing                // clear, before its second critical section
    | Popping                 // called pop_task, lock not yet held
    | Sleeping                // waiting on the condition variable
    | Woken                   // notified, lock not yet held again

  /** What a critical section did, in the order of the critical sections. */
  datatype Event<T> =
    | Accepted(task: T) | Refused(task: T)
    | Popped(task: T) | PoppedBlank | Slept
    | Stopped
    | Wiped(dropped: seq<T>)

  datatype State<T> = State(q: Monitor<T>, threads: map<nat, Phase<T>>, log: seq<Event<T>>)

  datatype Action<T> =
    | Call(tid: nat, entry: Phase<T>)
    | Enter(tid: nat)                  // run a whole critical section
    | NotifyOne(tid: nat, woken: nat)
    | NotifyNobody(tid: nat)
    | NotifyAll(tid: nat)
    | Spurious(tid: nat)

  predicate IsSleeping<T>(p: Phase<T>) { p.Sleeping? }
  predicate IsWoken<T>(p: Phase<T>) { p.Woken? }
  predicate IsOwingOne<T>(p: Phase<T>) { p.OwesOne? }
  predicate IsOwingAll<T>(p: Phase<T>) { p.OwesAll? }

  predicate IsEntry<T>(p: Phase<T>) {
    p.Pushing? || p.Stopping? || p.Popping?
  }

  predicate WantsLock<T>(p: Phase<T>) {
    IsEntry(p) || p.Clearing? || p.Woken?
  }

  /** The critical section a thread in phase `p` runs when it gets the lock. */
  function SectionOf<T>(p: Phase<T>): Section<T>
    requires WantsLock(p)
  {
    match p
    case Pushing(task) => PushSection(task)
    case Stopping(_) => StopSection
    case Clearing => WipeSection
    case _ => PopSection
  }

  function EventOf<T>(q: Monitor<T>, p: Phase<T>): Event<T>
    requires WantsLock(p)
  {
    match p
    case Pushing(task) => if q.stopped then Refused(task) else Accepted(task)
    case Stopping(_) => Stopped
    case Clearing => Wiped(q.tasks)
    case _ => if q.tasks != [] then Popped(q.tasks[0]) else if q.stopped then PoppedBlank else Slept
  }

  function PhaseAfter<T>(q: Monitor<T>, p: Phase<T>): Phase<T>
    requires WantsLock(p)
  {
    match p
    case Pushing(_) => if q.stopped then Outside else OwesOne
    case Stopping(clearing) => OwesAll(clearing)
    case Clearing => Outside
    case _ => if Ready(q) then Outside else Sleeping
  }

  function WakeAll<T>(threads: map<nat, Phase<T>>): map<nat, Phase<T>> {
    map t | t in threads :: if threads[t].Sleeping? then Woken else threads[t]
  }

  ghost predicate Enabled<T>(s: State<T>, a: Action<T>) {
    && a.tid in s.threads
    && var p := s.threads[a.tid];
       match a
       case Call(_, entry) => p.Outside? && IsEntry(entry)
       case Enter(_) => WantsLock(p)
       case NotifyOne(_, woken) => p.OwesOne? && woken in s.threads && s.threads[woken].Sleeping?
       case NotifyNobody(_) => p.OwesOne? && forall t :: t in s.threads ==> !s.threads[t].Sleeping?
       case NotifyAll(_) => p.OwesAll?
       case Spurious(_) => p.Sleeping?
  }

  ghost function Step<T>(s: State<T>, a: Action<T>): State<T>
    requires Enabled(s, a)
  {
    var p := s.threads[a.tid];
    match a
    case Call(t, entry) => s.(threads := s.threads[t := entry])
    case Enter(t) =>
      State(After(s.q, SectionOf(p)), s.threads[t := PhaseAfter(s.q, p)], s.log + [EventOf(s.q, p)])
    case NotifyOne(t, woken) => s.(threads := s.threads[t := Outside][woken := Woken])
    case NotifyNobody(t) => s.(threads := s.threads[t := Outside])
    case NotifyAll(t) =>
      s.(threads := WakeAll(s.threads)[t := if p.clearing then Clearing else Outside])
    case Spurious(t) => s.(threads := s.threads[t := Woken])
  }

  ghost predicate IsRun<T>(s: State<T>, run: seq<Action<T>>)
    decreases |run|
  {
    run == [] || (Enabled(s, run[0]) && IsRun(Step(s, run[0]), run[1..]))
  }

  ghost function Exec<T>(s: State<T>, run: seq<Action<T>>): State<T>
    requires IsRun(s, run)
    decreases |run|
  {
    if run == [] then s else Exec(Step(s, run[0]), run[1..])
  }

  ghost predicate Initial<T>(s: State<T>) {
    && s.q == Monitor([], false)
    && s.log == []
    && forall t :: t in s.threads ==> s.threads[t].Outside?
  }

  // ---------------------------------------------------------------- wake-ups

  /** Every queued task is covered by a wake-up that is owed or under way. */
  ghost predicate Covered<T>(s: State<T>) {
    Tally(s.threads, IsSleeping) > 0 ==>
      && |s.q.tasks| <= Tally(s.threads, IsOwingOne) + Tally(s.threads, IsWoken)
      && (s.q.stopped ==> Tally(s.threads, IsOwingAll) > 0)
  }

  lemma RetallyThread<T>(threads: map<nat, Phase<T>>, t: nat, p: Phase<T>)
    requires t in threads
    ensures Tally(threads[t := p], IsSleeping) ==
            Tally(threads, IsSleeping) - Bit(threads[t].Sleeping?) + Bit(p.Sleeping?)
    ensures Tally(threads[t := p], IsWoken) ==
            Tally(threads, IsWoken) - Bit(threads[t].Woken?) + Bit(p.Woken?)
    ensures Tally(threads[t := p], IsOwingOne) ==
            Tally(threads, IsOwingOne) - Bit(threads[t].OwesOne?) + Bit(p.OwesOne?)
    ensures Tally(threads[t := p], IsOwingAll) ==
            Tally(threads, IsOwingAll) - Bit(threads[t].OwesAll?) + Bit(p.OwesAll?)
  {
    TallyUpdate(threads, t, p, IsSleeping);
    TallyUpdate(threads, t, p, IsWoken);
    TallyUpdate(threads, t, p, IsOwingOne);
    TallyUpdate(threads, t, p, IsOwingAll);
  }

  lemma SectionKeepsCovered<T>(s: State<T>, t: nat)
    requires Covered(s) && Enabled(s, Enter(t))
    ensures Covered(Step(s, Enter(t)))
  {
    RetallyThread(s.threads, t, PhaseAfter(s.q, s.threads[t]));
  }

  lemma NotifyKeepsCovered<T>(s: State<T>, t: nat, woken: nat)
    requires Covered(s) && Enabled(s, NotifyOne(t, woken))
    ensures Covered(Step(s, NotifyOne(t, woken)))
  {
    RetallyThread(s.threads, t, Outside);
    RetallyThread(s.threads[t := Outside], woken, Woken);
    TallyZero(s.threads, IsSleeping);
  }

  lemma StepKeepsCovered<T>(s: State<T>, a: Action<T>)
    requires Covered(s) && Enabled(s, a)
    ensures Covered(Step(s, a))
  {
    match a
    case Call(t, entry) => RetallyThread(s.threads, t, entry);
    case Enter(t) => SectionKeepsCovered(s, t);
    case NotifyOne(t, woken) => NotifyKeepsCovered(s, t, woken);
    case NotifyNobody(t) =>
      TallyZero(s.threads, IsSleeping);
      RetallyThread(s.threads, t, Outside);
    case NotifyAll(t) => TallyZero(Step(s, a).threads, IsSleeping);
    case Spurious(t) => RetallyThread(s.threads, t, Woken);
  }

  lemma {:induction false} RunKeepsCovered<T>(s: State<T>, run: seq<Action<T>>)
    requires Covered(s) && IsRun(s, run)
    ensures Covered(Exec(s, run))
    decreases |run|
  {
    if run != [] {
      StepKeepsCovered(s, run[0]);
      RunKeepsCovered(Step(s, run[0]), run[1..]);
    }
  }

  /** No lost wake-up, in every reachable state. */
  lemma NoLostWakeup<T>(s: State<T>, run: seq<Action<T>>)
    requires Initial(s) && IsRun(s, run)
    ensures Covered(Exec(s, run))
  {
    TallyZero(s.threads, IsSleeping);
    RunKeepsCovered(s, run);
  }

  /** With nothing owed and nobody woken, only an empty and open queue has sleepers. */
  lemma QuietSleepersMeanEmptyQueue<T>(s: State<T>, run: seq<Action<T>>)
    requires Initial(s) && IsRun(s, run)
    requires forall t :: t in Exec(s, run).threads ==>
               var p := Exec(s, run).threads[t]; !p.OwesOne? && !p.OwesAll? && !p.Woken?
    requires exists t :: t in Exec(s, run).threads && Exec(s, run).threads[t].Sleeping?
    ensures Exec(s, run).q == Monitor([], false)
  {
    var e := Exec(s, run);
    NoLostWakeup(s, run);
    TallyZero(e.threads, IsSleeping);
    TallyZero(e.threads, IsOwingOne);
    TallyZero(e.threads, IsOwingAll);
    TallyZero(e.threads, IsWoken);
  }

  // ---------------------------------------------------------------- order of tasks

  ghost function AcceptedIn<T>(log: seq<Event<T>>): seq<T> {
    if log == [] then []
    else AcceptedIn(log[..|log| - 1]) + (match log[|log| - 1] case Accepted(t) => [t] case _ => [])
  }

  ghost function PoppedIn<T>(log: seq<Event<T>>): seq<T> {
    if log == [] then []
    else PoppedIn(log[..|log| - 1]) + (match log[|log| - 1] case Popped(t) => [t] case _ => [])
  }

  function Removed<T>(e: Event<T>): seq<T> {
    match e
    case Popped(t) => [t]
    case Wiped(dropped) => dropped
    case _ => []
  }

  /** Tasks that left the queue, by a pop or by a clear, in order. */
  ghost function GoneIn<T>(log: seq<Event<T>>): seq<T> {
    if log == [] then []
    else GoneIn(log[..|log| - 1]) + Removed(log[|log| - 1])
  }

  /** The part of the log after the last clear section. */
  ghost function SinceWipe<T>(log: seq<Event<T>>): seq<Event<T>> {
    if log == [] || log[|log| - 1].Wiped? then []
    else SinceWipe(log[..|log| - 1]) + [log[|log| - 1]]
  }

  /** The stop flag as a sequential queue would have it. */
  ghost predicate ClosedBy<T>(log: seq<Event<T>>) {
    log != [] &&
    match log[|log| - 1]
    case Stopped => true
    case Wiped(_) => false
    case _ => ClosedBy(log[..|log| - 1])
  }

  /** What a sequential queue that holds `queued` does next. */
  ghost predicate Fits<T>(queued: seq<T>, closed: bool, e: Event<T>) {
    match e
    case Accepted(_) => !closed
    case Refused(_) => closed
    case Popped(t) => queued != [] && queued[0] == t
    case PoppedBlank => queued == [] && closed
    case Slept => queued == [] && !closed
    case Stopped => true
    case Wiped(dropped) => dropped == queued
  }

  /** The accepted tasks that have not left the queue. */
  ghost function QueuedBy<T>(log: seq<Event<T>>): seq<T> {
    if GoneIn(log) <= AcceptedIn(log) then AcceptedIn(log)[|GoneIn(log)|..] else []
  }

  /**
   The log is a legal history of a sequential first-in first-out queue: every event is
   what that queue does after the events before it, which account for all that left it.
   */
  ghost predicate Sequential<T>(log: seq<Event<T>>) {
    log == [] ||
    (var past := log[..|log| - 1];
     && Sequential(past)
     && GoneIn(past) <= AcceptedIn(past)
     && Fits(QueuedBy(past), ClosedBy(past), log[|log| - 1]))
  }

  ghost predicate Ordered<T>(s: State<T>) {
    && AcceptedIn(s.log) == GoneIn(s.log) + s.q.tasks
    && AcceptedIn(SinceWipe(s.log)) == PoppedIn(SinceWipe(s.log)) + s.q.tasks
    && ClosedBy(s.log) == s.q.stopped
    && Sequential(s.log)
  }

  lemma Appended<T>(log: seq<Event<T>>, e: Event<T>)
    ensures AcceptedIn(log + [e]) == AcceptedIn(log) + (if e.Accepted? then [e.task] else [])
    ensures PoppedIn(log + [e]) == PoppedIn(log) + (if e.Popped? then [e.task] else [])
    ensures GoneIn(log + [e]) == GoneIn(log) + Removed(e)
    ensures SinceWipe(log + [e]) == if e.Wiped? then [] else SinceWipe(log) + [e]
    ensures ClosedBy(log + [e]) == (e.Stopped? || (!e.Wiped? && ClosedBy(log)))
  {
    assert (log + [e])[..|log|] == log;
  }

  /** What an event tells about the queue it was recorded on. */
  ghost predicate Explains<T>(e: Event<T>, q: Monitor<T>, q': Monitor<T>) {
    match e
    case Accepted(t) => !q.stopped && q' == q.(tasks := q.tasks + [t])
    case Popped(t) => q.tasks == [t] + q'.tasks && q'.stopped == q.stopped
    case Wiped(dropped) => dropped == q.tasks && q' == Monitor([], false)
    case Stopped => q' == q.(stopped := true)
    case _ => q' == q
  }

  lemma EventExplainsSection<T>(q: Monitor<T>, p: Phase<T>)
    requires WantsLock(p)
    ensures Explains(EventOf(q, p), q, After(q, SectionOf(p)))
  {
  }

  /** Adding an explained event to a balanced account keeps it balanced. */
  lemma AccountBalances<T>(came: seq<T>, left: seq<T>, e: Event<T>, q: Monitor<T>, q': Monitor<T>)
    requires came == left + q.tasks && Explains(e, q, q')
    ensures came + (if e.Accepted? then [e.task] else []) == left + Removed(e) + q'.tasks
  {
  }

  lemma SectionKeepsAccount<T>(s: State<T>, t: nat)
    requires Ordered(s) && Enabled(s, Enter(t))
    ensures var s' := Step(s, Enter(t));
            && AcceptedIn(s'.log) == GoneIn(s'.log) + s'.q.tasks
            && AcceptedIn(SinceWipe(s'.log)) == PoppedIn(SinceWipe(s'.log)) + s'.q.tasks
            && ClosedBy(s'.log) == s'.q.stopped
  {
    var p := s.threads[t];
    var e, q' := EventOf(s.q, p), After(s.q, SectionOf(p));
    var recent := SinceWipe(s.log);
    EventExplainsSection(s.q, p);
    Appended(s.log, e);
    Appended(recent, e);
    AccountBalances(AcceptedIn(s.log), GoneIn(s.log), e, s.q, q');
    AccountBalances(AcceptedIn(recent), PoppedIn(recent), e, s.q, q');
  }

  lemma QueuedIsTheQueue<T>(came: seq<T>, left: seq<T>, tasks: seq<T>)
    requires came == left + tasks
    ensures left <= came && came[|left|..] == tasks
  {
  }

  lemma EventFits<T>(q: Monitor<T>, p: Phase<T>)
    requires WantsLock(p)
    ensures Fits(q.tasks, q.stopped, EventOf(q, p))
  {
  }

  lemma FittingExtends<T>(log: seq<Event<T>>, e: Event<T>)
    requires Sequential(log) && GoneIn(log) <= AcceptedIn(log)
    requires Fits(QueuedBy(log), ClosedBy(log), e)
    ensures Sequential(log + [e])
  {
    assert (log + [e])[..|log|] == log;
  }

  lemma SectionIsSequential<T>(s: State<T>, t: nat)
    requires Ordered(s) && Enabled(s, Enter(t))
    ensures Sequential(Step(s, Enter(t)).log)
  {
    QueuedIsTheQueue(AcceptedIn(s.log), GoneIn(s.log), s.q.tasks);
    EventFits(s.q, s.threads[t]);
    FittingExtends(s.log, EventOf(s.q, s.threads[t]));
  }

  lemma StepKeepsOrdered<T>(s: State<T>, a: Action<T>)
    requires Ordered(s) && Enabled(s, a)
    ensures Ordered(Step(s, a))
  {
    if a.Enter? {
      SectionKeepsAccount(s, a.tid);
      SectionIsSequential(s, a.tid);
    }
  }

  /** Every run is a sequential history, and its log accounts for every accepted task in order. */
  lemma {:induction false} RunIsSequential<T>(s: State<T>, run: seq<Action<T>>)
    requires Ordered(s) && IsRun(s, run)
    ensures Ordered(Exec(s, run))
    decreases |run|
  {
    if run != [] {
      StepKeepsOrdered(s, run[0]);
      RunIsSequential(Step(s, run[0]), run[1..]);
    }
  }

  lemma LinearizableFifo<T>(s: State<T>, run: seq<Action<T>>)
    requires Initial(s) && IsRun(s, run)
    ensures var e := Exec(s, run);
            && Sequential(e.log)
            && AcceptedIn(e.log) == GoneIn(e.log) + e.q.tasks
            && AcceptedIn(SinceWipe(e.log)) == PoppedIn(SinceWipe(e.log)) + e.q.tasks
  {
    RunIsSequential(s, run);
  }
}
