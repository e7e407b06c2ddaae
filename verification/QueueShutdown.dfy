/** What stopping the queue guarantees as long as nobody clears it. */
module QueueShutdown {
  import opened Counting
  import opened WorkQueue
  import opened QueueThreads

  predicate InClear<T>(p: Phase<T>) {
    (p.Stopping? && p.clearing) || (p.OwesAll? && p.clearing) || p.Clearing?
  }

  ghost predicate Closing<T>(s: State<T>) {
    s.q.stopped && forall t :: t in s.threads ==> !InClear(s.threads[t])
  }

  predicate StartsClear<T>(a: Action<T>) {
    a.Call? && InClear(a.entry)
  }

  ghost predicate NeverClears<T>(run: seq<Action<T>>) {
    forall a :: a in run ==> !StartsClear(a)
  }

  predicate DrainEvent<T>(e: Event<T>) {
    e.Popped? || e.PoppedBlank? || e.Refused? || e.Stopped?
  }

  /** `e` comes from `s` by popping a prefix of the queue, and nothing was accepted or put to sleep. */
  ghost predicate DrainedFrom<T>(s: State<T>, e: State<T>) {
    && s.log <= e.log
    && (forall i :: |s.log| <= i < |e.log| ==> DrainEvent(e.log[i]))
    && PoppedIn(e.log) + e.q.tasks == PoppedIn(s.log) + s.q.tasks
    && AcceptedIn(e.log) == AcceptedIn(s.log)
    && forall t :: t in e.threads && e.threads[t].Sleeping? ==> t in s.threads && s.threads[t].Sleeping?
  }

  lemma StepDrains<T>(s: State<T>, a: Action<T>)
    requires Closing(s) && Enabled(s, a) && !StartsClear(a)
    ensures Closing(Step(s, a)) && DrainedFrom(s, Step(s, a))
  {
    if a.Enter? {
      var p := s.threads[a.tid];
      var e := EventOf(s.q, p);
      assert DrainEvent(e);
      EventExplainsSection(s.q, p);
      Appended(s.log, e);
      AccountBalances(PoppedIn(s.log) + s.q.tasks, PoppedIn(s.log), e, s.q, Step(s, a).q);
    }
  }

  /** After a stop the queue hands out exactly what it held, in order, and nobody sleeps again. */
  lemma {:induction false} DrainingShutdown<T>(s: State<T>, run: seq<Action<T>>)
    requires Closing(s) && IsRun(s, run) && NeverClears(run)
    ensures Closing(Exec(s, run)) && DrainedFrom(s, Exec(s, run))
    decreases |run|
  {
    if run != [] {
      assert run[0] in run;
      var m := Step(s, run[0]);
      StepDrains(s, run[0]);
      DrainingShutdown(m, run[1..]);
    }
  }

  // ---------------------------------------------------------------- termination

  predicate IsActive<T>(p: Phase<T>) { !p.Outside? }
  predicate IsHeavy<T>(p: Phase<T>) { p.Sleeping? || p.Stopping? }

  /** Steps still to be made by the calls under way. */
  ghost function Remaining<T>(s: State<T>): nat {
    Tally(s.threads, IsActive) + Tally(s.threads, IsHeavy)
  }

  function CallsIn<T>(run: seq<Action<T>>): nat {
    if run == [] then 0 else Bit(run[0].Call?) + CallsIn(run[1..])
  }

  lemma Reweigh<T>(threads: map<nat, Phase<T>>, t: nat, p: Phase<T>)
    requires t in threads
    ensures Tally(threads[t := p], IsActive) ==
            Tally(threads, IsActive) - Bit(!threads[t].Outside?) + Bit(!p.Outside?)
    ensures Tally(threads[t := p], IsHeavy) ==
            Tally(threads, IsHeavy) - Bit(IsHeavy(threads[t])) + Bit(IsHeavy(p))
  {
    TallyUpdate(threads, t, p, IsActive);
    TallyUpdate(threads, t, p, IsHeavy);
  }

  lemma SectionSpends<T>(s: State<T>, t: nat)
    requires Closing(s) && Enabled(s, Enter(t))
    ensures Remaining(Step(s, Enter(t))) + 1 <= Remaining(s)
  {
    Reweigh(s.threads, t, PhaseAfter(s.q, s.threads[t]));
  }

  lemma NotifyOneSpends<T>(s: State<T>, t: nat, woken: nat)
    requires Enabled(s, NotifyOne(t, woken))
    ensures Remaining(Step(s, NotifyOne(t, woken))) + 1 <= Remaining(s)
  {
    Reweigh(s.threads, t, Outside);
    Reweigh(s.threads[t := Outside], woken, Woken);
  }

  lemma NotifyAllSpends<T>(s: State<T>, t: nat)
    requires Closing(s) && Enabled(s, NotifyAll(t))
    ensures Remaining(Step(s, NotifyAll(t))) + 1 <= Remaining(s)
  {
    var all := WakeAll(s.threads);
    TallyShrinks(s.threads, IsActive, all, IsActive);
    TallyShrinks(s.threads, IsHeavy, all, IsHeavy);
    Reweigh(all, t, Outside);
  }

  lemma StepSpends<T>(s: State<T>, a: Action<T>)
    requires Closing(s) && Enabled(s, a) && !StartsClear(a)
    ensures Remaining(Step(s, a)) + 1 <= Remaining(s) + 3 * Bit(a.Call?)
  {
    match a
    case Call(t, entry) => Reweigh(s.threads, t, entry);
    case Enter(t) => SectionSpends(s, t);
    case NotifyOne(t, woken) => NotifyOneSpends(s, t, woken);
    case NotifyNobody(t) => Reweigh(s.threads, t, Outside);
    case NotifyAll(t) => NotifyAllSpends(s, t);
    case Spurious(t) => Reweigh(s.threads, t, Woken);
  }

  /** The length of any run of a closed queue is bounded by the work at hand and the new calls. */
  lemma {:induction false} ShutdownTerminates<T>(s: State<T>, run: seq<Action<T>>)
    requires Closing(s) && IsRun(s, run) && NeverClears(run)
    ensures |run| + Remaining(Exec(s, run)) <= Remaining(s) + 3 * CallsIn(run)
    decreases |run|
  {
    if run != [] {
      assert run[0] in run;
      StepSpends(s, run[0]);
      StepDrains(s, run[0]);
      ShutdownTerminates(Step(s, run[0]), run[1..]);
    }
  }

  /** Work the threads themselves can do, without a new call and without luck. */
  ghost predicate CanProceed<T(!new)>(s: State<T>) {
    exists a :: Enabled(s, a) && !a.Call? && !a.Spurious?
  }

  lemma UnfinishedCanProceed<T(!new)>(s: State<T>, t: nat)
    requires Covered(s) && s.q.stopped
    requires t in s.threads && !s.threads[t].Outside?
    ensures CanProceed(s)
  {
    TallyZero(s.threads, IsSleeping);
    TallyZero(s.threads, IsOwingAll);
    var p := s.threads[t];
    if WantsLock(p) {
      assert Enabled(s, Enter(t));
    } else if p.OwesAll? {
      assert Enabled(s, NotifyAll(t));
    } else if u :| u in s.threads && s.threads[u].Sleeping? {
      var owing :| owing in s.threads && IsOwingAll(s.threads[owing]);
      assert Enabled(s, NotifyAll(owing));
    } else {
      assert Enabled(s, NotifyNobody(t));
    }
  }

  /** A reachable stopped state in which nothing can proceed has no call left unfinished. */
  lemma StoppedNeverDeadlocks<T(!new)>(s: State<T>, run: seq<Action<T>>)
    requires Initial(s) && IsRun(s, run)
    requires Exec(s, run).q.stopped && !CanProceed(Exec(s, run))
    ensures forall t :: t in Exec(s, run).threads ==> Exec(s, run).threads[t].Outside?
  {
    var e := Exec(s, run);
    NoLostWakeup(s, run);
    forall t | t in e.threads
      ensures e.threads[t].Outside?
    {
      if !e.threads[t].Outside? {
        UnfinishedCanProceed(e, t);
      }
    }
  }
}
