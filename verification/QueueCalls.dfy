/** Every call on the queue is answered once, every notification owed is sent, every sleeper was put to sleep. */
module QueueCalls {
  import opened Counting
  import opened WorkQueue
  import opened QueueThreads
  import opened QueueShutdown

  /** A clear is a stop and then a second section of its own. */
  datatype Kind = Push | Pop | Stop | Clear

  /** The phases in which a call of this kind is under way and not yet answered. */
  function Inside<T>(kind: Kind): Phase<T> -> bool {
    match kind
    case Push => (p: Phase<T>) => p.Pushing?
    case Pop => (p: Phase<T>) => p.Popping? || p.Sleeping? || p.Woken?
    case Stop => (p: Phase<T>) => p.Stopping?
    case Clear => (p: Phase<T>) => InClear(p)
  }

  function Answers<T>(kind: Kind): Event<T> -> bool {
    match kind
    case Push => (e: Event<T>) => e.Accepted? || e.Refused?
    case Pop => (e: Event<T>) => e.Popped? || e.PoppedBlank?
    case Stop => (e: Event<T>) => e.Stopped?
    case Clear => (e: Event<T>) => e.Wiped?
  }

  function Opens<T>(kind: Kind): Action<T> -> bool {
    (a: Action<T>) => a.Call? && Inside(kind)(a.entry)
  }

  predicate Accepts<T>(e: Event<T>) { e.Accepted? }
  predicate Sleeps<T>(e: Event<T>) { e.Slept? }
  predicate NotifiesOne<T>(a: Action<T>) { a.NotifyOne? || a.NotifyNobody? }
  predicate NotifiesAll<T>(a: Action<T>) { a.NotifyAll? }

  /** How many entries of a log or of a run satisfy a predicate. */
  function CountOf<X>(s: seq<X>, p: X -> bool): nat {
    if s == [] then 0 else CountOf(s[..|s| - 1], p) + Bit(p(s[|s| - 1]))
  }

  lemma CountOfAppended<X>(s: seq<X>, x: X, p: X -> bool)
    ensures CountOf(s + [x], p) == CountOf(s, p) + Bit(p(x))
  {
    assert (s + [x])[..|s|] == s;
  }

  lemma {:induction false} CountOfFirst<X>(s: seq<X>, p: X -> bool)
    requires s != []
    ensures CountOf(s, p) == Bit(p(s[0])) + CountOf(s[1..], p)
  {
    if |s| > 1 {
      CountOfFirst(s[..|s| - 1], p);
      assert s[..|s| - 1][1..] == s[1..][..|s[1..]| - 1];
    } else {
      assert s[1..] == [] == s[..0];
    }
  }

  // ---------------------------------------------------------------- one thread

  /** The events thread `t` logs in a run that satisfy a predicate. */
  ghost function LoggedBy<T>(s: State<T>, run: seq<Action<T>>, t: nat, p: Event<T> -> bool): nat
    requires IsRun(s, run)
    decreases |run|
  {
    if run == [] then 0
    else
      var s' := Step(s, run[0]);
      Bit(run[0].tid == t && Logs(s, run[0], p)) + LoggedBy(s', run[1..], t, p)
  }

  function By<T>(t: nat, p: Action<T> -> bool): Action<T> -> bool {
    (a: Action<T>) => a.tid == t && p(a)
  }

  /** How often thread `t` is taken off the condition variable. */
  ghost function WakesOf<T>(s: State<T>, run: seq<Action<T>>, t: nat): nat
    requires IsRun(s, run) && t in s.threads
    decreases |run|
  {
    if run == [] then 0
    else
      var a := run[0];
      ThreadsStay(s, a);
      Bit(s.threads[t].Sleeping? && (a.NotifyAll? || (a.NotifyOne? && a.woken == t) || (a.Spurious? && a.tid == t)))
      + WakesOf(Step(s, a), run[1..], t)
  }

  lemma ThreadsStay<T>(s: State<T>, a: Action<T>)
    requires Enabled(s, a)
    ensures Step(s, a).threads.Keys == s.threads.Keys
  {
  }

  /** The thread of `a` logs an event that satisfies `p`. */
  ghost predicate Logs<T>(s: State<T>, a: Action<T>, p: Event<T> -> bool)
    requires Enabled(s, a)
  {
    var s' := Step(s, a);
    a.Enter? && |s'.log| > |s.log| && p(s'.log[|s.log|])
  }

  lemma SectionAnswers<T>(s: State<T>, t: nat, kind: Kind)
    requires Enabled(s, Enter(t))
    ensures Bit(Inside(kind)(s.threads[t])) ==
            Bit(Logs(s, Enter(t), Answers(kind))) + Bit(Inside(kind)(Step(s, Enter(t)).threads[t]))
  {
    assert Step(s, Enter(t)).log[|s.log|] == EventOf(s.q, s.threads[t]);
  }

  lemma ThreadStep<T>(s: State<T>, a: Action<T>, t: nat, kind: Kind)
    requires Enabled(s, a) && t in s.threads
    ensures t in Step(s, a).threads
    ensures Bit(Inside(kind)(s.threads[t])) + Bit(a.tid == t && Opens(kind)(a)) ==
            Bit(a.tid == t && Logs(s, a, Answers(kind))) + Bit(Inside(kind)(Step(s, a).threads[t]))
  {
    if a == Enter(t) {
      SectionAnswers(s, t, kind);
    }
  }

  lemma NoticeStep<T>(s: State<T>, a: Action<T>, t: nat)
    requires Enabled(s, a) && t in s.threads
    ensures t in Step(s, a).threads
    ensures Bit(s.threads[t].OwesOne?) + Bit(a.tid == t && Logs(s, a, Accepts)) ==
            Bit(a.tid == t && NotifiesOne(a)) + Bit(Step(s, a).threads[t].OwesOne?)
    ensures Bit(s.threads[t].OwesAll?) + Bit(a.tid == t && Logs(s, a, Answers(Stop))) ==
            Bit(a.tid == t && NotifiesAll(a)) + Bit(Step(s, a).threads[t].OwesAll?)
  {
  }

  /**
   Of each kind, a thread has as many answers as it made calls, less the one it is still in; a pop
   that is under way has not returned, whether it sleeps or not.
   */
  lemma {:induction false} EveryThreadIsAnswered<T>(s: State<T>, run: seq<Action<T>>, t: nat, kind: Kind)
    requires IsRun(s, run) && t in s.threads
    ensures var e := Exec(s, run);
            && t in e.threads
            && Bit(Inside(kind)(s.threads[t])) + CountOf(run, By(t, Opens(kind)))
               == LoggedBy(s, run, t, Answers(kind)) + Bit(Inside(kind)(e.threads[t]))
    decreases |run|
  {
    if run != [] {
      ThreadStep(s, run[0], t, kind);
      EveryThreadIsAnswered(Step(s, run[0]), run[1..], t, kind);
      CountOfFirst(run, By(t, Opens(kind)));
    }
  }

  /** A thread has sent one notification for each accepted push and each stop, or still owes it. */
  lemma {:induction false} EveryThreadNotifies<T>(s: State<T>, run: seq<Action<T>>, t: nat)
    requires IsRun(s, run) && t in s.threads
    ensures var e := Exec(s, run);
            && t in e.threads
            && Bit(s.threads[t].OwesOne?) + LoggedBy(s, run, t, Accepts)
               == CountOf(run, By(t, NotifiesOne)) + Bit(e.threads[t].OwesOne?)
            && Bit(s.threads[t].OwesAll?) + LoggedBy(s, run, t, Answers(Stop))
               == CountOf(run, By(t, NotifiesAll)) + Bit(e.threads[t].OwesAll?)
    decreases |run|
  {
    if run != [] {
      NoticeStep(s, run[0], t);
      EveryThreadNotifies(Step(s, run[0]), run[1..], t);
      CountOfFirst(run, By(t, NotifiesOne));
      CountOfFirst(run, By(t, NotifiesAll));
    }
  }

  /** A thread is asleep exactly when it has gone to sleep once more than it was woken. */
  lemma {:induction false} SleepersWereNotWoken<T>(s: State<T>, run: seq<Action<T>>, t: nat)
    requires IsRun(s, run) && t in s.threads
    ensures var e := Exec(s, run);
            && t in e.threads
            && Bit(s.threads[t].Sleeping?) + LoggedBy(s, run, t, Sleeps)
               == WakesOf(s, run, t) + Bit(e.threads[t].Sleeping?)
    decreases |run|
  {
    if run != [] {
      ThreadsStay(s, run[0]);
      SleepersWereNotWoken(Step(s, run[0]), run[1..], t);
    }
  }

  // ---------------------------------------------------------------- all threads

  /** Waking everybody leaves a tally that does not tell sleepers from the woken as it was. */
  lemma WakeAllKeeps<T>(threads: map<nat, Phase<T>>, p: Phase<T> -> bool)
    requires p(Sleeping) == p(Woken)
    ensures Tally(WakeAll(threads), p) == Tally(threads, p)
  {
    assert Where(WakeAll(threads), p) == Where(threads, p);
  }

  /** A step changes the phase of its own thread, and otherwise only wakes sleepers. */
  lemma OwnPhaseCounts<T>(s: State<T>, a: Action<T>, p: Phase<T> -> bool)
    requires Enabled(s, a) && p(Sleeping) == p(Woken)
    ensures a.tid in Step(s, a).threads
    ensures Tally(Step(s, a).threads, p) ==
            Tally(s.threads, p) - Bit(p(s.threads[a.tid])) + Bit(p(Step(s, a).threads[a.tid]))
  {
    var t := a.tid;
    match a
    case NotifyOne(_, woken) =>
      TallyUpdate(s.threads, t, Outside, p);
      TallyUpdate(s.threads[t := Outside], woken, Woken, p);
    case NotifyAll(_) =>
      WakeAllKeeps(s.threads, p);
      TallyUpdate(WakeAll(s.threads), t, Step(s, a).threads[t], p);
    case _ => TallyUpdate(s.threads, t, Step(s, a).threads[t], p);
  }

  lemma StepAnswersCalls<T>(s: State<T>, a: Action<T>, kind: Kind)
    requires Enabled(s, a)
    ensures var s' := Step(s, a);
            CountOf(s'.log, Answers(kind)) + Tally(s'.threads, Inside(kind)) ==
            CountOf(s.log, Answers(kind)) + Tally(s.threads, Inside(kind)) + Bit(Opens(kind)(a))
  {
    OwnPhaseCounts(s, a, Inside(kind));
    ThreadStep(s, a, a.tid, kind);
    if a.Enter? {
      CountOfAppended(s.log, EventOf(s.q, s.threads[a.tid]), Answers(kind));
    }
  }

  lemma {:induction false} RunAnswersCalls<T>(s: State<T>, run: seq<Action<T>>, kind: Kind)
    requires IsRun(s, run)
    ensures var e := Exec(s, run);
            CountOf(e.log, Answers(kind)) + Tally(e.threads, Inside(kind)) ==
            CountOf(s.log, Answers(kind)) + Tally(s.threads, Inside(kind)) + CountOf(run, Opens(kind))
    decreases |run|
  {
    if run != [] {
      StepAnswersCalls(s, run[0], kind);
      RunAnswersCalls(Step(s, run[0]), run[1..], kind);
      CountOfFirst(run, Opens(kind));
    }
  }

  /**
   From the start, the calls made are those answered in the log and those under way: pushes are
   accepted or refused, pops get a task or the default value, stops set the flag, and clears get
   to their second section.
   */
  lemma EveryCallIsAnswered<T>(s: State<T>, run: seq<Action<T>>, kind: Kind)
    requires Initial(s) && IsRun(s, run)
    ensures var e := Exec(s, run);
            CountOf(run, Opens(kind)) == CountOf(e.log, Answers(kind)) + Tally(e.threads, Inside(kind))
  {
    TallyZero(s.threads, Inside(kind));
    RunAnswersCalls(s, run, kind);
  }

  /**
   When no thread is about to take the lock or owes a notification, a queue that holds a task or
   is stopped has answered every pop: nobody is left waiting beside it.
   */
  lemma QuietQueueServedEveryPop<T>(s: State<T>, run: seq<Action<T>>)
    requires Initial(s) && IsRun(s, run)
    requires forall t :: t in Exec(s, run).threads ==>
               var p := Exec(s, run).threads[t]; !p.OwesOne? && !p.OwesAll? && !WantsLock(p)
    requires Ready(Exec(s, run).q)
    ensures CountOf(run, Opens(Pop)) == CountOf(Exec(s, run).log, Answers(Pop))
  {
    var e := Exec(s, run);
    EveryCallIsAnswered(s, run, Pop);
    if t :| t in e.threads && e.threads[t].Sleeping? {
      QuietSleepersMeanEmptyQueue(s, run);
      assert false;
    }
    TallyZero(e.threads, Inside(Pop));
  }
}
