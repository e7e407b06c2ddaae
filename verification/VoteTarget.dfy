/** When the successes of a vote task stay within its target. */
module VoteTarget {
  import opened Counting
  import opened IdleList
  import opened Accounts
  import opened Devices
  import opened VoteTask
  import opened VoteQuota
  import opened VoteOvershoot
  import W = WxVote

  // ---------------------------------------------------------------- never more than could be taken

  lemma SettersShrinkEligibility(records: Records, acc: string, url: string, n: string)
    ensures var marked := MarkVoted(records, acc, url);
            (CanVote(marked, url)(n) ==> CanVote(records, url)(n)) && (CanDoDaily(marked)(n) ==> CanDoDaily(records)(n))
    ensures var barred := WithStatus(records, acc, ABNORMAL);
            (CanVote(barred, url)(n) ==> CanVote(records, url)(n)) && (CanDoDaily(barred)(n) ==> CanDoDaily(records)(n))
    ensures var finished := WithDaily(records, acc, DAILY_FINISHED);
            && (CanVote(finished, url)(n) ==> CanVote(records, url)(n))
            && (CanDoDaily(finished)(n) ==> CanDoDaily(records)(n))
  {
  }

  /** Nothing the sessions do makes an account eligible for a vote or due for its daily task. */
  lemma EligibilityShrinks(task: Task, s: State, a: Action, n: string)
    requires Enabled(s, a) && forall acc :: acc in s.idle ==> acc in s.records
    ensures CanVote(Step(task, s, a).records, task.url)(n) ==> CanVote(s.records, task.url)(n)
    ensures CanDoDaily(Step(task, s, a).records)(n) ==> CanDoDaily(s.records)(n)
  {
    var acc := RecordsAfter(task, s, a);
    SettersShrinkEligibility(s.records, acc, task.url, n);
  }

  /** The accounts loaded at the start that could be taken for a vote. */
  ghost function Chosen(task: Task, before: Records, loaded: set<string>): set<string> {
    set acc | acc in loaded && CanVote(before, task.url)(acc)
  }

  /** Only accounts that could be taken at the start are held for a vote or marked. */
  ghost predicate FromChosen(task: Task, before: Records, loaded: set<string>, s: State) {
    && (forall acc :: CanVote(s.records, task.url)(acc) ==> CanVote(before, task.url)(acc))
    && Members(s.marks) <= Chosen(task, before, loaded)
    && forall ip :: ip in s.sessions && HoldsToVote(s.sessions[ip]) ==>
         s.sessions[ip].acc in Chosen(task, before, loaded)
  }

  /** Only a take makes a session hold another account for a vote. */
  lemma HoldsToVoteAfter(task: Task, s: State, a: Action)
    requires Enabled(s, a) && !a.Other? && HoldsToVote(Step(task, s, a).sessions[a.ip])
    ensures var p, p' := s.sessions[a.ip], Step(task, s, a).sessions[a.ip];
            if a.Take? then p'.acc in s.idle && CanVote(s.records, task.url)(p'.acc)
            else HoldsToVote(p) && p'.acc == p.acc
  {
  }

  lemma MarksAfter(task: Task, s: State, a: Action)
    requires Enabled(s, a)
    ensures var s' := Step(task, s, a);
            s'.marks == s.marks || (a.Reply? && s'.marks == s.marks + [s.sessions[a.ip].acc])
  {
  }

  lemma StepKeepsFromChosen(task: Task, before: Records, loaded: set<string>, s: State, a: Action)
    requires Inv(task, before, loaded, s) && FromChosen(task, before, loaded, s) && Enabled(s, a)
    ensures FromChosen(task, before, loaded, Step(task, s, a))
  {
    var s' := Step(task, s, a);
    forall acc | CanVote(s'.records, task.url)(acc)
      ensures CanVote(before, task.url)(acc)
    {
      EligibilityShrinks(task, s, a, acc);
    }
    MarksAfter(task, s, a);
    SessionOfStep(task, s, a);
    if !a.Other? && HoldsToVote(s'.sessions[a.ip]) {
      HoldsToVoteAfter(task, s, a);
    }
  }

  lemma {:induction false} RunKeepsFromChosen(task: Task, before: Records, loaded: set<string>, s: State,
                                              run: seq<Action>)
    requires Inv(task, before, loaded, s) && FromChosen(task, before, loaded, s) && IsRun(task, s, run)
    ensures FromChosen(task, before, loaded, Exec(task, s, run))
    decreases |run|
  {
    if run != [] {
      StepKeepsFromChosen(task, before, loaded, s, run[0]);
      StepKeepsOwned(task, loaded, s, run[0]);
      StepKeepsTallied(task, before, loaded, s, run[0]);
      RunKeepsFromChosen(task, before, loaded, Step(task, s, run[0]), run[1..]);
    }
  }

  lemma ChosenSize(task: Task, s: State)
    requires Initial(s)
    ensures |Chosen(task, s.records, Members(s.idle))| == Waiting(task, s)
  {
    var able := CanVote(s.records, task.url);
    KeepMembers(s.idle, able);
    KeepDistinct(s.idle, able);
    DistinctSize(Keep(s.idle, able));
    assert Chosen(task, s.records, Members(s.idle)) == Members(Keep(s.idle, able));
  }

  /** Whatever happens, outside changes included, no more succeed than could be taken at the start. */
  lemma SuccessNeverExceedsWaiting(task: Task, s: State, run: seq<Action>)
    requires Initial(s) && IsRun(task, s, run)
    ensures Exec(task, s, run).success <= Waiting(task, s)
  {
    var loaded, e := Members(s.idle), Exec(task, s, run);
    InitialInv(task, s);
    RunKeepsInv(task, s.records, loaded, s, run);
    assert Members(s.marks) == {};
    RunKeepsFromChosen(task, s.records, loaded, s, run);
    DistinctSize(e.marks);
    SubsetSize(Members(e.marks), Chosen(task, s.records, loaded));
    ChosenSize(task, s);
  }

  /**
   Two vote sessions and any interleaving, outside changes included: the target is never
   exceeded exactly when no more accounts than the target can be taken.
   */
  lemma TwoSessionsKeepTargetIff(task: Task, s: State, t: string, u: string)
    requires Initial(s) && VotingDevices(s.devices) == 0 && task.target >= 1
    requires t in s.sessions && u in s.sessions && t != u && s.sessions[t].Taking? && s.sessions[u].Taking?
    ensures (forall run :: IsRun(task, s, run) ==> Exec(task, s, run).success <= task.target) <==>
            Waiting(task, s) <= task.target
  {
    if Waiting(task, s) <= task.target {
      forall run | IsRun(task, s, run)
        ensures Exec(task, s, run).success <= task.target
      {
        SuccessNeverExceedsWaiting(task, s, run);
      }
    } else {
      OvershootReachesEveryAccount(task, s, t, u);
    }
  }

  // ---------------------------------------------------------------- one vote session

  /** The connection pool and late sessions set no device to voting. */
  ghost predicate OutsidersNeverVote(run: seq<Action>) {
    forall a :: a in run && a.Other? ==> a.status != WX_VOTING
  }

  /** A success is on its way, or the device of `ip` takes up a place at the gate. */
  ghost predicate Committed(s: State, ip: string) {
    && ip in s.sessions
    && var p := s.sessions[ip];
       Claiming(p) || (IsVotingDevice(s.devices, ip) && !p.Releasing? && !p.Ending?)
  }

  /** Only the session of `ip` votes, and what it has under way still fits. */
  ghost predicate LoneVoter(task: Task, ip: string, s: State) {
    && (forall t :: t in s.sessions && t != ip ==> W.IsDaily(s.sessions[t]))
    && (forall d :: IsVotingDevice(s.devices, d) ==> d == ip)
    && s.success + Bit(Committed(s, ip)) <= task.target
  }

  lemma LoneVotingDevices(devices: Statuses, ip: string)
    requires forall d :: IsVotingDevice(devices, d) ==> d == ip
    ensures VotingDevices(devices) == Bit(IsVotingDevice(devices, ip))
  {
    var voting := Where(devices, Is(WX_VOTING));
    assert forall d :: d in voting <==> IsVotingDevice(devices, d);
    if IsVotingDevice(devices, ip) {
      assert voting == {ip};
    } else {
      assert voting == {};
    }
  }

  lemma OwnStepStaysWithin(task: Task, ip: string, s: State, a: Action)
    requires LoneVoter(task, ip, s) && Enabled(s, a) && a.ip == ip && !a.Other?
    ensures var s' := Step(task, s, a); s'.success + Bit(Committed(s', ip)) <= task.target
  {
    LoneVotingDevices(s.devices, ip);
  }

  lemma StepKeepsLoneVoter(task: Task, ip: string, s: State, a: Action)
    requires LoneVoter(task, ip, s) && Enabled(s, a) && (a.Other? ==> a.status != WX_VOTING)
    ensures LoneVoter(task, ip, Step(task, s, a))
  {
    SessionOfStep(task, s, a);
    StatusOfStep(task, s, a);
    SuccessOfStep(task, s, a);
    var s' := Step(task, s, a);
    forall d | IsVotingDevice(s'.devices, d)
      ensures d == ip
    {
      assert a.Begin? ==> a.ip == ip;
      assert IsVotingDevice(s.devices, d) ==> d == ip;
    }
    if a.ip == ip && !a.Other? {
      OwnStepStaysWithin(task, ip, s, a);
    }
  }

  lemma {:induction false} RunKeepsLoneVoter(task: Task, ip: string, s: State, run: seq<Action>)
    requires LoneVoter(task, ip, s) && IsRun(task, s, run) && OutsidersNeverVote(run)
    ensures LoneVoter(task, ip, Exec(task, s, run))
    decreases |run|
  {
    if run != [] {
      assert run[0] in run;
      StepKeepsLoneVoter(task, ip, s, run[0]);
      RunKeepsLoneVoter(task, ip, Step(task, s, run[0]), run[1..]);
    }
  }

  /** Two vote sessions never start together. */
  ghost predicate AtMostOneVoter(s: State) {
    forall t, u :: t in s.sessions && u in s.sessions && s.sessions[t].Taking? && s.sessions[u].Taking? ==> t == u
  }

  ghost function TheVoter(s: State): string {
    if ip :| ip in s.sessions && s.sessions[ip].Taking? then ip else ""
  }

  /** One vote session beside any number of daily ones keeps the target. */
  lemma OneSessionKeepsTarget(task: Task, s: State, run: seq<Action>)
    requires Initial(s) && VotingDevices(s.devices) == 0 && task.target >= 0 && AtMostOneVoter(s)
    requires IsRun(task, s, run) && OutsidersNeverVote(run)
    ensures Exec(task, s, run).success <= task.target
  {
    TallyZero(s.devices, Is(WX_VOTING));
    RunKeepsLoneVoter(task, TheVoter(s), s, run);
  }

  // ---------------------------------------------------------------- target zero

  /** With nothing to do the equality holds from the start and nobody gets through. */
  ghost predicate NobodyStarts(s: State) {
    && s.success == 0 && VotingDevices(s.devices) == 0
    && forall ip :: ip in s.sessions ==> !Claiming(s.sessions[ip])
  }

  lemma StepKeepsNobodyStarts(task: Task, s: State, a: Action)
    requires task.target == 0 && NobodyStarts(s) && Enabled(s, a) && (a.Other? ==> a.status != WX_VOTING)
    ensures NobodyStarts(Step(task, s, a))
  {
    var s' := Step(task, s, a);
    SessionOfStep(task, s, a);
    StatusOfStep(task, s, a);
    SuccessOfStep(task, s, a);
    if !a.Other? {
      StartingOfStep(task, s, a);
      InFlightOfStep(task, s, a);
    }
    if s'.devices != s.devices {
      TallyUpdate(s.devices, a.ip, s'.devices[a.ip], Is(WX_VOTING));
    }
  }

  lemma {:induction false} RunKeepsNobodyStarts(task: Task, s: State, run: seq<Action>)
    requires task.target == 0 && NobodyStarts(s) && IsRun(task, s, run) && OutsidersNeverVote(run)
    ensures NobodyStarts(Exec(task, s, run))
    decreases |run|
  {
    if run != [] {
      assert run[0] in run;
      StepKeepsNobodyStarts(task, s, run[0]);
      RunKeepsNobodyStarts(task, Step(task, s, run[0]), run[1..]);
    }
  }

  // ---------------------------------------------------------------- the exact condition

  ghost predicate AlwaysWithinTarget(task: Task, s: State) {
    forall run :: IsRun(task, s, run) && OutsidersNeverVote(run) ==> Exec(task, s, run).success <= task.target
  }

  lemma WithinTarget(task: Task, s: State, run: seq<Action>)
    requires Initial(s) && VotingDevices(s.devices) == 0 && task.target >= 0
    requires task.target == 0 || AtMostOneVoter(s) || Waiting(task, s) <= task.target
    requires IsRun(task, s, run) && OutsidersNeverVote(run)
    ensures Exec(task, s, run).success <= task.target
  {
    if Waiting(task, s) <= task.target {
      SuccessNeverExceedsWaiting(task, s, run);
    } else if AtMostOneVoter(s) {
      OneSessionKeepsTarget(task, s, run);
    } else {
      RunKeepsNobodyStarts(task, s, run);
    }
  }

  /**
   For the code as written no run exceeds the target exactly when the target is not negative
   and there is nothing to do, or only one session to do it, or nobody else to take.
   */
  lemma TargetHoldsIff(task: Task, s: State)
    requires Initial(s) && VotingDevices(s.devices) == 0
    ensures AlwaysWithinTarget(task, s) <==>
            task.target >= 0 && (task.target == 0 || AtMostOneVoter(s) || Waiting(task, s) <= task.target)
  {
    if task.target >= 0 && (task.target == 0 || AtMostOneVoter(s) || Waiting(task, s) <= task.target) {
      forall run | IsRun(task, s, run) && OutsidersNeverVote(run)
        ensures Exec(task, s, run).success <= task.target
      {
        WithinTarget(task, s, run);
      }
    } else if task.target < 0 {
      assert IsRun(task, s, []) && OutsidersNeverVote([]);
    } else {
      var t, u :| t in s.sessions && u in s.sessions && s.sessions[t].Taking? && s.sessions[u].Taking? && t != u;
      OvershootReachesEveryAccount(task, s, t, u);
    }
  }

  /** The same condition in terms of the tables a vote command finds. */
  lemma CommandKeepsTargetIff(task: Task, records: Records, idle: seq<string>, devices: Statuses, daily: set<string>)
    requires WellListed(records, idle)
    requires forall ip :: ip in devices ==> devices[ip] != WX_VOTING
    ensures var s := W.Started(records, idle, devices, 0, Where(devices, Is(ONLINE_IDLE)), daily);
            AlwaysWithinTarget(task, s) <==>
            task.target >= 0 && (task.target == 0 || Tally(devices, Is(ONLINE_IDLE)) <= 1
                                 || |Keep(idle, CanVote(records, task.url))| <= task.target)
  {
    var ready := Where(devices, Is(ONLINE_IDLE));
    var s := W.Started(records, idle, devices, 0, ready, daily);
    TallyZero(devices, Is(WX_VOTING));
    TargetHoldsIff(task, s);
    assert AtMostOneVoter(s) <==> forall t, u :: t in ready && u in ready ==> t == u by {
      assert forall ip :: ip in ready <==> ip in s.sessions && s.sessions[ip].Taking?;
    }
    AtMostOneIff(ready);
  }

  lemma AtMostOneIff(all: set<string>)
    ensures |all| <= 1 <==> forall t, u :: t in all && u in all ==> t == u
  {
    if t :| t in all {
      SizeWithout(all, t);
      if u :| u in all - {t} {
        assert |all - {t}| >= 1;
      } else {
        assert all == {t};
      }
    }
  }
}
