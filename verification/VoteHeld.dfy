/** When sessions that are all held at the gate can still return. */
module VoteHeld {
  import opened Counting
  import opened IdleList
  import opened Accounts
  import opened Devices
  import opened VoteTask
  import opened VoteQuota
  import opened VoteOvershoot
  import opened VoteEnding

  /** The gate lets a session through or sends it away. */
  ghost predicate Open(task: Task, s: State) {
    !(NeedWait(task, s) && NeedVote(task, s))
  }

  /** A run at the end of which the session of `ip` is in the given phase and nobody else has moved. */
  ghost predicate Drives(task: Task, s: State, run: seq<Action>, e: State, ip: string, p: Phase) {
    Leads(task, s, run, e) && ip in s.sessions && e.sessions == s.sessions[ip := p]
  }

  lemma DrivesJoin(task: Task, s: State, first: seq<Action>, m: State, second: seq<Action>, e: State,
                   ip: string, p: Phase, q: Phase)
    requires Drives(task, s, first, m, ip, p) && Drives(task, m, second, e, ip, q)
    ensures Drives(task, s, first + second, e, ip, q)
  {
    LeadsJoin(task, s, first, m, second, e);
    MovedTwice(s.sessions, ip, p, q);
  }

  lemma DriveOne(task: Task, s: State, a: Action, p: Phase) returns (run: seq<Action>, e: State)
    requires Enabled(s, a) && !a.Other? && Step(task, s, a).sessions == s.sessions[a.ip := p]
    ensures Drives(task, s, run, e, a.ip, p) && e == Step(task, s, a)
  {
    run, e := [a], Step(task, s, a);
    OneStep(task, s, a);
  }

  // ---------------------------------------------------------------- away from the gate

  /** Once the target is met the gate stays open, whatever a returning session changes. */
  lemma LeaveGate(task: Task, s: State, ip: string) returns (run: seq<Action>, e: State)
    requires ip in s.sessions && s.sessions[ip].Leaving? && task.target <= s.success
    ensures Drives(task, s, run, e, ip, Done) && Open(task, e)
  {
    run, e := DriveOne(task, s, Leave(ip), Done);
  }

  lemma SendAway(task: Task, s: State, ip: string) returns (run: seq<Action>, e: State)
    requires ip in s.sessions && s.sessions[ip].Recheck? && !NeedVote(task, s)
    ensures Drives(task, s, run, e, ip, Done) && Open(task, e)
  {
    var check, m := DriveOne(task, s, CheckNeed(ip), Leaving);
    var leave;
    leave, e := LeaveGate(task, m, ip);
    DrivesJoin(task, s, check, m, leave, e, ip, Leaving, Done);
    run := check + leave;
  }

  // ---------------------------------------------------------------- through the gate

  /** The device stops voting and the sum the gate looks at is as before. */
  ghost predicate Settled(task: Task, s: State, e: State, ip: string) {
    && !IsVotingDevice(e.devices, ip)
    && e.success + VotingDevices(e.devices) == s.success + VotingDevices(s.devices)
    && e.success >= s.success
    && Waiting(task, e) <= Waiting(task, s)
  }

  /** A session whose own device is stale takes up no new place and turns the stale one into a success. */
  lemma SettleByVoting(task: Task, s: State, ip: string) returns (run: seq<Action>, e: State)
    requires ip in s.sessions && s.sessions[ip].Starting? && IsVotingDevice(s.devices, ip)
    ensures Drives(task, s, run, e, ip, Taking) && Settled(task, s, e, ip)
  {
    run := CastVote(ip);
    VoteSteps(task, s, ip);
    e := Exec(task, s, run);
    TallyUpdate(s.devices, ip, WX_VOTE_END, Is(WX_VOTING));
    MarkingShrinksWaiting(task, s.records, s.idle, s.sessions[ip].acc);
  }

  lemma MarkingShrinksWaiting(task: Task, records: Records, idle: seq<string>, acc: string)
    ensures |Keep(idle + [acc], CanVote(MarkVoted(records, acc, task.url), task.url))| <=
            |Keep(idle, CanVote(records, task.url))|
  {
    var narrow, wide := CanVote(MarkVoted(records, acc, task.url), task.url), CanVote(records, task.url);
    KeepConcat(idle, [acc], narrow);
    KeepFewer(idle, narrow, wide);
    assert Keep([acc], narrow) == [];
  }

  /** Any other session can wait in vain for its phone. */
  lemma SettleWithoutAnswer(task: Task, s: State, ip: string) returns (run: seq<Action>, e: State)
    requires ip in s.sessions && s.sessions[ip].Starting? && !IsVotingDevice(s.devices, ip)
    ensures Drives(task, s, run, e, ip, Taking) && Settled(task, s, e, ip)
  {
    var acc := s.sessions[ip].acc;
    var begin, m := DriveOne(task, s, Begin(ip), Voting(acc));
    var wait, n := DriveOne(task, m, Reply(ip, NoAnswer), Ending);
    DrivesJoin(task, s, begin, m, wait, n, ip, Voting(acc), Ending);
    var end;
    end, e := DriveOne(task, n, End(ip), Taking);
    DrivesJoin(task, s, begin + wait, n, end, e, ip, Ending, Taking);
    run := begin + wait + end;
    TallyUpdate(s.devices, ip, WX_VOTING, Is(WX_VOTING));
    TallyUpdate(m.devices, ip, WX_VOTE_END, Is(WX_VOTING));
  }

  lemma Settle(task: Task, s: State, ip: string) returns (run: seq<Action>, e: State)
    requires ip in s.sessions && s.sessions[ip].Starting? && Open(task, s)
    ensures Drives(task, s, run, e, ip, Taking) && Settled(task, s, e, ip) && Open(task, e)
  {
    if IsVotingDevice(s.devices, ip) {
      run, e := SettleByVoting(task, s, ip);
    } else {
      run, e := SettleWithoutAnswer(task, s, ip);
    }
  }

  lemma ThroughGate(task: Task, s: State, ip: string) returns (run: seq<Action>, e: State)
    requires ip in s.sessions && s.sessions[ip].Gate? && Open(task, s) && !NeedWait(task, s)
    ensures Drives(task, s, run, e, ip, Taking) && Settled(task, s, e, ip) && Open(task, e)
  {
    var acc := s.sessions[ip].acc;
    var pass, m := DriveOne(task, s, CheckWait(ip), Starting(acc));
    var settle;
    settle, e := Settle(task, m, ip);
    DrivesJoin(task, s, pass, m, settle, e, ip, Starting(acc), Taking);
    run := pass + settle;
  }

  /** A session whose device is not voting takes the next account, or returns if there is none. */
  lemma NextOrDone(task: Task, s: State, ip: string) returns (run: seq<Action>, e: State, p: Phase)
    requires ip in s.sessions && s.sessions[ip].Taking? && !IsVotingDevice(s.devices, ip) && Open(task, s)
    ensures Drives(task, s, run, e, ip, p) && Open(task, e)
    ensures p.Done? || (p.Gate? && Waiting(task, e) < Waiting(task, s))
  {
    var able := CanVote(s.records, task.url);
    var i := First(s.idle, able);
    if i < |s.idle| {
      p := Gate(s.idle[i]);
      TakeOne(s.idle, able);
      run, e := DriveOne(task, s, Take(ip), p);
    } else {
      p := Done;
      var take, m := DriveOne(task, s, Take(ip), Leaving);
      var leave;
      leave, e := DriveOne(task, m, Leave(ip), Done);
      DrivesJoin(task, s, take, m, leave, e, ip, Leaving, Done);
      run := take + leave;
      TallyUpdate(s.devices, ip, ONLINE_IDLE, Is(WX_VOTING));
    }
  }

  // ---------------------------------------------------------------- one session after the other

  lemma {:induction false} DriveFromGate(task: Task, s: State, ip: string) returns (run: seq<Action>, e: State)
    requires ip in s.sessions && s.sessions[ip].Gate? && Open(task, s)
    ensures Drives(task, s, run, e, ip, Done) && Open(task, e)
    decreases Waiting(task, s)
  {
    var rest;
    if NeedWait(task, s) {
      var acc := s.sessions[ip].acc;
      var check, m := DriveOne(task, s, CheckWait(ip), Recheck(acc));
      rest, e := SendAway(task, m, ip);
      DrivesJoin(task, s, check, m, rest, e, ip, Recheck(acc), Done);
      run := check + rest;
    } else {
      var pass, m := ThroughGate(task, s, ip);
      var next, n, p := NextOrDone(task, m, ip);
      DrivesJoin(task, s, pass, m, next, n, ip, Taking, p);
      run, e := pass + next, n;
      if !p.Done? {
        rest, e := DriveFromGate(task, n, ip);
        DrivesJoin(task, s, pass + next, n, rest, e, ip, p, Done);
        run := pass + next + rest;
      }
    }
  }

  lemma DriveHome(task: Task, s: State, ip: string) returns (run: seq<Action>, e: State)
    requires ip in s.sessions && AtGate(s.sessions[ip]) && Open(task, s)
    ensures Drives(task, s, run, e, ip, Done) && Open(task, e)
  {
    if s.sessions[ip].Gate? {
      run, e := DriveFromGate(task, s, ip);
    } else if NeedVote(task, s) {
      var acc := s.sessions[ip].acc;
      var check, m := DriveOne(task, s, CheckNeed(ip), Gate(acc));
      var rest;
      rest, e := DriveFromGate(task, m, ip);
      DrivesJoin(task, s, check, m, rest, e, ip, Gate(acc), Done);
      run := check + rest;
    } else {
      run, e := SendAway(task, s, ip);
    }
  }

  predicate NotDone(p: Phase) {
    !p.Done?
  }

  lemma {:induction false} DriveAllHome(task: Task, s: State) returns (run: seq<Action>, e: State)
    requires forall ip :: ip in s.sessions ==> AtGate(s.sessions[ip]) || s.sessions[ip].Done?
    requires Open(task, s)
    ensures Leads(task, s, run, e) && AllDone(e)
    decreases Tally(s.sessions, NotDone)
  {
    if ip :| ip in s.sessions && NotDone(s.sessions[ip]) {
      var first, m := DriveHome(task, s, ip);
      TallyUpdate(s.sessions, ip, Done, NotDone);
      var rest;
      rest, e := DriveAllHome(task, m);
      LeadsJoin(task, s, first, m, rest, e);
      run := first + rest;
    } else {
      run, e := [], s;
    }
  }

  /**
   Sessions that are all held at the gate can still return, without help from outside,
   exactly when it is not so that stale devices make up all the successes still missing.
   */
  lemma FinishableIff(task: Task, s: State)
    requires AllAtGate(s)
    ensures (exists run :: IsRun(task, s, run) && NoOutsider(run) && AllDone(Exec(task, s, run))) <==>
            !(|StaleDevices(s)| == task.target - s.success > 0)
  {
    StalledIffStaleDevices(task, s);
    if Stalled(task, s) {
      forall run | IsRun(task, s, run) && NoOutsider(run)
        ensures !AllDone(Exec(task, s, run))
      {
        StalledForever(task, s, run);
      }
    } else {
      var run, e := DriveAllHome(task, s);
      assert Leads(task, s, run, e);
    }
  }
}
