/** The pool of phone connections beside the status table, and the single-client schedule pool. */
module ConnPools {
  import opened Counting
  import opened Devices

  /** A phone or schedule connection: its peer, whether its socket is open, whether it reads. */
  class Connection {
    const ip: string
    var open: bool
    var reading: bool

    constructor (ip: string)
      ensures this.ip == ip && open && !reading
    {
      this.ip, open, reading := ip, true, false;
    }

    method Start()
      modifies this
      ensures reading && open == old(open)
    {
      reading := true;
    }

    method Stop()
      modifies this
      ensures !open && reading == old(reading)
    {
      open := false;
    }
  }

  /** The pool and the status table, as values. */
  datatype PoolState = PoolState(conns: set<Connection>, devices: Statuses)

  ghost function Ips(conns: set<Connection>): set<string> {
    set c | c in conns :: c.ip
  }

  ghost function Online(devices: Statuses): set<string> {
    Where(devices, IsOnline)
  }

  ghost predicate OnePerIp(conns: set<Connection>) {
    forall c, d :: c in conns && d in conns && c.ip == d.ip ==> c == d
  }

  /** An ip is pooled, and then once, exactly when its device is not offline. */
  ghost predicate Agrees(s: PoolState) {
    OnePerIp(s.conns) && Ips(s.conns) == Online(s.devices)
  }

  datatype PoolAction =
    | Start(conn: Connection)
    | Stop(conn: Connection)
    | StopAll
    | Status(ip: string, status: int)   // a session changes the status of its device

  ghost function AllOffline(devices: Statuses, ips: set<string>): Statuses {
    map ip | ip in devices.Keys + ips :: if ip in ips then OFFLINE else devices[ip]
  }

  ghost function After(s: PoolState, a: PoolAction): PoolState {
    match a
    case Start(conn) =>
      PoolState((set c | c in s.conns && c.ip != conn.ip) + {conn}, s.devices[conn.ip := ONLINE_IDLE])
    case Stop(conn) => PoolState(s.conns - {conn}, s.devices[conn.ip := OFFLINE])
    case StopAll => PoolState({}, AllOffline(s.devices, Ips(s.conns)))
    case Status(ip, status) => s.(devices := s.devices[ip := status])
  }

  class PhoConnPool {
    var connections: set<Connection>
    const devices: DeviceMgr

    ghost function Abs(): PoolState
      reads this, devices
    {
      PoolState(connections, devices.devices)
    }

    constructor (devices: DeviceMgr)
      ensures this.devices == devices && connections == {}
    {
      this.devices, connections := devices, {};
    }

    method FindConnection(ip: string) returns (found: Connection?)
      ensures found == null <==> ip !in Ips(connections)
      ensures found != null ==> found in connections && found.ip == ip
      ensures Agrees(Abs()) ==> (found != null <==> devices.GetStatus(ip) != OFFLINE)
    {
      var todo := connections;
      while todo != {}
        invariant todo <= connections
        invariant forall c :: c in connections - todo ==> c.ip != ip
        decreases todo
      {
        var c :| c in todo;
        if c.ip == ip {
          return c;
        }
        todo := todo - {c};
      }
      found := null;
    }

    /** An older connection of the same ip is closed and replaced. */
    method Start(conn: Connection) returns (ghost replaced: Connection?)
      modifies this`connections, devices, connections, conn
      ensures replaced == null <==> conn.ip !in Ips(old(connections))
      ensures replaced != null ==> replaced in old(connections) && replaced.ip == conn.ip && !replaced.open
      ensures connections == (old(connections) - {replaced}) + {conn}
      ensures devices.devices == old(devices.devices)[conn.ip := ONLINE_IDLE]
      ensures OnePerIp(old(connections)) ==> Abs() == After(old(Abs()), PoolAction.Start(conn))
      ensures conn.reading && (replaced != conn ==> conn.open == old(conn.open))
      ensures forall c :: c in old(connections) && c != replaced && c != conn ==>
        c.open == old(c.open) && c.reading == old(c.reading)
    {
      var pconn := FindConnection(conn.ip);
      if pconn != null {
        Stop(pconn);
      }
      devices.SetStatus(conn.ip, ONLINE_IDLE);
      conn.Start();
      connections := connections + {conn};
      replaced := pconn;
    }

    method Stop(conn: Connection)
      modifies this`connections, devices, conn
      ensures Abs() == After(old(Abs()), PoolAction.Stop(conn))
      ensures connections == old(connections) - {conn}
      ensures devices.devices == old(devices.devices)[conn.ip := OFFLINE]
      ensures !conn.open && conn.reading == old(conn.reading)
    {
      devices.SetStatus(conn.ip, OFFLINE);
      connections := connections - {conn};
      conn.Stop();
    }

    method StopAll()
      modifies this`connections, devices, connections
      ensures Abs() == After(old(Abs()), PoolAction.StopAll) && connections == {}
      ensures devices.devices == (map ip | ip in old(devices.devices.Keys + Ips(connections)) ::
                                    if ip in old(Ips(connections)) then OFFLINE else old(devices.devices)[ip])
      ensures forall c :: c in old(connections) ==> !c.open
    {
      var todo := connections;
      ghost var before := devices.devices;
      while todo != {}
        invariant todo <= connections && connections == old(connections)
        invariant forall c :: c in connections - todo ==> !c.open
        invariant devices.devices == AllOffline(before, Ips(connections - todo))
        decreases todo
      {
        var c :| c in todo;
        IpsGrow(connections - todo, c);
        assert connections - todo + {c} == connections - (todo - {c});
        devices.SetStatus(c.ip, OFFLINE);
        c.Stop();
        todo := todo - {c};
      }
      assert connections - todo == connections;
      connections := {};
    }
  }

  lemma IpsGrow(conns: set<Connection>, c: Connection)
    ensures Ips(conns + {c}) == Ips(conns) + {c.ip}
  {
  }

  // ---------------------------------------------------------------- who is in the pool

  ghost function AfterRun(s: PoolState, run: seq<PoolAction>): PoolState
    decreases |run|
  {
    if run == [] then s else After(AfterRun(s, run[..|run| - 1]), run[|run| - 1])
  }

  /** The action ends the membership of `c`: its own stop, a stop of all, or a newer connection of its ip. */
  predicate Ousts(a: PoolAction, c: Connection) {
    match a
    case Start(conn) => conn != c && conn.ip == c.ip
    case Stop(conn) => conn == c
    case StopAll => true
    case Status(_, _) => false
  }

  /** Nothing from position `i` on ends the membership of `c`. */
  ghost predicate StaysFrom(run: seq<PoolAction>, i: nat, c: Connection) {
    forall j :: i <= j < |run| ==> !Ousts(run[j], c)
  }

  /**
   Exactly those connections are pooled that were so at the start or were started, and that
   nothing since has stopped or replaced.
   */
  lemma {:induction false} PooledIff(s: PoolState, run: seq<PoolAction>, c: Connection)
    ensures c in AfterRun(s, run).conns <==>
            || (c in s.conns && StaysFrom(run, 0, c))
            || exists i :: 0 <= i < |run| && run[i] == PoolAction.Start(c) && StaysFrom(run, i, c)
    decreases |run|
  {
    if run != [] {
      var n := |run| - 1;
      PooledIff(s, run[..n], c);
      if !Ousts(run[n], c) {
        forall i | 0 <= i <= n
          ensures StaysFrom(run, i, c) <==> StaysFrom(run[..n], i, c)
        {
          assert forall j :: i <= j < n ==> run[..n][j] == run[j];
        }
        if c in AfterRun(s, run[..n]).conns && !(c in s.conns && StaysFrom(run[..n], 0, c)) {
          var i :| 0 <= i < n && run[..n][i] == PoolAction.Start(c) && StaysFrom(run[..n], i, c);
          assert run[i] == PoolAction.Start(c);
        }
        if run[n] == PoolAction.Start(c) {
          assert StaysFrom(run, n, c);
        }
        if i :| 0 <= i < n && run[i] == PoolAction.Start(c) && StaysFrom(run, i, c) {
          assert run[..n][i] == PoolAction.Start(c);
        }
      }
    }
  }

  // ---------------------------------------------------------------- agreement over runs

  /** What a step has to respect, checkable before it is made. */
  ghost predicate Proper(s: PoolState, a: PoolAction) {
    match a
    case Start(_) => true
    case Stop(conn) => conn in s.conns || conn.ip !in Ips(s.conns)
    case StopAll => true
    case Status(ip, status) => ip in Ips(s.conns) <==> status != OFFLINE
  }

  lemma OnlineAfter(devices: Statuses, ip: string, status: int)
    ensures Online(devices[ip := status]) ==
            if status != OFFLINE then Online(devices) + {ip} else Online(devices) - {ip}
  {
  }

  lemma StartAgrees(s: PoolState, conn: Connection)
    requires Agrees(s)
    ensures Agrees(After(s, PoolAction.Start(conn)))
  {
    OnlineAfter(s.devices, conn.ip, ONLINE_IDLE);
    var kept := set c | c in s.conns && c.ip != conn.ip;
    IpsGrow(kept, conn);
    forall ip | ip in Ips(s.conns) && ip != conn.ip
      ensures ip in Ips(kept)
    {
      var c :| c in s.conns && c.ip == ip;
      assert c in kept;
    }
    assert Ips(kept) + {conn.ip} == Ips(s.conns) + {conn.ip};
  }

  lemma StopAgreesIff(s: PoolState, conn: Connection)
    requires Agrees(s)
    ensures Agrees(After(s, PoolAction.Stop(conn))) <==> Proper(s, PoolAction.Stop(conn))
  {
    OnlineAfter(s.devices, conn.ip, OFFLINE);
    var kept := s.conns - {conn};
    if conn in s.conns {
      forall ip | ip in Ips(s.conns) && ip != conn.ip
        ensures ip in Ips(kept)
      {
        var c :| c in s.conns && c.ip == ip;
        assert c in kept;
      }
      assert Ips(kept) == Ips(s.conns) - {conn.ip};
    } else {
      assert kept == s.conns;
    }
  }

  lemma StopAllAgrees(s: PoolState)
    requires Agrees(s)
    ensures Agrees(After(s, PoolAction.StopAll))
    ensures forall ip :: ip in After(s, PoolAction.StopAll).devices ==>
              After(s, PoolAction.StopAll).devices[ip] == OFFLINE
  {
    forall ip | ip in s.devices && ip !in Ips(s.conns)
      ensures s.devices[ip] == OFFLINE
    {
      assert ip !in Online(s.devices);
    }
  }

  /** From an agreeing state a step keeps agreement exactly when it is proper. */
  lemma StepAgreesIff(s: PoolState, a: PoolAction)
    requires Agrees(s)
    ensures Agrees(After(s, a)) <==> Proper(s, a)
  {
    match a
    case Start(conn) => StartAgrees(s, conn);
    case Stop(conn) => StopAgreesIff(s, conn);
    case StopAll => StopAllAgrees(s);
    case Status(ip, status) => OnlineAfter(s.devices, ip, status);
  }

  ghost predicate AgreesThroughout(s: PoolState, run: seq<PoolAction>)
    decreases |run|
  {
    Agrees(s) && (run == [] || AgreesThroughout(After(s, run[0]), run[1..]))
  }

  ghost predicate ProperThroughout(s: PoolState, run: seq<PoolAction>)
    decreases |run|
  {
    run == [] || (Proper(s, run[0]) && ProperThroughout(After(s, run[0]), run[1..]))
  }

  /** Pool and status table agree in every state of a run exactly when every step is proper. */
  lemma {:induction false} PoolAndTableAgreeIff(s: PoolState, run: seq<PoolAction>)
    requires Agrees(s)
    ensures AgreesThroughout(s, run) <==> ProperThroughout(s, run)
    decreases |run|
  {
    if run != [] {
      StepAgreesIff(s, run[0]);
      if Proper(s, run[0]) {
        PoolAndTableAgreeIff(After(s, run[0]), run[1..]);
      }
    }
  }

  /** Agreement makes the pool as large as the number of devices that are not offline. */
  lemma {:induction false} AgreeingSizes(s: PoolState)
    requires Agrees(s)
    ensures |s.conns| == Tally(s.devices, IsOnline)
  {
    OnePerIpSize(s.conns);
  }

  lemma {:induction false} OnePerIpSize(conns: set<Connection>)
    requires OnePerIp(conns)
    ensures |Ips(conns)| == |conns|
  {
    if conns == {} {
      assert Ips(conns) == {};
    } else {
      var c :| c in conns;
      var rest := conns - {c};
      OnePerIpSize(rest);
      IpsGrow(rest, c);
      assert conns == rest + {c};
    }
  }

  /** A session that finishes after its phone disconnected leaves an unpooled device online. */
  lemma LateSessionBreaksAgreement(s: PoolState, conn: Connection)
    requires Agrees(s) && conn in s.conns
    ensures !AgreesThroughout(s, [PoolAction.Stop(conn), Status(conn.ip, ONLINE_IDLE)])
  {
    var stopped := After(s, PoolAction.Stop(conn));
    StopAgreesIff(s, conn);
    assert conn.ip !in Ips(stopped.conns);
    StepAgreesIff(stopped, Status(conn.ip, ONLINE_IDLE));
    var run := [PoolAction.Stop(conn), Status(conn.ip, ONLINE_IDLE)];
    assert run[1..] == [Status(conn.ip, ONLINE_IDLE)];
    PoolAndTableAgreeIff(s, run);
  }

  // ---------------------------------------------------------------- the schedule client

  /** The incumbent is kept and a second connection refused; refusing also erases it. */
  class ScheConnPool {
    var connections: set<Connection>

    constructor ()
      ensures connections == {}
    {
      connections := {};
    }

    method Start(conn: Connection)
      modifies this, conn
      ensures connections == Client(old(connections), PoolAction.Start(conn))
      ensures conn in connections <==> old(connections) == {}
      ensures connections - {conn} == old(connections) - {conn}
      ensures if old(connections) == {} then conn.reading && conn.open == old(conn.open) else !conn.open
    {
      if |connections| > 0 {
        Stop(conn);
        return;
      }
      conn.Start();
      connections := connections + {conn};
    }

    method Stop(conn: Connection)
      modifies this, conn
      ensures connections == Client(old(connections), PoolAction.Stop(conn)) == old(connections) - {conn}
      ensures !conn.open
    {
      connections := connections - {conn};
      conn.Stop();
    }

    method StopAll()
      modifies this, connections
      ensures connections == {}
      ensures forall c :: c in old(connections) ==> !c.open
    {
      var todo := connections;
      while todo != {}
        invariant todo <= connections == old(connections)
        invariant forall c :: c in connections - todo ==> !c.open
        decreases todo
      {
        var c :| c in todo;
        c.Stop();
        todo := todo - {c};
      }
      connections := {};
    }
  }

  ghost function Client(conns: set<Connection>, a: PoolAction): set<Connection> {
    match a
    case Start(conn) => if conns == {} then {conn} else conns - {conn}
    case Stop(conn) => conns - {conn}
    case StopAll => {}
    case Status(_, _) => conns
  }

  ghost function ClientAfter(conns: set<Connection>, run: seq<PoolAction>): set<Connection>
    decreases |run|
  {
    if run == [] then conns else ClientAfter(Client(conns, run[0]), run[1..])
  }

  /** An action of the pool that names `conn` or everybody. */
  predicate Concerns(a: PoolAction, conn: Connection) {
    match a
    case Start(c) => c == conn
    case Stop(c) => c == conn
    case StopAll => true
    case Status(_, _) => false
  }

  /** There is never a second client, and no other connection displaces the incumbent. */
  lemma {:induction false} SingleScheduleClient(conns: set<Connection>, run: seq<PoolAction>)
    requires |conns| <= 1
    ensures |ClientAfter(conns, run)| <= 1
    ensures forall c :: conns == {c} && (forall a :: a in run ==> !Concerns(a, c)) ==> ClientAfter(conns, run) == {c}
    decreases |run|
  {
    if run != [] {
      var next := Client(conns, run[0]);
      assert next <= conns || |next| == 1;
      if next <= conns {
        SubsetSize(next, conns);
      }
      SingleScheduleClient(next, run[1..]);
      assert run[0] in run;
    }
  }

  lemma {:induction false} ClientAfterOneMore(conns: set<Connection>, run: seq<PoolAction>, a: PoolAction)
    ensures ClientAfter(conns, run + [a]) == Client(ClientAfter(conns, run), a)
    decreases |run|
  {
    if run == [] {
      assert [a][1..] == [];
      assert run + [a] == [a];
    } else {
      assert (run + [a])[1..] == run[1..] + [a];
      ClientAfterOneMore(Client(conns, run[0]), run[1..], a);
    }
  }

  /** Nothing from position `i` on concerns `c`. */
  ghost predicate UntouchedFrom(run: seq<PoolAction>, i: nat, c: Connection) {
    forall j :: i <= j < |run| ==> !Concerns(run[j], c)
  }

  /** The connection started at position `i` found the pool empty, and nothing has concerned it since. */
  ghost predicate LetInAt(conns: set<Connection>, run: seq<PoolAction>, i: nat, c: Connection)
    requires i < |run|
  {
    run[i] == PoolAction.Start(c) && ClientAfter(conns, run[..i]) == {} && UntouchedFrom(run, i + 1, c)
  }

  /**
   A connection is the client exactly when it was so at the start or came to an empty pool, and
   nobody has stopped it, or started it again, since. So the first one is let in, a second one
   is not, and when the incumbent stops the next one is.
   */
  lemma {:induction false} ClientIff(conns: set<Connection>, run: seq<PoolAction>, c: Connection)
    ensures c in ClientAfter(conns, run) <==>
            || (c in conns && UntouchedFrom(run, 0, c))
            || exists i :: 0 <= i < |run| && LetInAt(conns, run, i, c)
    decreases |run|
  {
    if run != [] {
      var n := |run| - 1;
      var past, a := run[..n], run[n];
      ClientIff(conns, past, c);
      assert past + [a] == run;
      ClientAfterOneMore(conns, past, a);
      forall i | 0 <= i < n
        ensures run[..i] == past[..i] && run[i] == past[i]
        ensures LetInAt(conns, run, i, c) <==> LetInAt(conns, past, i, c) && !Concerns(a, c)
      {
        SplitUntouched(run, i + 1, c);
      }
      SplitUntouched(run, 0, c);
      assert LetInAt(conns, run, n, c) <==> a == PoolAction.Start(c) && ClientAfter(conns, past) == {};
      if c in ClientAfter(conns, run) && !(c in conns && UntouchedFrom(run, 0, c)) {
        if !Concerns(a, c) {
          var i :| 0 <= i < n && LetInAt(conns, past, i, c);
          assert LetInAt(conns, run, i, c);
        } else {
          assert LetInAt(conns, run, n, c);
        }
      }
      if i :| 0 <= i < |run| && LetInAt(conns, run, i, c) {
        assert i < n ==> LetInAt(conns, past, i, c);
      }
    }
  }

  lemma SplitUntouched(run: seq<PoolAction>, i: nat, c: Connection)
    requires i < |run|
    ensures UntouchedFrom(run, i, c) <==>
            UntouchedFrom(run[..|run| - 1], i, c) && !Concerns(run[|run| - 1], c)
  {
    var past := run[..|run| - 1];
    assert forall j :: i <= j < |past| ==> past[j] == run[j];
  }
}
