/** The status table of the devices. */
module Devices {
  import opened Counting

  const ONLINE_IDLE := 1
  const OFFLINE := 2
  const WX_VOTING := 4
  const WX_VOTE_END := 5
  const DAILY_TASK := 6
  const DAILY_TASK_END := 7

  type Statuses = map<string, int>

  function Is(status: int): int -> bool {
    s => s == status
  }

  predicate IsOnline(status: int) {
    status != OFFLINE
  }

  class DeviceMgr {
    var devices: Statuses

    constructor ()
      ensures devices == map[]
    {
      devices := map[];
    }

    /** The stored status is ignored; only the first `readable` rows can be fetched before a failure. */
    method Init(ips: seq<string>, readable: nat) returns (ok: bool)
      modifies this
      ensures ok <==> |ips| <= readable
      ensures var read := if ok then ips else ips[..readable];
              devices.Keys == old(devices).Keys + set ip | ip in read
      ensures forall ip :: ip in devices ==>
        devices[ip] == if ip in old(devices) then old(devices)[ip] else OFFLINE
    {
      var n := if |ips| <= readable then |ips| else readable;
      for i := 0 to n
        invariant devices.Keys == old(devices).Keys + set ip | ip in ips[..i]
        invariant forall ip :: ip in devices ==>
          devices[ip] == if ip in old(devices) then old(devices)[ip] else OFFLINE
      {
        assert ips[..i + 1] == ips[..i] + [ips[i]];
        if ips[i] !in devices {
          devices := devices[ips[i] := OFFLINE];
        }
      }
      assert ips[..|ips|] == ips;
      ok := n == |ips|;
    }

    /** The lookup creates a missing device with status 0 before the comparison. */
    method SetStatus(ip: string, status: int)
      modifies this
      ensures devices == old(devices)[ip := status]
    {
      if ip !in devices {
        devices := devices[ip := 0];
      }
      if devices[ip] == status {
        return;
      }
      devices := devices[ip := status];
    }

    /** An unknown device counts as offline. */
    function GetStatus(ip: string): (status: int)
      reads this
      ensures status != OFFLINE <==> ip in Where(devices, IsOnline)
      ensures ip in devices ==> status == devices[ip]
    {
      if ip in devices then devices[ip] else OFFLINE
    }

    method GetStatusCount(status: int) returns (cnt: nat)
      ensures cnt == Tally(devices, Is(status))
    {
      cnt := 0;
      var todo := devices.Keys;
      ghost var counted := {};
      while todo != {}
        invariant todo <= devices.Keys
        invariant forall ip :: ip in counted <==> ip in devices && ip !in todo && devices[ip] == status
        invariant cnt == |counted|
        decreases todo
      {
        var ip :| ip in todo;
        if devices[ip] == status {
          counted := counted + {ip};
          cnt := cnt + 1;
        }
        todo := todo - {ip};
      }
      assert counted == Where(devices, Is(status));
    }
  }

  ghost function SumOfCounts(devices: Statuses, statuses: seq<int>): nat {
    if statuses == [] then 0
    else Tally(devices, Is(statuses[0])) + SumOfCounts(devices, statuses[1..])
  }

  function OneOf(statuses: seq<int>): int -> bool {
    s => s in statuses
  }

  lemma OneOfSplits(devices: Statuses, first: int, rest: seq<int>)
    requires first !in rest
    ensures Tally(devices, OneOf([first] + rest)) == Tally(devices, Is(first)) + Tally(devices, OneOf(rest))
  {
    var a, b := Where(devices, Is(first)), Where(devices, OneOf(rest));
    var both := Where(devices, OneOf([first] + rest));
    forall ip
      ensures ip in both <==> ip in a + b
    {
    }
    assert both == a + b;
    assert a !! b;
  }

  lemma {:induction false} SumCountsMembers(devices: Statuses, statuses: seq<int>)
    requires forall i, j :: 0 <= i < j < |statuses| ==> statuses[i] != statuses[j]
    ensures SumOfCounts(devices, statuses) == Tally(devices, OneOf(statuses))
  {
    if statuses == [] {
      TallyZero(devices, OneOf(statuses));
    } else {
      SumCountsMembers(devices, statuses[1..]);
      OneOfSplits(devices, statuses[0], statuses[1..]);
      assert statuses == [statuses[0]] + statuses[1..];
    }
  }

  /** The counts over all statuses in use add up to the number of known devices. */
  lemma {:induction false} CountsPartitionDevices(devices: Statuses, statuses: seq<int>)
    requires forall i, j :: 0 <= i < j < |statuses| ==> statuses[i] != statuses[j]
    requires forall ip :: ip in devices ==> devices[ip] in statuses
    ensures SumOfCounts(devices, statuses) == |devices|
  {
    SumCountsMembers(devices, statuses);
    assert Where(devices, OneOf(statuses)) == devices.Keys;
  }

  /** A status change of a known device moves one unit between two counts and touches no other. */
  lemma StatusChangeMovesOne(devices: Statuses, ip: string, status: int, other: int)
    requires ip in devices && devices[ip] != status
    ensures var devices' := devices[ip := status];
            Tally(devices', Is(other)) ==
            Tally(devices, Is(other)) + Bit(other == status) - Bit(other == devices[ip])
  {
    TallyUpdate(devices, ip, status, Is(other));
  }
}
