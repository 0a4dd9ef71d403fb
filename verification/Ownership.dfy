/** Which devices are on which nodes, and which change owner when the ring changes
    (internal/cluster/connections.go, diff.go). */
module Ownership {
  import opened ByteStrings

  type Devices = map<Bytes, Bytes>
  type ByNode = map<Bytes, set<Bytes>>

  // ----- The connection index -----

  /** The per-node sets partition exactly the tracked devices. */
  ghost predicate Partition(devices: Devices, byNode: ByNode) {
    && (forall n :: n in byNode ==> byNode[n] != {})
    && (forall n, d :: n in byNode && d in byNode[n] ==> d in devices && devices[d] == n)
    && (forall d :: d in devices ==> devices[d] in byNode && d in byNode[devices[d]])
  }

  lemma PartitionWithin(devices: Devices, a: ByNode, b: ByNode)
    requires Partition(devices, a) && Partition(devices, b)
    ensures forall n :: n in a ==> n in b && a[n] <= b[n]
  {
    forall n | n in a ensures n in b && a[n] <= b[n] {
      var d :| d in a[n];
      assert devices[d] == n && n in b;
      forall e | e in a[n] ensures e in b[n] {
        assert devices[e] == n;
      }
    }
  }

  /** A device is in one set only, and the sets are determined by the devices. */
  lemma PartitionUnique(devices: Devices, a: ByNode, b: ByNode)
    requires Partition(devices, a) && Partition(devices, b)
    ensures a == b
    ensures forall m, n :: m in a && n in a && m != n ==> a[m] !! a[n]
  {
    PartitionWithin(devices, a, b);
    PartitionWithin(devices, b, a);
    assert forall n :: n in a ==> a[n] == b[n];
    forall m, n | m in a && n in a && m != n ensures a[m] !! a[n] {
      forall e | e in a[m] ensures e !in a[n] {
        assert devices[e] == m;
      }
    }
  }

  function Leave(byNode: ByNode, d: Bytes, n: Bytes): ByNode {
    if n !in byNode then byNode
    else if byNode[n] - {d} == {} then byNode - {n}
    else byNode[n := byNode[n] - {d}]
  }

  function Join(byNode: ByNode, d: Bytes, n: Bytes): ByNode {
    byNode[n := (if n in byNode then byNode[n] else {}) + {d}]
  }

  lemma LeavePartition(devices: Devices, byNode: ByNode, d: Bytes)
    requires Partition(devices, byNode) && d in devices
    ensures Partition(devices - {d}, Leave(byNode, d, devices[d]))
  {
    var n := devices[d];
    var after := Leave(byNode, d, n);
    forall e | e in devices - {d} ensures devices[e] in after && e in after[devices[e]] {
      if devices[e] == n { assert e in byNode[n] - {d}; }
    }
  }

  lemma JoinPartition(devices: Devices, byNode: ByNode, d: Bytes, n: Bytes)
    requires Partition(devices, byNode) && (d in devices ==> devices[d] == n)
    ensures Partition(devices[d := n], Join(byNode, d, n))
  {
    var after := Join(byNode, d, n);
    assert d in after[n];
    forall e | e in devices ensures devices[e] in after && e in after[devices[e]] { }
    forall m, e | m in after && e in after[m] ensures e in devices[d := n] && devices[d := n][e] == m {
      if e != d { assert m in byNode && e in byNode[m]; }
    }
  }

  lemma DropPartition(devices: Devices, byNode: ByNode, n: Bytes)
    requires Partition(devices, byNode) && n in byNode
    ensures Partition(devices - byNode[n], byNode - {n})
    ensures devices - byNode[n] == map d | d in devices && devices[d] != n :: devices[d]
  {
  }

  datatype Index = Index(devices: Devices, byNode: ByNode)

  datatype Event = Connect(device: Bytes, node: Bytes) | Disconnect(device: Bytes) | NodeLost(node: Bytes)

  function Step(s: Index, e: Event): Index {
    match e
    case Connect(d, n) =>
      var left := if d in s.devices && s.devices[d] != n then Leave(s.byNode, d, s.devices[d]) else s.byNode;
      Index(s.devices[d := n], Join(left, d, n))
    case Disconnect(d) =>
      if d !in s.devices then s else Index(s.devices - {d}, Leave(s.byNode, d, s.devices[d]))
    case NodeLost(n) =>
      if n !in s.byNode then s else Index(s.devices - s.byNode[n], s.byNode - {n})
  }

  function Run(es: seq<Event>): Index {
    if es == [] then Index(map[], map[]) else Step(Run(es[..|es| - 1]), es[|es| - 1])
  }

  /** Where a device is, by history alone. */
  function Located(es: seq<Event>, d: Bytes): Option<Bytes> {
    if es == [] then None
    else
      var e, before := es[|es| - 1], Located(es[..|es| - 1], d);
      if e.Connect? && e.device == d then Some(e.node)
      else if e.Disconnect? && e.device == d then None
      else if e.NodeLost? && before == Some(e.node) then None
      else before
  }

  lemma StepPartition(s: Index, e: Event)
    requires Partition(s.devices, s.byNode)
    ensures Partition(Step(s, e).devices, Step(s, e).byNode)
  {
    hide Partition, Leave, Join;
    match e
    case Connect(d, n) =>
      if d in s.devices && s.devices[d] != n {
        LeavePartition(s.devices, s.byNode, d);
        JoinPartition(s.devices - {d}, Leave(s.byNode, d, s.devices[d]), d, n);
        assert (s.devices - {d})[d := n] == s.devices[d := n];
      } else {
        JoinPartition(s.devices, s.byNode, d, n);
      }
    case Disconnect(d) =>
      if d in s.devices { LeavePartition(s.devices, s.byNode, d); }
    case NodeLost(n) =>
      if n in s.byNode { DropPartition(s.devices, s.byNode, n); }
  }

  /** After any run of moves, disconnects and node losses the node sets partition the
      tracked devices, and each device is tracked where its history last put it. */
  lemma {:induction false} IndexFollowsHistory(es: seq<Event>, d: Bytes)
    ensures Partition(Run(es).devices, Run(es).byNode)
    ensures (d in Run(es).devices <==> Located(es, d).Some?)
    ensures d in Run(es).devices ==> Located(es, d) == Some(Run(es).devices[d])
    decreases |es|
  {
    if es != [] {
      var front, e := es[..|es| - 1], es[|es| - 1];
      IndexFollowsHistory(front, d);
      StepPartition(Run(front), e);
      if e.NodeLost? && e.node in Run(front).byNode {
        DropPartition(Run(front).devices, Run(front).byNode, e.node);
      }
    }
  }

  class ConnectionIndex {
    var devices: Devices
    var byNode: ByNode
    var migrating: set<Bytes>

    function Abstract(): Index
      reads this
    {
      Index(devices, byNode)
    }

    ghost predicate Valid()
      reads this
    {
      Partition(devices, byNode)
    }

    constructor ()
      ensures Valid() && Abstract() == Run([]) && migrating == {}
    {
      devices, byNode, migrating := map[], map[], {};
    }

    method Add(deviceID: Bytes, nodeID: Bytes)
      requires Valid()
      modifies this`devices, this`byNode
      ensures Valid() && Abstract() == Step(old(Abstract()), Connect(deviceID, nodeID))
    {
      hide Partition;
      StepPartition(Abstract(), Connect(deviceID, nodeID));
      if deviceID in devices && devices[deviceID] != nodeID {
        byNode := Leave(byNode, deviceID, devices[deviceID]);
      }
      devices := devices[deviceID := nodeID];
      byNode := Join(byNode, deviceID, nodeID);
    }

    method Remove(deviceID: Bytes)
      requires Valid()
      modifies this`devices, this`byNode
      ensures Valid() && Abstract() == Step(old(Abstract()), Disconnect(deviceID))
    {
      hide Partition;
      StepPartition(Abstract(), Disconnect(deviceID));
      if deviceID in devices {
        var nodeID := devices[deviceID];
        devices := devices - {deviceID};
        byNode := Leave(byNode, deviceID, nodeID);
      }
    }

    method RemoveNode(nodeID: Bytes)
      requires Valid()
      modifies this`devices, this`byNode
      ensures Valid() && Abstract() == Step(old(Abstract()), NodeLost(nodeID))
    {
      hide Partition;
      StepPartition(Abstract(), NodeLost(nodeID));
      if nodeID !in byNode {
        return;
      }
      var todo := byNode[nodeID];
      ghost var done: set<Bytes> := {};
      while todo != {}
        invariant byNode == old(byNode) && done + todo == byNode[nodeID]
        invariant devices == old(devices) - done
        decreases |todo|
      {
        var d :| d in todo;
        todo := todo - {d};
        devices := devices - {d};
        done := done + {d};
      }
      assert done == byNode[nodeID];
      byNode := byNode - {nodeID};
    }

    method SetMigrating(deviceID: Bytes, flag: bool)
      modifies this`migrating
      ensures migrating == if flag then old(migrating) + {deviceID} else old(migrating) - {deviceID}
    {
      migrating := if flag then migrating + {deviceID} else migrating - {deviceID};
    }
  }

  // ----- Ownership changes -----

  /** A ring, as far as this code sees it: the located owner of each device. */
  type Ring = Bytes -> Option<Bytes>

  /** The device is located by both rings, at different nodes. */
  predicate Moves(oldRing: Ring, newRing: Ring, d: Bytes, a: Bytes, b: Bytes) {
    oldRing(d) == Some(a) && newRing(d) == Some(b) && a != b
  }

  /** The devices that move from `a` to `b`, in input order. */
  function Moved(oldRing: Ring, newRing: Ring, devices: seq<Bytes>, a: Bytes, b: Bytes): seq<Bytes> {
    if devices == [] then []
    else
      var d := devices[|devices| - 1];
      Moved(oldRing, newRing, devices[..|devices| - 1], a, b) + if Moves(oldRing, newRing, d, a, b) then [d] else []
  }

  /** Every occurrence of a device whose owner changed is in exactly one bucket, as
      often as it was listed; no other device is in any. */
  lemma {:induction false} MovedExactly(oldRing: Ring, newRing: Ring, devices: seq<Bytes>, a: Bytes, b: Bytes, d: Bytes)
    ensures multiset(Moved(oldRing, newRing, devices, a, b))[d] ==
            if Moves(oldRing, newRing, d, a, b) then multiset(devices)[d] else 0
    decreases |devices|
  {
    if devices != [] {
      var n := |devices| - 1;
      MovedExactly(oldRing, newRing, devices[..n], a, b, d);
      assert devices == devices[..n] + [devices[n]];
    }
  }

  type Diff = map<Bytes, map<Bytes, seq<Bytes>>>

  function At(diff: Diff, a: Bytes, b: Bytes): seq<Bytes> {
    if a in diff && b in diff[a] then diff[a][b] else []
  }

  /** Nested buckets, none of them empty, holding exactly the moves. */
  ghost predicate Records(diff: Diff, oldRing: Ring, newRing: Ring, devices: seq<Bytes>) {
    && (forall a, b :: At(diff, a, b) == Moved(oldRing, newRing, devices, a, b))
    && NoneEmpty(diff)
  }

  method DiffOwnership(oldRing: Ring, newRing: Ring, deviceIDs: seq<Bytes>) returns (result: Diff)
    ensures Records(result, oldRing, newRing, deviceIDs)
  {
    result := map[];
    for i := 0 to |deviceIDs|
      invariant Records(result, oldRing, newRing, deviceIDs[..i])
    {
      var d := deviceIDs[i];
      var oldOwner, newOwner := oldRing(d), newRing(d);
      RecordNext(result, oldRing, newRing, deviceIDs[..i], d);
      assert deviceIDs[..i + 1] == deviceIDs[..i] + [d];
      if oldOwner.None? || newOwner.None? || oldOwner.value == newOwner.value {
        continue;
      }
      result := Recorded(result, oldOwner.value, newOwner.value, d);
    }
    assert deviceIDs[..|deviceIDs|] == deviceIDs;
  }

  /** `result[a][b] = append(result[a][b], d)`, creating the inner map if needed. */
  function Recorded(diff: Diff, a: Bytes, b: Bytes, d: Bytes): Diff {
    var inner := if a in diff then diff[a] else map[];
    diff[a := inner[b := At(diff, a, b) + [d]]]
  }

  ghost predicate NoneEmpty(diff: Diff) {
    forall a :: a in diff ==> diff[a] != map[] && forall b :: b in diff[a] ==> diff[a][b] != []
  }

  lemma RecordedAt(diff: Diff, a: Bytes, b: Bytes, d: Bytes)
    requires NoneEmpty(diff)
    ensures NoneEmpty(Recorded(diff, a, b, d))
    ensures forall x, y :: At(Recorded(diff, a, b, d), x, y) == At(diff, x, y) + if x == a && y == b then [d] else []
  {
    var after := Recorded(diff, a, b, d);
    assert b in after[a];
    forall x | x in after ensures after[x] != map[] && forall y :: y in after[x] ==> after[x][y] != [] {
      if x != a { assert x in diff; }
    }
  }

  lemma RecordNext(diff: Diff, oldRing: Ring, newRing: Ring, devices: seq<Bytes>, d: Bytes)
    requires Records(diff, oldRing, newRing, devices)
    ensures oldRing(d).Some? && newRing(d).Some? && oldRing(d) != newRing(d) ==>
              Records(Recorded(diff, oldRing(d).value, newRing(d).value, d), oldRing, newRing, devices + [d])
    ensures !(oldRing(d).Some? && newRing(d).Some? && oldRing(d) != newRing(d)) ==>
              Records(diff, oldRing, newRing, devices + [d])
  {
    hide NoneEmpty, Recorded, At;
    assert (devices + [d])[..|devices|] == devices;
    if oldRing(d).Some? && newRing(d).Some? && oldRing(d) != newRing(d) {
      RecordedAt(diff, oldRing(d).value, newRing(d).value, d);
    }
  }
}
