/** A migration as it runs: phases, batches, retries, flags
    (internal/cluster/migration_executor.go, migration.go). */
module MigrationExecutor {
  import opened ByteStrings
  import opened OfflineQueue
  import opened OfflineStorage
  import opened OfflineCalls
  import opened OfflineStoreClass
  import opened Ownership
  import opened Migration

  datatype Status = Pending | Running | Completed | Failed

  class ShardMigration {
    const devices: seq<Bytes>
    const batchSize: int
    const maxRetries: int
    const total: nat
    var phase: nat
    var status: Status
    var migrated: nat
    var failed: nat

    constructor (devices: seq<Bytes>, batchSize: int, maxRetries: int)
      ensures this.devices == devices && this.batchSize == batchSize && this.maxRetries == maxRetries
      ensures total == |devices| && phase == 0 && status == Pending && migrated == 0 && failed == 0
    {
      this.devices, this.batchSize, this.maxRetries, this.total := devices, batchSize, maxRetries, |devices|;
      phase, status, migrated, failed := 0, Pending, 0, 0;
    }

    method AdvancePhase()
      modifies this`phase, this`status
      ensures phase == (if old(phase) < 4 then old(phase) + 1 else old(phase))
      ensures status == if old(status) == Pending then Running else old(status)
    {
      if status == Pending {
        status := Running;
      }
      if phase < 4 {
        phase := phase + 1;
      }
    }
  }

  /** What the target acknowledged receiving in one migration, in order. */
  class Transport {
    var received: seq<(Bytes, Parcel)>

    constructor ()
      ensures received == []
    {
      received := [];
    }
  }

  /** The source broker, as far as a migration touches it. */
  class Broker {
    const offline: OfflineStore
    var sessions: map<Bytes, Session>
    var connected: set<Bytes>

    constructor (offline: OfflineStore, sessions: map<Bytes, Session>, connected: set<Bytes>)
      ensures this.offline == offline && this.sessions == sessions && this.connected == connected
    {
      this.offline, this.sessions, this.connected := offline, sessions, connected;
    }

    ghost function Contents(): Source
      reads this, offline, offline.Repr()
    {
      Source(offline.State(), sessions, connected)
    }

    /** What other goroutines do. */
    method Interleave(os: seq<Other>)
      modifies this, offline.Repr()
      ensures offline.store == old(offline.store)
      ensures Contents() == RunOthers(offline.cfg, old(Contents()), os)
    {
      hide CallStep;
      for i := 0 to |os|
        invariant offline.store == old(offline.store)
        invariant Contents() == RunOthers(offline.cfg, old(Contents()), os[..i])
      {
        assert os[..i + 1][..i] == os[..i];
        match os[i] {
          case Offline(c) => OneCall(c);
          case SetSession(d, x) => sessions := sessions[d := x];
          case DropSession(d) => sessions := sessions - {d};
          case Connect(d) => connected := connected + {d};
          case Disconnect(d) => connected := connected - {d};
        }
      }
      assert os[..|os|] == os;
    }

    method OneCall(c: Call)
      modifies offline.Repr()
      ensures offline.store == old(offline.store)
      ensures offline.State() == CallStep(offline.cfg, old(offline.State()), c)
    {
      hide CallStep;
      offline.Interleave([c]);
      RunNothing(offline.cfg, old(offline.State()));
      RunLast(offline.cfg, old(offline.State()), [], c);
      assert [] + [c] == [c];
    }

    method GetOfflineMessages(deviceID: Bytes, p: Peeking) returns (result: seq<Carried>)
      modifies offline.Repr()
      ensures offline.store == old(offline.store)
      ensures var (s, ms) := PeekRun(offline.cfg, old(offline.State()), deviceID, p);
              offline.State() == s && result == CarryAll(ms)
    {
      hide PeekRun;
      var msgs := offline.PeekAllMessages(deviceID, p);
      result := [];
      for i := 0 to |msgs|
        invariant result == CarryAll(msgs[..i])
      {
        assert msgs[..i + 1][..i] == msgs[..i];
        result := result + [Carry(msgs[i])];
      }
      assert msgs[..|msgs|] == msgs;
    }
  }

  /** The devices at positions `lo` up to `hi`. */
  function Between(devices: seq<Bytes>, lo: nat, hi: nat): set<Bytes>
    requires lo <= hi <= |devices|
  {
    set i | lo <= i < hi :: devices[i]
  }

  lemma BetweenNext(devices: seq<Bytes>, lo: nat, i: nat)
    requires lo <= i < |devices|
    ensures Between(devices, lo, i + 1) == Between(devices, lo, i) + {devices[i]}
  {
    assert devices[i] in Between(devices, lo, i + 1);
  }

  /** The retry loop for one position: `ok` is "no error left", `acked` that the target
      acknowledged. */
  method SendWithRetries(acks: Acks, maxRetries: int, i: nat) returns (ok: bool, acked: bool)
    ensures ok == Succeeds(acks, maxRetries, i)
    ensures acked <==> maxRetries >= 0 && ok
  {
    ok, acked := true, false;
    var retry := 0;
    while retry <= maxRetries
      invariant 0 <= retry
      invariant forall r: nat :: r < retry ==> !acks(i, r)
      invariant retry == 0 ==> ok
      invariant retry > 0 ==> !ok && maxRetries >= 0
      decreases maxRetries - retry
    {
      ok := acks(i, retry);
      if ok {
        acked := true;
        return;
      }
      retry := retry + 1;
    }
  }

  class Executor {
    const transport: Transport
    const connIdx: ConnectionIndex
    const broker: Broker

    constructor (transport: Transport, connIdx: ConnectionIndex, broker: Broker)
      ensures this.transport == transport && this.connIdx == connIdx && this.broker == broker
    {
      this.transport, this.connIdx, this.broker := transport, connIdx, broker;
    }

    ghost function Repr(): set<object>
      reads broker.offline
    {
      broker.offline.Repr() + {broker, transport}
    }

    ghost function Contents(): World
      reads broker.offline, Repr()
    {
      World(broker.Contents(), transport.received)
    }

    /** One position: disconnect, gather, send, and delete the source copy on success, with
        what others do in between. */
    method MigrateDevice(j: Job, i: nat) returns (ok: bool)
      requires i < |j.devices| && j.cfg == broker.offline.cfg
      modifies Repr()
      ensures broker.offline.store == old(broker.offline.store)
      ensures ok == Ok(j, i)
      ensures Contents() == MigrateOne(j.cfg, old(Contents()), j.devices[i], j.visits(i), Acked(j, i), ok)
    {
      hide PeekRun, RemoveAllStep, Succeeds, CarryAll, RunOthers;
      var deviceID, v := j.devices[i], j.visits(i);
      broker.connected := broker.connected - {deviceID};
      broker.Interleave(v.opening);
      var messages := broker.GetOfflineMessages(deviceID, v.peek);
      broker.Interleave(v.reading);
      var session := CarrySession(broker.sessions, deviceID);
      ghost var s := old(broker.Contents());
      assert broker.Contents() == Reading(j.cfg, s, deviceID, v);
      assert Parcel(messages, session) == Packed(j.cfg, s, deviceID, v);
      var acked;
      ok, acked := SendWithRetries(j.acks, j.maxRetries, i);
      broker.Interleave(v.sending);
      if acked {
        transport.received := transport.received + [(deviceID, Parcel(messages, session))];
      }
      if ok {
        Delete(deviceID, v.dropping);
      }
      broker.Interleave(v.closing);
    }

    /** The two deletions, with what others do between them. */
    method Delete(deviceID: Bytes, dropping: seq<Other>)
      modifies broker, broker.offline.Repr()
      ensures broker.offline.store == old(broker.offline.store)
      ensures var s := old(broker.Contents());
              var dropped := RunOthers(broker.offline.cfg, s.(offline := RemoveAllStep(s.offline, deviceID)), dropping);
              broker.Contents() == dropped.(sessions := dropped.sessions - {deviceID})
    {
      hide RemoveAllStep, RunOthers;
      broker.offline.RemoveAll(deviceID);
      broker.Interleave(dropping);
      broker.sessions := broker.sessions - {deviceID};
    }

    /** One batch: positions `lo` up to `hi`. */
    method MigrateBatch(m: ShardMigration, j: Job, lo: nat, hi: nat, ghost w: World)
      requires lo <= hi <= |j.devices| && j.cfg == broker.offline.cfg && j.devices == m.devices
      requires Contents() == Migrated(j, w, lo)
      requires m.migrated == CountMigrated(j.acks, j.maxRetries, lo) && m.migrated + m.failed == lo
      modifies Repr(), m`migrated, m`failed
      ensures broker.offline.store == old(broker.offline.store)
      ensures Contents() == Migrated(j, w, hi)
      ensures m.migrated == CountMigrated(j.acks, j.maxRetries, hi) && m.migrated + m.failed == hi
    {
      hide MigrateOne, Succeeds;
      var batchMigrated, batchFailed := 0, 0;
      for i := lo to hi
        invariant broker.offline.store == old(broker.offline.store)
        invariant m.migrated == old(m.migrated) && m.failed == old(m.failed)
        invariant m.migrated + batchMigrated == CountMigrated(j.acks, j.maxRetries, i)
        invariant batchMigrated + batchFailed == i - lo
        invariant Contents() == Migrated(j, w, i)
      {
        var ok := MigrateDevice(j, i);
        if ok {
          batchMigrated := batchMigrated + 1;
        } else {
          batchFailed := batchFailed + 1;
        }
      }
      m.migrated := m.migrated + batchMigrated;
      m.failed := m.failed + batchFailed;
    }

    /** The batch loop. */
    method MigrateAll(m: ShardMigration, j: Job)
      requires m.migrated == 0 && m.failed == 0 && j.cfg == broker.offline.cfg && j.devices == m.devices
      modifies Repr(), m`migrated, m`failed
      ensures broker.offline.store == old(broker.offline.store)
      ensures Contents() == Migrated(j, old(Contents()), |j.devices|)
      ensures m.migrated == CountMigrated(j.acks, j.maxRetries, |j.devices|) && m.migrated + m.failed == |j.devices|
    {
      hide MigrateOne, Succeeds;
      var batchSize := if m.batchSize <= 0 then 1000 else m.batchSize;
      var i := 0;
      while i < |m.devices|
        invariant 0 <= i <= |m.devices| && broker.offline.store == old(broker.offline.store)
        invariant m.migrated == CountMigrated(j.acks, j.maxRetries, i) && m.migrated + m.failed == i
        invariant Contents() == Migrated(j, old(Contents()), i)
        decreases |m.devices| - i
      {
        var end := i + batchSize;
        if end > |m.devices| {
          end := |m.devices|;
        }
        MigrateBatch(m, j, i, end, old(Contents()));
        i := end;
      }
    }

    /** A whole migration, for any batch size, retry limit, acknowledgements and actions of
        others. */
    method Execute(m: ShardMigration, acks: Acks, visits: nat -> Visit) returns (ok: bool, ghost j: Job)
      requires connIdx.Valid()
      requires m.migrated == 0 && m.failed == 0 && m.phase == 0 && m.status == Pending
      modifies m, connIdx, Repr()
      ensures j == Job(broker.offline.cfg, m.devices, m.maxRetries, acks, visits) && connIdx.Valid()
      // Every listed position is accounted for once.
      ensures m.migrated == CountMigrated(acks, m.maxRetries, |m.devices|) && m.migrated + m.failed == |m.devices|
      // Source and target are as the whole run leaves them.
      ensures Contents() == Migrated(j, old(Contents()), |m.devices|)
      // Completed exactly if nothing failed.
      ensures m.phase == 4 && m.status == (if ok then Completed else Failed)
      ensures ok <==> forall i: nat :: i < |m.devices| ==> Succeeds(acks, m.maxRetries, i)
      // No listed device stays flagged or tracked; the others keep their flag and node.
      ensures connIdx.migrating == old(connIdx.migrating) - Between(m.devices, 0, |m.devices|)
      ensures connIdx.devices == old(connIdx.devices) - Between(m.devices, 0, |m.devices|)
    {
      hide Partition, Succeeds, CountMigrated, Between, Migrated;
      var job := Job(broker.offline.cfg, m.devices, m.maxRetries, acks, visits);
      j := job;
      m.AdvancePhase();
      Flag(m);
      m.AdvancePhase();
      m.AdvancePhase();
      MigrateAll(m, job);
      ok := Finish(m);
      NoneFailed(acks, m.maxRetries, |m.devices|);
    }

    /** Redirect, clean up and set the final status. */
    method Finish(m: ShardMigration) returns (ok: bool)
      requires connIdx.Valid() && m.phase == 3 && m.status != Pending
      modifies m`phase, m`status, connIdx
      ensures connIdx.Valid() && m.phase == 4
      ensures ok == (m.failed == 0) && m.status == if ok then Completed else Failed
      ensures connIdx.migrating == old(connIdx.migrating) - Between(m.devices, 0, |m.devices|)
      ensures connIdx.devices == old(connIdx.devices) - Between(m.devices, 0, |m.devices|)
    {
      hide *;
      m.AdvancePhase();
      Unflag(m);
      m.AdvancePhase();
      if m.failed > 0 {
        m.status := Failed;
        return false;
      }
      m.status := Completed;
      return true;
    }

    method Flag(m: ShardMigration)
      requires connIdx.Valid()
      modifies connIdx`migrating
      ensures connIdx.Valid() && connIdx.migrating == old(connIdx.migrating) + Between(m.devices, 0, |m.devices|)
    {
      for i := 0 to |m.devices|
        invariant connIdx.migrating == old(connIdx.migrating) + Between(m.devices, 0, i)
      {
        BetweenNext(m.devices, 0, i);
        connIdx.SetMigrating(m.devices[i], true);
      }
    }

    /** Clear the flags and drop the devices from the index. */
    method Unflag(m: ShardMigration)
      requires connIdx.Valid()
      modifies connIdx
      ensures connIdx.Valid() && connIdx.migrating == old(connIdx.migrating) - Between(m.devices, 0, |m.devices|)
      ensures connIdx.devices == old(connIdx.devices) - Between(m.devices, 0, |m.devices|)
    {
      for i := 0 to |m.devices|
        invariant connIdx.Valid() && connIdx.migrating == old(connIdx.migrating) - Between(m.devices, 0, i)
        invariant connIdx.devices == old(connIdx.devices) - Between(m.devices, 0, i)
      {
        BetweenNext(m.devices, 0, i);
        connIdx.SetMigrating(m.devices[i], false);
        connIdx.Remove(m.devices[i]);
      }
    }
  }
}
