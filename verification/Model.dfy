/** What an agent reports: one snapshot per sampling round (internal/model/model.go). */
module Model {
  import opened Wrappers

  datatype Process = Process(pid: int, uid: string, user: string, name: string, memory: Option<real>)

  // A metric that could not be read is None; Some(0.0) is a measured zero.
  datatype Gpu = Gpu(
    uuid: string,
    name: string,
    status: string,
    processStatus: string,
    processes: seq<Process>,
    util: Option<real>,
    memoryUsed: Option<real>,
    memoryTotal: Option<real>,
    temperature: Option<real>,
    power: Option<real>,
    ecc: Option<real>,
    fields: map<string, string>)

  datatype Network = Network(name: string, rxRate: Option<real>, txRate: Option<real>)

  datatype Disk = Disk(path: string, device: string, total: nat, free: nat)

  datatype DiskIo = DiskIo(device: string, readRate: Option<real>, writeRate: Option<real>)

  datatype System = System(
    cpu: Option<real>,
    load: Option<real>,
    memoryTotal: nat,
    memoryAvailable: nat,
    networks: seq<Network>,
    disks: seq<Disk>,
    io: seq<DiskIo>)

  // The backfill mark is not part of this value: the agent sets it anew at every
  // attempt to send, so it belongs to the request and not to the sample.
  datatype Snapshot = Snapshot(
    version: int,
    node: string,
    boot: string,
    number: int,
    at: int,
    interval: int,
    hostname: string,
    system: System,
    gpus: seq<Gpu>,
    gpuStatus: string)

  // The idempotency key of a snapshot.
  datatype SampleId = SampleId(node: string, boot: string, number: int)

  function IdOf(s: Snapshot): SampleId {
    SampleId(s.node, s.boot, s.number)
  }

  function Uuids(gpus: seq<Gpu>): set<string> {
    set i | 0 <= i < |gpus| :: gpus[i].uuid
  }

  predicate DistinctUuids(gpus: seq<Gpu>) {
    forall i, j :: 0 <= i < j < |gpus| ==> gpus[i].uuid != gpus[j].uuid
  }

  lemma UuidsPrefix(a: seq<Gpu>, b: seq<Gpu>)
    requires a <= b
    ensures Uuids(a) <= Uuids(b)
  {
    forall u | u in Uuids(a) ensures u in Uuids(b) {
      var i :| 0 <= i < |a| && a[i].uuid == u;
      assert b[i].uuid == u;
    }
  }

  lemma UuidsAppend(gpus: seq<Gpu>, g: Gpu)
    ensures Uuids(gpus + [g]) == Uuids(gpus) + {g.uuid}
  {
    UuidsPrefix(gpus, gpus + [g]);
    assert (gpus + [g])[|gpus|] == g;
  }

  lemma UuidsConcat(a: seq<Gpu>, b: seq<Gpu>)
    ensures Uuids(a + b) == Uuids(a) + Uuids(b)
  {
    UuidsPrefix(a, a + b);
    forall u | u in Uuids(b) ensures u in Uuids(a + b) {
      var j :| 0 <= j < |b| && b[j].uuid == u;
      assert (a + b)[|a| + j].uuid == u;
    }
  }

  lemma NoUuids()
    ensures Uuids([]) == {}
  {
  }
}
