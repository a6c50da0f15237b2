/**
 The gate in front of the ledger (internal/hub/validation.go). Acceptable says which
 snapshots pass at a given hub time; the method Validate is the code with its loops.
 NaN and infinities do not exist for reals, and texts are sequences of bytes.
 */
module Validation {
  import opened Wrappers
  import opened Model

  const MAX_AHEAD: int := 30_000
  const MAX_AGE: int := 25 * 3_600_000

  // The hub's clock, in milliseconds since 1970, once a day and an hour have passed.
  // From then on every sample time that is let in is non-negative.
  type HubTime = t: int | MAX_AGE <= t witness MAX_AGE

  predicate Within(p: Option<real>, max: real) {
    p.None? || 0.0 <= p.value <= max
  }

  predicate HeaderOk(s: Snapshot, now: int) {
    && s.version == 1
    && s.node != "" && |s.node| <= 100
    && s.boot != "" && |s.boot| <= 100
    && 1 <= s.number
    && 2 <= s.interval <= 60
    && now - MAX_AGE <= s.at <= now + MAX_AHEAD
    && |s.hostname| <= 200
    && |s.gpus| <= 128
    && |s.system.networks| <= 256
    && |s.system.disks| <= 64
    && |s.system.io| <= 256
  }

  predicate SystemOk(y: System) {
    Within(y.cpu, 100.0) && Within(y.load, 1_000_000.0) && y.memoryAvailable <= y.memoryTotal
  }

  const RATE_LIMIT: real := 1_000_000_000_000_000.0

  predicate NetworkOk(n: Network) {
    |n.name| <= 128 && Within(n.rxRate, RATE_LIMIT) && Within(n.txRate, RATE_LIMIT)
  }

  predicate DiskOk(d: Disk) {
    |d.path| <= 2048 && |d.device| <= 512 && d.free <= d.total
  }

  predicate IoOk(d: DiskIo) {
    |d.device| <= 256 && Within(d.readRate, RATE_LIMIT) && Within(d.writeRate, RATE_LIMIT)
  }

  predicate ProcessOk(p: Process) {
    0 < p.pid && |p.name| <= 256 && |p.user| <= 256 && |p.uid| <= 64 && Within(p.memory, RATE_LIMIT)
  }

  predicate GpuShapeOk(g: Gpu) {
    g.uuid != "" && |g.uuid| <= 128 && |g.name| <= 200 && |g.processes| <= 4096 && |g.fields| <= 64
  }

  predicate FieldsOk(fields: map<string, string>) {
    forall k :: k in fields ==> |k| <= 64 && |fields[k]| <= 512
  }

  predicate MetricsOk(g: Gpu) {
    && Within(g.util, 100.0)
    && Within(g.memoryUsed, RATE_LIMIT)
    && Within(g.memoryTotal, RATE_LIMIT)
    && Within(g.temperature, 250.0)
    && Within(g.power, 100_000.0)
  }

  predicate GpuOk(g: Gpu) {
    GpuShapeOk(g) && FieldsOk(g.fields) && MetricsOk(g) && forall p :: p in g.processes ==> ProcessOk(p)
  }

  predicate Acceptable(s: Snapshot, now: int) {
    && HeaderOk(s, now)
    && SystemOk(s.system)
    && (forall n :: n in s.system.networks ==> NetworkOk(n))
    && (forall d :: d in s.system.disks ==> DiskOk(d))
    && (forall d :: d in s.system.io ==> IoOk(d))
    && (forall g :: g in s.gpus ==> GpuOk(g))
    && DistinctUuids(s.gpus)
  }

  // What is accepted was sampled after 1970.
  lemma AcceptedTime(s: Snapshot, now: HubTime)
    requires Acceptable(s, now)
    ensures 0 <= s.at
  {
  }

  method ValidateFields(fields: map<string, string>) returns (ok: bool)
    ensures ok == FieldsOk(fields)
  {
    var rest := fields.Keys;
    while rest != {}
      invariant rest <= fields.Keys
      invariant forall k :: k in fields.Keys - rest ==> |k| <= 64 && |fields[k]| <= 512
      decreases rest
    {
      var k :| k in rest;
      if |k| > 64 || |fields[k]| > 512 {
        return false;
      }
      rest := rest - {k};
    }
    return true;
  }

  method ValidateGpu(g: Gpu) returns (ok: bool)
    requires GpuShapeOk(g)
    ensures ok == GpuOk(g)
  {
    var fieldsOk := ValidateFields(g.fields);
    if !fieldsOk || !MetricsOk(g) {
      return false;
    }
    for i := 0 to |g.processes|
      invariant forall j :: 0 <= j < i ==> ProcessOk(g.processes[j])
    {
      if !ProcessOk(g.processes[i]) {
        return false;
      }
    }
    return true;
  }

  method ValidateGpus(gpus: seq<Gpu>) returns (ok: bool)
    ensures ok == ((forall g :: g in gpus ==> GpuOk(g)) && DistinctUuids(gpus))
  {
    hide FieldsOk, MetricsOk, ProcessOk;
    var seen: set<string> := {};
    for i := 0 to |gpus|
      invariant seen == Uuids(gpus[..i])
      invariant DistinctUuids(gpus[..i])
      invariant forall j :: 0 <= j < i ==> GpuOk(gpus[j])
    {
      var g := gpus[i];
      if !GpuShapeOk(g) {
        assert !GpuOk(gpus[i]);
        return false;
      }
      if g.uuid in seen {
        assert exists j :: 0 <= j < i && gpus[j].uuid == g.uuid;
        return false;
      }
      var gpuOk := ValidateGpu(g);
      if !gpuOk {
        return false;
      }
      assert gpus[..i + 1] == gpus[..i] + [g];
      UuidsAppend(gpus[..i], g);
      seen := seen + {g.uuid};
    }
    assert gpus[..|gpus|] == gpus;
    return true;
  }

  method ValidateSystem(y: System) returns (ok: bool)
    ensures ok == (&& SystemOk(y)
                   && (forall n :: n in y.networks ==> NetworkOk(n))
                   && (forall d :: d in y.disks ==> DiskOk(d))
                   && (forall d :: d in y.io ==> IoOk(d)))
  {
    if !SystemOk(y) {
      return false;
    }
    for i := 0 to |y.networks|
      invariant forall j :: 0 <= j < i ==> NetworkOk(y.networks[j])
    {
      if !NetworkOk(y.networks[i]) {
        return false;
      }
    }
    for i := 0 to |y.disks|
      invariant forall j :: 0 <= j < i ==> DiskOk(y.disks[j])
    {
      if !DiskOk(y.disks[i]) {
        return false;
      }
    }
    for i := 0 to |y.io|
      invariant forall j :: 0 <= j < i ==> IoOk(y.io[j])
    {
      if !IoOk(y.io[i]) {
        return false;
      }
    }
    return true;
  }

  // The code returns one of several error texts; which one is not part of the model.
  method Validate(s: Snapshot, now: int) returns (ok: bool)
    ensures ok == Acceptable(s, now)
  {
    if !HeaderOk(s, now) {
      return false;
    }
    var systemOk := ValidateSystem(s.system);
    if !systemOk {
      return false;
    }
    ok := ValidateGpus(s.gpus);
  }
  // The gate on the time of a sample: 25 hours back, half a minute ahead.
  lemma GateOnTime(s: Snapshot, at: int, now: int)
    requires Acceptable(s, now)
    ensures Acceptable(s.(at := at), now) <==> now - 90_000_000 <= at <= now + 30_000
  {
  }

  // The gate on the sampling interval: from two seconds to a minute.
  lemma GateOnInterval(s: Snapshot, interval: int, now: int)
    requires Acceptable(s, now)
    ensures Acceptable(s.(interval := interval), now) <==> 2 <= interval <= 60
  {
  }

  predicate Share(p: Option<real>, max: real) {
    p.Some? ==> 0.0 <= p.value && p.value <= max
  }

  // The gate on a card, and on repeated cards.
  lemma GateOnCards(s: Snapshot, g: Gpu, h: Gpu, now: int)
    requires Acceptable(s.(gpus := [g]), now) && h.processes == g.processes
    ensures Acceptable(s.(gpus := [h]), now) <==>
              && 1 <= |h.uuid| <= 128 && |h.name| <= 200 && |h.fields| <= 64
              && (forall k :: k in h.fields ==> |k| <= 64 && |h.fields[k]| <= 512)
              && Share(h.util, 100.0) && Share(h.memoryUsed, 1_000_000_000_000_000.0) && Share(h.memoryTotal, 1_000_000_000_000_000.0)
              && Share(h.temperature, 250.0) && Share(h.power, 100_000.0)
    ensures h.uuid == g.uuid ==> !Acceptable(s.(gpus := [g, h]), now)
    ensures |g.processes| <= 4096
  {
    assert g in [g] && h in [h];
    assert GpuOk(h) ==> Acceptable(s.(gpus := [h]), now);
    if h.uuid == g.uuid {
      assert [g, h][0].uuid == [g, h][1].uuid;
    }
  }

  // The gates on what is shown of the machine.
  lemma GateOnSystem(s: Snapshot, y: System, n: Network, d: Disk, io: DiskIo, now: int)
    requires Acceptable(s, now) && y == s.system.(cpu := y.cpu, load := y.load, memoryAvailable := y.memoryAvailable)
    ensures Acceptable(s.(system := y), now) <==>
              Share(y.cpu, 100.0) && Share(y.load, 1_000_000.0) && y.memoryAvailable <= y.memoryTotal
    ensures Acceptable(s.(system := s.system.(networks := [n])), now) <==>
              |n.name| <= 128 && Share(n.rxRate, 1_000_000_000_000_000.0) && Share(n.txRate, 1_000_000_000_000_000.0)
    ensures Acceptable(s.(system := s.system.(disks := [d])), now) <==> |d.path| <= 2048 && |d.device| <= 512 && d.free <= d.total
    ensures Acceptable(s.(system := s.system.(io := [io])), now) <==>
              |io.device| <= 256 && Share(io.readRate, 1_000_000_000_000_000.0) && Share(io.writeRate, 1_000_000_000_000_000.0)
  {
    assert n in [n] && d in [d] && io in [io];
    assert NetworkOk(n) ==> Acceptable(s.(system := s.system.(networks := [n])), now);
    assert DiskOk(d) ==> Acceptable(s.(system := s.system.(disks := [d])), now);
    assert IoOk(io) ==> Acceptable(s.(system := s.system.(io := [io])), now);
  }

  // The gate on the processes of a card.
  lemma GateOnProcess(s: Snapshot, g: Gpu, p: Process, now: int)
    requires Acceptable(s.(gpus := [g]), now)
    ensures Acceptable(s.(gpus := [g.(processes := [p])]), now) <==>
              0 < p.pid && |p.name| <= 256 && |p.user| <= 256 && |p.uid| <= 64 && Share(p.memory, 1_000_000_000_000_000.0)
  {
    var h := g.(processes := [p]);
    assert g in [g] && h in [h] && p in [p];
    assert ProcessOk(p) ==> GpuOk(h);
    assert GpuOk(h) ==> Acceptable(s.(gpus := [h]), now);
  }

  // The gate on who reports, and on how much at once.
  lemma GateOnHeader(s: Snapshot, t: Snapshot, now: int)
    requires Acceptable(s, now)
    requires t == s.(version := t.version, node := t.node, boot := t.boot, number := t.number, hostname := t.hostname)
    ensures Acceptable(t, now) <==>
              && t.version == 1 && 1 <= |t.node| <= 100 && 1 <= |t.boot| <= 100 && t.number >= 1 && |t.hostname| <= 200
    ensures |s.gpus| <= 128 && |s.system.networks| <= 256 && |s.system.disks| <= 64 && |s.system.io| <= 256
  {
  }
}
