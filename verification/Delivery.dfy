/**
 The delivery of samples from an agent's disk queue to the hub, as a state machine
 (internal/agent/agent.go, upload.go, queue.go and internal/hub/snapshots.go). Requests
 and replies can be lost or late, the agent can be killed between any two steps, the
 queue is pruned while an upload is under way, and the hub prunes its tables.

 Posting at least once and counting each identity at most once give effectively-once
 accounting: that is what the invariant and the theorems at the end say.
 */
module Delivery {
  import opened Wrappers
  import opened Model
  import opened Rollups
  import opened Tables
  import opened Ingestion
  import opened Ledger
  import opened Retention
  import opened Validation
  import opened Amounts
  import Batch

  // The upload goroutine: it handles one file at a time.
  datatype Uploader = Idle | Posting(id: SampleId) | Acked(id: SampleId)

  datatype World = World(
    // The running agent.
    node: string,
    boot: string,
    number: int,
    lastAt: int,
    dropped: nat,
    saving: bool,
    uploader: Uploader,
    // Its disk.
    queue: map<SampleId, Snapshot>,
    droppedOnDisk: nat,
    // The network: requests not yet handled, and confirmations under way.
    wire: map<SampleId, Snapshot>,
    confirmations: set<SampleId>,
    // Everything the hub has done.
    trace: seq<Op>,
    // The history of the agent.
    boots: set<string>,
    enqueued: map<SampleId, Snapshot>,
    evicted: set<SampleId>,
    deleted: set<SampleId>)

  datatype Action =
    | Sample(s: Snapshot)
    | Evict(id: SampleId)
    | SaveDropped(written: bool)
    | Post(id: SampleId)
    | Handle(id: SampleId, backfill: bool, now: HubTime)
    | Turn(id: SampleId)
    | Confirm(id: SampleId)
    | GiveUp
    | Delete
    | Restart(boot: string, readable: bool)
    | HubClean(now: HubTime)
    | HubOther(op: Op)

  ghost function HubState(w: World): State {
    Run(w.trace)
  }

  // The identities that the hub has ever taken in, whether or not it still has the rows.
  ghost predicate Committed(w: World, id: SampleId) {
    id in Run(Unpruned(w.trace)).samples
  }

  ghost predicate Enabled(w: World, a: Action) {
    match a
    case Sample(s) =>
      // Sampling is serial: the next number, at a later time.
      IdOf(s) == SampleId(w.node, w.boot, w.number + 1) && w.lastAt < s.at
    case Evict(id) => id in w.queue && !w.saving
    case SaveDropped(written) => w.saving
    case Post(id) => w.uploader.Idle? && id in w.queue
    case Handle(id, backfill, now) => id in w.wire && Clock(w.trace) <= now
    case Turn(id) => id in w.wire
    case Confirm(id) => w.uploader == Posting(id) && id in w.confirmations
    case GiveUp => w.uploader.Posting?
    case Delete => w.uploader.Acked?
    case Restart(boot, _) => boot !in w.boots
    case HubClean(now) => Clock(w.trace) <= now
    case HubOther(op) =>
      // Registering nodes, and the uploads of other nodes.
      && !op.Clean?
      && Coherent(w.trace + [op]) && Clocked(w.trace + [op])
      && (op.Upload? ==> op.s.node != w.node)
  }

  ghost function Do(w: World, a: Action): World
    requires Enabled(w, a)
  {
    match a
    case Sample(s) =>
      w.(number := s.number, lastAt := s.at, queue := w.queue[IdOf(s) := s], enqueued := w.enqueued[IdOf(s) := s])
    case Evict(id) =>
      w.(queue := w.queue - {id}, evicted := w.evicted + {id}, dropped := w.dropped + 1, saving := true)
    case SaveDropped(written) =>
      // A failed write leaves the old count on the disk, and nobody notices.
      w.(droppedOnDisk := if written then w.dropped else w.droppedOnDisk, saving := false)
    case Post(id) => w.(wire := w.wire[id := w.queue[id]], uploader := Posting(id))
    case Handle(id, backfill, now) =>
      // The reply is sent after the commit, and only when ingest succeeded.
      var s := w.wire[id];
      var r := Ingest(HubState(w), s, backfill, now);
      w.(wire := w.wire - {id},
         confirmations := if r.Ok? then w.confirmations + {id} else w.confirmations,
         trace := w.trace + [Upload(s, backfill, now)])
    case Turn(id) => w.(wire := w.wire - {id})
    case Confirm(id) => w.(uploader := Acked(id), confirmations := w.confirmations - {id})
    case GiveUp => w.(uploader := Idle)
    case Delete => w.(queue := w.queue - {w.uploader.id}, deleted := w.deleted + {w.uploader.id}, uploader := Idle)
    case Restart(boot, readable) =>
      // The count goes on from what is on the disk, or from zero if that cannot be read.
      w.(boot := boot, boots := w.boots + {boot}, number := 0, lastAt := -1, uploader := Idle,
         dropped := if readable then w.droppedOnDisk else 0, saving := false)
    case HubClean(now) => w.(trace := w.trace + [Clean(now)])
    case HubOther(op) => w.(trace := w.trace + [op])
  }

  ghost function Start(node: string, boot: string): World {
    World(node, boot, 0, -1, 0, false, Idle, map[], 0, map[], {}, [], {boot}, map[], {}, {})
  }

  /******* The invariant *******/

  // The samples of one run of the agent are numbered in the order of their times.
  ghost predicate Serial(w: World) {
    && w.boot in w.boots
    && (forall i :: i in w.enqueued ==> IdOf(w.enqueued[i]) == i && i.node == w.node && i.boot in w.boots)
    && (forall i :: i in w.enqueued && i.boot == w.boot ==> i.number <= w.number && w.enqueued[i].at <= w.lastAt)
    && (forall i, j :: i in w.enqueued && j in w.enqueued ==> Agree(w.enqueued[i], w.enqueued[j]))
  }

  // What the hub has been sent by this agent is what the agent has enqueued.
  ghost predicate Honest(w: World) {
    && Coherent(w.trace) && Clocked(w.trace)
    && (forall op :: op in w.trace && op.Upload? && op.s.node == w.node ==> IdOf(op.s) in w.enqueued && w.enqueued[IdOf(op.s)] == op.s)
  }

  // Whatever is on the disk or on the network was enqueued.
  ghost predicate Genuine(w: World) {
    && (forall i :: i in w.queue ==> i in w.enqueued && w.enqueued[i] == w.queue[i] && i !in w.evicted)
    && (forall i :: i in w.wire ==> i in w.enqueued && w.enqueued[i] == w.wire[i])
    && (forall i :: i in w.evicted ==> i in w.enqueued)
    && (w.uploader.Posting? ==> w.uploader.id in w.enqueued)
  }

  // Every sample is somewhere, and what was confirmed was committed.
  ghost predicate Accounted(w: World) {
    && (forall i :: i in w.enqueued ==> i in w.queue || i in w.evicted || Committed(w, i))
    && (forall i :: i in w.confirmations || i in w.deleted ==> Committed(w, i))
    && (w.uploader.Acked? ==> Committed(w, w.uploader.id))
  }

  // The count of losses, in memory and on the disk, never exceeds the losses.
  ghost predicate Counted(w: World) {
    w.dropped <= |w.evicted| && w.droppedOnDisk <= |w.evicted|
  }

  ghost predicate Inv(w: World) {
    Serial(w) && Honest(w) && Genuine(w) && Accounted(w) && Counted(w)
  }

  /******* The hub's side of a step *******/

  lemma UnprunedSnoc(ops: seq<Op>, op: Op)
    ensures Unpruned(ops + [op]) == if op.Clean? then Unpruned(ops) else Unpruned(ops) + [op]
  {
    assert (ops + [op])[..|ops|] == ops;
  }

  lemma ClockedSnoc(ops: seq<Op>, op: Op)
    requires Clocked(ops) && (op.AddNode? || Clock(ops) <= op.now)
    ensures Clocked(ops + [op])
  {
    assert (ops + [op])[..|ops|] == ops;
  }

  // What was once committed stays committed.
  lemma CommittedGrows(ops: seq<Op>, op: Op)
    requires Coherent(ops + [op])
    ensures Run(Unpruned(ops)).samples.Keys <= Run(Unpruned(ops + [op])).samples.Keys
  {
    hide Step, Sound, Exact, Consistent, Agree;
    UnprunedSnoc(ops, op);
    if !op.Clean? {
      var full := Unpruned(ops);
      UnprunedSubset(ops);
      assert forall x :: x in full + [op] ==> x in ops + [op];
      RunSnoc(full, op);
      RunKeeps(full);
      if op.Upload? {
        CoherentConsistent(full + [op], op, Run(full).samples);
      }
      SamplesGrow(Run(full), op);
    }
  }

  lemma SamplesGrow(st: State, op: Op)
    requires Sound(st) && !op.Clean? && (op.Upload? ==> Consistent(st.samples, op.s))
    ensures st.samples.Keys <= Step(st, op).samples.Keys
  {
    hide Insert, Inventory, Chained, Consistent, DistinctUuids;
    if op.Upload? && Acceptable(op.s, op.now) && IdOf(op.s) !in st.samples && op.s.node in st.nodes {
      InsertKeeps(st, op.s, op.backfill, op.now);
    }
  }

  // A request that ingest answers with success has been committed.
  lemma SuccessCommits(ops: seq<Op>, op: Op)
    requires op.Upload? && Coherent(ops + [op]) && Clocked(ops + [op])
    requires Ingest(Run(ops), op.s, op.backfill, op.now).Ok?
    ensures IdOf(op.s) in Run(Unpruned(ops + [op])).samples
  {
    hide Step, Sound, Exact, Consistent, Agree, Run, Clocked, Mirrors;
    var st := Run(ops);
    assert forall x :: x in ops ==> x in ops + [op];
    RunKeeps(ops);
    CoherentConsistent(ops + [op], op, st.samples);
    RunSnoc(ops, op);
    SuccessStores(st, op);
    RunMirrors(ops + [op]);
    MirrorsSamples(Run(Unpruned(ops + [op])), Run(ops + [op]), LastPrune(ops + [op]));
  }

  lemma SuccessStores(st: State, op: Op)
    requires op.Upload? && Sound(st) && Consistent(st.samples, op.s) && Ingest(st, op.s, op.backfill, op.now).Ok?
    ensures IdOf(op.s) in Step(st, op).samples
  {
    hide Insert, Inventory, Chained, Consistent, DistinctUuids;
    if IdOf(op.s) !in st.samples {
      InsertKeeps(st, op.s, op.backfill, op.now);
    }
  }

  lemma MirrorsSamples(full: State, st: State, pruned: int)
    requires Mirrors(full, st, pruned)
    ensures st.samples.Keys <= full.samples.Keys
  {
  }

  // The trace stays coherent when it takes in an enqueued sample.
  lemma CoherentHandle(w: World, id: SampleId, backfill: bool, now: HubTime)
    requires Serial(w) && Honest(w) && id in w.enqueued
    ensures Coherent(w.trace + [Upload(w.enqueued[id], backfill, now)])
  {
    hide Clocked;
    var op := Upload(w.enqueued[id], backfill, now);
    forall a, b | a in w.trace + [op] && b in w.trace + [op] && a.Upload? && b.Upload?
      ensures Agree(a.s, b.s)
    {
      if a.s.node == b.s.node == w.node {
        assert IdOf(a.s) in w.enqueued && w.enqueued[IdOf(a.s)] == a.s;
        assert IdOf(b.s) in w.enqueued && w.enqueued[IdOf(b.s)] == b.s;
      }
    }
  }

  /******* Every step keeps the invariant *******/

  lemma NewIdentity(w: World, s: Snapshot)
    requires Serial(w) && Enabled(w, Sample(s))
    ensures IdOf(s) !in w.enqueued
    ensures forall i :: i in w.enqueued ==> Agree(w.enqueued[i], s) && Agree(s, w.enqueued[i])
  {
    forall i | i in w.enqueued
      ensures i != IdOf(s) && Agree(w.enqueued[i], s) && Agree(s, w.enqueued[i])
    {
      assert IdOf(w.enqueued[i]) == i;
    }
  }

  lemma SerialStep(w: World, a: Action)
    requires Serial(w) && Enabled(w, a)
    ensures Serial(Do(w, a))
  {
    hide Run, Coherent, Clocked, Ingest, Agree, Serial;
    if a.Sample? {
      SerialSample(w, a.s);
    } else if a.Restart? {
      SerialRestart(w, a.boot, a.readable);
    } else {
      SerialSame(w, Do(w, a));
    }
  }

  lemma SerialSample(w: World, s: Snapshot)
    requires Serial(w) && Enabled(w, Sample(s))
    ensures Serial(Do(w, Sample(s)))
  {
    hide Agree;
    NewIdentity(w, s);
    AgreeSelf(s);
  }

  lemma SerialRestart(w: World, boot: string, readable: bool)
    requires Serial(w) && boot !in w.boots
    ensures Serial(Do(w, Restart(boot, readable)))
  {
    hide Agree;
  }

  lemma AgreeSelf(s: Snapshot)
    ensures Agree(s, s)
  {
  }

  lemma SerialSame(w: World, after: World)
    requires Serial(w) && after.node == w.node && after.boot == w.boot && after.boots == w.boots
    requires after.enqueued == w.enqueued && after.number == w.number && after.lastAt == w.lastAt
    ensures Serial(after)
  {
    hide Agree;
  }

  lemma CountedStep(w: World, a: Action)
    requires Counted(w) && Enabled(w, a) && forall i :: i in w.queue ==> i !in w.evicted
    ensures Counted(Do(w, a))
  {
    hide Run, Coherent, Clocked, Acceptable, Insert;
  }

  // What a step appends to the history of the hub.
  ghost function HubOps(w: World, a: Action): seq<Op>
    requires Enabled(w, a)
  {
    match a
    case Handle(id, backfill, now) => [Upload(w.wire[id], backfill, now)]
    case HubClean(now) => [Clean(now)]
    case HubOther(op) => [op]
    case _ => []
  }

  lemma TraceStep(w: World, a: Action)
    requires Enabled(w, a)
    ensures Do(w, a).trace == w.trace + HubOps(w, a)
  {
    hide Run, Coherent, Clocked, Acceptable, Insert;
    assert w.trace + [] == w.trace;
  }

  // The history of the hub grows by a step that it can take, with an own sample at most.
  lemma HonestMore(w: World, after: World, op: Op)
    requires Honest(w) && after.node == w.node && after.enqueued == w.enqueued && after.trace == w.trace + [op]
    requires Coherent(w.trace + [op]) && Clocked(w.trace + [op])
    requires op.Upload? && op.s.node == w.node ==> IdOf(op.s) in w.enqueued && w.enqueued[IdOf(op.s)] == op.s
    ensures Honest(after)
  {
    hide Coherent, Clocked;
  }

  lemma HonestSame(w: World, after: World)
    requires Honest(w) && after.node == w.node && after.enqueued == w.enqueued && after.trace == w.trace
    ensures Honest(after)
  {
    hide Coherent, Clocked;
  }

  lemma KeepsEnqueued(w: World, a: Action)
    requires Enabled(w, a)
    ensures Do(w, a).node == w.node && (!a.Sample? ==> Do(w, a).enqueued == w.enqueued)
  {
    hide Run, Coherent, Clocked, Ingest;
  }

  lemma OtherHubOp(w: World, op: Op)
    requires Enabled(w, HubOther(op))
    ensures Coherent(w.trace + [op]) && Clocked(w.trace + [op]) && (op.Upload? ==> op.s.node != w.node)
  {
    hide Coherent, Clocked;
  }

  lemma HonestHandle(w: World, id: SampleId, backfill: bool, now: HubTime)
    requires Serial(w) && Honest(w) && Genuine(w) && id in w.wire && Clock(w.trace) <= now
    ensures var op := Upload(w.wire[id], backfill, now);
            && Coherent(w.trace + [op]) && Clocked(w.trace + [op])
            && IdOf(op.s) in w.enqueued && w.enqueued[IdOf(op.s)] == op.s
  {
    hide Clocked, Coherent, Serial, Agree;
    WireIdentity(w, id);
    CoherentHandle(w, id, backfill, now);
    ClockedSnoc(w.trace, Upload(w.wire[id], backfill, now));
  }

  lemma HonestStep(w: World, a: Action)
    requires Serial(w) && Honest(w) && Genuine(w) && Enabled(w, a)
    ensures Honest(Do(w, a))
    ensures HubOps(w, a) != [] ==> Coherent(w.trace + [HubOps(w, a)[0]]) && Clocked(w.trace + [HubOps(w, a)[0]])
  {
    hide Run, Clocked, Agree, Serial, Coherent, Genuine, Do;
    TraceStep(w, a);
    KeepsEnqueued(w, a);
    match a
    case Handle(id, backfill, now) =>
      HonestHandle(w, id, backfill, now);
      HonestMore(w, Do(w, a), Upload(w.wire[id], backfill, now));
    case HubClean(now) =>
      ClockedSnoc(w.trace, Clean(now));
      CoherentClean(w.trace, now);
      HonestMore(w, Do(w, a), Clean(now));
    case HubOther(op) =>
      OtherHubOp(w, op);
      HonestMore(w, Do(w, a), op);
    case Sample(s) =>
      HonestSample(w, s);
    case _ =>
      assert w.trace + [] == w.trace;
      HonestSame(w, Do(w, a));
  }

  lemma WireIdentity(w: World, id: SampleId)
    requires Serial(w) && Genuine(w) && id in w.wire
    ensures IdOf(w.wire[id]) == id && w.enqueued[id] == w.wire[id]
  {
    hide Agree;
  }

  lemma CoherentClean(ops: seq<Op>, now: HubTime)
    requires Coherent(ops)
    ensures Coherent(ops + [Clean(now)])
  {
    hide Agree;
  }

  lemma HonestSample(w: World, s: Snapshot)
    requires Serial(w) && Honest(w) && Enabled(w, Sample(s))
    ensures Honest(Do(w, Sample(s)))
  {
    hide Coherent, Clocked, Agree, Serial;
    NewIdentity(w, s);
  }

  lemma CommittedStep(w: World, a: Action, id: SampleId)
    requires Serial(w) && Honest(w) && Genuine(w) && Enabled(w, a) && Committed(w, id)
    ensures Committed(Do(w, a), id)
  {
    hide Run, Serial, Honest, Genuine, Coherent, Clocked, Do, HubOps;
    HonestStep(w, a);
    TraceStep(w, a);
    if HubOps(w, a) != [] {
      assert HubOps(w, a) == [HubOps(w, a)[0]] by {
        AtMostOne(w, a);
      }
      CommittedGrows(w.trace, HubOps(w, a)[0]);
    } else {
      assert w.trace + [] == w.trace;
    }
  }

  lemma AtMostOne(w: World, a: Action)
    requires Enabled(w, a)
    ensures |HubOps(w, a)| <= 1
  {
  }

  lemma GenuineStep(w: World, a: Action)
    requires Serial(w) && Genuine(w) && Enabled(w, a)
    ensures Genuine(Do(w, a))
  {
    hide Run, Coherent, Clocked, Ingest, Serial;
    if a.Sample? {
      NewIdentity(w, a.s);
    }
  }

  // The hub's side apart: which samples are accounted for by the agent alone.
  lemma AccountedStep(w: World, a: Action)
    requires Inv(w) && Enabled(w, a)
    ensures Accounted(Do(w, a))
  {
    hide Coherent, Clocked, Committed, Ingest, Counted, Serial, Honest, HubOps;
    var after := Do(w, a);
    forall id | Committed(w, id)
      ensures Committed(after, id)
    {
      CommittedStep(w, a, id);
    }
    assert forall id :: id in after.confirmations && id !in w.confirmations ==> Committed(after, id) by {
      if a.Handle? && Ingest(HubState(w), w.wire[a.id], a.backfill, a.now).Ok? {
        HandleCommits(w, a);
      }
    }
    KeptOrGone(w, a);
  }

  // A sample leaves the queue only by eviction or after its confirmation.
  lemma KeptOrGone(w: World, a: Action)
    requires Enabled(w, a)
    ensures var after := Do(w, a);
            && (forall i :: i in after.enqueued && i !in w.enqueued ==> i in after.queue)
            && (forall i :: i in w.queue && i !in after.queue ==>
                  i in after.evicted || (w.uploader == Acked(i) && i in after.deleted))
            && w.evicted <= after.evicted
            && (forall i :: i in after.deleted && i !in w.deleted ==> w.uploader == Acked(i))
            && (after.uploader.Acked? && after.uploader != w.uploader ==> after.uploader.id in w.confirmations)
  {
    hide Coherent, Clocked, Ingest;
  }

  lemma HandleCommits(w: World, a: Action)
    requires Inv(w) && Enabled(w, a) && a.Handle?
    requires Ingest(HubState(w), w.wire[a.id], a.backfill, a.now).Ok?
    ensures Committed(Do(w, a), a.id)
  {
    hide Run, Coherent, Clocked, Counted, Agree, Ingest, Accounted;
    HonestStep(w, a);
    SuccessCommits(w.trace, Upload(w.wire[a.id], a.backfill, a.now));
  }

  lemma InvStep(w: World, a: Action)
    requires Inv(w) && Enabled(w, a)
    ensures Inv(Do(w, a))
  {
    hide Serial, Honest, Counted, Do, Enabled, Committed;
    GenuineStep(w, a);
    SerialStep(w, a);
    CountedStep(w, a);
    HonestStep(w, a);
    AccountedStep(w, a);
  }

  /******* All runs *******/

  ghost predicate IsRun(node: string, boot: string, actions: seq<Action>, worlds: seq<World>) {
    && |worlds| == |actions| + 1
    && worlds[0] == Start(node, boot)
    && forall n :: 0 <= n < |actions| ==> Enabled(worlds[n], actions[n]) && worlds[n + 1] == Do(worlds[n], actions[n])
  }

  lemma StartInv(node: string, boot: string)
    ensures Inv(Start(node, boot))
  {
  }

  lemma {:induction false} RunInv(node: string, boot: string, actions: seq<Action>, worlds: seq<World>, n: nat)
    requires IsRun(node, boot, actions, worlds) && n < |worlds|
    ensures Inv(worlds[n])
  {
    hide Inv, Start, Enabled, Do;
    if n == 0 {
      StartInv(node, boot);
    } else {
      RunInv(node, boot, actions, worlds, n - 1);
      InvStep(worlds[n - 1], actions[n - 1]);
    }
  }

  // Nothing is lost unnoticed but by eviction: at every moment of every run, each sample
  // that was enqueued is still in the queue, or the hub has committed it, or it was evicted.
  // The evictions are the count of dropped samples and what restarts have lost of it.
  lemma {:induction false} NothingLostSilently(node: string, boot: string, actions: seq<Action>, worlds: seq<World>, n: nat)
    requires IsRun(node, boot, actions, worlds) && n < |worlds|
    ensures var w := worlds[n];
            && (forall id :: id in w.enqueued ==> id in w.queue || Committed(w, id) || id in w.evicted)
            && |w.evicted| == w.dropped + Forgotten(actions, worlds, n)
            && 0 <= Forgotten(actions, worlds, n)
  {
    hide IsRun, Serial, Honest, Committed;
    RunInv(node, boot, actions, worlds, n);
    Tally(node, boot, actions, worlds, n);
  }

  /******* What restarts lose of the count *******/

  // The part of the count that the first n steps have lost: at each restart, the count in
  // memory less the count that the agent starts with. A count that could not be read and
  // was not overwritten comes back at a later restart.
  ghost function Forgotten(actions: seq<Action>, worlds: seq<World>, n: nat): int
    requires n <= |actions| < |worlds|
  {
    if n == 0 then 0
    else Forgotten(actions, worlds, n - 1)
         + (if actions[n - 1].Restart?
            then worlds[n - 1].dropped - (if actions[n - 1].readable then worlds[n - 1].droppedOnDisk else 0)
            else 0)
  }

  lemma EvictedStep(w: World, a: Action)
    requires Genuine(w) && Enabled(w, a)
    ensures |Do(w, a).evicted| == |w.evicted| + (if a.Evict? then 1 else 0)
    ensures Do(w, a).dropped
         == if a.Evict? then w.dropped + 1 else if a.Restart? then (if a.readable then w.droppedOnDisk else 0) else w.dropped
    ensures Do(w, a).droppedOnDisk == if a.SaveDropped? && a.written then w.dropped else w.droppedOnDisk
    ensures Do(w, a).saving == if a.Evict? then true else if a.SaveDropped? || a.Restart? then false else w.saving
    ensures (a.Evict? ==> !w.saving) && (a.SaveDropped? ==> w.saving)
  {
    hide Run, Coherent, Clocked, Ingest;
  }

  lemma {:induction false} Tally(node: string, boot: string, actions: seq<Action>, worlds: seq<World>, n: nat)
    requires IsRun(node, boot, actions, worlds) && n < |worlds|
    ensures |worlds[n].evicted| == worlds[n].dropped + Forgotten(actions, worlds, n)
  {
    hide Enabled, Do, Serial, Honest, Accounted, Counted, Genuine;
    if n != 0 {
      Tally(node, boot, actions, worlds, n - 1);
      RunInv(node, boot, actions, worlds, n - 1);
      EvictedStep(worlds[n - 1], actions[n - 1]);
    }
  }

  // At every restart so far the count could be read.
  ghost predicate AlwaysRead(actions: seq<Action>, n: nat)
    requires n <= |actions|
  {
    forall m :: 0 <= m < n && actions[m].Restart? ==> actions[m].readable
  }

  ghost predicate AlwaysWritten(actions: seq<Action>, n: nat)
    requires n <= |actions|
  {
    forall m :: 0 <= m < n && actions[m].SaveDropped? ==> actions[m].written
  }

  // At step m the agent is killed while the disk is behind the count in memory.
  ghost predicate KilledBehind(actions: seq<Action>, worlds: seq<World>, m: nat)
    requires m < |actions| < |worlds|
  {
    actions[m].Restart? && worlds[m].droppedOnDisk < worlds[m].dropped
  }

  lemma {:induction false} DiskNotAhead(node: string, boot: string, actions: seq<Action>, worlds: seq<World>, n: nat)
    requires IsRun(node, boot, actions, worlds) && n < |worlds| && AlwaysRead(actions, n)
    ensures worlds[n].droppedOnDisk <= worlds[n].dropped
  {
    hide Enabled, Do, Serial, Honest, Accounted, Counted, Genuine;
    if n != 0 {
      DiskNotAhead(node, boot, actions, worlds, n - 1);
      RunInv(node, boot, actions, worlds, n - 1);
      EvictedStep(worlds[n - 1], actions[n - 1]);
    }
  }

  lemma {:induction false} ForgottenIff(node: string, boot: string, actions: seq<Action>, worlds: seq<World>, n: nat)
    requires IsRun(node, boot, actions, worlds) && n < |worlds| && AlwaysRead(actions, n)
    ensures 0 <= Forgotten(actions, worlds, n)
    ensures Forgotten(actions, worlds, n) == 0 <==> forall m: nat :: m < n ==> !KilledBehind(actions, worlds, m)
  {
    hide Enabled, Do, Start;
    if n != 0 {
      ForgottenIff(node, boot, actions, worlds, n - 1);
      DiskNotAhead(node, boot, actions, worlds, n - 1);
      assert KilledBehind(actions, worlds, n - 1) <==>
          actions[n - 1].Restart? && worlds[n - 1].droppedOnDisk < worlds[n - 1].dropped;
    }
  }

  // As long as the count can be read at every start, it is exact if and only if the agent
  // was never killed while the disk was behind.
  lemma {:induction false} ExactUnlessKilledBehind(node: string, boot: string, actions: seq<Action>, worlds: seq<World>, n: nat)
    requires IsRun(node, boot, actions, worlds) && n < |worlds| && AlwaysRead(actions, n)
    ensures worlds[n].dropped == |worlds[n].evicted| <==> forall m: nat :: m < n ==> !KilledBehind(actions, worlds, m)
  {
    hide IsRun, KilledBehind;
    Tally(node, boot, actions, worlds, n);
    ForgottenIff(node, boot, actions, worlds, n);
  }

  ghost predicate LatestRestart(actions: seq<Action>, m: nat, n: nat)
    requires n <= |actions|
  {
    m < n && actions[m].Restart? && forall j :: m < j < n ==> !actions[j].Restart?
  }

  // What the agent finds as its count when it is started falls short of the evictions.
  ghost predicate StartsShort(w: World, readable: bool) {
    (if readable then w.droppedOnDisk else 0) < |w.evicted|
  }

  // The count stays exact, or not, from one start of the agent to the next.
  lemma {:induction false} LatestStartDecides(node: string, boot: string, actions: seq<Action>, worlds: seq<World>, n: nat)
    requires IsRun(node, boot, actions, worlds) && n < |worlds|
    ensures worlds[n].dropped == |worlds[n].evicted|
       <==> forall m: nat :: LatestRestart(actions, m, n) ==> !StartsShort(worlds[m], actions[m].readable)
  {
    hide Enabled, Do, Serial, Honest, Accounted, Genuine;
    if n != 0 {
      var m, w, a := n - 1, worlds[n - 1], actions[n - 1];
      LatestStartDecides(node, boot, actions, worlds, m);
      RunInv(node, boot, actions, worlds, m);
      EvictedStep(w, a);
      if a.Restart? {
        assert LatestRestart(actions, m, n);
        assert forall j: nat :: LatestRestart(actions, j, n) ==> j == m;
      } else {
        assert forall j: nat :: LatestRestart(actions, j, n) <==> LatestRestart(actions, j, m);
      }
    }
  }

  // Whether the counts in memory and on the disk are exact, and whether anything was ever
  // evicted, told from the actions alone: an eviction outdates the disk, a write brings it
  // to what memory has, and a start takes what it can read, or zero.
  datatype Track = Track(memory: bool, disk: bool, evicted: bool)

  function Tracked(actions: seq<Action>, n: nat): Track
    requires n <= |actions|
  {
    if n == 0 then Track(true, true, false)
    else
      var before := Tracked(actions, n - 1);
      match actions[n - 1]
      case Evict(_) => Track(before.memory, false, true)
      case SaveDropped(written) => if written then before.(disk := before.memory) else before
      case Restart(_, readable) => before.(memory := if readable then before.disk else !before.evicted)
      case _ => before
  }

  // In every run, whatever could be read or written: the count is exact if and only if the
  // actions say so. It is lost when the agent is started after an eviction whose count was
  // never written, or without being able to read it, and it is found again when a count that
  // was exact is read once more.
  lemma {:induction false} CountIsExactIff(node: string, boot: string, actions: seq<Action>, worlds: seq<World>, n: nat)
    requires IsRun(node, boot, actions, worlds) && n < |worlds|
    ensures worlds[n].dropped == |worlds[n].evicted| <==> Tracked(actions, n).memory
    ensures worlds[n].droppedOnDisk == |worlds[n].evicted| <==> Tracked(actions, n).disk
    ensures worlds[n].evicted != {} <==> Tracked(actions, n).evicted
  {
    hide Enabled, Do, Serial, Honest, Accounted, Genuine;
    if n != 0 {
      CountIsExactIff(node, boot, actions, worlds, n - 1);
      RunInv(node, boot, actions, worlds, n - 1);
      EvictedStep(worlds[n - 1], actions[n - 1]);
    }
  }

  // The kills between the removal of a file and the write of the count.
  ghost function Kills(actions: seq<Action>, worlds: seq<World>, n: nat): nat
    requires n <= |actions| < |worlds|
  {
    if n == 0 then 0
    else Kills(actions, worlds, n - 1) + (if actions[n - 1].Restart? && worlds[n - 1].saving then 1 else 0)
  }

  lemma {:induction false} OneBehind(node: string, boot: string, actions: seq<Action>, worlds: seq<World>, n: nat)
    requires IsRun(node, boot, actions, worlds) && n < |worlds| && AlwaysRead(actions, n) && AlwaysWritten(actions, n)
    ensures worlds[n].dropped == worlds[n].droppedOnDisk + (if worlds[n].saving then 1 else 0)
  {
    hide Enabled, Do, Serial, Honest, Accounted, Counted, Genuine;
    if n != 0 {
      OneBehind(node, boot, actions, worlds, n - 1);
      RunInv(node, boot, actions, worlds, n - 1);
      EvictedStep(worlds[n - 1], actions[n - 1]);
    }
  }

  // When the count can also be written every time, exactly one sample goes uncounted for
  // each kill between a removal and the write.
  lemma {:induction false} OneLostPerKill(node: string, boot: string, actions: seq<Action>, worlds: seq<World>, n: nat)
    requires IsRun(node, boot, actions, worlds) && n < |worlds| && AlwaysRead(actions, n) && AlwaysWritten(actions, n)
    ensures |worlds[n].evicted| == worlds[n].dropped + Kills(actions, worlds, n)
  {
    hide IsRun;
    Tally(node, boot, actions, worlds, n);
    ForgottenKills(node, boot, actions, worlds, n);
  }

  lemma {:induction false} ForgottenKills(node: string, boot: string, actions: seq<Action>, worlds: seq<World>, n: nat)
    requires IsRun(node, boot, actions, worlds) && n < |worlds| && AlwaysRead(actions, n) && AlwaysWritten(actions, n)
    ensures Forgotten(actions, worlds, n) == Kills(actions, worlds, n)
  {
    hide Enabled, Do, Start;
    if n != 0 {
      ForgottenKills(node, boot, actions, worlds, n - 1);
      OneBehind(node, boot, actions, worlds, n - 1);
    }
  }

  // A run that loses one: a sample is enqueued and evicted, and the agent is killed, before
  // the write of the count or after it failed.
  lemma ACountIsLost(node: string, boot: string, s: Snapshot, writeFails: bool, next: string) returns (actions: seq<Action>, worlds: seq<World>)
    requires IdOf(s) == SampleId(node, boot, 1) && 0 <= s.at && next != boot
    ensures IsRun(node, boot, actions, worlds)
    ensures AlwaysRead(actions, |actions|) && (!writeFails ==> AlwaysWritten(actions, |actions|))
    ensures worlds[|actions|].evicted == {IdOf(s)} && worlds[|actions|].dropped == 0
  {
    hide Run, Coherent, Clocked, Ingest;
    var id := IdOf(s);
    var w0 := Start(node, boot);
    var w1 := Do(w0, Sample(s));
    var w2 := Do(w1, Evict(id));
    if writeFails {
      var w3 := Do(w2, SaveDropped(false));
      actions := [Sample(s), Evict(id), SaveDropped(false), Restart(next, true)];
      worlds := [w0, w1, w2, w3, Do(w3, Restart(next, true))];
    } else {
      actions := [Sample(s), Evict(id), Restart(next, true)];
      worlds := [w0, w1, w2, Do(w2, Restart(next, true))];
    }
  }

  // The uploader deletes only what the hub has committed.
  lemma {:induction false} DeletedWasCommitted(node: string, boot: string, actions: seq<Action>, worlds: seq<World>, n: nat)
    requires IsRun(node, boot, actions, worlds) && n < |worlds|
    ensures forall id :: id in worlds[n].deleted ==> Committed(worlds[n], id)
  {
    hide IsRun, Serial, Honest, Committed, Counted;
    RunInv(node, boot, actions, worlds, n);
  }

  // Effectively once: whatever was retried, and whatever the hub has pruned since, each
  // unexpired cell of the rollups is the batch integral over all points ever stored. Those
  // points belong to committed samples, and every committed sample of the agent has left
  // its own, exactly as it was enqueued.
  lemma {:induction false} EffectivelyOnce(node: string, boot: string, actions: seq<Action>, worlds: seq<World>, n: nat, k: CellKey)
    requires IsRun(node, boot, actions, worlds) && n < |worlds|
    requires !Expired(k, LastPrune(worlds[n].trace))
    ensures var w, full := worlds[n], Run(Unpruned(worlds[n].trace));
            && Read(HubState(w).rollups, k) == Batch.BatchTotal(full.points, k)
            && (forall i :: i in full.points ==> Committed(w, SampleOf(i)))
            && (forall id :: id in w.enqueued && Committed(w, id) ==> Integrated(full.points, w.enqueued[id]))
  {
    hide IsRun, Accounted, Genuine, Counted, Coherent, Clocked, Run, Expired, Integrated, Exact, Inventory, SamplesKnown, Agree;
    RunInv(node, boot, actions, worlds, n);
    var w := worlds[n];
    PruningIsInvisible(w.trace, k);
    var full := Unpruned(w.trace);
    UnprunedSubset(w.trace);
    SubsetCoherent(full, w.trace);
    RunKeeps(full);
    OwnVerbatim(w, full);
    CommittedIsIntegrated(full, w.node);
    forall id | id in w.enqueued && Committed(w, id)
      ensures Integrated(Run(full).points, w.enqueued[id])
    {
      var op :| op in full && op.Upload? && IdOf(op.s) == id && op.s.at == Run(full).samples[id];
      assert op in w.trace && w.enqueued[id] == op.s;
    }
  }

  lemma SubsetCoherent(ops: seq<Op>, all: seq<Op>)
    requires Coherent(all) && forall op :: op in ops ==> op in all
    ensures Coherent(ops)
  {
    hide Agree;
  }

  lemma OwnVerbatim(w: World, ops: seq<Op>)
    requires Honest(w) && forall op :: op in ops ==> op in w.trace
    ensures VerbatimFrom(ops, w.node)
  {
    hide Coherent, Clocked;
    forall a, b | a in ops && b in ops && a.Upload? && b.Upload? && a.s.node == w.node && IdOf(a.s) == IdOf(b.s)
      ensures a.s == b.s
    {
      assert b.s.node == w.node;
    }
  }

  lemma {:induction false} RetryChangesNothing(node: string, boot: string, actions: seq<Action>, worlds: seq<World>, n: nat)
    requires IsRun(node, boot, actions, worlds) && n < |actions| && actions[n].Handle?
    requires Committed(worlds[n], actions[n].id)
    ensures HubState(worlds[n + 1]) == HubState(worlds[n])
  {
    hide Coherent, Clocked, Run, Counted, Agree;
    var w, a := worlds[n], actions[n];
    RunInv(node, boot, actions, worlds, n);
    HonestStep(w, a);
    CountedOnce(w.trace, Upload(w.wire[a.id], a.backfill, a.now));
  }
  /******* The agent and the network, from the actions alone *******/

  // The samples of the running agent, which numbers them from one at each start.
  function SampleCount(actions: seq<Action>, n: nat): nat
    requires n <= |actions|
  {
    if n == 0 then 0
    else
      match actions[n - 1]
      case Sample(_) => SampleCount(actions, n - 1) + 1
      case Restart(_, _) => 0
      case _ => SampleCount(actions, n - 1)
  }

  // A request is under way from its post until it is handled, turned down or lost.
  function UnderWay(actions: seq<Action>, n: nat, id: SampleId): bool
    requires n <= |actions|
  {
    if n == 0 then false
    else
      match actions[n - 1]
      case Post(i) => i == id || UnderWay(actions, n - 1, id)
      case Handle(i, _, _) => i != id && UnderWay(actions, n - 1, id)
      case Turn(i) => i != id && UnderWay(actions, n - 1, id)
      case _ => UnderWay(actions, n - 1, id)
  }

  // A sample is in the queue from its sampling until it is evicted, or deleted after its
  // confirmation.
  ghost function Queued(actions: seq<Action>, worlds: seq<World>, n: nat, id: SampleId): bool
    requires n <= |actions| < |worlds|
  {
    if n == 0 then false
    else
      match actions[n - 1]
      case Sample(s) => IdOf(s) == id || Queued(actions, worlds, n - 1, id)
      case Evict(i) => i != id && Queued(actions, worlds, n - 1, id)
      case Delete => worlds[n - 1].uploader != Acked(id) && Queued(actions, worlds, n - 1, id)
      case _ => Queued(actions, worlds, n - 1, id)
  }

  lemma AgentStep(w: World, a: Action, id: SampleId)
    requires Enabled(w, a)
    ensures Do(w, a).number == if a.Sample? then w.number + 1 else if a.Restart? then 0 else w.number
    ensures id in Do(w, a).wire <==>
              (a.Post? && a.id == id) || (id in w.wire && !((a.Handle? || a.Turn?) && a.id == id))
    ensures id in Do(w, a).queue <==>
              || (a.Sample? && IdOf(a.s) == id)
              || (id in w.queue && !(a.Evict? && a.id == id) && !(a.Delete? && w.uploader == Acked(id)))
  {
    hide Run, Coherent, Clocked, Ingest;
  }

  lemma {:induction false} AgentIs(node: string, boot: string, actions: seq<Action>, worlds: seq<World>, n: nat, id: SampleId)
    requires IsRun(node, boot, actions, worlds) && n < |worlds|
    ensures worlds[n].number == SampleCount(actions, n)
    ensures id in worlds[n].wire <==> UnderWay(actions, n, id)
    ensures id in worlds[n].queue <==> Queued(actions, worlds, n, id)
  {
    hide Enabled, Do;
    if n != 0 {
      AgentIs(node, boot, actions, worlds, n - 1, id);
      AgentStep(worlds[n - 1], actions[n - 1], id);
    }
  }
}
