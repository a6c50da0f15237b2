/**
 A sample that repeats the time of another one of the same run of an agent, with all its
 cards, on a hub with any history of snapshots and prunes (internal/hub/ingest.go): by how
 much the rollups then differ from the batch definition, exactly when they do not, and two
 runs in which they do. Cards do not meet in the tables, so each is looked at alone.
 */
module RepeatedSample {
  import opened Wrappers
  import opened Amounts
  import opened Model
  import opened Rollups
  import opened Tables
  import opened Ingestion
  import opened Linking
  import opened Ledger
  import opened Validation
  import opened Batch
  import opened Retention
  import opened RepeatedTime

  /******* One card at a time *******/

  function CardOf(i: PointId): GpuId {
    GpuId(i.node, i.uuid)
  }

  function CardOfCell(k: CellKey): GpuId {
    GpuId(k.node, k.uuid)
  }

  ghost predicate SameOn<T>(a: map<PointId, T>, b: map<PointId, T>, card: GpuId) {
    forall i :: CardOf(i) == card ==> (i in a <==> i in b) && (i in a ==> a[i] == b[i])
  }

  // Two states agree on all that concerns a card in the ledger.
  ghost predicate SameCard(a: State, b: State, card: GpuId) {
    && SameOn(a.points, b.points, card)
    && SameOn(a.edges, b.edges, card)
    && (forall k: CellKey :: CardOfCell(k) == card ==> Read(a.rollups, k) == Read(b.rollups, k))
  }

  // An edge is worth nothing in the cells of other cards.
  ghost predicate OwnCells(edges: map<PointId, Edge>) {
    forall i, k: CellKey :: i in edges && CardOfCell(k) != CardOf(i) ==> Read(edges[i].data, k) == ZERO
  }

  lemma SameCardTwice(a: State, b: State, c: State, card: GpuId)
    requires SameCard(a, b, card) && SameCard(b, c, card)
    ensures SameCard(a, c, card)
  {
    hide Read;
  }

  lemma NeighboursLocal(a: map<PointId, Point>, b: map<PointId, Point>, c: Chain, at: int)
    requires SameOn(a, b, GpuId(c.node, c.uuid))
    ensures PreviousPoint(a, c, at) == PreviousPoint(b, c, at) && NextPoint(a, c, at) == NextPoint(b, c, at)
  {
    assert Earlier(a, c, at) == Earlier(b, c, at) && Later(a, c, at) == Later(b, c, at);
    if Earlier(a, c, at) != {} {
      BeforeIs(b, c, at, Before(a, c, at).value);
    }
    if Later(a, c, at) != {} {
      AfterIs(b, c, at, After(a, c, at).value);
    }
  }

  lemma RelinkLocal(a: State, b: State, c: Chain, x: Point, y: Point)
    requires SameCard(a, b, GpuId(c.node, c.uuid))
    ensures SameCard(Relink(a, c, x, y), Relink(b, c, x, y), GpuId(c.node, c.uuid))
  {
    hide MakeEdge, Add, Sub, Read;
    var id, e := PointId(c.node, c.uuid, c.boot, y.number), MakeEdge(c, x, y);
    forall k: CellKey | CardOfCell(k) == GpuId(c.node, c.uuid)
      ensures Read(Relink(a, c, x, y).rollups, k) == Read(Relink(b, c, x, y).rollups, k)
    {
      SetEdgeRead(a, id, e, k);
      SetEdgeRead(b, id, e, k);
      assert CardOf(id) == CardOfCell(k);
    }
  }

  lemma LinkLocal(a: State, b: State, c: Chain, p: Point)
    requires SameCard(a, b, GpuId(c.node, c.uuid))
    ensures SameCard(Link(a, c, p), Link(b, c, p), GpuId(c.node, c.uuid))
  {
    hide Relink, Read, PreviousPoint, NextPoint;
    NeighboursLocal(a.points, b.points, c, p.at);
    var id, before, after := PointId(c.node, c.uuid, c.boot, p.number), PreviousPoint(a.points, c, p.at), NextPoint(a.points, c, p.at);
    var a0, b0 := a.(points := a.points[id := p]), b.(points := b.points[id := p]);
    assert SameCard(a0, b0, GpuId(c.node, c.uuid));
    var a1 := if before.Some? then Relink(a0, c, before.value, p) else a0;
    var b1 := if before.Some? then Relink(b0, c, before.value, p) else b0;
    if before.Some? {
      RelinkLocal(a0, b0, c, before.value, p);
    }
    if after.Some? {
      RelinkLocal(a1, b1, c, p, after.value);
    }
  }

  lemma MadeOwn(c: Chain, x: Point, y: Point, k: CellKey)
    requires CardOfCell(k) != GpuId(c.node, c.uuid)
    ensures Read(MakeEdge(c, x, y).data, k) == ZERO
  {
    hide Window, Aligned;
    assert MakeEdge(c, x, y).data[k] == EdgeCell(c.node, c.uuid, x, y, k);
  }

  lemma RelinkElsewhere(st: State, c: Chain, x: Point, y: Point, card: GpuId)
    requires OwnCells(st.edges) && card != GpuId(c.node, c.uuid)
    ensures SameCard(Relink(st, c, x, y), st, card)
  {
    hide MakeEdge, Add, Sub, Read;
    var id, e := PointId(c.node, c.uuid, c.boot, y.number), MakeEdge(c, x, y);
    forall k: CellKey | CardOfCell(k) == card
      ensures Read(Relink(st, c, x, y).rollups, k) == Read(st.rollups, k)
    {
      SetEdgeRead(st, id, e, k);
      MadeOwn(c, x, y, k);
      NothingWithdrawn(Read(st.rollups, k));
      assert OldCell(st.edges, id, k) == ZERO;
    }
  }

  lemma RelinkOwn(st: State, c: Chain, x: Point, y: Point)
    requires OwnCells(st.edges)
    ensures OwnCells(Relink(st, c, x, y).edges)
  {
    hide MakeEdge, Add, Sub, Read;
    forall k: CellKey | CardOfCell(k) != GpuId(c.node, c.uuid) {
      MadeOwn(c, x, y, k);
    }
  }

  lemma LinkElsewhere(st: State, c: Chain, p: Point, card: GpuId)
    requires OwnCells(st.edges)
    ensures OwnCells(Link(st, c, p).edges)
    ensures card != GpuId(c.node, c.uuid) ==> SameCard(Link(st, c, p), st, card)
  {
    hide Relink, Read, PreviousPoint, NextPoint, OwnCells;
    var id, before, after := PointId(c.node, c.uuid, c.boot, p.number), PreviousPoint(st.points, c, p.at), NextPoint(st.points, c, p.at);
    var st0 := st.(points := st.points[id := p]);
    var st1 := if before.Some? then Relink(st0, c, before.value, p) else st0;
    if before.Some? {
      RelinkOwn(st0, c, before.value, p);
    }
    if after.Some? {
      RelinkOwn(st1, c, p, after.value);
    }
    if card != GpuId(c.node, c.uuid) {
      assert SameCard(st0, st, card);
      if before.Some? {
        RelinkElsewhere(st0, c, before.value, p, card);
      }
      if after.Some? {
        RelinkElsewhere(st1, c, p, after.value, card);
      }
    }
  }

  /******* All cards of a snapshot *******/

  // What the first n cards of a snapshot say of a card.
  function Listed(s: Snapshot, gpus: seq<Gpu>, n: nat, card: GpuId): Option<Gpu>
    requires n <= |gpus|
  {
    if n == 0 then None
    else if GpuId(s.node, gpus[n - 1].uuid) == card then Some(gpus[n - 1])
    else Listed(s, gpus, n - 1, card)
  }

  lemma {:induction false} ListedIs(s: Snapshot, gpus: seq<Gpu>, n: nat, card: GpuId)
    requires n <= |gpus| && DistinctUuids(gpus)
    ensures Listed(s, gpus, n, card).Some? ==>
              Listed(s, gpus, n, card).value in gpus[..n] && GpuId(s.node, Listed(s, gpus, n, card).value.uuid) == card
    ensures forall j :: 0 <= j < n && GpuId(s.node, gpus[j].uuid) == card ==> Listed(s, gpus, n, card) == Some(gpus[j])
  {
    if n != 0 {
      ListedIs(s, gpus, n - 1, card);
      assert gpus[..n] == gpus[..n - 1] + [gpus[n - 1]];
    }
  }

  // The ledger after that card alone.
  ghost function Alone(st: State, s: Snapshot, g: Option<Gpu>): State
    requires 0 <= s.at
  {
    if g.Some? then Link(st, Chain(s.node, g.value.uuid, s.boot), MakePoint(s, g.value)) else st
  }

  lemma StoredIsLinked(st: State, c: Chain, p: Point, card: GpuId)
    ensures SameCard(StorePoint(st, c, p), Link(st, c, p), card) && StorePoint(st, c, p).edges == Link(st, c, p).edges
  {
    hide Link, Note, Read;
  }

  // As far as one card is concerned, a whole snapshot does what that card does alone.
  lemma {:induction false} StoreGpusLocal(st: State, s: Snapshot, gpus: seq<Gpu>, n: nat, card: GpuId)
    requires 0 <= s.at && n <= |gpus| && DistinctUuids(gpus) && OwnCells(st.edges) && StoreGpus(st, s, gpus, n).Ok?
    ensures OwnCells(StoreGpus(st, s, gpus, n).value.edges)
    ensures SameCard(StoreGpus(st, s, gpus, n).value, Alone(st, s, Listed(s, gpus, n, card)), card)
  {
    hide StorePoint, Link, MakePoint, OwnCells, DistinctUuids, SameCard;
    if n == 0 {
      SameCardSelf(st, card);
    } else {
      StoreGpusLocal(st, s, gpus, n - 1, card);
      var before, g := StoreGpus(st, s, gpus, n - 1).value, gpus[n - 1];
      var c, p := Chain(s.node, g.uuid, s.boot), MakePoint(s, g);
      StoredIsLinked(before, c, p, card);
      LinkElsewhere(before, c, p, card);
      if GpuId(s.node, g.uuid) == card {
        NotListedBefore(s, gpus, n - 1);
        LinkLocal(before, st, c, p);
        SameCardTwice(StorePoint(before, c, p), Link(before, c, p), Link(st, c, p), card);
      } else {
        SameCardTwice(StorePoint(before, c, p), Link(before, c, p), before, card);
        SameCardTwice(StorePoint(before, c, p), before, Alone(st, s, Listed(s, gpus, n, card)), card);
      }
    }
  }

  lemma SameCardSelf(st: State, card: GpuId)
    ensures SameCard(st, st, card)
  {
    hide Read;
  }

  lemma NotListedBefore(s: Snapshot, gpus: seq<Gpu>, n: nat)
    requires n < |gpus| && DistinctUuids(gpus)
    ensures Listed(s, gpus, n, GpuId(s.node, gpus[n].uuid)) == None
  {
    ListedIs(s, gpus, n, GpuId(s.node, gpus[n].uuid));
  }

  // The cards of a new snapshot are stored without a clash, whatever its time.
  lemma {:induction false} StoreGpusStored(st: State, s: Snapshot, gpus: seq<Gpu>, n: nat)
    requires 0 <= s.at && n <= |gpus| && DistinctUuids(gpus) && NoPointYet(st.points, s, gpus, 0) && Numbered(st.points)
    ensures StoreGpus(st, s, gpus, n).Ok?
    ensures NoPointYet(StoreGpus(st, s, gpus, n).value.points, s, gpus, n) && Numbered(StoreGpus(st, s, gpus, n).value.points)
  {
    hide StorePoint, MakePoint;
    if n != 0 {
      StoreGpusStored(st, s, gpus, n - 1);
      var before, g := StoreGpus(st, s, gpus, n - 1).value, gpus[n - 1];
      assert PointId(s.node, g.uuid, s.boot, s.number) !in before.points;
      NoPointStep(before.points, s, gpus, n - 1, MakePoint(s, g));
    }
  }

  /******* The batch definition of one card *******/

  lemma {:induction false} SortedLocal(a: map<PointId, Point>, b: map<PointId, Point>, c: Chain, ids: set<PointId>)
    requires Numbered(a) && Numbered(b) && SameOn(a, b, GpuId(c.node, c.uuid))
    requires ids <= ChainIds(a, c) && ids <= ChainIds(b, c)
    ensures Sorted(a, ids) == Sorted(b, ids)
    decreases |ids|
  {
    if ids != {} {
      var last := Last(a, ids);
      LastIs(b, ids, c, last);
      SortedLocal(a, b, c, ids - {last});
    }
  }

  lemma BatchLocal(a: map<PointId, Point>, b: map<PointId, Point>, k: CellKey)
    requires Numbered(a) && Numbered(b) && SameOn(a, b, CardOfCell(k))
    ensures BatchTotal(a, k) == BatchTotal(b, k)
  {
    hide Integral, Sorted, SumOver, Numbered;
    forall boot
      ensures boot in Boots(a, k.node, k.uuid) <==> boot in Boots(b, k.node, k.uuid)
    {
      if boot in Boots(a, k.node, k.uuid) {
        BootLocal(a, b, k, boot);
      }
      if boot in Boots(b, k.node, k.uuid) {
        BootLocal(b, a, k, boot);
      }
    }
    forall boot | boot in Boots(a, k.node, k.uuid)
      ensures BootTotals(a, k)[boot] == BootTotals(b, k)[boot]
    {
      var c := Chain(k.node, k.uuid, boot);
      assert ChainIds(a, c) == ChainIds(b, c);
      SortedLocal(a, b, c, ChainIds(a, c));
    }
    assert BootTotals(a, k) == BootTotals(b, k);
  }

  lemma BootLocal(a: map<PointId, Point>, b: map<PointId, Point>, k: CellKey, boot: string)
    requires SameOn(a, b, CardOfCell(k)) && boot in Boots(a, k.node, k.uuid)
    ensures boot in Boots(b, k.node, k.uuid)
  {
    var i :| i in a && i.node == k.node && i.uuid == k.uuid && i.boot == boot;
    assert i in b;
  }

  /******* One card of the repeated sample *******/

  // The sample is new, and t is a sample of the same run of the agent at the same time.
  ghost predicate Repeating(samples: map<SampleId, int>, s: Snapshot, t: SampleId) {
    IdOf(s) !in samples && t in samples && t.node == s.node && t.boot == s.boot && samples[t] == s.at
  }

  function TwinOf(s: Snapshot, t: SampleId, uuid: string): PointId {
    PointId(s.node, uuid, s.boot, t.number)
  }

  function NewId(s: Snapshot, uuid: string): PointId {
    PointId(s.node, uuid, s.boot, s.number)
  }

  lemma TwinArrives(st: State, s: Snapshot, t: SampleId, g: Gpu)
    requires 0 <= s.at && Chained(st) && Repeating(st.samples, s, t)
    ensures NewId(s, g.uuid) !in st.points && s.number != t.number
    ensures var c, p, twin := Chain(s.node, g.uuid, s.boot), MakePoint(s, g), TwinOf(s, t, g.uuid);
            if twin in st.points then Arrives(st.points, c, p, twin) else DistinctTimes(st.points[NewId(s, g.uuid) := p])
  {
    hide MakePoint;
    var c, p, twin, id := Chain(s.node, g.uuid, s.boot), MakePoint(s, g), TwinOf(s, t, g.uuid), NewId(s, g.uuid);
    assert t == SampleId(s.node, s.boot, t.number);
    ChainedDistinct(st);
    assert SampleOf(id) == IdOf(s);
    forall i | i in st.points && ChainOf(i) == c && st.points[i].at == s.at
      ensures i == twin
    {
      assert SampleOf(i) == t;
      assert i == PointId(c.node, c.uuid, c.boot, i.number);
    }
    assert st.points[id := p] - {id} == st.points;
  }

  // What the card of a repeated sample adds to a cell beyond the batch definition.
  ghost function Surplus(points: map<PointId, Point>, s: Snapshot, t: SampleId, g: Gpu, k: CellKey): Amounts
    requires 0 <= s.at
  {
    var c, p, twin := Chain(s.node, g.uuid, s.boot), MakePoint(s, g), TwinOf(s, t, g.uuid);
    if twin in points then Difference(c, PreviousPoint(points, c, s.at), p, points[twin], NextPoint(points, c, s.at), k) else ZERO
  }

  lemma CardAlone(st: State, s: Snapshot, t: SampleId, g: Gpu, k: CellKey)
    requires 0 <= s.at && Chained(st) && Exact(st) && Repeating(st.samples, s, t)
    ensures var after := Alone(st, s, Some(g));
            k in after.rollups && after.rollups[k] == Add(BatchTotal(after.points, k), Surplus(st.points, s, t, g, k))
  {
    hide MakePoint, Links, Balanced, BatchTotal, Twice, Displaced, Add, PreviousPoint, NextPoint, Total, DistinctTimes;
    var c, p, twin := Chain(s.node, g.uuid, s.boot), MakePoint(s, g), TwinOf(s, t, g.uuid);
    TwinArrives(st, s, t, g);
    if twin in st.points {
      RepeatedTimeExceeds(st, c, p, twin, k);
    } else {
      LinkKeepsLinks(st, c, p);
      LinkBalanced(st, c, p);
      BalancedCellIs(Link(st, c, p), k);
      LinksAddUpToBatch(Link(st, c, p).points, k);
      AddZero(BatchTotal(Link(st, c, p).points, k));
    }
  }

  lemma BalancedCellIs(st: State, k: CellKey)
    requires Balanced(st)
    ensures k in st.rollups && st.rollups[k] == Total(st.edges, k)
  {
    hide Total;
  }

  lemma CardUntouched(st: State, k: CellKey)
    requires Chained(st) && Exact(st)
    ensures k in st.rollups && st.rollups[k] == BatchTotal(st.points, k)
  {
    hide Links, Total, BatchTotal;
    ChainedDistinct(st);
    LinksAddUpToBatch(st.points, k);
  }

  // A hub that prunes finds the same neighbours, but for one that is too far to be joined.
  lemma SurplusMirrors(full: State, st: State, pruned: int, s: Snapshot, t: SampleId, g: Gpu, k: CellKey)
    requires 0 <= s.at && Chained(full) && Mirrors(full, st, pruned) && ShortIntervals(full.points)
    requires Repeating(full.samples, s, t) && s.at >= pruned - MAX_AGE
    ensures Surplus(st.points, s, t, g, k) == Surplus(full.points, s, t, g, k)
    ensures TwinOf(s, t, g.uuid) in st.points <==> TwinOf(s, t, g.uuid) in full.points
  {
    hide MakePoint, Cell, EdgesMirror, Add, Read, Expired;
    var c, p, twin, cutoff := Chain(s.node, g.uuid, s.boot), MakePoint(s, g), TwinOf(s, t, g.uuid), pruned - RAW_AGE;
    TwinArrives(full, s, t, g);
    BeforeMirrors(full.points, cutoff, c, s.at);
    AfterMirrors(full.points, cutoff, c, s.at);
    if twin in full.points {
      var b := Before(full.points, c, s.at);
      assert SampleOf(twin) == t && full.points[twin].at == s.at;
      if b.Some? && full.points[b.value].at < cutoff {
        FarCell(c, full.points[b.value], p, k);
      }
    }
  }

  lemma FarCell(c: Chain, a: Point, b: Point, k: CellKey)
    requires a.interval <= 60 && b.at - a.at > 120_000
    ensures Cell(c, a, b, k) == ZERO
  {
    hide Window, Aligned;
    assert !Joinable(a, b);
    NothingJoined(c, a, b, k);
  }

  lemma NothingJoined(c: Chain, a: Point, b: Point, k: CellKey)
    requires !Joinable(a, b)
    ensures Cell(c, a, b, k) == ZERO
  {
    hide Aligned;
  }
  /******* The whole repeated sample *******/

  // A new sample with a repeated time reaches the hub and passes its checks.
  ghost predicate Comes(ops: seq<Op>, op: Op, t: SampleId) {
    && Coherent(ops) && Clocked(ops + [op])
    && op.Upload? && Acceptable(op.s, op.now) && op.s.node in Run(ops).nodes
    && Repeating(Run(Unpruned(ops)).samples, op.s, t)
  }

  lemma ComesFacts(ops: seq<Op>, op: Op, t: SampleId)
    requires Comes(ops, op, t)
    ensures var full, st, pruned := Run(Unpruned(ops)), Run(ops), LastPrune(ops);
            && Mirrors(full, st, pruned) && Sound(full) && Exact(full) && ShortIntervals(full.points) && Sound(st)
            && 0 <= op.s.at && DistinctUuids(op.s.gpus) && 2 <= op.s.interval <= 60 && op.s.at >= pruned - MAX_AGE
            && op.s.node in full.nodes && IdOf(op.s) !in st.samples && IdOf(op.s) !in full.samples
    ensures Run(ops + [op]) == Step(Run(ops), op) && Run(Unpruned(ops + [op])) == Step(Run(Unpruned(ops)), op)
  {
    hide Run, Mirrors, ShortIntervals, Exact, Sound, Agree, Step;
    assert (ops + [op])[..|ops|] == ops;
    RunMirrors(ops);
    PruneBeforeClock(ops);
    UnprunedSubset(ops);
    RunKeeps(Unpruned(ops));
    RunKeeps(ops);
    RunSnoc(ops, op);
    assert Unpruned(ops + [op]) == Unpruned(ops) + [op];
    RunSnoc(Unpruned(ops), op);
    MirrorsBasics(Run(Unpruned(ops)), Run(ops), LastPrune(ops));
  }

  lemma MirrorsBasics(full: State, st: State, pruned: int)
    requires Mirrors(full, st, pruned)
    ensures st.nodes == full.nodes && st.gpus == full.gpus && st.samples.Keys <= full.samples.Keys
    ensures st.points == RecentPoints(full.points, pruned - RAW_AGE)
  {
  }

  ghost function CardsIn(st: State, s: Snapshot): Result<seq<Gpu>, Refusal>
    requires s.node in st.nodes
  {
    AllGpus(st, s)
  }

  // A new sample is stored card by card, whatever its time.
  lemma NewSampleStored(st: State, op: Op, card: GpuId)
    requires Sound(st) && op.Upload? && Acceptable(op.s, op.now) && op.s.node in st.nodes && IdOf(op.s) !in st.samples
    requires 0 <= op.s.at && DistinctUuids(op.s.gpus) && OwnCells(st.edges)
    ensures CardsIn(st, op.s).Ok? && DistinctUuids(CardsIn(st, op.s).value)
    ensures var gpus := CardsIn(st, op.s).value;
            && Numbered(Step(st, op).points)
            && SameCard(Step(st, op), Alone(st, op.s, Listed(op.s, gpus, |gpus|, card)), card)
  {
    hide MakePoint, StoreGpus, Finish, Link, SameCard, OwnCells, DistinctUuids, SamplesKnown, KnownCards, Acceptable, Listed, Inherit, Uuids;
    var s := op.s;
    AllGpusKnown(st, s);
    var gpus, recorded := AllGpus(st, s).value, RecordSample(st, s);
    assert NoPointYet(recorded.points, s, gpus, 0);
    StoreGpusStored(recorded, s, gpus, |gpus|);
    StoreGpusLocal(recorded, s, gpus, |gpus|, card);
    var stored := StoreGpus(recorded, s, gpus, |gpus|).value;
    FinishNode(stored, s, gpus, op.backfill, op.now);
    var after, g := Step(st, op), Listed(s, gpus, |gpus|, card);
    SameLedgerCard(stored, after, card);
    ListedIs(s, gpus, |gpus|, card);
    RecordedAlone(st, s, g, card);
    SameCardTwice(after, stored, Alone(recorded, s, g), card);
    SameCardTwice(after, Alone(recorded, s, g), Alone(st, s, g), card);
  }

  lemma SameLedgerCard(a: State, b: State, card: GpuId)
    requires a.points == b.points && a.edges == b.edges && a.rollups == b.rollups
    ensures SameCard(a, b, card) && SameCard(b, a, card)
  {
    hide Read;
  }

  lemma RecordedAlone(st: State, s: Snapshot, g: Option<Gpu>, card: GpuId)
    requires 0 <= s.at && (g.Some? ==> GpuId(s.node, g.value.uuid) == card)
    ensures SameCard(Alone(RecordSample(st, s), s, g), Alone(st, s, g), card)
  {
    hide Link, MakePoint, SameCard;
    SameLedgerCard(RecordSample(st, s), st, card);
    if g.Some? {
      LinkLocal(RecordSample(st, s), st, Chain(s.node, g.value.uuid, s.boot), MakePoint(s, g.value));
    }
  }

  lemma FullOwn(full: State)
    requires full.edges == Links(full.points)
    ensures OwnCells(full.edges)
  {
    hide Read, BeforeOf;
    forall i, k: CellKey | i in full.edges && CardOfCell(k) != CardOf(i)
      ensures Read(full.edges[i].data, k) == ZERO
    {
      LinkOwn(full.points, i, k);
    }
  }

  lemma LinkOwn(points: map<PointId, Point>, i: PointId, k: CellKey)
    requires i in Links(points) && CardOfCell(k) != CardOf(i)
    ensures Read(Links(points)[i].data, k) == ZERO
  {
    hide Read, EdgeCells;
    MadeOwn(ChainOf(i), points[BeforeOf(points, i).value], points[i], k);
  }

  lemma KeptOwn(full: State, st: State, pruned: int)
    requires Mirrors(full, st, pruned) && OwnCells(full.edges)
    ensures OwnCells(st.edges)
  {
    hide Read, Cells, Expired;
  }

  // One card, or none, on both sides.
  lemma AloneMirrors(full: State, st: State, pruned: int, s: Snapshot, g: Option<Gpu>, t: SampleId, k: CellKey)
    requires Mirrors(full, st, pruned) && Chained(full) && Exact(full) && ShortIntervals(full.points)
    requires 0 <= s.at && s.at >= pruned - MAX_AGE && Repeating(full.samples, s, t) && !Expired(k, pruned)
    ensures Read(Alone(st, s, g).rollups, k) == Read(Alone(full, s, g).rollups, k)
  {
    hide Link, MakePoint, EdgesMirror, Balanced, ShortIntervals, Expired, Read;
    if g.Some? {
      TwinArrives(full, s, t, g.value);
      LinksWithin(full.points);
      LinkMirrors(full, st, pruned, Chain(s.node, g.value.uuid, s.boot), MakePoint(s, g.value));
    }
  }

  lemma LinksWithin(points: map<PointId, Point>)
    ensures Links(points).Keys <= points.Keys
  {
    hide LinkOf, BeforeOf;
  }

  // What a repeated sample adds to a cell beyond the batch definition.
  ghost function SampleSurplus(st: State, s: Snapshot, t: SampleId, gpus: seq<Gpu>, k: CellKey): Amounts
    requires 0 <= s.at
  {
    var g := Listed(s, gpus, |gpus|, CardOfCell(k));
    if g.Some? then Surplus(st.points, s, t, g.value, k) else ZERO
  }

  // After any history with any prunes, when a sample arrives that repeats the time of another
  // one of the same run of the agent: every unexpired cell is the batch integral over all
  // points ever stored, plus, in the cells of each card that both have a point of, the
  // stretch before them once more, and after them the state of a late earlier number in
  // place of its twin's.
  lemma {:induction false} RepeatedSampleExceeds(ops: seq<Op>, op: Op, t: SampleId, k: CellKey)
    requires Comes(ops, op, t) && !Expired(k, LastPrune(ops))
    ensures 0 <= op.s.at && CardsIn(Run(ops), op.s).Ok?
    ensures Read(Run(ops + [op]).rollups, k)
         == Add(BatchTotal(Run(Unpruned(ops + [op])).points, k), SampleSurplus(Run(ops), op.s, t, CardsIn(Run(ops), op.s).value, k))
  {
    hide Run, Step, Mirrors, Exact, Chained, ShortIntervals, Inventory, SamplesKnown, BatchTotal, Surplus, Add, SameCard, Alone, OwnCells,
         Listed, Acceptable, Numbered, RecentPoints, Agree, Repeating;
    ComesFacts(ops, op, t);
    var full, st, pruned, s, card := Run(Unpruned(ops)), Run(ops), LastPrune(ops), op.s, CardOfCell(k);
    MirrorsBasics(full, st, pruned);
    FullOwn(full) by {
      ExactLinks(full);
    }
    KeptOwn(full, st, pruned);
    NewSampleStored(full, op, card);
    NewSampleStored(st, op, card);
    var gpus := CardsIn(st, s).value;
    assert CardsIn(full, s) == CardsIn(st, s);
    var g := Listed(s, gpus, |gpus|, card);
    ListedIs(s, gpus, |gpus|, card);
    SameCardCell(Step(st, op), Alone(st, s, g), k);
    AloneMirrors(full, st, pruned, s, g, t, k);
    SameCardCell(Step(full, op), Alone(full, s, g), k);
    AloneNumbered(full, s, g);
    BatchLocal(Step(full, op).points, Alone(full, s, g).points, k);
    if g.Some? {
      CardAlone(full, s, t, g.value, k);
      SurplusMirrors(full, st, pruned, s, t, g.value, k);
    } else {
      assert Alone(full, s, g) == full by {
        AloneNone(full, s);
      }
      CardUntouched(full, k);
      AddZero(BatchTotal(full.points, k));
    }
  }

  lemma ExactLinks(st: State)
    requires Exact(st)
    ensures st.edges == Links(st.points)
  {
  }

  lemma AloneNone(st: State, s: Snapshot)
    requires 0 <= s.at
    ensures Alone(st, s, None) == st
  {
  }

  lemma AloneNumbered(st: State, s: Snapshot, g: Option<Gpu>)
    requires 0 <= s.at && Chained(st)
    ensures Numbered(Alone(st, s, g).points) && Numbered(st.points)
  {
    hide Link, MakePoint;
  }

  lemma SameCardCell(a: State, b: State, k: CellKey)
    requires SameCard(a, b, CardOfCell(k))
    ensures Read(a.rollups, k) == Read(b.rollups, k) && SameOn(a.points, b.points, CardOfCell(k))
  {
    hide Read;
  }

  /******* Exactly when it does no harm *******/

  // For the card, the repeat does no harm.
  ghost predicate CardHarmless(points: map<PointId, Point>, s: Snapshot, t: SampleId, g: Gpu)
    requires 0 <= s.at
  {
    var c, p, twin := Chain(s.node, g.uuid, s.boot), MakePoint(s, g), TwinOf(s, t, g.uuid);
    twin in points ==> Harmless(PreviousPoint(points, c, s.at), p, points[twin], NextPoint(points, c, s.at))
  }

  lemma SurplusElsewhere(points: map<PointId, Point>, s: Snapshot, t: SampleId, g: Gpu, k: CellKey)
    requires 0 <= s.at && (k.node != s.node || k.uuid != g.uuid)
    ensures Surplus(points, s, t, g, k) == ZERO
  {
    hide Cell, MakePoint, PreviousPoint, NextPoint, Add, Sub;
    var c, p, twin := Chain(s.node, g.uuid, s.boot), MakePoint(s, g), TwinOf(s, t, g.uuid);
    if twin in points {
      var b, a := PreviousPoint(points, c, s.at), NextPoint(points, c, s.at);
      TwiceElsewhere(c, b, p, k);
      if a.Some? {
        CellElsewhere(c, p, a.value, k);
        CellElsewhere(c, points[twin], a.value, k);
      }
      NoSurplus();
    }
  }

  lemma NoSurplus()
    ensures Add(ZERO, ZERO) == ZERO && Add(ZERO, Sub(ZERO, ZERO)) == ZERO
  {
    AddZero(ZERO);
    SumIsDifference(ZERO, ZERO, ZERO);
  }

  // Long expired buckets are out of reach of a sample that is let in.
  lemma SurplusExpired(points: map<PointId, Point>, s: Snapshot, t: SampleId, g: Gpu, k: CellKey, pruned: int)
    requires 0 <= s.at && 2 <= s.interval <= 60 && ShortIntervals(points) && s.at >= pruned - MAX_AGE && Expired(k, pruned)
    requires TwinOf(s, t, g.uuid) in points ==> points[TwinOf(s, t, g.uuid)].at == s.at
    ensures Surplus(points, s, t, g, k) == ZERO
  {
    hide Cell, Add, Sub, MakeEdge, Expired, Before, After;
    var c, p, twin := Chain(s.node, g.uuid, s.boot), MakePoint(s, g), TwinOf(s, t, g.uuid);
    if twin in points {
      var b, a := PreviousPoint(points, c, s.at), NextPoint(points, c, s.at);
      NextIsLater(points, c, s.at);
      if b.Some? {
        ExpiredCell(c, b.value, p, k, pruned);
      }
      if a.Some? {
        ExpiredCell(c, p, a.value, k, pruned);
        ExpiredCell(c, points[twin], a.value, k, pruned);
      }
      NoSurplus();
    }
  }

  lemma NextIsLater(points: map<PointId, Point>, c: Chain, at: int)
    ensures NextPoint(points, c, at).Some? ==> at < NextPoint(points, c, at).value.at
    ensures PreviousPoint(points, c, at).Some? ==> PreviousPoint(points, c, at).value.at < at
  {
  }

  lemma ExpiredCell(c: Chain, a: Point, b: Point, k: CellKey, pruned: int)
    requires a.interval <= 60 && b.at >= pruned - RAW_AGE && Expired(k, pruned)
    ensures Cell(c, a, b, k) == ZERO
  {
    hide Window, Aligned, Expired;
    RecentEdgeEmpty(c, a, b, k, pruned);
    assert MakeEdge(c, a, b).data[k] == Cell(c, a, b, k);
  }

  lemma SurplusIff(points: map<PointId, Point>, s: Snapshot, t: SampleId, g: Gpu)
    requires 0 <= s.at && s.number != t.number
    requires TwinOf(s, t, g.uuid) in points ==>
               points[TwinOf(s, t, g.uuid)].at == s.at && points[TwinOf(s, t, g.uuid)].number == t.number
    ensures (forall k: CellKey :: Surplus(points, s, t, g, k) == ZERO) <==> CardHarmless(points, s, t, g)
  {
    hide Difference, Harmless, Before, After;
    var c, p, twin := Chain(s.node, g.uuid, s.boot), MakePoint(s, g), TwinOf(s, t, g.uuid);
    NextIsLater(points, c, s.at);
    if twin in points {
      var b, a := PreviousPoint(points, c, s.at), NextPoint(points, c, s.at);
      forall k: CellKey
        ensures Surplus(points, s, t, g, k) == Difference(c, b, p, points[twin], a, k)
      {
      }
      DifferenceIff(c, b, p, points[twin], a);
    }
  }

  // What the hub has stored of the twin.
  lemma TwinStored(ops: seq<Op>, op: Op, t: SampleId, g: Gpu)
    requires Comes(ops, op, t)
    ensures var points, twin := Run(ops).points, TwinOf(op.s, t, g.uuid);
            && op.s.number != t.number
            && ShortIntervals(points)
            && (twin in points ==> points[twin].at == op.s.at && points[twin].number == t.number)
  {
    hide Run, Step, Mirrors, Exact, Inventory, SamplesKnown, Acceptable, Agree;
    ComesFacts(ops, op, t);
    MirrorsBasics(Run(Unpruned(ops)), Run(ops), LastPrune(ops));
    var full, twin := Run(Unpruned(ops)), TwinOf(op.s, t, g.uuid);
    assert t == SampleId(op.s.node, op.s.boot, t.number);
    if twin in Run(ops).points {
      assert twin in full.points && SampleOf(twin) == t;
    }
  }

  lemma AllHarmless(ops: seq<Op>, op: Op, t: SampleId, k: CellKey)
    requires Comes(ops, op, t) && !Expired(k, LastPrune(ops)) && 0 <= op.s.at && CardsIn(Run(ops), op.s).Ok?
    requires forall g :: g in CardsIn(Run(ops), op.s).value ==> CardHarmless(Run(ops).points, op.s, t, g)
    ensures Read(Run(ops + [op]).rollups, k) == BatchTotal(Run(Unpruned(ops + [op])).points, k)
  {
    hide Run, BatchTotal, Surplus, Add, Acceptable, CardHarmless, Expired, CardsIn;
    RepeatedSampleExceeds(ops, op, t, k);
    var gpus := CardsIn(Run(ops), op.s).value;
    var g := Listed(op.s, gpus, |gpus|, CardOfCell(k));
    AddZero(BatchTotal(Run(Unpruned(ops + [op])).points, k));
    if g.Some? {
      ListedMember(op.s, gpus, CardOfCell(k));
      TwinStored(ops, op, t, g.value);
      SurplusIff(Run(ops).points, op.s, t, g.value);
    }
  }

  lemma {:induction false} ListedMember(s: Snapshot, gpus: seq<Gpu>, card: GpuId)
    ensures Listed(s, gpus, |gpus|, card).Some? ==> Listed(s, gpus, |gpus|, card).value in gpus
  {
    ListedWithin(s, gpus, |gpus|, card);
  }

  lemma {:induction false} ListedWithin(s: Snapshot, gpus: seq<Gpu>, n: nat, card: GpuId)
    requires n <= |gpus|
    ensures Listed(s, gpus, n, card).Some? ==> Listed(s, gpus, n, card).value in gpus
  {
    if n != 0 {
      ListedWithin(s, gpus, n - 1, card);
    }
  }

  // A card whose repeat does harm shows it in some unexpired cell.
  lemma HarmShows(ops: seq<Op>, op: Op, t: SampleId, g: Gpu)
    requires Comes(ops, op, t) && 0 <= op.s.at && CardsIn(Run(ops), op.s).Ok? && g in CardsIn(Run(ops), op.s).value
    requires forall k :: !Expired(k, LastPrune(ops)) ==> Read(Run(ops + [op]).rollups, k) == BatchTotal(Run(Unpruned(ops + [op])).points, k)
    ensures CardHarmless(Run(ops).points, op.s, t, g)
  {
    hide Run, BatchTotal, Surplus, Add, Acceptable, CardHarmless, Expired, Step, Mirrors, Exact, Sound, ShortIntervals, Agree, Repeating, Listed,
         Read;
    ComesFacts(ops, op, t);
    TwinStored(ops, op, t, g);
    SurplusIff(Run(ops).points, op.s, t, g);
    var gpus, points := CardsIn(Run(ops), op.s).value, Run(ops).points;
    forall k: CellKey
      ensures Surplus(points, op.s, t, g, k) == ZERO
    {
      if Expired(k, LastPrune(ops)) {
        SurplusExpired(points, op.s, t, g, k, LastPrune(ops));
      } else if CardOfCell(k) != GpuId(op.s.node, g.uuid) {
        SurplusElsewhere(points, op.s, t, g, k);
      } else {
        RepeatedSampleExceeds(ops, op, t, k);
        CardsDistinct(ops, op, t);
        ListedIs(op.s, gpus, |gpus|, CardOfCell(k));
        AddIsZero(BatchTotal(Run(Unpruned(ops + [op])).points, k), Surplus(points, op.s, t, g, k));
      }
    }
  }

  lemma CardsDistinct(ops: seq<Op>, op: Op, t: SampleId)
    requires Comes(ops, op, t)
    ensures CardsIn(Run(ops), op.s).Ok? && DistinctUuids(CardsIn(Run(ops), op.s).value)
  {
    hide Run, Step, Mirrors, Exact, ShortIntervals, Chained, SamplesKnown, Acceptable, Agree, DistinctUuids, KnownCards;
    ComesFacts(ops, op, t);
    AllGpusKnown(Run(ops), op.s);
  }

  // After any history with any prunes, a sample with a repeated time leaves every unexpired
  // cell equal to the batch definition if and only if, for each of its cards, the four points
  // around the repeated time satisfy the condition Harmless.
  lemma {:induction false} RepeatedSampleIsHarmlessIff(ops: seq<Op>, op: Op, t: SampleId)
    requires Comes(ops, op, t)
    ensures 0 <= op.s.at && CardsIn(Run(ops), op.s).Ok?
    ensures (forall k :: !Expired(k, LastPrune(ops)) ==> Read(Run(ops + [op]).rollups, k) == BatchTotal(Run(Unpruned(ops + [op])).points, k))
       <==> forall g :: g in CardsIn(Run(ops), op.s).value ==> CardHarmless(Run(ops).points, op.s, t, g)
  {
    hide Run, BatchTotal, Acceptable, CardHarmless, Expired, Step, Mirrors, Exact, Sound, ShortIntervals, Agree, Repeating, Read, CardsIn;
    ComesFacts(ops, op, t);
    CardsDistinct(ops, op, t);
    if forall g :: g in CardsIn(Run(ops), op.s).value ==> CardHarmless(Run(ops).points, op.s, t, g) {
      forall k | !Expired(k, LastPrune(ops))
        ensures Read(Run(ops + [op]).rollups, k) == BatchTotal(Run(Unpruned(ops + [op])).points, k)
      {
        AllHarmless(ops, op, t, k);
      }
    }
    if forall k :: !Expired(k, LastPrune(ops)) ==> Read(Run(ops + [op]).rollups, k) == BatchTotal(Run(Unpruned(ops + [op])).points, k) {
      forall g | g in CardsIn(Run(ops), op.s).value
        ensures CardHarmless(Run(ops).points, op.s, t, g)
      {
        HarmShows(ops, op, t, g);
      }
    }
  }
}
