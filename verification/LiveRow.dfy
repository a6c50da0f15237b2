/**
 The live row of a node (internal/hub/ingest.go): which snapshot it shows, what becomes of
 known cards that the snapshot does not list, when their loss is recorded, and when the node
 was last heard of.
 */
module LiveRow {
  import opened Wrappers
  import opened Model
  import opened Rollups
  import opened Tables
  import opened Ingestion
  import opened Linking
  import opened Ledger
  import opened Validation

  // A snapshot with a new identity passes the gate of a hub that knows its node.
  ghost predicate Arrives(st: State, s: Snapshot, now: HubTime) {
    && Sound(st) && Consistent(st.samples, s)
    && Acceptable(s, now) && s.node in st.nodes && IdOf(s) !in st.samples
  }

  // What the step does to the row, and to events beyond those of the cards.
  lemma RowAfter(st: State, s: Snapshot, backfill: bool, now: HubTime)
    requires Arrives(st, s, now)
    ensures AllGpus(st, s).Ok?
    ensures var gpus, after := AllGpus(st, s).value, Step(st, Upload(s, backfill, now));
            && StoreGpus(RecordSample(st, s), s, gpus, |gpus|).Ok?
            && after == Finish(StoreGpus(RecordSample(st, s), s, gpus, |gpus|).value, s, gpus, backfill, now)
            && StoreGpus(RecordSample(st, s), s, gpus, |gpus|).value.nodes == st.nodes
  {
    hide StoreGpus, Finish, Sound, Consistent, Inherit;
    AcceptedShape(s, now);
    InsertKeeps(st, s, backfill, now);
  }

  /******* When the node was last heard of *******/

  // A new report that is not backfilled, not older than the live sample and fresh marks its
  // node as heard of now. Nothing else does, and no other node is touched.
  lemma FreshReportIsSeen(st: State, s: Snapshot, backfill: bool, now: HubTime)
    requires Arrives(st, s, now)
    ensures var after, known := Step(st, Upload(s, backfill, now)), st.nodes[s.node];
            && after.nodes.Keys == st.nodes.Keys
            && after.nodes[s.node].receivedAt
               == (if !backfill && s.at >= known.sampleAt && now - s.at <= 2_000 * s.interval then now else known.receivedAt)
            && (forall n :: n in st.nodes && n != s.node ==> after.nodes[n] == st.nodes[n])
  {
    hide StoreGpus, NewlyMissing, Lost, Uuids, Sound, Consistent, Acceptable, AllGpus;
    RowAfter(st, s, backfill, now);
  }

  // Step n of a run is such a report of the node.
  ghost predicate Refreshes(ops: seq<Op>, n: nat, node: string)
    requires n < |ops|
  {
    var st, op := Run(ops[..n]), ops[n];
    && op.Upload? && op.s.node == node && !op.backfill
    && Acceptable(op.s, op.now) && node in st.nodes && IdOf(op.s) !in st.samples
    && op.s.at >= st.nodes[node].sampleAt && op.now - op.s.at <= 2_000 * op.s.interval
  }

  ghost predicate LatestRefresh(ops: seq<Op>, n: nat, node: string)
    requires n < |ops|
  {
    Refreshes(ops, n, node) && forall m :: n < m < |ops| ==> !Refreshes(ops, m, node)
  }

  lemma StepHears(st: State, op: Op, node: string)
    requires Sound(st) && (op.Upload? ==> Consistent(st.samples, op.s)) && node in st.nodes
    ensures node in Step(st, op).nodes
    ensures var heard := op.Upload? && op.s.node == node && !op.backfill && Acceptable(op.s, op.now) && IdOf(op.s) !in st.samples
                         && op.s.at >= st.nodes[node].sampleAt && op.now - op.s.at <= 2_000 * op.s.interval;
            Step(st, op).nodes[node].receivedAt == if heard then op.now else st.nodes[node].receivedAt
  {
    hide Insert, Sound, Consistent, Acceptable;
    if op.Upload? && Arrives(st, op.s, op.now) {
      FreshReportIsSeen(st, op.s, op.backfill, op.now);
    }
  }

  lemma NotYetANode(st: State, op: Op, node: string)
    requires node !in st.nodes && node in Step(st, op).nodes
    ensures Step(st, op).nodes[node].receivedAt == 0 && !op.Upload?
  {
    hide Acceptable, AllGpus, StoreGpus, NewlyMissing, Uuids, Lost;
  }

  lemma RefreshesBefore(ops: seq<Op>, n: nat, node: string)
    requires n < |ops| - 1
    ensures Refreshes(ops[..|ops| - 1], n, node) <==> Refreshes(ops, n, node)
  {
    hide Run, Acceptable;
    assert ops[..|ops| - 1][..n] == ops[..n];
  }

  ghost predicate HeardAt(ops: seq<Op>, node: string, at: int) {
    || (exists n: nat :: n < |ops| && LatestRefresh(ops, n, node) && ops[n].Upload? && at == ops[n].now)
    || (at == 0 && forall n: nat :: n < |ops| ==> !Refreshes(ops, n, node))
  }

  lemma RefreshIsUpload(ops: seq<Op>, n: nat, node: string)
    requires n < |ops| && Refreshes(ops, n, node)
    ensures ops[n].Upload?
  {
    hide Run, Acceptable;
  }

  lemma HeardStep(ops: seq<Op>, node: string, at: int)
    requires ops != [] && HeardAt(ops[..|ops| - 1], node, at)
    requires Refreshes(ops, |ops| - 1, node) ==> ops[|ops| - 1].Upload?
    ensures HeardAt(ops, node, if Refreshes(ops, |ops| - 1, node) then ops[|ops| - 1].now else at)
  {
    hide Refreshes;
    var last := |ops| - 1;
    var before := ops[..last];
    forall n: nat | n < last
      ensures Refreshes(before, n, node) <==> Refreshes(ops, n, node)
    {
      RefreshesBefore(ops, n, node);
    }
    if Refreshes(ops, last, node) {
      assert LatestRefresh(ops, last, node);
    } else if n: nat :| n < last && LatestRefresh(before, n, node) && before[n].Upload? && at == before[n].now {
      assert LatestRefresh(ops, n, node);
    }
  }

  // Over every run: a node was last heard of at the latest fresh report that was taken in,
  // or never.
  lemma {:induction false} HeardOfLast(ops: seq<Op>, node: string)
    requires Coherent(ops) && node in Run(ops).nodes
    ensures HeardAt(ops, node, Run(ops).nodes[node].receivedAt)
    decreases |ops|
  {
    hide Step, Sound, Exact, Consistent, Agree, Acceptable, HeardAt;
    var last := |ops| - 1;
    var before, op := ops[..last], ops[last];
    var st := Run(before);
    RunKeeps(before);
    if op.Upload? {
      CoherentConsistent(ops, op, st.samples);
    }
    if node in st.nodes {
      StepHears(st, op, node);
      HeardOfLast(before, node);
      if Refreshes(ops, last, node) {
        RefreshIsUpload(ops, last, node);
      }
      HeardStep(ops, node, st.nodes[node].receivedAt);
    } else {
      NotYetANode(st, op, node);
      NeverHeard(before, node);
      if Refreshes(ops, last, node) {
        RefreshIsUpload(ops, last, node);
      }
      HeardStep(ops, node, 0);
    }
  }

  lemma NeverHeard(ops: seq<Op>, node: string)
    requires Coherent(ops) && node !in Run(ops).nodes
    ensures HeardAt(ops, node, 0)
  {
    hide Refreshes, Run, Agree;
    NeverBefore(ops, node);
  }

  // Nodes stay, so one that is not there now has not been heard of.
  lemma {:induction false} NeverBefore(ops: seq<Op>, node: string)
    requires Coherent(ops) && node !in Run(ops).nodes
    ensures forall n: nat :: n < |ops| ==> !Refreshes(ops, n, node)
  {
    hide Run, Sound, Agree, Uuids, Acceptable;
    forall n: nat | n < |ops|
      ensures !Refreshes(ops, n, node)
    {
      CardsNeverVanish(ops, n);
    }
  }

  /******* What the row shows *******/

  // A known card that a complete inventory does not list.
  function Gone(g: Gpu): Gpu {
    Gpu(g.uuid, g.name, "not_detected", "unknown", [],
        g.util, g.memoryUsed, g.memoryTotal, g.temperature, g.power, g.ecc, g.fields)
  }

  // A known card of which a failed inventory says nothing.
  function Unread(g: Gpu, inventory: string): Gpu {
    Gpu(g.uuid, g.name, "query_failed", "unknown", [], None, None, None, None, None, None, map["inventory" := inventory])
  }

  // The cards of the row: those that the snapshot lists, as it lists them, and those known
  // before that it does not list, as lost or as unread.
  ghost predicate Shows(live: seq<Gpu>, s: Snapshot, known: seq<Gpu>) {
    && (forall g :: g in s.gpus ==> g in live)
    && (forall g :: g in known && g.uuid !in Uuids(s.gpus) ==> (if s.gpuStatus == "ok" then Gone(g) else Unread(g, s.gpuStatus)) in live)
    && (forall h :: h in live ==> h in s.gpus || exists g ::
          g in known && g.uuid !in Uuids(s.gpus) && h == if s.gpuStatus == "ok" then Gone(g) else Unread(g, s.gpuStatus))
  }

  lemma {:induction false} LostMembers(known: seq<Gpu>, present: set<string>, n: nat, h: Gpu)
    requires n <= |known|
    ensures h in Lost(known, present, n) <==> exists g :: g in known[..n] && g.uuid !in present && h == Gone(g)
  {
    if n != 0 {
      LostMembers(known, present, n - 1, h);
      assert known[..n] == known[..n - 1] + [known[n - 1]];
    }
  }

  // A sample at least as new as the live one inherits all known cards.
  lemma {:induction false} InheritMembers(gpus: map<GpuId, Seen>, known: seq<Gpu>, s: Snapshot, n: nat, h: Gpu)
    requires n <= |known| && Inherit(gpus, known, s, n).Ok?
    requires forall g :: g in known ==> GpuId(s.node, g.uuid) in gpus && gpus[GpuId(s.node, g.uuid)].first <= s.at
    ensures h in Inherit(gpus, known, s, n).value
       <==> h in s.gpus || exists g :: g in known[..n] && g.uuid !in Uuids(s.gpus) && h == Unread(g, s.gpuStatus)
  {
    hide Uuids;
    if n != 0 {
      InheritMembers(gpus, known, s, n - 1, h);
      assert known[..n] == known[..n - 1] + [known[n - 1]];
      assert known[n - 1] in known;
      assert QueryFailed(known[n - 1], s.gpuStatus) == Unread(known[n - 1], s.gpuStatus);
    }
  }

  lemma ShownCards(st: State, s: Snapshot, gpus: seq<Gpu>)
    requires Inventory(st) && s.node in st.nodes && AllGpus(st, s) == Ok(gpus) && s.at > st.nodes[s.node].sampleAt
    ensures Shows(NewLive(s, gpus, st.nodes[s.node]).gpus, s, st.nodes[s.node].gpus)
  {
    hide Uuids, Lost, Inherit;
    var known, live := st.nodes[s.node].gpus, NewLive(s, gpus, st.nodes[s.node]).gpus;
    assert known[..|known|] == known;
    assert forall g :: g in known ==> GpuId(s.node, g.uuid) in st.gpus && st.gpus[GpuId(s.node, g.uuid)].first <= s.at;
    if s.gpuStatus == "ok" {
      assert live == s.gpus + Lost(known, Uuids(s.gpus), |known|);
      forall h
        ensures h in live <==> h in s.gpus || exists g :: g in known && g.uuid !in Uuids(s.gpus) && h == Gone(g)
      {
        LostMembers(known, Uuids(s.gpus), |known|, h);
      }
    } else {
      assert live == gpus;
      forall h
        ensures h in live <==> h in s.gpus || exists g :: g in known && g.uuid !in Uuids(s.gpus) && h == Unread(g, s.gpuStatus)
      {
        InheritMembers(st.gpus, known, s, |known|, h);
      }
    }
  }

  // A sample newer than the live one is shown from then on, with the known cards that it does
  // not list; an older one leaves what is shown as it was.
  lemma NewestIsShown(st: State, s: Snapshot, backfill: bool, now: HubTime)
    requires Arrives(st, s, now)
    ensures var known, live := st.nodes[s.node], Step(st, Upload(s, backfill, now)).nodes[s.node];
            if s.at > known.sampleAt then live.sampleAt == s.at && Shows(live.gpus, s, known.gpus)
            else live.sampleAt == known.sampleAt && live.gpus == known.gpus
  {
    hide StoreGpus, NewlyMissing, NewLive, Uuids, Acceptable, AllGpus, Shows, Chained, SamplesKnown, Consistent, KnownCards;
    RowAfter(st, s, backfill, now);
    AcceptedShape(s, now);
    var gpus := AllGpus(st, s).value;
    FinishNode(StoreGpus(RecordSample(st, s), s, gpus, |gpus|).value, s, gpus, backfill, now);
    if s.at > st.nodes[s.node].sampleAt {
      ShownCards(st, s, gpus);
    }
  }

  /******* Missing cards *******/

  function MissingOf(events: seq<Event>, card: GpuId): seq<Event> {
    if events == [] then []
    else
      var last := events[|events| - 1];
      MissingOf(events[..|events| - 1], card) + (if last.Missing? && GpuId(last.node, last.uuid) == card then [last] else [])
  }

  lemma MissingAppend(events: seq<Event>, e: Event, card: GpuId)
    ensures MissingOf(events + [e], card)
         == MissingOf(events, card) + (if e.Missing? && GpuId(e.node, e.uuid) == card then [e] else [])
  {
    assert (events + [e])[..|events|] == events;
  }

  lemma {:induction false} MissingConcat(events: seq<Event>, more: seq<Event>, card: GpuId)
    ensures MissingOf(events + more, card) == MissingOf(events, card) + MissingOf(more, card)
    decreases |more|
  {
    if more == [] {
      assert events + more == events;
    } else {
      var rest, last := more[..|more| - 1], more[|more| - 1];
      assert events + more == (events + rest) + [last];
      assert more == rest + [last];
      MissingAppend(events + rest, last, card);
      MissingAppend(rest, last, card);
      MissingConcat(events, rest, card);
    }
  }

  lemma {:induction false} StartsAreNotMissing(events: seq<Event>, c: Chain, at: int, card: GpuId)
    ensures MissingOf(seq(|events|, i requires 0 <= i < |events| => EarlierStart(events[i], c, at)), card) == MissingOf(events, card)
  {
    if events != [] {
      var init, last := events[..|events| - 1], events[|events| - 1];
      var moved := seq(|init|, i requires 0 <= i < |init| => EarlierStart(init[i], c, at));
      assert seq(|events|, i requires 0 <= i < |events| => EarlierStart(events[i], c, at)) == moved + [EarlierStart(last, c, at)];
      StartsAreNotMissing(init, c, at, card);
      MissingAppend(moved, EarlierStart(last, c, at), card);
    }
  }

  lemma RecordStartMissing(events: seq<Event>, c: Chain, at: int, hasBefore: bool, hasAfter: bool, card: GpuId)
    ensures MissingOf(RecordStart(events, c, at, hasBefore, hasAfter), card) == MissingOf(events, card)
  {
    hide MissingOf, EarlierStart;
    MissingAppend(events, Started(c.node, c.uuid, c.boot, at), card);
    StartsAreNotMissing(events, c, at, card);
  }

  lemma StorePointMissing(st: State, c: Chain, p: Point, card: GpuId)
    ensures MissingOf(StorePoint(st, c, p).events, card) == MissingOf(st.events, card)
  {
    hide Link, SeeGpu, PreviousPoint, NextPoint, RecordStart, MissingOf;
    var before, after := PreviousPoint(st.points, c, p.at), NextPoint(st.points, c, p.at);
    var recorded := RecordStart(st.events, c, p.at, before.Some?, after.Some?);
    RecordStartMissing(st.events, c, p.at, before.Some?, after.Some?, card);
    MissingAppend(recorded, Failed(c.node, c.uuid, p.at, p.status), card);
  }

  lemma {:induction false} StoreGpusMissing(st: State, s: Snapshot, gpus: seq<Gpu>, n: nat, card: GpuId)
    requires 0 <= s.at && n <= |gpus| && StoreGpus(st, s, gpus, n).Ok?
    ensures MissingOf(StoreGpus(st, s, gpus, n).value.events, card) == MissingOf(st.events, card)
  {
    hide StorePoint, MakePoint, MissingOf;
    if n != 0 {
      StoreGpusMissing(st, s, gpus, n - 1, card);
      StorePointMissing(StoreGpus(st, s, gpus, n - 1).value, Chain(s.node, gpus[n - 1].uuid, s.boot), MakePoint(s, gpus[n - 1]), card);
    }
  }

  // The card is known, was not lost before, and is not listed any more.
  ghost predicate IsLost(known: seq<Gpu>, present: set<string>, uuid: string) {
    uuid !in present && exists g :: g in known && g.uuid == uuid && g.status != "not_detected"
  }

  lemma {:induction false} LostEventsOf(node: string, at: int, known: seq<Gpu>, present: set<string>, n: nat, card: GpuId)
    requires n <= |known| && DistinctUuids(known)
    ensures MissingOf(LostEvents(node, at, known, present, n), card)
         == if card.node == node && IsLost(known[..n], present, card.uuid) then [Missing(node, card.uuid, at)] else []
  {
    hide MissingOf;
    if n == 0 {
      NoMissing(card);
    } else {
      LostEventsOf(node, at, known, present, n - 1, card);
      assert known[..n] == known[..n - 1] + [known[n - 1]];
      MissingAppend(LostEvents(node, at, known, present, n - 1), Missing(node, known[n - 1].uuid, at), card);
    }
  }

  lemma NoMissing(card: GpuId)
    ensures MissingOf([], card) == []
  {
  }

  // The loss of a card is recorded once: when a newer, complete snapshot does not list a known
  // card that was not lost before.
  lemma LossIsRecordedOnce(st: State, s: Snapshot, backfill: bool, now: HubTime, card: GpuId)
    requires Arrives(st, s, now)
    ensures var known := st.nodes[s.node];
            var lost := s.gpuStatus == "ok" && s.at > known.sampleAt && card.node == s.node && IsLost(known.gpus, Uuids(s.gpus), card.uuid);
            MissingOf(Step(st, Upload(s, backfill, now)).events, card)
            == MissingOf(st.events, card) + (if lost then [Missing(s.node, card.uuid, s.at)] else [])
  {
    hide StoreGpus, MissingOf, NewLive, Uuids, Acceptable, Inherit, Chained, SamplesKnown, Consistent, IsLost, LostEvents;
    RowAfter(st, s, backfill, now);
    AcceptedShape(s, now);
    var known, gpus := st.nodes[s.node].gpus, AllGpus(st, s).value;
    var stored := StoreGpus(RecordSample(st, s), s, gpus, |gpus|).value;
    StoreGpusMissing(RecordSample(st, s), s, gpus, |gpus|, card);
    LostEventsOf(s.node, s.at, known, Uuids(s.gpus), |known|, card);
    assert known[..|known|] == known;
    MissingConcat(stored.events, LostEvents(s.node, s.at, known, Uuids(s.gpus), |known|), card);
    MissingConcat(stored.events, [], card);
    NoMissing(card);
    assert stored.events + [] == stored.events;
  }
}
