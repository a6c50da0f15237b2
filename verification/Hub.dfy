/**
 The hub as the code has it: tables that methods update in place, one transaction per
 snapshot, undone as a whole when it fails. Every method is proved against the function
 of the tables that the other modules reason about.
 */
module Hub {
  import opened Wrappers
  import opened Amounts
  import opened Model
  import opened Rollups
  import opened Tables
  import Ingestion
  import Ledger
  import Validation

  function Signed(sign: int, a: Amounts): Amounts {
    if sign < 0 then Negate(a) else a
  }

  // The columns of an existing row are added to; a missing row is written as it is.
  function Upsert(rollups: map<CellKey, Amounts>, k: CellKey, a: Amounts): map<CellKey, Amounts> {
    rollups[k := Add(At(rollups, k), a)]
  }

  ghost function Numbers(rollups: map<CellKey, Amounts>): Totals {
    imap k: CellKey :: At(rollups, k)
  }

  ghost function Adjusted(t: Totals, sign: int, cs: seq<Contribution>): Totals {
    imap k: CellKey :: Add(Read(t, k), Signed(sign, SumFor(cs, k)))
  }

  lemma UpsertStep(t: Totals, rollups: map<CellKey, Amounts>, sign: int, cs: seq<Contribution>, c: Contribution)
    requires Numbers(rollups) == Adjusted(t, sign, cs)
    ensures Numbers(Upsert(rollups, c.key, Signed(sign, c.amounts))) == Adjusted(t, sign, cs + [c])
  {
    hide SumFor, Add, Read;
    forall k: CellKey
      ensures At(Upsert(rollups, c.key, Signed(sign, c.amounts)), k) == Add(Read(t, k), Signed(sign, SumFor(cs + [c], k)))
    {
      assert Numbers(rollups)[k] == Adjusted(t, sign, cs)[k];
      SumForAppend(cs, c, k);
      SignedAdd(sign, Read(t, k), SumFor(cs, k), c.amounts);
      AddZero(SumFor(cs, k));
    }
  }

  lemma SignedAdd(sign: int, t: Amounts, a: Amounts, b: Amounts)
    ensures Add(Add(t, Signed(sign, a)), Signed(sign, b)) == Add(t, Signed(sign, Add(a, b)))
  {
  }

  lemma AdjustedNone(rollups: map<CellKey, Amounts>, sign: int)
    ensures Adjusted(Numbers(rollups), sign, []) == Numbers(rollups)
  {
    hide Add;
    assert Signed(sign, ZERO) == ZERO;
    forall k: CellKey
      ensures Add(Read(Numbers(rollups), k), Signed(sign, SumFor([], k))) == At(rollups, k)
    {
      AddZero(At(rollups, k));
    }
  }

  // The stored edges: what each has added, and the points it joins.
  ghost function EdgeRows(edges: map<PointId, seq<Contribution>>, ends: map<PointId, (Point, Point)>): map<PointId, Edge>
    requires ends.Keys == edges.Keys
  {
    map i | i in edges :: Edge(ends[i].0, ends[i].1, Cells(edges[i]))
  }

  lemma EdgeRowsUpdate(edges: map<PointId, seq<Contribution>>, ends: map<PointId, (Point, Point)>, i: PointId,
                       cs: seq<Contribution>, a: Point, b: Point)
    requires ends.Keys == edges.Keys
    ensures EdgeRows(edges[i := cs], ends[i := (a, b)]) == EdgeRows(edges, ends)[i := Edge(a, b, Cells(cs))]
  {
    hide Cells;
  }

  // The rollups after withdrawing the edge that is stored under id, if there is one.
  ghost function Withdrawn(rollups: map<CellKey, Amounts>, edges: map<PointId, seq<Contribution>>, id: PointId): Totals {
    if id in edges then Adjusted(Numbers(rollups), -1, edges[id]) else Numbers(rollups)
  }

  lemma ReplacedCell(rollups: map<CellKey, Amounts>, edges: map<PointId, seq<Contribution>>, ends: map<PointId, (Point, Point)>,
                     id: PointId, cs: seq<Contribution>, k: CellKey)
    requires ends.Keys == edges.Keys
    ensures Adjusted(Withdrawn(rollups, edges, id), 1, cs)[k]
         == Add(Sub(Read(Numbers(rollups), k), OldCell(EdgeRows(edges, ends), id, k)), Read(Cells(cs), k))
  {
    hide SumFor, Add;
    SubZero(At(rollups, k));
    assert Cells(cs)[k] == SumFor(cs, k);
    if id in edges {
      assert Cells(edges[id])[k] == SumFor(edges[id], k);
    }
  }

  lemma SubZero(a: Amounts)
    ensures Sub(a, ZERO) == a
  {
  }

  lemma Replaced(rollups: map<CellKey, Amounts>, edges: map<PointId, seq<Contribution>>, ends: map<PointId, (Point, Point)>,
                 st: State, c: Chain, a: Point, b: Point, cs: seq<Contribution>)
    requires ends.Keys == edges.Keys && st.rollups == Numbers(rollups) && st.edges == EdgeRows(edges, ends)
    requires Cells(cs) == EdgeCells(c.node, c.uuid, a, b)
    ensures var id := PointId(c.node, c.uuid, c.boot, b.number);
            && Adjusted(Withdrawn(rollups, edges, id), 1, cs) == Relink(st, c, a, b).rollups
            && EdgeRows(edges[id := cs], ends[id := (a, b)]) == Relink(st, c, a, b).edges
  {
    hide Adjusted, Withdrawn, Numbers, EdgeRows, Cells, EdgeCells, Add, Sub, OldCell, Read, Relink;
    var id := PointId(c.node, c.uuid, c.boot, b.number);
    EdgeRowsUpdate(edges, ends, id, cs, a, b);
    AdjustedTotal(Withdrawn(rollups, edges, id), 1, cs);
    forall k: CellKey
      ensures k in Relink(st, c, a, b).rollups
      ensures Adjusted(Withdrawn(rollups, edges, id), 1, cs)[k] == Relink(st, c, a, b).rollups[k]
    {
      ReplacedCell(rollups, edges, ends, id, cs, k);
      RelinkCell(st, c, a, b, k);
    }
    RelinkEdges(st, c, a, b);
  }

  lemma RelinkCell(st: State, c: Chain, a: Point, b: Point, k: CellKey)
    ensures var id := PointId(c.node, c.uuid, c.boot, b.number);
            && k in Relink(st, c, a, b).rollups
            && Relink(st, c, a, b).rollups[k]
               == Add(Sub(Read(st.rollups, k), OldCell(st.edges, id, k)), Read(EdgeCells(c.node, c.uuid, a, b), k))
  {
    hide EdgeCells, Add, Sub, Read, OldCell;
  }

  lemma RelinkEdges(st: State, c: Chain, a: Point, b: Point)
    ensures Relink(st, c, a, b).edges == st.edges[PointId(c.node, c.uuid, c.boot, b.number) := MakeEdge(c, a, b)]
  {
    hide MakeEdge, Add, Sub, Read, OldCell;
  }

  lemma AdjustedTotal(t: Totals, sign: int, cs: seq<Contribution>)
    ensures forall k: CellKey :: k in Adjusted(t, sign, cs)
  {
  }

  function Unexpired(rollups: map<CellKey, Amounts>, res: int, cutoff: int): map<CellKey, Amounts> {
    map k | k in rollups && !(k.res == res && k.bucket < cutoff) :: rollups[k]
  }

  class Hub {
    var samples: map<SampleId, int>
    var points: map<PointId, Point>
    var edges: map<PointId, seq<Contribution>>
    ghost var ends: map<PointId, (Point, Point)>
    var rollups: map<CellKey, Amounts>
    var events: seq<Event>
    var gpus: map<GpuId, Seen>
    var nodes: map<string, Live>

    ghost predicate Valid()
      reads this
    {
      ends.Keys == edges.Keys
    }

    // The tables as a value. An edge row is worth what its stored contributions add up to.
    ghost function Contents(): State
      reads this
      requires Valid()
    {
      State(
        samples,
        points,
        EdgeRows(edges, ends),
        Numbers(rollups),
        events,
        gpus,
        nodes)
    }

    constructor ()
      ensures Valid() && Contents() == Ledger.Empty()
    {
      samples, points, edges, rollups := map[], map[], map[], map[];
      events, gpus, nodes := [], map[], map[];
      ends := map[];
      new;
      assert Numbers(rollups) == Cells([]);
    }

    // Adds with sign 1, withdraws with sign -1.
    method ApplyContributions(cs: seq<Contribution>, sign: int)
      modifies this`rollups
      ensures Numbers(rollups) == Adjusted(Numbers(old(rollups)), sign, cs)
    {
      hide Numbers, Adjusted, Upsert, Signed;
      ghost var before := Numbers(rollups);
      AdjustedNone(rollups, sign);
      for i := 0 to |cs|
        invariant Numbers(rollups) == Adjusted(before, sign, cs[..i])
      {
        UpsertStep(before, rollups, sign, cs[..i], cs[i]);
        assert cs[..i + 1] == cs[..i] + [cs[i]];
        rollups := Upsert(rollups, cs[i].key, Signed(sign, cs[i].amounts));
      }
      assert cs[..|cs|] == cs;
    }

    // The edge that ends at b is withdrawn as it was stored, and a -> b is written.
    method ReplaceEdge(c: Chain, a: Point, b: Point)
      requires Valid()
      modifies this`rollups, this`edges, this`ends
      ensures Valid()
      ensures Contents() == Relink(old(Contents()), c, a, b)
    {
      hide Numbers, Adjusted, EdgeRows, Cells, EdgeCells, SetEdge, MakeEdge;
      ghost var before, rollups0, edges0, ends0 := Contents(), rollups, edges, ends;
      var id := PointId(c.node, c.uuid, c.boot, b.number);
      if id in edges {
        ApplyContributions(edges[id], -1);
      }
      assert Numbers(rollups) == Withdrawn(rollups0, edges0, id);
      var cs := Contributions(c.node, c.uuid, a, b);
      ApplyContributions(cs, 1);
      edges := edges[id := cs];
      ends := ends[id := (a, b)];
      Replaced(rollups0, edges0, ends0, before, c, a, b, cs);
    }

    /******* Lookups *******/

    // The latest point strictly before a time.
    method FindBefore(c: Chain, at: int) returns (r: Option<Point>)
      ensures r == Ingestion.PreviousPoint(points, c, at)
    {
      var ids := Earlier(points, c, at);
      if ids == {} {
        return None;
      }
      LastExists(points, ids);
      var i :| i in ids && IsLast(points, ids, i);
      BeforeIs(points, c, at, i);
      return Some(points[i]);
    }

    // The earliest point strictly after a time.
    method FindAfter(c: Chain, at: int) returns (r: Option<Point>)
      ensures r == Ingestion.NextPoint(points, c, at)
    {
      var ids := Later(points, c, at);
      if ids == {} {
        return None;
      }
      FirstExists(points, ids);
      var i :| i in ids && IsFirst(points, ids, i);
      AfterIs(points, c, at, i);
      return Some(points[i]);
    }

    /******* One card *******/

    // The point is inserted between its neighbours and both edges are corrected.
    method StorePoint(c: Chain, p: Point)
      requires Valid()
      modifies this
      ensures Valid()
      ensures Contents() == Ingestion.StorePoint(old(Contents()), c, p)
    {
      hide Relink, Numbers, EdgeRows;
      ghost var st := Contents();
      var before := FindBefore(c, p.at);
      var after := FindAfter(c, p.at);
      points := points[PointId(c.node, c.uuid, c.boot, p.number) := p];
      if before.Some? {
        ReplaceEdge(c, before.value, p);
      }
      if after.Some? {
        ReplaceEdge(c, p, after.value);
      }
      assert Contents() == Ingestion.Link(st, c, p);
      if before.None? && after.None? {
        events := events + [Started(c.node, c.uuid, c.boot, p.at)];
      } else if before.None? {
        events := seq(|events|, i requires 0 <= i < |events| reads this => Ingestion.EarlierStart(events[i], c, p.at));
      }
      assert events == Ingestion.RecordStart(st.events, c, p.at, before.Some?, after.Some?);
      if p.status != "ok" && (before.None? || before.value.status == "ok") {
        events := events + [Failed(c.node, c.uuid, p.at, p.status)];
      }
      gpus := Ingestion.SeeGpu(gpus, GpuId(c.node, c.uuid), p.at);
    }

    // What one card of a snapshot says. A process without a known user makes the
    // attribution incomplete; the users that are known are kept, each once.
    method Observe(s: Snapshot, g: Gpu) returns (p: Point)
      requires 0 <= s.at
      ensures p == Ingestion.MakePoint(s, g)
    {
      var processValid := g.status == "ok" && g.processStatus == "ok";
      var userValid := processValid;
      var util: Option<real>, memory: Option<real> := None, None;
      if g.status == "ok" {
        util := g.util;
        memory := g.memoryUsed;
      }
      var users: set<string> := {};
      for i := 0 to |g.processes|
        invariant userValid == (processValid && forall q :: q in g.processes[..i] ==> q.uid != "")
        invariant users == set j | 0 <= j < i && g.processes[j].uid != "" :: g.processes[j].uid
      {
        assert g.processes[..i + 1] == g.processes[..i] + [g.processes[i]];
        if g.processes[i].uid == "" {
          userValid := false;
        }
        if g.processes[i].uid != "" {
          users := users + {g.processes[i].uid};
        }
      }
      assert g.processes[..|g.processes|] == g.processes;
      p := Point(s.at, s.interval, s.number, g.status, |g.processes| > 0, processValid, userValid, users, util, memory);
    }

    method StoreGpus(s: Snapshot, cards: seq<Gpu>) returns (r: Result<(), Ingestion.Refusal>)
      requires Valid() && 0 <= s.at
      modifies this
      ensures Valid()
      ensures match Ingestion.StoreGpus(old(Contents()), s, cards, |cards|)
              case Ok(st) => r == Ok(()) && Contents() == st
              case Err(e) => r == Err(e)
    {
      hide Ingestion.StorePoint, Ingestion.MakePoint, Numbers, EdgeRows;
      ghost var st := Contents();
      for i := 0 to |cards|
        invariant Valid()
        invariant Ingestion.StoreGpus(st, s, cards, i) == Ok(Contents())
      {
        var g := cards[i];
        if PointId(s.node, g.uuid, s.boot, s.number) in points {
          StoreGpusFails(st, s, cards, i, |cards|);
          return Err(Ingestion.PointExists);
        }
        var p := Observe(s, g);
        StorePoint(Chain(s.node, g.uuid, s.boot), p);
      }
      return Ok(());
    }

    /******* The whole snapshot *******/

    method Present(cards: seq<Gpu>) returns (present: set<string>)
      ensures present == Uuids(cards)
    {
      hide Uuids;
      present := {};
      NoUuids();
      for i := 0 to |cards|
        invariant present == Uuids(cards[..i])
      {
        assert cards[..i + 1] == cards[..i] + [cards[i]];
        UuidsAppend(cards[..i], cards[i]);
        present := present + {cards[i].uuid};
      }
      assert cards[..|cards|] == cards;
    }

    // The known cards that a failed inventory leaves out, as invalid observations.
    method Inherit(s: Snapshot, known: seq<Gpu>) returns (r: Result<seq<Gpu>, Ingestion.Refusal>)
      ensures r == Ingestion.Inherit(gpus, known, s, |known|)
    {
      hide Uuids, Ingestion.QueryFailed;
      var present := Present(s.gpus);
      var cards := s.gpus;
      for i := 0 to |known|
        invariant Ingestion.Inherit(gpus, known, s, i) == Ok(cards)
      {
        var g := known[i];
        if g.uuid in present {
          continue;
        }
        if GpuId(s.node, g.uuid) !in gpus {
          InheritFails(gpus, known, s, i, |known|);
          return Err(Ingestion.FirstSeenMissing);
        }
        if gpus[GpuId(s.node, g.uuid)].first > s.at {
          continue;
        }
        cards := cards + [Ingestion.QueryFailed(g, s.gpuStatus)];
      }
      return Ok(cards);
    }

    // A sample newer than the live one becomes the live snapshot, and keeps the lost cards.
    method UpdateLive(s: Snapshot, cards: seq<Gpu>)
      requires Valid() && s.node in nodes
      modifies this`nodes, this`events
      ensures Valid()
      ensures Contents() == Ingestion.UpdateLive(old(Contents()), s, cards)
    {
      hide Uuids, Numbers, EdgeRows;
      var known := nodes[s.node];
      if s.at <= known.sampleAt {
        return;
      }
      var present := Present(cards);
      var lost: seq<Gpu>, missing: seq<Event> := [], [];
      if s.gpuStatus == "ok" {
        for i := 0 to |known.gpus|
          invariant lost == Ingestion.Lost(known.gpus, present, i)
          invariant missing == Ingestion.LostEvents(s.node, s.at, known.gpus, present, i)
        {
          var g := known.gpus[i];
          if g.uuid !in present {
            lost := lost + [Ingestion.NotDetected(g)];
            if g.status != "not_detected" {
              missing := missing + [Missing(s.node, g.uuid, s.at)];
            }
          }
        }
      }
      events := events + missing;
      nodes := nodes[s.node := known.(gpus := cards + lost, sampleAt := s.at)];
    }

    // One snapshot, in one transaction: either every table takes it in, or none changes.
    method Ingest(s: Snapshot, backfill: bool, now: Validation.HubTime) returns (r: Result<(), Ingestion.Refusal>)
      requires Valid()
      modifies this
      ensures Valid()
      ensures match Ingestion.Ingest(old(Contents()), s, backfill, now)
              case Ok(st) => r == Ok(()) && Contents() == st
              case Err(e) => r == Err(e) && Contents() == old(Contents())
    {
      hide Validation.Acceptable, Numbers, EdgeRows, Ingestion.StoreGpus, Ingestion.Inherit, Ingestion.UpdateLive;
      var acceptable := Validation.Validate(s, now);
      if !acceptable {
        return Err(Ingestion.Rejected);
      }
      if IdOf(s) in samples {
        return Ok(());
      }
      if s.node !in nodes {
        return Err(Ingestion.UnknownNode);
      }
      Validation.AcceptedTime(s, now);
      // Begin.
      var samples0, points0, edges0, rollups0, events0, gpus0, nodes0 := samples, points, edges, rollups, events, gpus, nodes;
      ghost var ends0 := ends;
      var known := nodes[s.node];
      samples := samples[IdOf(s) := s.at];
      var cards: Result<seq<Gpu>, Ingestion.Refusal> := Ok(s.gpus);
      if s.gpuStatus != "ok" {
        cards := Inherit(s, known.gpus);
      }
      if cards.Err? {
        samples := samples0;
        return Err(cards.error);
      }
      r := StoreGpus(s, cards.value);
      if r.Err? {
        // Roll back.
        samples, points, edges, rollups, events, gpus, nodes := samples0, points0, edges0, rollups0, events0, gpus0, nodes0;
        ends := ends0;
        return;
      }
      UpdateLive(s, cards.value);
      if !backfill && s.at >= known.sampleAt && now - s.at <= s.interval * 2000 {
        nodes := nodes[s.node := nodes[s.node].(receivedAt := now)];
      }
    }

    /******* Retention *******/

    method Prune(now: int)
      requires Valid()
      modifies this
      ensures Valid()
      ensures Contents() == Ledger.Prune(old(Contents()), now)
    {
      hide Cells, EdgeRows, Numbers;
      var cutoff := now - Ledger.RAW_AGE;
      RecentEdgeRows(edges, ends, points, cutoff);
      UnexpiredNumbers(rollups, now);
      edges := map i | i in edges && i in points && points[i].at >= cutoff :: edges[i];
      ends := map i | i in ends && i in points && points[i].at >= cutoff :: ends[i];
      points := Ledger.RecentPoints(points, cutoff);
      samples := Ledger.RecentSamples(samples, cutoff);
      events := Ledger.RecentEvents(events, now - Ledger.EVENT_AGE);
      rollups := Unexpired(rollups, MINUTE, now - Ledger.MINUTE_AGE);
      rollups := Unexpired(rollups, HOUR, now - Ledger.HOUR_AGE);
    }

    method AddNode(node: string)
      requires Valid()
      modifies this`nodes
      ensures Valid()
      ensures Contents() == Ledger.Step(old(Contents()), Ledger.AddNode(node))
    {
      if node !in nodes {
        nodes := nodes[node := Live([], 0, 0)];
      }
    }
  }

  lemma RecentEdgeRows(edges: map<PointId, seq<Contribution>>, ends: map<PointId, (Point, Point)>, points: map<PointId, Point>, cutoff: int)
    requires ends.Keys == edges.Keys
    ensures var kept := map i | i in edges && i in points && points[i].at >= cutoff :: edges[i];
            var keptEnds := map i | i in ends && i in points && points[i].at >= cutoff :: ends[i];
            && keptEnds.Keys == kept.Keys
            && EdgeRows(kept, keptEnds) == Ledger.RecentEdges(EdgeRows(edges, ends), points, cutoff)
  {
    hide Cells;
  }

  lemma UnexpiredNumbers(rollups: map<CellKey, Amounts>, now: int)
    ensures Numbers(Unexpired(Unexpired(rollups, MINUTE, now - Ledger.MINUTE_AGE), HOUR, now - Ledger.HOUR_AGE))
         == imap k: CellKey :: if Ledger.Expired(k, now) then ZERO else Read(Numbers(rollups), k)
  {
  }

  lemma {:induction false} StoreGpusFails(st: State, s: Snapshot, cards: seq<Gpu>, i: nat, n: nat)
    requires 0 <= s.at && i < n <= |cards|
    requires Ingestion.StoreGpus(st, s, cards, i).Ok?
    requires PointId(s.node, cards[i].uuid, s.boot, s.number) in Ingestion.StoreGpus(st, s, cards, i).value.points
    ensures Ingestion.StoreGpus(st, s, cards, n) == Err(Ingestion.PointExists)
  {
    hide Ingestion.StorePoint, Ingestion.MakePoint;
    if i + 1 < n {
      StoreGpusFails(st, s, cards, i, n - 1);
    }
  }

  lemma {:induction false} InheritFails(gpus: map<GpuId, Seen>, known: seq<Gpu>, s: Snapshot, i: nat, n: nat)
    requires i < n <= |known| && Ingestion.Inherit(gpus, known, s, i).Ok?
    requires known[i].uuid !in Uuids(s.gpus) && GpuId(s.node, known[i].uuid) !in gpus
    ensures Ingestion.Inherit(gpus, known, s, n) == Err(Ingestion.FirstSeenMissing)
  {
    hide Uuids;
    if i + 1 < n {
      InheritFails(gpus, known, s, i, n - 1);
    }
  }
}
