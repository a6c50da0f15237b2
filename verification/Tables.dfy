/**
 The hub's tables (internal/hub/store.go) as one value, keyed as the schema keys them,
 and the two lookups and the edge replacement that ingest builds on.

 An edge row stores the contributions it has added to the rollups. Here it holds what
 they come to in every cell, and the two points they were computed from.
 */
module Tables {
  import opened Wrappers
  import opened Amounts
  import opened Model
  import opened Rollups

  datatype PointId = PointId(node: string, uuid: string, boot: string, number: int)

  // Observations are joined only within one card and one run of the agent.
  datatype Chain = Chain(node: string, uuid: string, boot: string)

  datatype Edge = Edge(left: Point, right: Point, data: Totals)

  datatype GpuId = GpuId(node: string, uuid: string)

  datatype Seen = Seen(first: int, last: int)

  datatype Event =
    | Started(node: string, uuid: string, boot: string, at: int)
    | Failed(node: string, uuid: string, at: int, status: string)
    | Missing(node: string, uuid: string, at: int)

  // The columns of the nodes table that ingest reads and writes.
  datatype Live = Live(gpus: seq<Gpu>, sampleAt: int, receivedAt: int)

  datatype State = State(
    samples: map<SampleId, int>,
    points: map<PointId, Point>,
    edges: map<PointId, Edge>,
    rollups: Totals,
    events: seq<Event>,
    gpus: map<GpuId, Seen>,
    nodes: map<string, Live>)

  function ChainOf(id: PointId): Chain {
    Chain(id.node, id.uuid, id.boot)
  }

  function SampleOf(id: PointId): SampleId {
    SampleId(id.node, id.boot, id.number)
  }

  ghost function Read(t: Totals, k: CellKey): Amounts {
    if k in t then t[k] else ZERO
  }

  /******* Neighbours *******/

  // The time order of the points of a chain. SQL leaves rows with equal times in any
  // order; here the sample number decides, so that the lookups are functions.
  predicate NotAfter(points: map<PointId, Point>, i: PointId, j: PointId)
    requires i in points && j in points
  {
    points[i].at < points[j].at || (points[i].at == points[j].at && i.number <= j.number)
  }

  function Earlier(points: map<PointId, Point>, c: Chain, at: int): set<PointId> {
    set i | i in points && ChainOf(i) == c && points[i].at < at
  }

  function Later(points: map<PointId, Point>, c: Chain, at: int): set<PointId> {
    set i | i in points && ChainOf(i) == c && points[i].at > at
  }

  predicate IsLast(points: map<PointId, Point>, ids: set<PointId>, i: PointId)
    requires ids <= points.Keys
  {
    i in ids && forall j :: j in ids ==> NotAfter(points, j, i)
  }

  predicate IsFirst(points: map<PointId, Point>, ids: set<PointId>, i: PointId)
    requires ids <= points.Keys
  {
    i in ids && forall j :: j in ids ==> NotAfter(points, i, j)
  }

  lemma {:induction false} LastExists(points: map<PointId, Point>, ids: set<PointId>)
    requires ids != {} && ids <= points.Keys
    ensures exists i :: IsLast(points, ids, i)
    decreases |ids|
  {
    var i :| i in ids;
    if ids == {i} {
      assert IsLast(points, ids, i);
    } else {
      LastExists(points, ids - {i});
      var m :| IsLast(points, ids - {i}, m);
      assert forall j :: j in ids ==> j == i || j in ids - {i};
      assert IsLast(points, ids, if NotAfter(points, i, m) then m else i);
    }
  }

  lemma {:induction false} FirstExists(points: map<PointId, Point>, ids: set<PointId>)
    requires ids != {} && ids <= points.Keys
    ensures exists i :: IsFirst(points, ids, i)
    decreases |ids|
  {
    var i :| i in ids;
    if ids == {i} {
      assert IsFirst(points, ids, i);
    } else {
      FirstExists(points, ids - {i});
      var m :| IsFirst(points, ids - {i}, m);
      assert forall j :: j in ids ==> j == i || j in ids - {i};
      assert IsFirst(points, ids, if NotAfter(points, i, m) then i else m);
    }
  }

  ghost function Last(points: map<PointId, Point>, ids: set<PointId>): (i: PointId)
    requires ids != {} && ids <= points.Keys
    ensures IsLast(points, ids, i)
  {
    LastExists(points, ids);
    var i :| IsLast(points, ids, i);
    i
  }

  ghost function First(points: map<PointId, Point>, ids: set<PointId>): (i: PointId)
    requires ids != {} && ids <= points.Keys
    ensures IsFirst(points, ids, i)
  {
    FirstExists(points, ids);
    var i :| IsFirst(points, ids, i);
    i
  }

  ghost predicate IsBefore(points: map<PointId, Point>, c: Chain, at: int, i: PointId) {
    IsLast(points, Earlier(points, c, at), i)
  }

  ghost predicate IsAfter(points: map<PointId, Point>, c: Chain, at: int, i: PointId) {
    IsFirst(points, Later(points, c, at), i)
  }

  // The latest row strictly before a time.
  ghost function Before(points: map<PointId, Point>, c: Chain, at: int): (r: Option<PointId>)
    ensures r.None? <==> Earlier(points, c, at) == {}
    ensures r.Some? ==> IsBefore(points, c, at, r.value)
  {
    if Earlier(points, c, at) == {} then None else Some(Last(points, Earlier(points, c, at)))
  }

  // The earliest row strictly after a time.
  ghost function After(points: map<PointId, Point>, c: Chain, at: int): (r: Option<PointId>)
    ensures r.None? <==> Later(points, c, at) == {}
    ensures r.Some? ==> IsAfter(points, c, at, r.value)
  {
    if Later(points, c, at) == {} then None else Some(First(points, Later(points, c, at)))
  }

  lemma BeforeIs(points: map<PointId, Point>, c: Chain, at: int, i: PointId)
    requires IsBefore(points, c, at, i)
    ensures Before(points, c, at) == Some(i)
  {
    var j := Before(points, c, at).value;
    assert NotAfter(points, i, j) && NotAfter(points, j, i);
  }

  lemma AfterIs(points: map<PointId, Point>, c: Chain, at: int, i: PointId)
    requires IsAfter(points, c, at, i)
    ensures After(points, c, at) == Some(i)
  {
    var j := After(points, c, at).value;
    assert NotAfter(points, i, j) && NotAfter(points, j, i);
  }

  /******* Replacing an edge *******/

  ghost function MakeEdge(c: Chain, a: Point, b: Point): Edge {
    Edge(a, b, EdgeCells(c.node, c.uuid, a, b))
  }

  ghost function OldCell(edges: map<PointId, Edge>, id: PointId, k: CellKey): Amounts {
    if id in edges then Read(edges[id].data, k) else ZERO
  }

  ghost function SetEdge(st: State, id: PointId, e: Edge): State {
    st.(edges := st.edges[id := e],
        rollups := imap k: CellKey :: Add(Sub(Read(st.rollups, k), OldCell(st.edges, id, k)), Read(e.data, k)))
  }

  // The edge that ends at b is withdrawn, if there is one, and a -> b written in its place.
  ghost function Relink(st: State, c: Chain, a: Point, b: Point): (r: State)
    ensures r == st.(edges := r.edges, rollups := r.rollups)
  {
    SetEdge(st, PointId(c.node, c.uuid, c.boot, b.number), MakeEdge(c, a, b))
  }

  /******* The rollups as a sum over the edges *******/

  ghost function CellsOfEdges(edges: map<PointId, Edge>, k: CellKey): map<PointId, Amounts> {
    map id | id in edges :: Read(edges[id].data, k)
  }

  ghost function Total(edges: map<PointId, Edge>, k: CellKey): Amounts {
    Sum(CellsOfEdges(edges, k))
  }

  ghost predicate Balanced(st: State) {
    forall k: CellKey :: k in st.rollups && st.rollups[k] == Total(st.edges, k)
  }

  lemma TotalSetEdge(edges: map<PointId, Edge>, id: PointId, e: Edge, k: CellKey)
    ensures Total(edges[id := e], k) == Add(Sub(Total(edges, k), OldCell(edges, id, k)), Read(e.data, k))
  {
    SumUpdate(CellsOfEdges(edges, k), id, Read(e.data, k));
    CellsSetEdge(edges, id, e, k);
  }

  lemma CellsSetEdge(edges: map<PointId, Edge>, id: PointId, e: Edge, k: CellKey)
    ensures CellsOfEdges(edges[id := e], k) == CellsOfEdges(edges, k)[id := Read(e.data, k)]
    ensures At(CellsOfEdges(edges, k), id) == OldCell(edges, id, k)
  {
  }

  // Replacing an edge keeps the rollups equal to what the stored edges add up to.
  lemma {:induction false} SetEdgeBalanced(st: State, id: PointId, e: Edge)
    requires Balanced(st)
    ensures Balanced(SetEdge(st, id, e))
  {
    forall k: CellKey
      ensures SetEdge(st, id, e).rollups[k] == Total(st.edges[id := e], k)
    {
      TotalSetEdge(st.edges, id, e, k);
    }
  }
}
