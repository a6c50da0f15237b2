/**
 The edges as a function of the points: one edge per point that has an earlier
 neighbour on its chain. Inserting a point anywhere in time, with the two edge
 replacements that ingest makes, gives exactly the edges of the enlarged set.
 */
module Linking {
  import opened Wrappers
  import opened Amounts
  import opened Model
  import opened Rollups
  import opened Tables
  import opened Ingestion

  ghost predicate Numbered(points: map<PointId, Point>) {
    forall i :: i in points ==> points[i].number == i.number
  }

  // No two points of one chain were sampled at the same time.
  ghost predicate DistinctTimes(points: map<PointId, Point>) {
    forall i, j :: i in points && j in points && ChainOf(i) == ChainOf(j) && points[i].at == points[j].at ==> i == j
  }

  ghost function BeforeOf(points: map<PointId, Point>, i: PointId): Option<PointId>
    requires i in points
  {
    Before(points, ChainOf(i), points[i].at)
  }

  ghost function LinkOf(points: map<PointId, Point>, i: PointId): Edge
    requires i in points && BeforeOf(points, i).Some?
  {
    MakeEdge(ChainOf(i), points[BeforeOf(points, i).value], points[i])
  }

  ghost function Links(points: map<PointId, Point>): map<PointId, Edge> {
    map i | i in points && BeforeOf(points, i).Some? :: LinkOf(points, i)
  }

  lemma BeforeSame(points: map<PointId, Point>, larger: map<PointId, Point>, c: Chain, at: int)
    requires forall i :: i in points ==> i in larger && larger[i] == points[i]
    requires Earlier(points, c, at) == Earlier(larger, c, at)
    ensures Before(larger, c, at) == Before(points, c, at)
  {
    if Earlier(points, c, at) != {} {
      BeforeIs(larger, c, at, Before(points, c, at).value);
    }
  }

  // The new point finds the neighbour it had before it was stored.
  lemma NewPointBefore(points: map<PointId, Point>, id: PointId, p: Point)
    requires id !in points
    ensures BeforeOf(points[id := p], id) == Before(points, ChainOf(id), p.at)
  {
    assert Earlier(points[id := p], ChainOf(id), p.at) == Earlier(points, ChainOf(id), p.at);
    BeforeSame(points, points[id := p], ChainOf(id), p.at);
  }

  // An old point keeps its neighbour, unless it is the next one after the new point.
  lemma OldPointBefore(points: map<PointId, Point>, id: PointId, p: Point, j: PointId)
    requires id !in points && j in points && DistinctTimes(points[id := p])
    ensures BeforeOf(points[id := p], j)
         == if After(points, ChainOf(id), p.at) == Some(j) then Some(id) else BeforeOf(points, j)
  {
    var c, at, larger := ChainOf(j), points[j].at, points[id := p];
    var after := After(points, ChainOf(id), p.at);
    if c != ChainOf(id) || at < p.at {
      assert Earlier(larger, c, at) == Earlier(points, c, at);
      BeforeSame(points, larger, c, at);
    } else {
      assert larger[id] == p && at > p.at;
      assert j in Later(points, c, p.at);
      var m := after.value;
      if m == j {
        NextComesRightAfter(points, id, p, j);
        BeforeIs(larger, c, at, id);
      } else {
        assert NotAfter(points, m, j) && larger[m] == points[m];
        assert m in Earlier(points, c, at);
        var i := BeforeOf(points, j).value;
        assert NotAfter(points, m, i);
        assert Earlier(larger, c, at) == Earlier(points, c, at) + {id};
        BeforeIs(larger, c, at, i);
      }
    }
  }

  lemma NextComesRightAfter(points: map<PointId, Point>, id: PointId, p: Point, j: PointId)
    requires id !in points && DistinctTimes(points[id := p])
    requires After(points, ChainOf(id), p.at) == Some(j)
    ensures IsBefore(points[id := p], ChainOf(id), points[j].at, id)
  {
    var larger := points[id := p];
    forall i | i in Earlier(larger, ChainOf(id), points[j].at)
      ensures NotAfter(larger, i, id)
    {
      if i != id {
        assert i !in Later(points, ChainOf(id), p.at);
      }
    }
  }

  // The edges that ingest leaves, written as an update of the old ones.
  ghost function Corrected(points: map<PointId, Point>, edges: map<PointId, Edge>, id: PointId, p: Point): map<PointId, Edge> {
    var c := ChainOf(id);
    var before, after := Before(points, c, p.at), After(points, c, p.at);
    var left := if before.Some? then edges[id := MakeEdge(c, points[before.value], p)] else edges;
    if after.Some? then left[after.value := MakeEdge(c, p, points[after.value])] else left
  }

  lemma LinkCorrects(st: State, c: Chain, p: Point)
    requires Numbered(st.points)
    ensures Link(st, c, p).edges == Corrected(st.points, st.edges, PointId(c.node, c.uuid, c.boot, p.number), p)
  {
  }

  lemma CorrectedAt(points: map<PointId, Point>, id: PointId, p: Point, j: PointId)
    requires id !in points && DistinctTimes(points[id := p])
    ensures var larger, edges := points[id := p], Corrected(points, Links(points), id, p);
            (j in edges <==> j in Links(larger)) && (j in edges ==> edges[j] == Links(larger)[j])
  {
    var larger := points[id := p];
    NewPointBefore(points, id, p);
    if j in points {
      OldPointBefore(points, id, p, j);
      assert larger[j] == points[j];
      if BeforeOf(points, j).Some? {
        assert larger[BeforeOf(points, j).value] == points[BeforeOf(points, j).value];
      }
    } else if j == id {
      assert Some(j) != After(points, ChainOf(id), p.at);
    }
  }

  // Storing a point and correcting the edges around it, in any order of arrival.
  lemma {:induction false} LinkKeepsLinks(st: State, c: Chain, p: Point)
    requires st.edges == Links(st.points) && Numbered(st.points)
    requires PointId(c.node, c.uuid, c.boot, p.number) !in st.points
    requires DistinctTimes(st.points[PointId(c.node, c.uuid, c.boot, p.number) := p])
    ensures Link(st, c, p).edges == Links(Link(st, c, p).points)
  {
    var id := PointId(c.node, c.uuid, c.boot, p.number);
    LinkCorrects(st, c, p);
    var edges, links := Corrected(st.points, Links(st.points), id, p), Links(st.points[id := p]);
    forall j: PointId
      ensures (j in edges <==> j in links) && (j in edges ==> edges[j] == links[j])
    {
      CorrectedAt(st.points, id, p, j);
    }
    assert edges == links;
  }

  lemma LinkBalanced(st: State, c: Chain, p: Point)
    requires Balanced(st)
    ensures Balanced(Link(st, c, p))
  {
    var before, after := PreviousPoint(st.points, c, p.at), NextPoint(st.points, c, p.at);
    var stored := st.(points := st.points[PointId(c.node, c.uuid, c.boot, p.number) := p]);
    assert Balanced(stored);
    var left := if before.Some? then Relink(stored, c, before.value, p) else stored;
    if before.Some? {
      SetEdgeBalanced(stored, PointId(c.node, c.uuid, c.boot, p.number), MakeEdge(c, before.value, p));
    }
    if after.Some? {
      SetEdgeBalanced(left, PointId(c.node, c.uuid, c.boot, after.value.number), MakeEdge(c, p, after.value));
    }
  }
}
