/**
 Two samples of one run of an agent at the same time, which may arrive in either order. The
 neighbour lookups of ingest compare times strictly, so the second of them does not see the
 first. This module says which edges it then leaves, and what the edges between neighbours
 add up to beyond the batch definition.
 */
module EqualTimes {
  import opened Wrappers
  import opened Amounts
  import opened Model
  import opened Rollups
  import opened Tables
  import opened Ingestion
  import opened Linking
  import opened Ledger
  import opened Batch

  // The points id and twin share a chain and a time; otherwise the times of the chain are
  // distinct.
  ghost predicate SameTime(points: map<PointId, Point>, id: PointId, twin: PointId) {
    && id in points && twin in points && id != twin
    && ChainOf(id) == ChainOf(twin) && points[id].at == points[twin].at
    && DistinctTimes(points - {id})
  }

  // The same, where id has the later number.
  ghost predicate Repeats(points: map<PointId, Point>, id: PointId, twin: PointId) {
    SameTime(points, id, twin) && twin.number < id.number
  }

  lemma OnlyTwin(points: map<PointId, Point>, id: PointId, twin: PointId, i: PointId, j: PointId)
    requires SameTime(points, id, twin) && i in points && j in points && i != j
    requires ChainOf(i) == ChainOf(j) && points[i].at == points[j].at
    ensures (i == id && j == twin) || (i == twin && j == id)
  {
    var rest := points - {id};
    assert forall x :: x in points && x != id ==> x in rest && rest[x] == points[x];
  }

  lemma SameTimeSwaps(points: map<PointId, Point>, id: PointId, twin: PointId)
    requires SameTime(points, id, twin)
    ensures SameTime(points, twin, id)
  {
    var rest := points - {twin};
    forall i, j | i in rest && j in rest && ChainOf(i) == ChainOf(j) && rest[i].at == rest[j].at
      ensures i == j
    {
      if i != j {
        OnlyTwin(points, id, twin, i, j);
      }
    }
  }

  lemma LaterOfRepeat(points: map<PointId, Point>, id: PointId, p: Point, twin: PointId, j: PointId)
    requires id !in points && Numbered(points) && p.number == id.number && Repeats(points[id := p], id, twin) && j in points
    ensures BeforeOf(points[id := p], j)
         == if After(points, ChainOf(id), p.at) == Some(j) then Some(id) else BeforeOf(points, j)
  {
    var c, at, larger := ChainOf(j), points[j].at, points[id := p];
    var after := After(points, ChainOf(id), p.at);
    assert larger[twin] == points[twin];
    if c != ChainOf(id) || at <= p.at {
      assert Earlier(larger, c, at) == Earlier(points, c, at);
      BeforeSame(points, larger, c, at);
    } else {
      assert j in Later(points, c, p.at);
      assert Earlier(larger, c, at) == Earlier(points, c, at) + {id};
      if after.value == j {
        forall i | i in Earlier(larger, c, at)
          ensures NotAfter(larger, i, id)
        {
          if i != id {
            assert i !in Later(points, c, p.at);
            if points[i].at == p.at && i != twin {
              OnlyTwin(larger, id, twin, i, id);
            }
          }
        }
        BeforeIs(larger, c, at, id);
      } else {
        LaterKeeps(points, id, p, twin, j, after.value);
      }
    }
  }

  lemma LaterKeeps(points: map<PointId, Point>, id: PointId, p: Point, twin: PointId, j: PointId, m: PointId)
    requires id !in points && Numbered(points) && Repeats(points[id := p], id, twin) && j in points && j != m
    requires ChainOf(j) == ChainOf(id) && points[j].at > p.at && After(points, ChainOf(id), p.at) == Some(m)
    requires Earlier(points[id := p], ChainOf(j), points[j].at) == Earlier(points, ChainOf(j), points[j].at) + {id}
    ensures BeforeOf(points[id := p], j) == BeforeOf(points, j)
  {
    var larger := points[id := p];
    assert NotAfter(points, m, j);
    if points[m].at == points[j].at {
      OnlyTwin(larger, id, twin, m, j);
    }
    assert m in Earlier(points, ChainOf(j), points[j].at);
    var i := BeforeOf(points, j).value;
    assert NotAfter(points, m, i);
    BeforeIs(larger, ChainOf(j), points[j].at, i);
  }

  // An edge table with the edges of the new point and of the one after it corrected, read
  // at an old point.
  lemma CorrectedOld(points: map<PointId, Point>, id: PointId, p: Point, j: PointId)
    requires id !in points && j in points
    ensures var after, edges := After(points, ChainOf(id), p.at), Corrected(points, Links(points), id, p);
            && (j in edges <==> after == Some(j) || j in Links(points))
            && (j in edges ==> edges[j] == if after == Some(j) then MakeEdge(ChainOf(id), p, points[j]) else Links(points)[j])
  {
    hide LinkOf, BeforeOf, MakeEdge;
  }

  lemma CorrectedNew(points: map<PointId, Point>, id: PointId, p: Point)
    requires id !in points
    ensures var larger, edges := points[id := p], Corrected(points, Links(points), id, p);
            && (id in edges <==> id in Links(larger))
            && (id in edges ==> edges[id] == Links(larger)[id])
  {
    var larger := points[id := p];
    NewPointBefore(points, id, p);
    assert id !in Links(points);
    assert Some(id) != After(points, ChainOf(id), p.at);
    if BeforeOf(larger, id).Some? {
      assert larger[BeforeOf(larger, id).value] == points[BeforeOf(larger, id).value];
    }
  }

  // A later number: ingest still leaves one edge per point that has an earlier neighbour.
  lemma RepeatCorrected(points: map<PointId, Point>, id: PointId, p: Point, twin: PointId)
    requires id !in points && Numbered(points) && p.number == id.number && Repeats(points[id := p], id, twin)
    ensures Corrected(points, Links(points), id, p) == Links(points[id := p])
  {
    hide Repeats, Corrected, Links;
    var edges, links := Corrected(points, Links(points), id, p), Links(points[id := p]);
    CorrectedNew(points, id, p);
    CorrectedKeys(points, id, p);
    forall j | j in points
      ensures (j in edges <==> j in links) && (j in edges ==> edges[j] == links[j])
    {
      CorrectedOld(points, id, p, j);
      LaterOfRepeat(points, id, p, twin, j);
      LinkAt(points, id, p, j);
    }
    assert edges == links;
  }

  lemma CorrectedKeys(points: map<PointId, Point>, id: PointId, p: Point)
    requires id !in points
    ensures Corrected(points, Links(points), id, p).Keys <= points.Keys + {id}
    ensures Links(points[id := p]).Keys <= points.Keys + {id}
  {
    hide LinkOf, BeforeOf, MakeEdge;
  }

  // The link of an old point, before and after another one is stored.
  lemma LinkAt(points: map<PointId, Point>, id: PointId, p: Point, j: PointId)
    requires id !in points && j in points
    ensures var larger := points[id := p];
            && (j in Links(points) <==> BeforeOf(points, j).Some?)
            && (j in Links(larger) <==> BeforeOf(larger, j).Some?)
            && (j in Links(larger) ==> Links(larger)[j] == MakeEdge(ChainOf(j), larger[BeforeOf(larger, j).value], points[j]))
            && (BeforeOf(larger, j) == BeforeOf(points, j) && j in Links(points) ==> Links(larger)[j] == Links(points)[j])
  {
    hide EdgeCells, Before;
    var larger := points[id := p];
    assert larger[j] == points[j];
    if BeforeOf(larger, j) == BeforeOf(points, j) && j in Links(points) {
      var i := BeforeOf(points, j).value;
      assert i in points by {
        BeforeStored(points, j);
      }
      assert larger[i] == points[i];
    }
  }

  lemma BeforeStored(points: map<PointId, Point>, j: PointId)
    requires j in points && BeforeOf(points, j).Some?
    ensures BeforeOf(points, j).value in points
  {
  }

  /******* An earlier number that arrives late *******/

  // No old point takes the new one for its neighbour, because the twin comes after it.
  lemma EarlierOfRepeat(points: map<PointId, Point>, id: PointId, p: Point, twin: PointId, j: PointId)
    requires id !in points && Repeats(points[id := p], twin, id) && j in points
    ensures BeforeOf(points[id := p], j) == BeforeOf(points, j)
  {
    var c, at, larger := ChainOf(j), points[j].at, points[id := p];
    assert larger[twin] == points[twin] && larger[id] == p;
    if c != ChainOf(id) || at <= p.at {
      assert Earlier(larger, c, at) == Earlier(points, c, at);
      BeforeSame(points, larger, c, at);
    } else {
      assert twin in Earlier(points, c, at);
      assert Earlier(larger, c, at) == Earlier(points, c, at) + {id};
      var i := BeforeOf(points, j).value;
      assert NotAfter(points, twin, i);
      BeforeIs(larger, c, at, i);
    }
  }

  // Yet ingest links the next point to the new one: that edge, which came from the twin, is
  // the only one not between neighbours.
  lemma LateCorrected(points: map<PointId, Point>, id: PointId, p: Point, twin: PointId)
    requires id !in points && Numbered(points) && p.number == id.number && Repeats(points[id := p], twin, id)
    ensures var after, links := After(points, ChainOf(id), p.at), Links(points[id := p]);
            Corrected(points, Links(points), id, p)
            == if after.None? then links else links[after.value := MakeEdge(ChainOf(id), p, points[after.value])]
  {
    hide Repeats, Corrected, Links, MakeEdge;
    var after, edges, links := After(points, ChainOf(id), p.at), Corrected(points, Links(points), id, p), Links(points[id := p]);
    var written := if after.None? then links else links[after.value := MakeEdge(ChainOf(id), p, points[after.value])];
    CorrectedNew(points, id, p);
    CorrectedKeys(points, id, p);
    assert after.Some? ==> after.value in points && after.value != id;
    forall j | j in points
      ensures (j in edges <==> j in written) && (j in edges ==> edges[j] == written[j])
    {
      CorrectedOld(points, id, p, j);
      EarlierOfRepeat(points, id, p, twin, j);
      LinkAt(points, id, p, j);
    }
    assert edges == written;
  }

  lemma TwinBeforeNext(points: map<PointId, Point>, id: PointId, p: Point, twin: PointId, j: PointId)
    requires id !in points && Repeats(points[id := p], twin, id) && After(points, ChainOf(id), p.at) == Some(j)
    ensures BeforeOf(points[id := p], j) == Some(twin)
  {
    var c, larger := ChainOf(id), points[id := p];
    EarlierOfRepeat(points, id, p, twin, j);
    assert larger[twin] == points[twin] && larger[id] == p;
    forall i | i in Earlier(points, c, points[j].at)
      ensures NotAfter(points, i, twin)
    {
      assert i !in Later(points, c, p.at);
      if points[i].at == p.at && i != twin {
        assert larger[i] == points[i];
        OnlyTwin(larger, twin, id, i, twin);
      }
    }
    BeforeIs(points, c, points[j].at, twin);
  }

  /******* The batch side *******/

  // The stretch that is counted twice.
  ghost function Excess(points: map<PointId, Point>, id: PointId, k: CellKey): Amounts
    requires id in points
  {
    var before := BeforeOf(points, id);
    if before.Some? then EdgeCell(id.node, id.uuid, points[before.value], points[id], k) else ZERO
  }

  ghost predicate IsOrderPrefix(points: map<PointId, Point>, c: Chain, ids: set<PointId>) {
    && ids <= ChainIds(points, c)
    && forall i, j :: i in ids && j in ChainIds(points, c) && NotAfter(points, j, i) ==> j in ids
  }

  lemma OrderPrefixStep(points: map<PointId, Point>, c: Chain, ids: set<PointId>, last: PointId)
    requires Numbered(points) && IsOrderPrefix(points, c, ids) && IsLast(points, ids, last)
    ensures IsOrderPrefix(points, c, ids - {last})
  {
  }

  // Every point but the repeat is linked to the one before it in the order.
  lemma PreviousInOrder(points: map<PointId, Point>, id: PointId, twin: PointId, c: Chain, ids: set<PointId>, last: PointId)
    requires Numbered(points) && Repeats(points, id, twin) && c == ChainOf(id)
    requires IsOrderPrefix(points, c, ids) && IsLast(points, ids, last) && last != id
    ensures Earlier(points, c, points[last].at) == ids - {last}
  {
    forall i | i in ids - {last}
      ensures points[i].at < points[last].at
    {
      assert NotAfter(points, i, last);
      if points[i].at == points[last].at {
        OnlyTwin(points, id, twin, i, last);
      }
    }
  }

  lemma TwinIsPrevious(points: map<PointId, Point>, id: PointId, twin: PointId, c: Chain, ids: set<PointId>)
    requires Numbered(points) && Repeats(points, id, twin) && c == ChainOf(id)
    requires IsOrderPrefix(points, c, ids) && IsLast(points, ids, id)
    ensures twin in ids - {id} && IsLast(points, ids - {id}, twin)
  {
    assert NotAfter(points, twin, id);
    forall i | i in ids - {id}
      ensures NotAfter(points, i, twin)
    {
      assert NotAfter(points, i, id);
      if points[i].at == points[id].at {
        OnlyTwin(points, id, twin, i, id);
      }
    }
  }

  ghost function ExcessIn(points: map<PointId, Point>, id: PointId, ids: set<PointId>, k: CellKey): Amounts
    requires id in points
  {
    if id in ids then Excess(points, id, k) else ZERO
  }

  lemma {:induction false} RepeatPrefixTotal(points: map<PointId, Point>, id: PointId, twin: PointId, c: Chain, ids: set<PointId>, k: CellKey)
    requires Numbered(points) && Repeats(points, id, twin) && c == ChainOf(id) && IsOrderPrefix(points, c, ids)
    ensures Linked(points, ids) <= CellsOfEdges(Links(points), k).Keys
    ensures SumOver(CellsOfEdges(Links(points), k), Linked(points, ids))
         == Add(Integral(c, Sorted(points, ids), k), ExcessIn(points, id, ids, k))
    decreases |ids|
  {
    hide EdgeCell, Add, CellsOfEdges, SumOver, Integral, Repeats, IsOrderPrefix, Excess;
    CellKeys(points, k);
    OrderPrefixIds(points, c, ids);
    if ids == {} {
      NothingToAdd(points, c, ids, k);
      AddZero(Integral(c, Sorted(points, ids), k));
    } else {
      var last := Last(points, ids);
      OrderPrefixStep(points, c, ids, last);
      RepeatPrefixTotal(points, id, twin, c, ids - {last}, k);
      if last == id {
        RepeatStep(points, id, twin, c, ids, k);
      } else {
        OrdinaryStep(points, id, twin, c, ids, last, k);
      }
    }
  }

  lemma OrderPrefixIds(points: map<PointId, Point>, c: Chain, ids: set<PointId>)
    requires IsOrderPrefix(points, c, ids)
    ensures ids <= ChainIds(points, c)
  {
  }

  // The repeat: the batch adds nothing for the pair of equal times, the links add the excess.
  lemma RepeatStep(points: map<PointId, Point>, id: PointId, twin: PointId, c: Chain, ids: set<PointId>, k: CellKey)
    requires Numbered(points) && Repeats(points, id, twin) && c == ChainOf(id)
    requires IsOrderPrefix(points, c, ids) && ids != {} && Last(points, ids) == id
    requires Linked(points, ids - {id}) <= CellsOfEdges(Links(points), k).Keys && Linked(points, ids) <= CellsOfEdges(Links(points), k).Keys
    requires SumOver(CellsOfEdges(Links(points), k), Linked(points, ids - {id}))
          == Add(Integral(c, Sorted(points, ids - {id}), k), ExcessIn(points, id, ids - {id}, k))
    ensures SumOver(CellsOfEdges(Links(points), k), Linked(points, ids))
         == Add(Integral(c, Sorted(points, ids), k), ExcessIn(points, id, ids, k))
  {
    hide EdgeCell, Add, CellsOfEdges, SumOver, Integral, IsOrderPrefix;
    var rest := ids - {id};
    TwinIsPrevious(points, id, twin, c, ids);
    OrderPrefixIds(points, c, ids);
    LastIs(points, rest, c, twin);
    var s := Sorted(points, rest);
    assert s[|s| - 1] == points[twin];
    IntegralAppend(c, s, points[id], k);
    EqualTimesAddNothing(c, points[twin], points[id], k);
    AddZero(Integral(c, s, k));
    if BeforeOf(points, id).Some? {
      assert Linked(points, ids) - {id} == Linked(points, rest);
      LastEdge(points, c, ids, id, k);
    } else {
      assert Linked(points, ids) == Linked(points, rest);
    }
  }

  lemma EqualTimesAddNothing(c: Chain, a: Point, b: Point, k: CellKey)
    requires a.at == b.at
    ensures EdgeCell(c.node, c.uuid, a, b, k) == ZERO
  {
    hide StateShare, Aligned;
  }

  lemma OrdinaryStep(points: map<PointId, Point>, id: PointId, twin: PointId, c: Chain, ids: set<PointId>, last: PointId, k: CellKey)
    requires Numbered(points) && Repeats(points, id, twin) && c == ChainOf(id)
    requires IsOrderPrefix(points, c, ids) && ids != {} && Last(points, ids) == last && last != id
    requires Linked(points, ids - {last}) <= CellsOfEdges(Links(points), k).Keys && Linked(points, ids) <= CellsOfEdges(Links(points), k).Keys
    requires SumOver(CellsOfEdges(Links(points), k), Linked(points, ids - {last}))
          == Add(Integral(c, Sorted(points, ids - {last}), k), ExcessIn(points, id, ids - {last}, k))
    ensures SumOver(CellsOfEdges(Links(points), k), Linked(points, ids))
         == Add(Integral(c, Sorted(points, ids), k), ExcessIn(points, id, ids, k))
  {
    hide EdgeCell, Add, CellsOfEdges, SumOver, Integral, IsOrderPrefix, Excess;
    var rest := ids - {last};
    PreviousInOrder(points, id, twin, c, ids, last);
    OrderPrefixIds(points, c, ids);
    if rest == {} {
      assert Linked(points, ids) == {} == Linked(points, rest);
      NothingToAdd(points, c, ids, k);
      AddZero(Integral(c, Sorted(points, ids), k));
    } else {
      var previous := BeforeOf(points, last).value;
      LastIs(points, rest, c, previous);
      var s := Sorted(points, rest);
      assert s[|s| - 1] == points[previous];
      IntegralAppend(c, s, points[last], k);
      assert Linked(points, ids) - {last} == Linked(points, rest);
      LastEdge(points, c, ids, last, k);
      Reorder(Integral(c, s, k), ExcessIn(points, id, rest, k), EdgeCell(c.node, c.uuid, points[previous], points[last], k));
    }
  }

  // The rollups with a repeated time: the batch integral of the stored points, in the order
  // of time and number, plus the stretch before the repeat once more.
  lemma {:induction false} RepeatTotal(points: map<PointId, Point>, id: PointId, twin: PointId, k: CellKey)
    requires Numbered(points) && Repeats(points, id, twin)
    ensures Total(Links(points), k) == Add(BatchTotal(points, k), Excess(points, id, k))
  {
    hide EdgeCell, Links, Integral, Sorted, Add, Repeats, DistinctOn, Excess, Total;
    OneCard(points, k);
    var boots, c := Boots(points, k.node, k.uuid), ChainOf(id);
    assert BootTotals(points, k).Keys == boots;
    forall boot | boot in boots && Chain(k.node, k.uuid, boot) != c
      ensures DistinctOn(points, Chain(k.node, k.uuid, boot))
    {
      OtherChainsDistinct(points, id, twin, Chain(k.node, k.uuid, boot));
    }
    RepeatIds(points, id, twin);
    if c.node == k.node && c.uuid == k.uuid {
      MyBoot(points, id, twin, k);
    } else {
      BootsTotal(points, k, boots);
      OtherCardExcess(points, id, k);
      AddZero(BatchTotal(points, k));
    }
  }

  lemma RepeatIds(points: map<PointId, Point>, id: PointId, twin: PointId)
    requires Repeats(points, id, twin)
    ensures id in points
  {
  }

  lemma OtherChainsDistinct(points: map<PointId, Point>, id: PointId, twin: PointId, c: Chain)
    requires Repeats(points, id, twin) && c != ChainOf(id)
    ensures DistinctOn(points, c)
  {
    forall i, j | i in ChainIds(points, c) && j in ChainIds(points, c) && points[i].at == points[j].at
      ensures i == j
    {
      if i != j {
        OnlyTwin(points, id, twin, i, j);
      }
    }
  }

  lemma OtherCardExcess(points: map<PointId, Point>, id: PointId, k: CellKey)
    requires id in points && (id.node != k.node || id.uuid != k.uuid)
    ensures Excess(points, id, k) == ZERO
  {
    hide Window;
  }

  lemma MyBoot(points: map<PointId, Point>, id: PointId, twin: PointId, k: CellKey)
    requires Numbered(points) && Repeats(points, id, twin) && id.node == k.node && id.uuid == k.uuid
    requires OfBoots(points, k, Boots(points, k.node, k.uuid)) <= CellsOfEdges(Links(points), k).Keys
    ensures SumOver(CellsOfEdges(Links(points), k), OfBoots(points, k, Boots(points, k.node, k.uuid)))
         == Add(BatchTotal(points, k), Excess(points, id, k))
  {
    hide EdgeCell, Links, Integral, Sorted, Add, Repeats, DistinctOn, Excess, CellsOfEdges, SumOver;
    RepeatIds(points, id, twin);
    var cells, totals, boots, c := CellsOfEdges(Links(points), k), BootTotals(points, k), Boots(points, k.node, k.uuid), ChainOf(id);
    var rest := boots - {id.boot};
    forall boot | boot in rest
      ensures DistinctOn(points, Chain(k.node, k.uuid, boot))
    {
      OtherChainsDistinct(points, id, twin, Chain(k.node, k.uuid, boot));
    }
    CellKeys(points, k);
    BootsTotal(points, k, rest);
    WholeChain(points, c);
    RepeatPrefixTotal(points, id, twin, c, ChainIds(points, c), k);
    var mine := Linked(points, ChainIds(points, c));
    OfBootsSplit(points, k, boots, id.boot);
    SumUnion(cells, mine, OfBoots(points, k, rest));
    assert totals.Keys == boots && id.boot in boots;
    SumPick(totals, boots, id.boot);
    var chain, others := Integral(c, Sorted(points, ChainIds(points, c)), k), SumOver(totals, rest);
    Reorder(chain, Excess(points, id, k), others);
  }

  lemma WholeChain(points: map<PointId, Point>, c: Chain)
    ensures IsOrderPrefix(points, c, ChainIds(points, c))
  {
  }

  lemma Reorder(a: Amounts, b: Amounts, e: Amounts)
    ensures Add(Add(a, b), e) == Add(Add(a, e), b)
  {
  }
}
