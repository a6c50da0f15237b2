/**
 The batch definition of the ledger: take the stored points of every run of the agent,
 sort them by time, and add up the integrals over adjacent pairs. It looks at points
 only; the theorem here is that the edges between neighbours add up to the same.
 */
module Batch {
  import opened Wrappers
  import opened Amounts
  import opened Model
  import opened Rollups
  import opened Tables
  import opened Linking
  import opened Ledger

  ghost function ChainIds(points: map<PointId, Point>, c: Chain): set<PointId> {
    set i | i in points && ChainOf(i) == c
  }

  // The given points in time order.
  ghost function Sorted(points: map<PointId, Point>, ids: set<PointId>): seq<Point>
    requires ids <= points.Keys
  {
    if ids == {} then []
    else
      var last := Last(points, ids);
      Sorted(points, ids - {last}) + [points[last]]
  }

  // The sum over adjacent pairs.
  ghost function Integral(c: Chain, s: seq<Point>, k: CellKey): Amounts {
    if |s| < 2 then ZERO
    else Add(Integral(c, s[..|s| - 1], k), EdgeCell(c.node, c.uuid, s[|s| - 2], s[|s| - 1], k))
  }

  ghost function Boots(points: map<PointId, Point>, node: string, uuid: string): set<string> {
    set i | i in points && i.node == node && i.uuid == uuid :: i.boot
  }

  ghost function ChainTotal(points: map<PointId, Point>, c: Chain, k: CellKey): Amounts {
    Integral(c, Sorted(points, ChainIds(points, c)), k)
  }

  ghost function BootTotals(points: map<PointId, Point>, k: CellKey): map<string, Amounts> {
    map boot | boot in Boots(points, k.node, k.uuid) :: ChainTotal(points, Chain(k.node, k.uuid, boot), k)
  }

  ghost function BatchTotal(points: map<PointId, Point>, k: CellKey): Amounts {
    Sum(BootTotals(points, k))
  }

  /******* One chain *******/

  lemma LastIs(points: map<PointId, Point>, ids: set<PointId>, c: Chain, i: PointId)
    requires Numbered(points) && ids <= ChainIds(points, c) && IsLast(points, ids, i)
    ensures Last(points, ids) == i
  {
    assert NotAfter(points, i, Last(points, ids)) && NotAfter(points, Last(points, ids), i);
  }

  // The points of a chain up to some time.
  ghost predicate IsPrefix(points: map<PointId, Point>, c: Chain, ids: set<PointId>) {
    && ids <= ChainIds(points, c)
    && forall i, j :: i in ids && j in ChainIds(points, c) && points[j].at < points[i].at ==> j in ids
  }

  ghost predicate DistinctOn(points: map<PointId, Point>, c: Chain) {
    forall i, j :: i in ChainIds(points, c) && j in ChainIds(points, c) && points[i].at == points[j].at ==> i == j
  }

  ghost function Linked(points: map<PointId, Point>, ids: set<PointId>): set<PointId> {
    set i | i in ids && i in Links(points)
  }

  lemma PrefixBefore(points: map<PointId, Point>, c: Chain, ids: set<PointId>, last: PointId)
    requires DistinctOn(points, c) && IsPrefix(points, c, ids) && IsLast(points, ids, last)
    ensures Earlier(points, c, points[last].at) == ids - {last}
    ensures IsPrefix(points, c, ids - {last})
  {
  }

  lemma CellKeys(points: map<PointId, Point>, k: CellKey)
    ensures CellsOfEdges(Links(points), k).Keys == Links(points).Keys
  {
    hide Links;
  }

  // At most one point: no edge, and nothing to integrate.
  lemma NothingToAdd(points: map<PointId, Point>, c: Chain, ids: set<PointId>, k: CellKey)
    requires ids <= points.Keys && |Sorted(points, ids)| < 2 && Linked(points, ids) == {}
    ensures SumOver(CellsOfEdges(Links(points), k), Linked(points, ids)) == Integral(c, Sorted(points, ids), k)
  {
  }

  lemma {:induction false} PrefixTotal(points: map<PointId, Point>, c: Chain, ids: set<PointId>, k: CellKey)
    requires Numbered(points) && DistinctOn(points, c) && IsPrefix(points, c, ids)
    ensures Linked(points, ids) <= CellsOfEdges(Links(points), k).Keys
    ensures SumOver(CellsOfEdges(Links(points), k), Linked(points, ids)) == Integral(c, Sorted(points, ids), k)
    decreases |ids|
  {
    hide EdgeCell, Add, CellsOfEdges, SumOver, Integral;
    CellKeys(points, k);
    if ids == {} {
      NothingToAdd(points, c, ids, k);
    } else {
      var last := Last(points, ids);
      var rest := ids - {last};
      PrefixBefore(points, c, ids, last);
      PrefixTotal(points, c, rest, k);
      if rest == {} {
        assert Linked(points, ids) == {};
        NothingToAdd(points, c, ids, k);
      } else {
        var previous := BeforeOf(points, last).value;
        LastIs(points, rest, c, previous);
        var s := Sorted(points, rest);
        assert s[|s| - 1] == points[previous];
        IntegralAppend(c, s, points[last], k);
        assert Linked(points, ids) - {last} == Linked(points, rest);
        LastEdge(points, c, ids, last, k);
      }
    }
  }

  lemma IntegralAppend(c: Chain, s: seq<Point>, p: Point, k: CellKey)
    requires s != []
    ensures Integral(c, s + [p], k) == Add(Integral(c, s, k), EdgeCell(c.node, c.uuid, s[|s| - 1], p, k))
  {
    hide EdgeCell, Add;
    assert (s + [p])[..|s|] == s;
  }

  lemma LastCell(points: map<PointId, Point>, last: PointId, k: CellKey)
    requires last in Links(points)
    ensures CellsOfEdges(Links(points), k)[last]
         == EdgeCell(last.node, last.uuid, points[BeforeOf(points, last).value], points[last], k)
  {
    hide EdgeCell;
  }

  lemma LastEdge(points: map<PointId, Point>, c: Chain, ids: set<PointId>, last: PointId, k: CellKey)
    requires last in Linked(points, ids) && ChainOf(last) == c
    ensures SumOver(CellsOfEdges(Links(points), k), Linked(points, ids))
         == Add(SumOver(CellsOfEdges(Links(points), k), Linked(points, ids) - {last}),
                EdgeCell(c.node, c.uuid, points[BeforeOf(points, last).value], points[last], k))
  {
    hide EdgeCell, Add, SumOver;
    SumPick(CellsOfEdges(Links(points), k), Linked(points, ids), last);
    LastCell(points, last, k);
    AddCommutes(CellsOfEdges(Links(points), k)[last], SumOver(CellsOfEdges(Links(points), k), Linked(points, ids) - {last}));
  }

  /******* All runs of the agent *******/

  ghost function OfBoots(points: map<PointId, Point>, k: CellKey, boots: set<string>): set<PointId> {
    set i | i in Links(points) && i.node == k.node && i.uuid == k.uuid && i.boot in boots
  }

  lemma {:induction false} BootsTotal(points: map<PointId, Point>, k: CellKey, boots: set<string>)
    requires Numbered(points) && boots <= Boots(points, k.node, k.uuid)
    requires forall boot :: boot in boots ==> DistinctOn(points, Chain(k.node, k.uuid, boot))
    ensures SumOver(CellsOfEdges(Links(points), k), OfBoots(points, k, boots)) == SumOver(BootTotals(points, k), boots)
    decreases |boots|
  {
    hide EdgeCell, Links, Integral, Sorted, DistinctOn;
    var cells, totals := CellsOfEdges(Links(points), k), BootTotals(points, k);
    if boots == {} {
      assert OfBoots(points, k, boots) == {};
    } else {
      var boot :| boot in boots;
      var c, rest := Chain(k.node, k.uuid, boot), boots - {boot};
      BootsTotal(points, k, rest);
      SumPick(totals, boots, boot);
      PrefixTotal(points, c, ChainIds(points, c), k);
      var mine := Linked(points, ChainIds(points, c));
      OfBootsSplit(points, k, boots, boot);
      SumUnion(cells, mine, OfBoots(points, k, rest));
    }
  }

  lemma OfBootsSplit(points: map<PointId, Point>, k: CellKey, boots: set<string>, boot: string)
    requires boot in boots
    ensures OfBoots(points, k, boots)
         == Linked(points, ChainIds(points, Chain(k.node, k.uuid, boot))) + OfBoots(points, k, boots - {boot})
  {
    hide LinkOf, BeforeOf;
  }

  // Only the edges of a card count in its cells.
  lemma OtherCards(points: map<PointId, Point>, k: CellKey, i: PointId)
    requires i in Links(points) && i !in OfBoots(points, k, Boots(points, k.node, k.uuid))
    ensures CellsOfEdges(Links(points), k)[i] == ZERO
  {
  }

  // Edges of other cards add nothing.
  lemma OneCard(points: map<PointId, Point>, k: CellKey)
    ensures OfBoots(points, k, Boots(points, k.node, k.uuid)) <= CellsOfEdges(Links(points), k).Keys
    ensures Total(Links(points), k)
         == SumOver(CellsOfEdges(Links(points), k), OfBoots(points, k, Boots(points, k.node, k.uuid)))
  {
    hide EdgeCell, Links, Add;
    var cells, mine := CellsOfEdges(Links(points), k), OfBoots(points, k, Boots(points, k.node, k.uuid));
    var others := cells.Keys - mine;
    SumUnion(cells, mine, others);
    forall i | i in others
      ensures cells[i] == ZERO
    {
      OtherCards(points, k, i);
    }
    SumZero(cells, others);
    AddZero(SumOver(cells, mine));
    assert cells.Keys == mine + others;
  }

  // The sum over the edges between neighbours is the batch definition.
  lemma {:induction false} LinksAddUpToBatch(points: map<PointId, Point>, k: CellKey)
    requires Numbered(points) && DistinctTimes(points)
    ensures Total(Links(points), k) == BatchTotal(points, k)
  {
    hide EdgeCell, Links, Integral, Sorted, Add;
    OneCard(points, k);
    BootsTotal(points, k, Boots(points, k.node, k.uuid));
    assert BootTotals(points, k).Keys == Boots(points, k.node, k.uuid);
  }

  // Incremental equals batch: after any run of snapshots, late, out of order, repeated or
  // refused, every numeric cell of the rollups is the batch integral of the stored points.
  lemma {:induction false} IncrementalEqualsBatch(ops: seq<Op>, k: CellKey)
    requires Coherent(ops) && NoCleans(ops)
    ensures k in Run(ops).rollups && Run(ops).rollups[k] == BatchTotal(Run(ops).points, k)
  {
    hide Links, BatchTotal;
    RunKeeps(ops);
    ChainedDistinct(Run(ops));
    LinksAddUpToBatch(Run(ops).points, k);
  }
}
