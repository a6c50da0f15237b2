/**
 What a repeated sample time does to the rollups (internal/hub/ingest.go), for either order
 of arrival: by how much they then differ from the batch definition, and exactly when they
 do not. The batch definition sorts points of equal time by their number.
 */
module RepeatedTime {
  import opened Wrappers
  import opened Amounts
  import opened Model
  import opened Rollups
  import opened Tables
  import opened Ingestion
  import opened Linking
  import opened Ledger
  import opened Batch
  import opened EqualTimes

  /******* The difference *******/

  function Cell(c: Chain, a: Point, b: Point, k: CellKey): Amounts {
    EdgeCell(c.node, c.uuid, a, b, k)
  }

  // The stretch before the repeated time is counted twice.
  ghost function Twice(c: Chain, before: Option<Point>, p: Point, k: CellKey): Amounts {
    if before.Some? then Cell(c, before.value, p, k) else ZERO
  }

  // The stretch after it should have the state of the later number. When that one is
  // already there, the state of the point that arrives late takes its place.
  ghost function Displaced(c: Chain, p: Point, twin: Point, after: Option<Point>, k: CellKey): Amounts {
    if after.Some? && p.number < twin.number then Sub(Cell(c, p, after.value, k), Cell(c, twin, after.value, k)) else ZERO
  }

  // The repeated point that is being stored, and its twin.
  ghost predicate Arrives(points: map<PointId, Point>, c: Chain, p: Point, twin: PointId) {
    var id := PointId(c.node, c.uuid, c.boot, p.number);
    Numbered(points) && id !in points && twin in points && SameTime(points[id := p], id, twin)
  }

  lemma ArrivesTwin(points: map<PointId, Point>, c: Chain, p: Point, twin: PointId)
    requires Arrives(points, c, p, twin)
    ensures var id, larger := PointId(c.node, c.uuid, c.boot, p.number), points[PointId(c.node, c.uuid, c.boot, p.number) := p];
            && points[twin].at == p.at && points[twin].number == twin.number && ChainOf(twin) == c
            && Numbered(larger)
            && (if twin.number < p.number then Repeats(larger, id, twin) else p.number < twin.number && Repeats(larger, twin, id))
  {
    var id := PointId(c.node, c.uuid, c.boot, p.number);
    SameTimeSwaps(points[id := p], id, twin);
    assert id == PointId(twin.node, twin.uuid, twin.boot, id.number);
  }

  // The point with the later number, whichever arrived first, has the stretch before it as
  // its excess.
  lemma ExcessIsTwice(points: map<PointId, Point>, c: Chain, p: Point, twin: PointId, k: CellKey)
    requires Arrives(points, c, p, twin)
    ensures var id := PointId(c.node, c.uuid, c.boot, p.number);
            var later := if twin.number < p.number then id else twin;
            && later in points[id := p]
            && Excess(points[id := p], later, k) == Twice(c, PreviousPoint(points, c, p.at), p, k)
  {
    hide Window, Aligned;
    var id := PointId(c.node, c.uuid, c.boot, p.number);
    ArrivesTwin(points, c, p, twin);
    NewPointBefore(points, id, p);
    if p.number < twin.number {
      EarlierOfRepeat(points, id, p, twin, twin);
    }
    var b := Before(points, c, p.at);
    if b.Some? {
      assert points[id := p][b.value] == points[b.value];
      SameRight(c, points[b.value], p, points[twin], k);
    }
  }

  lemma SameRight(c: Chain, a: Point, b: Point, d: Point, k: CellKey)
    requires b.at == d.at
    ensures Cell(c, a, b, k) == Cell(c, a, d, k)
  {
    hide StateShare, Aligned;
  }

  // The edges after the arrival, in one cell.
  lemma EdgesTotal(points: map<PointId, Point>, c: Chain, p: Point, twin: PointId, k: CellKey)
    requires Arrives(points, c, p, twin)
    ensures var id := PointId(c.node, c.uuid, c.boot, p.number);
            Total(Corrected(points, Links(points), id, p), k)
            == Add(Total(Links(points[id := p]), k), Displaced(c, p, points[twin], NextPoint(points, c, p.at), k))
  {
    hide Links, Corrected, EdgeCell, Repeats, SameTime, Total, After;
    var id, after := PointId(c.node, c.uuid, c.boot, p.number), After(points, c, p.at);
    ArrivesTwin(points, c, p, twin);
    var links := Links(points[id := p]);
    if twin.number < p.number {
      RepeatCorrected(points, id, p, twin);
      AddZero(Total(links, k));
    } else {
      LateCorrected(points, id, p, twin);
      if after.None? {
        AddZero(Total(links, k));
      } else {
        DisplacedTotal(points, c, p, twin, after.value, k);
      }
    }
  }

  lemma DisplacedTotal(points: map<PointId, Point>, c: Chain, p: Point, twin: PointId, j: PointId, k: CellKey)
    requires Arrives(points, c, p, twin) && p.number < twin.number && After(points, c, p.at) == Some(j)
    ensures var id := PointId(c.node, c.uuid, c.boot, p.number);
            Total(Links(points[id := p])[j := MakeEdge(c, p, points[j])], k)
            == Add(Total(Links(points[id := p]), k), Sub(Cell(c, p, points[j], k), Cell(c, points[twin], points[j], k)))
  {
    hide EdgeCell, Repeats, SameTime, Total, Add, Negate;
    var id := PointId(c.node, c.uuid, c.boot, p.number);
    var larger := points[id := p];
    ArrivesTwin(points, c, p, twin);
    TwinBeforeNext(points, id, p, twin, j);
    assert larger[twin] == points[twin] && larger[j] == points[j];
    TotalSetEdge(Links(larger), j, MakeEdge(c, p, points[j]), k);
    assert OldCell(Links(larger), j, k) == Cell(c, points[twin], points[j], k);
    Exchange(Total(Links(larger), k), Cell(c, points[twin], points[j], k), Cell(c, p, points[j], k));
  }

  lemma Exchange(t: Amounts, old_: Amounts, new_: Amounts)
    ensures Add(Sub(t, old_), new_) == Add(t, Sub(new_, old_))
  {
  }

  // With a repeated time, the rollups are the batch integral, and the stretch before the
  // repeat once more, and what the late point displaces after it.
  lemma {:induction false} RepeatedTimeExceeds(st: State, c: Chain, p: Point, twin: PointId, k: CellKey)
    requires Exact(st) && Arrives(st.points, c, p, twin)
    ensures var after, t := Link(st, c, p), st.points[twin];
            var excess := Add(Twice(c, PreviousPoint(st.points, c, p.at), p, k), Displaced(c, p, t, NextPoint(st.points, c, p.at), k));
            && k in after.rollups
            && after.rollups[k] == Add(BatchTotal(after.points, k), excess)
  {
    hide SameTime, Repeats, Links, BatchTotal, Excess, Add, Total, Twice, Displaced, Corrected, NextPoint, PreviousPoint;
    var id := PointId(c.node, c.uuid, c.boot, p.number);
    ArrivesTwin(st.points, c, p, twin);
    LinkBalanced(st, c, p);
    LinkCorrects(st, c, p);
    EdgesTotal(st.points, c, p, twin, k);
    ExcessIsTwice(st.points, c, p, twin, k);
    if twin.number < p.number {
      RepeatTotal(st.points[id := p], id, twin, k);
    } else {
      RepeatTotal(st.points[id := p], twin, id, k);
    }
    AddAssociates(BatchTotal(st.points[id := p], k), Twice(c, PreviousPoint(st.points, c, p.at), p, k),
                  Displaced(c, p, st.points[twin], NextPoint(st.points, c, p.at), k));
  }

  lemma AddAssociates(a: Amounts, b: Amounts, e: Amounts)
    ensures Add(Add(a, b), e) == Add(a, Add(b, e))
  {
  }

  /******* The whole of a stretch *******/

  // All that a stretch adds to a user, or to the card, in all buckets of one resolution.
  function Stretch(a: Point, b: Point, user: string): Amounts {
    if Joinable(a, b) then StateShare(a, user, Seconds(b.at - a.at)) else ZERO
  }

  // Something was measured at the point.
  predicate Observed(a: Point) {
    a.processValid || a.util.Some? || a.memory.Some?
  }

  // The stretch before the repeat counts for something.
  predicate Felt(before: Option<Point>, p: Point) {
    before.Some? && Joinable(before.value, p) && Observed(before.value)
  }

  function StretchBefore(before: Option<Point>, p: Point, user: string): Amounts {
    if before.Some? then Stretch(before.value, p, user) else ZERO
  }

  // The part of [lo, hi) that lies in the bucket of the cell.
  ghost function Part(lo: int, hi: int, k: CellKey): (r: real)
    requires lo < hi
  {
    Overlap(lo, hi, k.bucket, k.bucket + k.res) as real / (hi - lo) as real
  }

  lemma PartOf(lo: int, hi: int, k: CellKey)
    requires lo < hi
    ensures Seconds(Overlap(lo, hi, k.bucket, k.bucket + k.res)) == Times(Part(lo, hi, k), Seconds(hi - lo))
    ensures Part(lo, hi, k) == 0.0 <==> Overlap(lo, hi, k.bucket, k.bucket + k.res) == 0
  {
    hide Overlap;
    var n, d := Overlap(lo, hi, k.bucket, k.bucket + k.res) as real, (hi - lo) as real;
    assert d > 0.0;
    Ratio(n, d);
  }

  lemma Ratio(n: real, d: real)
    requires d > 0.0
    ensures n / d * (d / 1000.0) == n / 1000.0 && (n / d == 0.0 <==> n == 0.0)
  {
  }

  // A cell of the edge holds the part of the stretch that lies in its bucket.
  lemma CellScales(c: Chain, a: Point, b: Point, k: CellKey)
    requires a.at < b.at && k.node == c.node && k.uuid == c.uuid && IsBucket(k.res, k.bucket)
    ensures Cell(c, a, b, k) == Scale(Part(a.at, b.at, k), Stretch(a, b, k.user))
  {
    hide StateShare, Aligned, Times, Overlap, Scale, Part;
    PartOf(a.at, b.at, k);
    ShareScales(a, k.user, Part(a.at, b.at, k), Seconds(b.at - a.at));
    ScaleZero(Part(a.at, b.at, k));
  }

  lemma CellElsewhere(c: Chain, a: Point, b: Point, k: CellKey)
    requires k.node != c.node || k.uuid != c.uuid || !IsBucket(k.res, k.bucket)
    ensures Cell(c, a, b, k) == ZERO
  {
    hide Window, Aligned;
  }

  lemma NothingFelt(before: Option<Point>, p: Point, user: string)
    requires !Felt(before, p)
    ensures StretchBefore(before, p, user) == ZERO
  {
  }

  lemma SomethingFelt(before: Option<Point>, p: Point)
    requires Felt(before, p)
    ensures StretchBefore(before, p, "") != ZERO
  {
    hide Times;
    var s := Seconds(p.at - before.value.at);
    assert s > 0.0;
    var a := StateShare(before.value, "", s);
    assert a.occupancyValid > 0.0 || a.utilValid > 0.0 || a.memoryValid > 0.0;
  }

  /******* The exact condition *******/

  // Whoever arrives with the later number, or last, does harm exactly if the stretch before
  // counts for something. Whoever arrives late with the earlier number also displaces the
  // state of its twin: it does no harm if, for every user, the stretches before and after
  // it come to what the twin's stretch was, and unless the first is nothing, all of it lies
  // in one minute.
  ghost predicate Harmless(before: Option<Point>, p: Point, twin: Point, after: Option<Point>) {
    if after.None? || twin.number < p.number then !Felt(before, p)
    else
      && (forall user :: Add(StretchBefore(before, p, user), Stretch(p, after.value, user)) == Stretch(twin, after.value, user))
      && (Felt(before, p) ==> MinuteOf(before.value.at) == MinuteOf(after.value.at - 1))
  }

  ghost predicate Around(before: Option<Point>, p: Point, twin: Point, after: Option<Point>) {
    && twin.at == p.at
    && (before.Some? ==> before.value.at < p.at)
    && (after.Some? ==> p.at < after.value.at)
  }

  ghost function Difference(c: Chain, before: Option<Point>, p: Point, twin: Point, after: Option<Point>, k: CellKey): Amounts {
    Add(Twice(c, before, p, k), Displaced(c, p, twin, after, k))
  }

  lemma TwiceScales(c: Chain, before: Option<Point>, p: Point, k: CellKey)
    requires before.Some? ==> before.value.at < p.at
    requires k.node == c.node && k.uuid == c.uuid && IsBucket(k.res, k.bucket)
    ensures Twice(c, before, p, k)
         == if before.Some? then Scale(Part(before.value.at, p.at, k), StretchBefore(before, p, k.user)) else ZERO
    ensures !Felt(before, p) ==> Twice(c, before, p, k) == ZERO
  {
    hide Part, Scale, Aligned, EdgeCell, Felt, Stretch;
    if before.Some? {
      CellScales(c, before.value, p, k);
      if !Felt(before, p) {
        NothingFelt(before, p, k.user);
        ScaleZero(Part(before.value.at, p.at, k));
      }
    }
  }

  lemma TwiceElsewhere(c: Chain, before: Option<Point>, p: Point, k: CellKey)
    requires k.node != c.node || k.uuid != c.uuid || !IsBucket(k.res, k.bucket)
    ensures Twice(c, before, p, k) == ZERO
  {
    hide Cell, Aligned;
    if before.Some? {
      CellElsewhere(c, before.value, p, k);
    }
  }

  // A bucket holds all of an interval within one minute, or nothing of it.
  lemma WholeOrNothing(lo: int, hi: int, mid: int, res: Resolution, bucket: int)
    requires lo < mid < hi && MinuteOf(lo) == MinuteOf(hi - 1) && Aligned(bucket, res)
    ensures || (Overlap(lo, mid, bucket, bucket + res) == mid - lo && Overlap(mid, hi, bucket, bucket + res) == hi - mid)
            || (Overlap(lo, mid, bucket, bucket + res) == 0 && Overlap(mid, hi, bucket, bucket + res) == 0)
  {
    if bucket <= lo < bucket + res {
      SameBucket(lo, hi - 1, res, bucket);
    } else if bucket <= hi - 1 < bucket + res {
      SameBucket(hi - 1, lo, res, bucket);
    }
  }

  lemma SameBucket(s: int, t: int, res: Resolution, bucket: int)
    requires MinuteOf(s) == MinuteOf(t) && Aligned(bucket, res) && bucket <= s < bucket + res
    ensures bucket <= t < bucket + res
  {
    if res == MINUTE {
      BucketUnique(s, bucket, res);
    } else {
      MinuteInHour(MinuteOf(s), bucket);
    }
  }

  lemma MinuteInHour(minute: int, hour: int)
    requires minute % 60_000 == 0 && hour % 3_600_000 == 0 && minute < hour + 3_600_000 && hour < minute + 60_000
    ensures hour <= minute && minute + 60_000 <= hour + 3_600_000
  {
    assert hour % 60_000 == 0;
  }

  lemma FullPart(lo: int, hi: int, k: CellKey, a: Amounts)
    requires lo < hi
    ensures Overlap(lo, hi, k.bucket, k.bucket + k.res) == hi - lo ==> Scale(Part(lo, hi, k), a) == a
    ensures Overlap(lo, hi, k.bucket, k.bucket + k.res) == 0 ==> Scale(Part(lo, hi, k), a) == ZERO
  {
    hide Overlap, Scale;
    ScaleZero(0.0);
    ScaleOne(a);
    WholeIsOne((hi - lo) as real);
  }

  lemma WholeIsOne(d: real)
    requires d > 0.0
    ensures d / d == 1.0 && 0.0 / d == 0.0
  {
  }

  lemma SumIsDifference(x: Amounts, y: Amounts, z: Amounts)
    ensures Add(x, Sub(y, z)) == ZERO <==> Add(x, y) == z
  {
    if Add(x, Sub(y, z)) == ZERO {
      var d := Add(x, Sub(y, z));
      assert d.occupied == 0.0 && d.weighted == 0.0 && d.occupancyValid == 0.0 && d.utilValid == 0.0;
      assert d.memorySum == 0.0 && d.memoryValid == 0.0 && d.attributionValid == 0.0;
    }
  }

  lemma HarmlessCell(c: Chain, before: Option<Point>, p: Point, twin: Point, after: Option<Point>, k: CellKey)
    requires Around(before, p, twin, after) && Harmless(before, p, twin, after) && p.number != twin.number
    ensures Difference(c, before, p, twin, after, k) == ZERO
  {
    hide Part, Scale, Add, Sub, Aligned, Overlap, Cell, Stretch, StretchBefore, Felt, Twice;
    AddZero(ZERO);
    SumIsDifference(ZERO, ZERO, ZERO);
    if k.node != c.node || k.uuid != c.uuid || !IsBucket(k.res, k.bucket) {
      TwiceElsewhere(c, before, p, k);
      if after.Some? {
        CellElsewhere(c, p, after.value, k);
        CellElsewhere(c, twin, after.value, k);
      }
    } else {
      TwiceScales(c, before, p, k);
      if after.Some? && !(twin.number < p.number) {
        CellScales(c, p, after.value, k);
        CellScales(c, twin, after.value, k);
        HarmlessStretches(before, p, twin, after.value, k);
        if Felt(before, p) {
          FeltSome(before, p);
        }
        var x, y, z := Twice(c, before, p, k), Cell(c, p, after.value, k), Cell(c, twin, after.value, k);
        assert Add(x, y) == z;
        SumIsDifference(x, y, z);
      }
    }
  }

  // In one cell, the scaled stretches balance as the whole ones do.
  lemma HarmlessStretches(before: Option<Point>, p: Point, twin: Point, after: Point, k: CellKey)
    requires Around(before, p, twin, Some(after)) && Harmless(before, p, twin, Some(after)) && !(twin.number < p.number)
    requires IsBucket(k.res, k.bucket)
    ensures var s := Scale(Part(p.at, after.at, k), Stretch(p, after, k.user));
            var t := Scale(Part(p.at, after.at, k), Stretch(twin, after, k.user));
            && (!Felt(before, p) ==> Add(ZERO, s) == t)
            && (Felt(before, p) ==> Add(Scale(Part(before.value.at, p.at, k), StretchBefore(before, p, k.user)), s) == t)
  {
    hide Part, Scale, Aligned, Overlap, Stretch, StretchBefore, Felt, Add;
    var s, t := Stretch(p, after, k.user), Stretch(twin, after, k.user);
    assert Add(StretchBefore(before, p, k.user), s) == t;
    if !Felt(before, p) {
      NothingFelt(before, p, k.user);
      AddZeroLeft(s);
      AddZeroLeft(Scale(Part(p.at, after.at, k), s));
    } else {
      hide Harmless, MinuteOf;
      assert before.Some? && MinuteOf(before.value.at) == MinuteOf(after.at - 1) by {
        FeltSome(before, p);
      }
      var f := StretchBefore(before, p, k.user);
      AddZeroLeft(ZERO);
      WholeOrNothing(before.value.at, after.at, p.at, k.res, k.bucket);
      FullPart(before.value.at, p.at, k, f);
      FullPart(p.at, after.at, k, s);
      FullPart(p.at, after.at, k, t);
    }
  }

  lemma FeltSome(before: Option<Point>, p: Point)
    requires Felt(before, p)
    ensures before.Some?
  {
  }

  // The other direction. The minute of a time, as a cell of the user.
  function MinuteCell(c: Chain, user: string, at: int): CellKey {
    CellKey(c.node, c.uuid, user, MINUTE, MinuteOf(at))
  }

  // The cell that holds the time at: what the stretches put there balances.
  lemma BalancedCell(c: Chain, before: Option<Point>, p: Point, twin: Point, after: Point, user: string, at: int)
    requires Around(before, p, twin, Some(after)) && p.number < twin.number
    requires Difference(c, before, p, twin, Some(after), MinuteCell(c, user, at)) == ZERO
    ensures var k := MinuteCell(c, user, at);
            Add(if before.Some? then Scale(Part(before.value.at, p.at, k), StretchBefore(before, p, user)) else ZERO,
                Scale(Part(p.at, after.at, k), Stretch(p, after, user)))
            == Scale(Part(p.at, after.at, k), Stretch(twin, after, user))
  {
    hide Part, Scale, Add, Sub, Overlap, Cell, Stretch, StretchBefore, Felt, Twice, MinuteOf;
    var k := MinuteCell(c, user, at);
    TwiceScales(c, before, p, k);
    CellScales(c, p, after, k);
    CellScales(c, twin, after, k);
    SumIsDifference(Twice(c, before, p, k), Cell(c, p, after, k), Cell(c, twin, after, k));
  }

  // Where nothing of the first stretch falls, the states of the twins must agree.
  lemma SameStates(c: Chain, before: Option<Point>, p: Point, twin: Point, after: Point, user: string, at: int)
    requires Around(before, p, twin, Some(after)) && p.number < twin.number && p.at <= at < after.at
    requires Difference(c, before, p, twin, Some(after), MinuteCell(c, user, at)) == ZERO
    requires !Felt(before, p) || before.value.at >= MinuteOf(at) + 60_000 || p.at <= MinuteOf(at)
    ensures Stretch(p, after, user) == Stretch(twin, after, user)
  {
    hide Scale, Add, Stretch, StretchBefore, Felt, Part;
    var k := MinuteCell(c, user, at);
    BalancedCell(c, before, p, twin, after, user, at);
    var s, t := Stretch(p, after, user), Stretch(twin, after, user);
    PartOf(p.at, after.at, k);
    if before.Some? {
      var f := StretchBefore(before, p, user);
      FullPart(before.value.at, p.at, k, f);
      if !Felt(before, p) {
        NothingFelt(before, p, user);
        ScaleZero(Part(before.value.at, p.at, k));
      }
    }
    AddZeroLeft(Scale(Part(p.at, after.at, k), s));
    ScaleCancels(Part(p.at, after.at, k), s, t);
  }

  lemma AddZeroLeft(a: Amounts)
    ensures Add(ZERO, a) == a
  {
  }

  lemma AddedNothing(x: Amounts, a: Amounts)
    requires Add(x, a) == a
    ensures x == ZERO
  {
    assert Add(x, a).occupied == a.occupied && Add(x, a).weighted == a.weighted && Add(x, a).occupancyValid == a.occupancyValid;
    assert Add(x, a).utilValid == a.utilValid && Add(x, a).memorySum == a.memorySum;
    assert Add(x, a).memoryValid == a.memoryValid && Add(x, a).attributionValid == a.attributionValid;
  }

  // In the minute of the point before, the first stretch must be made up for.
  lemma FeltMustMeet(c: Chain, before: Point, p: Point, twin: Point, after: Point)
    requires Around(Some(before), p, twin, Some(after)) && p.number < twin.number && Felt(Some(before), p)
    requires Difference(c, Some(before), p, twin, Some(after), MinuteCell(c, "", before.at)) == ZERO
    ensures Stretch(p, after, "") != Stretch(twin, after, "") && p.at < MinuteOf(before.at) + 60_000
  {
    hide Scale, Add, Stretch, StretchBefore, Felt, Part;
    var k := MinuteCell(c, "", before.at);
    BalancedCell(c, Some(before), p, twin, after, "", before.at);
    SomethingFelt(Some(before), p);
    var f, s, t := StretchBefore(Some(before), p, ""), Stretch(p, after, ""), Stretch(twin, after, "");
    var first, later := Part(before.at, p.at, k), Part(p.at, after.at, k);
    PartOf(before.at, p.at, k);
    ScaleZero(first);
    if s == t {
      AddedNothing(Scale(first, f), Scale(later, s));
      ScaleCancels(first, f, ZERO);
    }
    if p.at >= k.bucket + 60_000 {
      FullPart(p.at, after.at, k, s);
      FullPart(p.at, after.at, k, t);
      AddZero(Scale(first, f));
      ScaleCancels(first, f, ZERO);
    }
  }

  lemma FeltInOneMinute(c: Chain, before: Point, p: Point, twin: Point, after: Point)
    requires Around(Some(before), p, twin, Some(after)) && p.number < twin.number && Felt(Some(before), p)
    requires forall k: CellKey :: Difference(c, Some(before), p, twin, Some(after), k) == ZERO
    ensures MinuteOf(before.at) == MinuteOf(after.at - 1)
  {
    hide Difference, Stretch, Felt;
    FeltMustMeet(c, before, p, twin, after);
    if MinuteOf(before.at) != MinuteOf(after.at - 1) {
      LaterMinute(before.at, after.at - 1);
      SameStates(c, Some(before), p, twin, after, "", after.at - 1);
    }
  }

  lemma LaterMinute(s: int, t: int)
    requires s <= t && MinuteOf(s) != MinuteOf(t)
    ensures MinuteOf(s) + 60_000 <= MinuteOf(t)
  {
    AlignedApart(MinuteOf(s), MinuteOf(t), MINUTE);
  }

  lemma StretchesBalance(c: Chain, before: Option<Point>, p: Point, twin: Point, after: Point, user: string)
    requires Around(before, p, twin, Some(after)) && p.number < twin.number
    requires forall k: CellKey :: Difference(c, before, p, twin, Some(after), k) == ZERO
    ensures Add(StretchBefore(before, p, user), Stretch(p, after, user)) == Stretch(twin, after, user)
  {
    hide Difference, Stretch, StretchBefore, Felt, Add, Scale, Part;
    if !Felt(before, p) {
      NothingFelt(before, p, user);
      SameStates(c, before, p, twin, after, user, p.at);
      AddZeroLeft(Stretch(p, after, user));
    } else {
      FeltSome(before, p);
      var b := before.value;
      FeltInOneMinute(c, b, p, twin, after);
      var k := MinuteCell(c, user, b.at);
      BalancedCell(c, before, p, twin, after, user, b.at);
      FullPart(b.at, p.at, k, StretchBefore(before, p, user));
      FullPart(p.at, after.at, k, Stretch(p, after, user));
      FullPart(p.at, after.at, k, Stretch(twin, after, user));
    }
  }

  // The first stretch alone: something is left in the minute in which it starts.
  lemma FeltAlone(c: Chain, before: Point, p: Point)
    requires before.at < p.at && Felt(Some(before), p)
    ensures Twice(c, Some(before), p, MinuteCell(c, "", before.at)) != ZERO
  {
    hide Scale, Stretch, StretchBefore, Felt, Part, Cell;
    var k := MinuteCell(c, "", before.at);
    TwiceScales(c, Some(before), p, k);
    SomethingFelt(Some(before), p);
    PartOf(before.at, p.at, k);
    ScaleZero(Part(before.at, p.at, k));
    if Twice(c, Some(before), p, k) == ZERO {
      ScaleCancels(Part(before.at, p.at, k), StretchBefore(Some(before), p, ""), ZERO);
    }
  }

  lemma DifferenceIff(c: Chain, before: Option<Point>, p: Point, twin: Point, after: Option<Point>)
    requires Around(before, p, twin, after) && p.number != twin.number
    ensures (forall k: CellKey :: Difference(c, before, p, twin, after, k) == ZERO) <==> Harmless(before, p, twin, after)
  {
    hide Twice, Cell, Stretch, StretchBefore, Felt, Sub;
    if Harmless(before, p, twin, after) {
      forall k: CellKey
        ensures Difference(c, before, p, twin, after, k) == ZERO
      {
        HarmlessCell(c, before, p, twin, after, k);
      }
    } else if after.None? || twin.number < p.number {
      FeltSome(before, p);
      var k := MinuteCell(c, "", before.value.at);
      FeltAlone(c, before.value, p);
      AddZero(Twice(c, before, p, k));
      assert Difference(c, before, p, twin, after, k) != ZERO;
    } else if forall k: CellKey :: Difference(c, before, p, twin, after, k) == ZERO {
      forall user
        ensures Add(StretchBefore(before, p, user), Stretch(p, after.value, user)) == Stretch(twin, after.value, user)
      {
        StretchesBalance(c, before, p, twin, after.value, user);
      }
      if Felt(before, p) {
        FeltSome(before, p);
        FeltInOneMinute(c, before.value, p, twin, after.value);
      }
      assert false;
    }
  }

  // The late twin loses a stretch: what was seen at the twin gives way to a point at which
  // nothing was measured.
  lemma LateTwinLoses(p: Point, twin: Point, after: Point)
    requires p.at == twin.at && p.number < twin.number
    requires Joinable(twin, after) && Observed(twin) && !Observed(p)
    ensures !Harmless(None, p, twin, Some(after))
  {
    hide Observed, Joinable, StateShare;
    SomethingFelt(Some(twin), after);
    NothingFelt(Some(p), after, "");
    AddZero(ZERO);
    assert Add(StretchBefore(None, p, ""), Stretch(p, after, "")) != Stretch(twin, after, "");
  }

  lemma AddIsZero(a: Amounts, b: Amounts)
    ensures Add(a, b) == a <==> b == ZERO
  {
    if Add(a, b) == a {
      assert Add(b, a) == a;
      AddedNothing(b, a);
    }
  }

  // When a sample repeats a time, in either order of arrival, the rollups still equal the
  // batch definition if and only if the condition Harmless holds of the four points.
  lemma {:induction false} RepeatedTimeIsHarmlessIff(st: State, c: Chain, p: Point, twin: PointId)
    requires Exact(st) && Arrives(st.points, c, p, twin)
    ensures (forall k: CellKey :: Read(Link(st, c, p).rollups, k) == BatchTotal(Link(st, c, p).points, k))
       <==> Harmless(PreviousPoint(st.points, c, p.at), p, st.points[twin], NextPoint(st.points, c, p.at))
  {
    hide Exact, Links, BatchTotal, Add, Harmless, Link, SameTime, Repeats, Twice, Displaced;
    ArrivesTwin(st.points, c, p, twin);
    var after, t := Link(st, c, p), st.points[twin];
    var b, a := PreviousPoint(st.points, c, p.at), NextPoint(st.points, c, p.at);
    DifferenceIff(c, b, p, t, a);
    forall k: CellKey
      ensures Read(after.rollups, k) == BatchTotal(after.points, k) <==> Difference(c, b, p, t, a, k) == ZERO
    {
      RepeatedTimeExceeds(st, c, p, twin, k);
      AddIsZero(BatchTotal(after.points, k), Difference(c, b, p, t, a, k));
    }
  }
}
