/**
 The in-process rate limiter (internal/hub/auth.go, allowed): fixed windows of a minute
 per key, a sweep when the table is large, and refusal when the sweep does not help.
 Times are in nanoseconds.
 */
module RateLimiter {

  const WINDOW: int := 60_000_000_000
  const TABLE: nat := 4096

  datatype Rate = Rate(count: nat, reset: int)

  function Swept(rates: map<string, Rate>, now: int): map<string, Rate> {
    map k | k in rates && now <= rates[k].reset :: rates[k]
  }

  function Cleared(rates: map<string, Rate>, now: int): map<string, Rate> {
    if |rates| > TABLE then Swept(rates, now) else rates
  }

  predicate Opens(rates: map<string, Rate>, key: string, now: int) {
    key !in rates || now > rates[key].reset
  }

  function After(rates: map<string, Rate>, key: string, now: int): map<string, Rate> {
    var cleared := Cleared(rates, now);
    if |cleared| > TABLE then cleared
    else if Opens(cleared, key, now) then cleared[key := Rate(1, now + WINDOW)]
    else cleared[key := Rate(cleared[key].count + 1, cleared[key].reset)]
  }

  predicate Admits(rates: map<string, Rate>, key: string, limit: int, now: int) {
    var cleared := Cleared(rates, now);
    |cleared| <= TABLE && (Opens(cleared, key, now) || cleared[key].count + 1 <= limit)
  }

  class Limiter {
    var rates: map<string, Rate>

    constructor ()
      ensures rates == map[]
    {
      rates := map[];
    }

    method Allowed(key: string, limit: int, now: int) returns (ok: bool)
      modifies this
      ensures rates == After(old(rates), key, now)
      ensures ok == Admits(old(rates), key, limit, now)
    {
      if |rates| > TABLE {
        var before := rates;
        var rest := before.Keys;
        while rest != {}
          invariant rest <= before.Keys
          invariant rates == map k | k in before && (k in rest || now <= before[k].reset) :: before[k]
          decreases rest
        {
          var k :| k in rest;
          rest := rest - {k};
          if now > before[k].reset {
            rates := rates - {k};
          }
        }
        assert rates == Swept(before, now);
        if |rates| > TABLE {
          return false;
        }
      }
      if key !in rates || now > rates[key].reset {
        rates := rates[key := Rate(1, now + WINDOW)];
        return true;
      }
      var r := Rate(rates[key].count + 1, rates[key].reset);
      rates := rates[key := r];
      return r.count <= limit;
    }
  }

  /******* Runs *******/

  datatype Call = Call(key: string, limit: int, now: int)

  function Table(calls: seq<Call>): map<string, Rate> {
    if calls == [] then map[]
    else
      var last := calls[|calls| - 1];
      After(Table(calls[..|calls| - 1]), last.key, last.now)
  }

  predicate AdmitsLast(calls: seq<Call>)
    requires calls != []
  {
    var last := calls[|calls| - 1];
    Admits(Table(calls[..|calls| - 1]), last.key, last.limit, last.now)
  }

  // The calls of one key that are admitted in the span of a window from t on.
  function AdmittedIn(calls: seq<Call>, key: string, t: int): nat {
    if calls == [] then 0
    else
      var last := calls[|calls| - 1];
      AdmittedIn(calls[..|calls| - 1], key, t)
      + (if last.key == key && t <= last.now <= t + WINDOW && AdmitsLast(calls) then 1 else 0)
  }

  ghost predicate Monotone(calls: seq<Call>) {
    forall i, j :: 0 <= i < j < |calls| ==> calls[i].now <= calls[j].now
  }

  ghost predicate SameLimit(calls: seq<Call>, key: string, limit: int) {
    forall c :: c in calls && c.key == key ==> c.limit == limit
  }

  lemma Smaller<K, V>(m: map<K, V>, n: map<K, V>)
    requires n.Keys <= m.Keys
    ensures |n| <= |m|
  {
    Subset(n.Keys, m.Keys);
    assert |n| == |n.Keys| && |m| == |m.Keys|;
  }

  lemma {:induction false} Subset<K>(a: set<K>, b: set<K>)
    requires a <= b
    ensures |a| <= |b|
    decreases |a|
  {
    if a != {} {
      var x :| x in a;
      Subset(a - {x}, b - {x});
    }
  }

  lemma OneMore<K, V>(m: map<K, V>, k: K, v: V)
    ensures |m[k := v]| <= |m| + 1
  {
    assert m[k := v].Keys == m.Keys + {k};
    assert |m.Keys + {k}| <= |m.Keys| + 1;
    assert |m[k := v]| == |m[k := v].Keys| && |m| == |m.Keys|;
  }

  // The table never grows beyond one entry over the threshold.
  lemma {:induction false} TableIsBounded(calls: seq<Call>)
    ensures |Table(calls)| <= 4097
  {
    if calls != [] {
      var before, last := Table(calls[..|calls| - 1]), calls[|calls| - 1];
      TableIsBounded(calls[..|calls| - 1]);
      Smaller(before, Swept(before, last.now));
      var cleared := Cleared(before, last.now);
      if |cleared| <= TABLE {
        OneMore(cleared, last.key, Table(calls)[last.key]);
      }
    }
  }

  // A sweep takes away expired counters only: an unexpired one keeps its window, and its
  // count changes by the calls of its own key alone.
  lemma UnexpiredIsKept(rates: map<string, Rate>, key: string, now: int, k: string)
    requires k in rates && now <= rates[k].reset
    ensures k in After(rates, key, now)
    ensures After(rates, key, now)[k].reset == rates[k].reset
    ensures After(rates, key, now)[k].count == rates[k].count
         || (k == key && After(rates, key, now)[k].count == rates[k].count + 1)
  {
  }

  function Min(a: int, b: int): int {
    if a <= b then a else b
  }

  // A window that opened before the span has its first call outside it; one that opened
  // inside the span outlasts it. So a span meets two windows at most, and never the whole
  // of the first.
  ghost predicate SpanInv(rates: map<string, Rate>, key: string, limit: int, t: int, lastNow: int, admitted: int) {
    if lastNow > t + WINDOW then admitted <= 2 * limit - 1
    else if key !in rates then admitted <= limit - 1
    else if rates[key].reset < t + WINDOW then admitted <= Min(rates[key].count, limit) - 1
    else admitted <= limit - 1 + Min(rates[key].count, limit)
  }

  lemma SpanStep(rates: map<string, Rate>, key: string, limit: int, t: int, lastNow: int, admitted: int, c: Call)
    requires 1 <= limit && 0 <= admitted && lastNow <= c.now && (c.key == key ==> c.limit == limit)
    requires c.now < t ==> admitted == 0
    requires SpanInv(rates, key, limit, t, lastNow, admitted)
    ensures var more := if c.key == key && t <= c.now <= t + WINDOW && Admits(rates, c.key, c.limit, c.now) then 1 else 0;
            SpanInv(After(rates, c.key, c.now), key, limit, t, c.now, admitted + more)
  {
    var cleared := Cleared(rates, c.now);
    assert key in cleared ==> key in rates && cleared[key] == rates[key];
    assert key in rates && key !in cleared ==> c.now > rates[key].reset;
  }

  lemma {:induction false} NoneBefore(calls: seq<Call>, key: string, t: int)
    requires Monotone(calls) && calls != [] && calls[|calls| - 1].now < t
    ensures AdmittedIn(calls, key, t) == 0
  {
    if |calls| > 1 {
      var before := calls[..|calls| - 1];
      assert before[|before| - 1] == calls[|calls| - 2];
      NoneBefore(before, key, t);
    } else {
      assert calls[..0] == [];
    }
  }

  lemma {:induction false} SpanHolds(calls: seq<Call>, key: string, limit: int, t: int)
    requires 1 <= limit && Monotone(calls) && SameLimit(calls, key, limit) && calls != []
    ensures SpanInv(Table(calls), key, limit, t, calls[|calls| - 1].now, AdmittedIn(calls, key, t))
  {
    hide SpanInv, After, Admits;
    var before, last := calls[..|calls| - 1], calls[|calls| - 1];
    assert last in calls;
    if before == [] {
      EmptySpan(key, limit, t, last.now);
      SpanStep(map[], key, limit, t, last.now, 0, last);
    } else {
      assert before[|before| - 1] == calls[|calls| - 2];
      SpanHolds(before, key, limit, t);
      if last.now < t {
        NoneBefore(before, key, t);
      }
      SpanStep(Table(before), key, limit, t, before[|before| - 1].now, AdmittedIn(before, key, t), last);
    }
  }

  lemma EmptySpan(key: string, limit: int, t: int, now: int)
    requires 1 <= limit
    ensures SpanInv(map[], key, limit, t, now, 0)
  {
  }

  // Any span of a minute, wherever it starts, admits fewer than twice the limit.
  lemma LessThanTwiceTheLimit(calls: seq<Call>, key: string, limit: int, t: int)
    requires 1 <= limit && Monotone(calls) && SameLimit(calls, key, limit)
    ensures AdmittedIn(calls, key, t) <= 2 * limit - 1
  {
    if calls != [] {
      SpanHolds(calls, key, limit, t);
    }
  }

  // The bound is met: one call opens a window, the rest of its quota comes at its end, and
  // a full quota right after it.
  function Burst(key: string, limit: nat, n: nat): seq<Call> {
    if n == 0 then []
    else Burst(key, limit, n - 1) + [Call(key, limit, if n == 1 then 0 else if n <= limit then WINDOW else WINDOW + 1)]
  }

  lemma {:induction false} BurstAdmits(key: string, limit: nat, n: nat)
    requires 1 <= n <= 2 * limit
    ensures |Burst(key, limit, n)| == n
    ensures Table(Burst(key, limit, n)) == map[key := if n <= limit then Rate(n, WINDOW) else Rate(n - limit, 2 * WINDOW + 1)]
    ensures AdmittedIn(Burst(key, limit, n), key, WINDOW) == n - 1
  {
    hide After, Admits, Table, AdmittedIn, Burst;
    var before := Burst(key, limit, n - 1);
    var last := Call(key, limit, if n == 1 then 0 else if n <= limit then WINDOW else WINDOW + 1);
    BurstSnoc(key, limit, n);
    Snoc(before, last, key, WINDOW);
    if n == 1 {
      NoCalls(key, limit, WINDOW);
      FirstCall(key, limit, 0);
    } else {
      BurstAdmits(key, limit, n - 1);
      NextCall(key, Table(before)[key], limit, last.now);
    }
  }

  lemma BurstSnoc(key: string, limit: nat, n: nat)
    requires 1 <= n
    ensures Burst(key, limit, n)
         == Burst(key, limit, n - 1) + [Call(key, limit, if n == 1 then 0 else if n <= limit then WINDOW else WINDOW + 1)]
  {
  }

  lemma NoCalls(key: string, limit: nat, t: int)
    ensures Burst(key, limit, 0) == [] && Table([]) == map[] && AdmittedIn([], key, t) == 0
  {
  }

  lemma Snoc(calls: seq<Call>, c: Call, key: string, t: int)
    ensures Table(calls + [c]) == After(Table(calls), c.key, c.now)
    ensures AdmittedIn(calls + [c], key, t)
         == AdmittedIn(calls, key, t)
            + (if c.key == key && t <= c.now <= t + WINDOW && Admits(Table(calls), c.key, c.limit, c.now) then 1 else 0)
  {
    hide After, Admits;
    assert (calls + [c])[..|calls|] == calls;
  }

  lemma FirstCall(key: string, limit: int, now: int)
    ensures After(map[], key, now) == map[key := Rate(1, now + WINDOW)] && Admits(map[], key, limit, now)
  {
  }

  lemma NextCall(key: string, r: Rate, limit: int, now: int)
    ensures After(map[key := r], key, now) == map[key := if now > r.reset then Rate(1, now + WINDOW) else Rate(r.count + 1, r.reset)]
    ensures Admits(map[key := r], key, limit, now) == (now > r.reset || r.count + 1 <= limit)
  {
    assert |map[key := r]| == 1;
  }

  lemma {:induction false} BurstTimes(key: string, limit: nat, n: nat)
    ensures |Burst(key, limit, n)| == n
    ensures forall i :: 0 <= i < n ==>
              Burst(key, limit, n)[i] == Call(key, limit, if i == 0 then 0 else if i < limit then WINDOW else WINDOW + 1)
  {
    if n != 0 {
      BurstTimes(key, limit, n - 1);
    }
  }

  lemma TheBoundIsMet(key: string, limit: nat)
    requires 1 <= limit
    ensures var calls := Burst(key, limit, 2 * limit);
            && Monotone(calls) && SameLimit(calls, key, limit)
            && AdmittedIn(calls, key, WINDOW) == 2 * limit - 1
  {
    BurstTimes(key, limit, 2 * limit);
    BurstAdmits(key, limit, 2 * limit);
  }
  /******* One call *******/

  // A call is admitted if and only if there is room, and its key has no window or an expired
  // one, or has calls left in it. A full table makes room by dropping the expired counters.
  lemma AdmittedIff(rates: map<string, Rate>, key: string, limit: int, now: int)
    ensures Admits(rates, key, limit, now)
       <==> && (|rates| <= 4096 || |map k | k in rates && rates[k].reset >= now :: rates[k]| <= 4096)
            && (key !in rates || rates[key].reset < now || rates[key].count < limit)
  {
    assert Swept(rates, now) == map k | k in rates && rates[k].reset >= now :: rates[k];
  }

  // What a call leaves. With room in the table, its key has counted one more call, in its
  // window or in a new one of a minute. Of the others, only expired counters can go, and in a
  // table that was full all of them do.
  lemma OneCall(rates: map<string, Rate>, key: string, now: int)
    ensures var after := After(rates, key, now);
            && (|Cleared(rates, now)| <= 4096 ==>
                  && key in after
                  && after[key] == (if key in rates && rates[key].reset >= now then Rate(rates[key].count + 1, rates[key].reset)
                                    else Rate(1, now + 60_000_000_000)))
            && (forall k :: k in after && k != key ==> k in rates && after[k] == rates[k])
            && (forall k :: k in rates && k !in after ==> rates[k].reset < now && |rates| > 4096)
            && (|rates| > 4096 ==> forall k :: k in after && k != key ==> rates[k].reset >= now)
  {
  }

  // All calls of a key in the span of a minute from t on, admitted or not.
  function CallsIn(calls: seq<Call>, key: string, t: int): nat {
    if calls == [] then 0
    else
      var last := calls[|calls| - 1];
      CallsIn(calls[..|calls| - 1], key, t) + (if last.key == key && t <= last.now <= t + 60_000_000_000 then 1 else 0)
  }

  lemma {:induction false} CountedCalls(calls: seq<Call>, key: string)
    requires Monotone(calls) && key in Table(calls)
    ensures var r := Table(calls)[key];
            && calls != [] && r.reset - WINDOW <= calls[|calls| - 1].now
            && r.count <= CallsIn(calls, key, r.reset - WINDOW)
    decreases |calls|
  {
    var before, last := calls[..|calls| - 1], calls[|calls| - 1];
    OneCall(Table(before), last.key, last.now);
    if key in Table(before) {
      CountedCalls(before, key);
      assert before[|before| - 1] == calls[|calls| - 2];
    }
  }

  // A key that keeps to its limit in every minute is never refused while the table has room.
  lemma {:induction false} ModestIsAdmitted(calls: seq<Call>, key: string, limit: int)
    requires Monotone(calls) && calls != [] && 1 <= limit
    requires calls[|calls| - 1].key == key && calls[|calls| - 1].limit == limit
    requires |Table(calls[..|calls| - 1])| <= 4096 && forall t :: CallsIn(calls, key, t) <= limit
    ensures AdmitsLast(calls)
  {
    var before, last := calls[..|calls| - 1], calls[|calls| - 1];
    AdmittedIff(Table(before), key, limit, last.now);
    if key in Table(before) && Table(before)[key].reset >= last.now {
      CountedCalls(before, key);
      assert before[|before| - 1] == calls[|calls| - 2];
      var t := Table(before)[key].reset - WINDOW;
      assert CallsIn(calls, key, t) == CallsIn(before, key, t) + 1;
    }
  }
}
