/**
 One round of the upload goroutine (internal/agent/upload.go): the newest sample first,
 to restore the live view, then the backlog from the oldest on; at most 20 files; the
 round ends at the first failure, and that sample stays for the next round.
 */
module Upload {

  const BATCH: nat := 20

  // A directory entry, whether its content can be read as a snapshot, and how the hub
  // would answer if it were posted now. Names are distinct.
  datatype Entry = Entry(name: string, isSample: bool, readable: bool, accepted: bool)

  predicate Sendable(e: Entry) {
    e.isSample && e.readable
  }

  // The listing is in name order; the last name is the newest sample.
  function AttemptOrder(listing: seq<Entry>): seq<Entry> {
    if |listing| > 1 then [listing[|listing| - 1]] + listing[..|listing| - 1] else listing
  }

  function Sendables(entries: seq<Entry>): seq<Entry> {
    if entries == [] then []
    else
      var last := entries[|entries| - 1];
      Sendables(entries[..|entries| - 1]) + (if Sendable(last) then [last] else [])
  }

  function Without(entries: seq<Entry>, gone: set<Entry>): seq<Entry> {
    if entries == [] then []
    else
      var last := entries[|entries| - 1];
      if last in gone then Without(entries[..|entries| - 1], gone) else Without(entries[..|entries| - 1], gone) + [last]
  }

  // The posts that the hub confirmed.
  function Confirmed(posts: seq<Entry>): set<Entry> {
    set e | e in posts && e.accepted
  }

  function Min(a: nat, b: nat): nat {
    if a <= b then a else b
  }

  lemma {:induction false} WithoutMore(entries: seq<Entry>, gone: set<Entry>, more: set<Entry>)
    ensures Without(Without(entries, gone), more) == Without(entries, gone + more)
    decreases |entries|
  {
    if entries != [] {
      var init, last := entries[..|entries| - 1], entries[|entries| - 1];
      WithoutMore(init, gone, more);
      if last !in gone {
        assert (Without(init, gone) + [last])[..|Without(init, gone)|] == Without(init, gone);
      }
    }
  }

  lemma {:induction false} WithoutNothing(entries: seq<Entry>)
    ensures Without(entries, {}) == entries
    decreases |entries|
  {
    if entries != [] {
      WithoutNothing(entries[..|entries| - 1]);
    }
  }

  lemma SendablesStep(entries: seq<Entry>, i: nat)
    requires i < |entries|
    ensures Sendables(entries[..i + 1]) == Sendables(entries[..i]) + (if Sendable(entries[i]) then [entries[i]] else [])
  {
    assert entries[..i + 1][..i] == entries[..i];
  }

  lemma {:induction false} SendablesPrefix(entries: seq<Entry>, i: nat)
    requires i <= |entries|
    ensures Sendables(entries[..i]) <= Sendables(entries)
    decreases |entries| - i
  {
    if i == |entries| {
      assert entries[..i] == entries;
    } else {
      SendablesStep(entries, i);
      SendablesPrefix(entries, i + 1);
    }
  }

  // A round after i files of the order, with no failure so far.
  ghost predicate Progress(listing: seq<Entry>, tried: seq<Entry>, i: nat, posts: seq<Entry>, queue: seq<Entry>)
    requires i <= |tried|
  {
    && posts == Sendables(tried[..i])
    && (forall e :: e in posts ==> e.accepted)
    && queue == Without(listing, Confirmed(posts))
  }

  lemma RoundStart(listing: seq<Entry>, tried: seq<Entry>)
    ensures Progress(listing, tried, 0, [], listing)
  {
    assert Confirmed([]) == {};
    WithoutNothing(listing);
  }

  lemma RoundStep(listing: seq<Entry>, tried: seq<Entry>, i: nat, posts: seq<Entry>, queue: seq<Entry>)
    requires i < |tried| && Progress(listing, tried, i, posts, queue)
    ensures var e := tried[i];
            && (!Sendable(e) ==> Progress(listing, tried, i + 1, posts, queue))
            && (Sendable(e) && e.accepted ==> Progress(listing, tried, i + 1, posts + [e], Without(queue, {e})))
            && (Sendable(e) && !e.accepted ==>
                  posts + [e] <= Sendables(tried) && queue == Without(listing, Confirmed(posts + [e])))
  {
    var e := tried[i];
    SendablesStep(tried, i);
    SendablesPrefix(tried, i + 1);
    if e.accepted {
      assert Confirmed(posts + [e]) == Confirmed(posts) + {e};
      WithoutMore(listing, Confirmed(posts), {e});
    } else {
      assert Confirmed(posts + [e]) == Confirmed(posts);
    }
  }

  lemma {:induction false} InSendables(entries: seq<Entry>, e: Entry)
    ensures e in Sendables(entries) <==> e in entries && Sendable(e)
    decreases |entries|
  {
    if entries != [] {
      InSendables(entries[..|entries| - 1], e);
      assert entries == entries[..|entries| - 1] + [entries[|entries| - 1]];
    }
  }

  lemma PostsAreSendable(tried: seq<Entry>, posts: seq<Entry>)
    requires posts <= Sendables(tried)
    ensures forall e :: e in posts ==> e in tried && e.isSample && e.readable
  {
    hide Sendables;
    forall e | e in posts
      ensures e in tried && e.isSample && e.readable
    {
      InSendables(tried, e);
    }
  }

  class Agent {
    var queue: seq<Entry>

    // stop is the number of files after which a shutdown is noticed, if it is small enough.
    method UploadBatch(stop: nat) returns (posts: seq<Entry>, failed: bool)
      modifies this
      ensures var most := if stop < 20 then stop else 20;
              var tried := AttemptOrder(old(queue))[..if most < |old(queue)| then most else |old(queue)|];
              && posts <= Sendables(tried)
              && (failed <==> posts != [] && !posts[|posts| - 1].accepted)
              && (forall i :: 0 <= i < |posts| - 1 ==> posts[i].accepted)
              && (!failed ==> posts == Sendables(tried))
              && (forall e :: e in posts ==> e in tried && e.isSample && e.readable)
      ensures queue == Without(old(queue), Confirmed(posts))
    {
      hide Sendables, Without, Confirmed;
      var entries := AttemptOrder(queue);
      var limit := Min(Min(BATCH, stop), |entries|);
      ghost var listing, tried := queue, entries[..limit];
      posts := [];
      RoundStart(listing, tried);
      for i := 0 to limit
        invariant Progress(listing, tried, i, posts, queue)
      {
        var e := entries[i];
        assert tried[i] == e;
        RoundStep(listing, tried, i, posts, queue);
        if !e.isSample || !e.readable {
          continue;
        }
        posts := posts + [e];
        if !e.accepted {
          PostsAreSendable(tried, posts);
          failed := true;
          return;
        }
        queue := Without(queue, {e});
      }
      assert tried[..limit] == tried;
      PostsAreSendable(tried, posts);
      failed := false;
    }
  }

  // The order of attempts only moves the newest sample to the front.
  lemma AttemptOrderIsPermutation(listing: seq<Entry>)
    ensures multiset(AttemptOrder(listing)) == multiset(listing)
    ensures |AttemptOrder(listing)| == |listing|
    ensures listing != [] ==> AttemptOrder(listing)[0] == listing[|listing| - 1]
    ensures forall i :: 1 <= i < |listing| ==> AttemptOrder(listing)[i] == listing[i - 1]
  {
    if |listing| > 1 {
      assert listing == listing[..|listing| - 1] + [listing[|listing| - 1]];
    }
  }

  lemma {:induction false} InWithout(entries: seq<Entry>, gone: set<Entry>, e: Entry)
    ensures e in Without(entries, gone) <==> e in entries && e !in gone
    decreases |entries|
  {
    if entries != [] {
      InWithout(entries[..|entries| - 1], gone, e);
      assert entries == entries[..|entries| - 1] + [entries[|entries| - 1]];
    }
  }

  // If the post of number k is the first to fail, exactly the samples posted before it
  // leave the queue, and it is retained.
  lemma {:induction false} FirstFailureStops(listing: seq<Entry>, posts: seq<Entry>, k: nat, left: seq<Entry>)
    requires |posts| == k + 1 && !posts[k].accepted && forall i :: 0 <= i < k ==> posts[i].accepted
    requires left == Without(listing, Confirmed(posts))
    requires forall e :: e in posts ==> e in listing
    ensures posts[k] in left
    ensures forall e :: e in listing && e !in left <==> e in posts[..k]
  {
    forall e: Entry
      ensures e in left <==> e in listing && e !in Confirmed(posts)
    {
      InWithout(listing, Confirmed(posts), e);
    }
    forall e | e in posts && e.accepted
      ensures e in posts[..k]
    {
      var i :| 0 <= i < |posts| && posts[i] == e;
      assert posts[..k][i] == e;
    }
  }

  // If every post succeeds, no sample that was among the first files of the order is left.
  lemma {:induction false} AllSucceed(listing: seq<Entry>, tried: seq<Entry>, left: seq<Entry>)
    requires forall e :: e in Sendables(tried) ==> e.accepted
    requires left == Without(listing, Confirmed(Sendables(tried)))
    ensures forall e :: e in tried && e.isSample && e.readable ==> e !in left
    ensures forall e :: e in listing && e in tried && !(e.isSample && e.readable) ==> e in left
    ensures forall e :: e in listing && e !in tried ==> e in left
  {
    forall e: Entry
      ensures e in left <==> e in listing && e !in Confirmed(Sendables(tried))
      ensures e in Sendables(tried) <==> e in tried && Sendable(e)
    {
      InSendables(tried, e);
      InWithout(listing, Confirmed(Sendables(tried)), e);
    }
  }
}
