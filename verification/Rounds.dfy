/**
 One round of each worker of the agent, the pruning of the queue (internal/agent/queue.go)
 and the upload of a batch (internal/agent/upload.go), as steps of the delivery protocol:
 what the two classes do to a directory is something that the protocol can do.
 */
module Rounds {
  import opened Wrappers
  import opened Model
  import opened Delivery
  import opened Retention
  import opened Ledger
  import opened Validation
  import Ingestion
  import Queue
  import Upload

  /******* Several steps *******/

  // The world after some steps, if each of them is possible.
  ghost function Result(w: World, actions: seq<Action>): Option<World> {
    if actions == [] then Some(w)
    else
      var before, a := Result(w, actions[..|actions| - 1]), actions[|actions| - 1];
      if before.Some? && Enabled(before.value, a) then Some(Do(before.value, a)) else None
  }

  lemma {:induction false} ResultConcat(w: World, xs: seq<Action>, ys: seq<Action>)
    requires Result(w, xs).Some?
    ensures Result(w, xs + ys) == Result(Result(w, xs).value, ys)
    decreases |ys|
  {
    hide Enabled, Do;
    if ys == [] {
      assert xs + ys == xs;
    } else {
      var n := |ys| - 1;
      assert (xs + ys)[..|xs| + n] == xs + ys[..n];
      ResultConcat(w, xs, ys[..n]);
    }
  }

  lemma ResultOne(w: World, a: Action)
    requires Enabled(w, a)
    ensures Result(w, [a]) == Some(Do(w, a))
  {
    hide Enabled, Do;
    assert [a][..0] == [];
    assert Result(w, []) == Some(w);
  }

  lemma ResultThree(w: World, a: Action, b: Action, c: Action)
    requires Enabled(w, a) && Enabled(Do(w, a), b) && Enabled(Do(Do(w, a), b), c)
    ensures Result(w, [a, b, c]) == Some(Do(Do(Do(w, a), b), c))
  {
    hide Enabled, Do, Result;
    ResultOne(w, a);
    ResultOne(Do(w, a), b);
    ResultOne(Do(Do(w, a), b), c);
    ResultConcat(w, [a], [b]);
    ResultConcat(w, [a] + [b], [c]);
    assert [a] + [b] + [c] == [a, b, c];
  }

  lemma ResultFour(w: World, a: Action, b: Action, c: Action, d: Action)
    requires Enabled(w, a) && Enabled(Do(w, a), b) && Enabled(Do(Do(w, a), b), c) && Enabled(Do(Do(Do(w, a), b), c), d)
    ensures Result(w, [a, b, c, d]) == Some(Do(Do(Do(Do(w, a), b), c), d))
  {
    hide Enabled, Do, Result;
    ResultThree(w, a, b, c);
    ResultOne(Do(Do(Do(w, a), b), c), d);
    ResultConcat(w, [a, b, c], [d]);
    assert [a, b, c] + [d] == [a, b, c, d];
  }

  // Steps that are possible at the end of a run continue it.
  lemma {:induction false} RunGoesOn(node: string, boot: string, actions: seq<Action>, worlds: seq<World>, more: seq<Action>)
      returns (longer: seq<World>)
    requires IsRun(node, boot, actions, worlds) && Result(worlds[|actions|], more).Some?
    ensures IsRun(node, boot, actions + more, longer)
    ensures longer[|actions + more|] == Result(worlds[|actions|], more).value
    decreases |more|
  {
    hide Enabled, Do, Start;
    if more == [] {
      longer := worlds;
      assert actions + more == actions;
    } else {
      var n := |more| - 1;
      var before := RunGoesOn(node, boot, actions, worlds, more[..n]);
      longer := before + [Result(worlds[|actions|], more).value];
      assert (actions + more)[..|actions| + n] == actions + more[..n];
      forall m | 0 <= m < |actions + more|
        ensures Enabled(longer[m], (actions + more)[m]) && longer[m + 1] == Do(longer[m], (actions + more)[m])
      {
        if m < |actions| + n {
          assert (actions + more)[m] == (actions + more[..n])[m];
        }
      }
    }
  }

  /******* Pruning the queue *******/

  // File names carry the identity of their sample.
  function IdsOf(files: seq<Queue.File>, ids: map<string, SampleId>): set<SampleId> {
    set i | 0 <= i < |files| && files[i].isSample && files[i].name in ids :: ids[files[i].name]
  }

  predicate Named(files: seq<Queue.File>, ids: map<string, SampleId>) {
    && (forall i :: 0 <= i < |files| && files[i].isSample ==> files[i].name in ids)
    && (forall i, j :: 0 <= i < j < |files| && files[i].isSample && files[j].isSample ==> ids[files[i].name] != ids[files[j].name])
  }

  // The samples of the listing are those of the queue.
  predicate Lists(files: seq<Queue.File>, ids: map<string, SampleId>, queue: map<SampleId, Snapshot>) {
    Named(files, ids) && IdsOf(files, ids) == queue.Keys
  }

  predicate AllSamples(files: seq<Queue.File>) {
    forall f :: f in files ==> f.isSample
  }

  function PruneActions(gone: seq<Queue.File>, ids: map<string, SampleId>): seq<Action>
    requires Named(gone, ids) && AllSamples(gone)
  {
    if gone == [] then []
    else
      var n := |gone| - 1;
      PruneActions(gone[..n], ids) + [Evict(ids[gone[n].name]), SaveDropped(gone[n].counted)]
  }

  lemma EvictOne(w: World, id: SampleId, written: bool)
    requires !w.saving && id in w.queue
    ensures Result(w, [Evict(id), SaveDropped(written)])
         == Some(w.(queue := w.queue - {id}, evicted := w.evicted + {id}, dropped := w.dropped + 1,
                    droppedOnDisk := if written then w.dropped + 1 else w.droppedOnDisk))
  {
    hide Run, Coherent, Clocked, Ingestion.Ingest;
    ResultOne(w, Evict(id));
    ResultOne(Do(w, Evict(id)), SaveDropped(written));
    ResultConcat(w, [Evict(id)], [SaveDropped(written)]);
    assert [Evict(id)] + [SaveDropped(written)] == [Evict(id), SaveDropped(written)];
  }

  ghost function Pruned(w: World, gone: seq<Queue.File>, ids: map<string, SampleId>): World {
    w.(queue := w.queue - IdsOf(gone, ids), evicted := w.evicted + IdsOf(gone, ids), dropped := w.dropped + |gone|,
       droppedOnDisk := Queue.Written(gone, w.dropped, w.droppedOnDisk))
  }

  lemma {:induction false} PruneSteps(w: World, gone: seq<Queue.File>, ids: map<string, SampleId>)
    requires !w.saving && Named(gone, ids) && AllSamples(gone) && IdsOf(gone, ids) <= w.queue.Keys
    ensures Result(w, PruneActions(gone, ids)) == Some(Pruned(w, gone, ids))
  {
    hide Enabled, Do, Result;
    if gone == [] {
      NothingPruned(w, ids);
    } else {
      var n := |gone| - 1;
      var init, last := gone[..n], gone[n];
      var id := ids[last.name];
      assert gone == init + [last];
      IdsAppend(init, last, ids);
      PruneSteps(w, init, ids);
      NewId(gone, ids);
      EvictOne(Pruned(w, init, ids), id, last.counted);
      ResultConcat(w, PruneActions(init, ids), [Evict(id), SaveDropped(last.counted)]);
      Queue.WrittenStep(init, last, w.dropped, w.droppedOnDisk);
      assert w.queue - IdsOf(init, ids) - {id} == w.queue - IdsOf(gone, ids);
      assert w.evicted + IdsOf(init, ids) + {id} == w.evicted + IdsOf(gone, ids);
      assert PruneActions(gone, ids) == PruneActions(init, ids) + [Evict(id), SaveDropped(last.counted)];
    }
  }

  lemma NothingPruned(w: World, ids: map<string, SampleId>)
    ensures Pruned(w, [], ids) == w && Result(w, []) == Some(w)
  {
    assert IdsOf([], ids) == {};
    assert w.queue - {} == w.queue;
  }

  lemma IdsAppend(files: seq<Queue.File>, f: Queue.File, ids: map<string, SampleId>)
    ensures IdsOf(files + [f], ids) == IdsOf(files, ids) + (if f.isSample && f.name in ids then {ids[f.name]} else {})
  {
    var all := files + [f];
    assert all[|files|] == f;
    forall i | 0 <= i < |files| ensures all[i] == files[i] {
    }
  }

  lemma IdsPrepend(f: Queue.File, files: seq<Queue.File>, ids: map<string, SampleId>)
    ensures IdsOf([f] + files, ids) == (if f.isSample && f.name in ids then {ids[f.name]} else {}) + IdsOf(files, ids)
  {
    var all := [f] + files;
    assert all[0] == f;
    forall i | 0 <= i < |files| ensures all[i + 1] == files[i] {
    }
  }

  lemma NewId(files: seq<Queue.File>, ids: map<string, SampleId>)
    requires files != [] && Named(files, ids) && files[|files| - 1].isSample
    ensures ids[files[|files| - 1].name] !in IdsOf(files[..|files| - 1], ids)
  {
  }

  lemma FirstId(files: seq<Queue.File>, ids: map<string, SampleId>)
    requires files != [] && Named(files, ids)
    ensures Named(files[1..], ids)
    ensures files[0].isSample ==> ids[files[0].name] !in IdsOf(files[1..], ids)
  {
  }

  lemma NamedPrepend(f: Queue.File, files: seq<Queue.File>, ids: map<string, SampleId>)
    requires Named(files, ids) && (f.isSample ==> f.name in ids && ids[f.name] !in IdsOf(files, ids))
    ensures Named([f] + files, ids)
  {
    var all := [f] + files;
    forall i, j | 0 <= i < j < |all| && all[i].isSample && all[j].isSample
      ensures ids[all[i].name] != ids[all[j].name]
    {
      assert all[j] == files[j - 1];
    }
  }

  // The walk divides the samples of a listing.
  lemma {:induction false} WalkDivides(files: seq<Queue.File>, size: int, ids: map<string, SampleId>)
    requires Named(files, ids)
    ensures var gone, kept := Queue.Gone(files, size), Queue.Kept(files, size);
            && Named(gone, ids) && Named(kept, ids) && AllSamples(gone)
            && IdsOf(gone, ids) !! IdsOf(kept, ids)
            && IdsOf(gone, ids) + IdsOf(kept, ids) == IdsOf(files, ids)
  {
    hide Named, IdsOf;
    if files == [] {
      NoneNamed(ids);
    } else {
      var f, rest := files[0], files[1..];
      assert files == [f] + rest;
      FirstId(files, ids);
      IdsPrepend(f, rest, ids);
      FirstNamed(files, ids);
      var left := if Queue.Evicted(f, size) then size - f.size else size;
      WalkDivides(rest, left, ids);
      var gone, kept := Queue.Gone(rest, left), Queue.Kept(rest, left);
      if Queue.Evicted(f, size) {
        NamedPrepend(f, gone, ids);
        IdsPrepend(f, gone, ids);
      } else {
        NamedPrepend(f, kept, ids);
        IdsPrepend(f, kept, ids);
      }
    }
  }

  lemma NoneNamed(ids: map<string, SampleId>)
    ensures Named([], ids) && IdsOf([], ids) == {}
  {
  }

  lemma FirstNamed(files: seq<Queue.File>, ids: map<string, SampleId>)
    requires files != [] && Named(files, ids)
    ensures files[0].isSample ==> files[0].name in ids
  {
  }

  // A round of pruning is a series of evictions and attempts to save the count: the queue
  // keeps the samples of the files that the walk keeps, and the counts in memory and on the
  // disk are those that the walk leaves.
  lemma {:induction false} PruneRound(w: World, files: seq<Queue.File>, ids: map<string, SampleId>)
    requires !w.saving && Lists(files, ids, w.queue)
    ensures var gone, kept := Queue.Gone(files, Queue.Total(files)), Queue.Kept(files, Queue.Total(files));
            && Named(gone, ids) && AllSamples(gone)
            && Result(w, PruneActions(gone, ids)) == Some(Pruned(w, gone, ids))
            && Lists(kept, ids, Pruned(w, gone, ids).queue)
  {
    hide Enabled, Do, Named, IdsOf;
    WalkDivides(files, Queue.Total(files), ids);
    PruneSteps(w, Queue.Gone(files, Queue.Total(files)), ids);
  }

  /******* Uploading a batch *******/

  function PostIds(posts: seq<Upload.Entry>, ids: map<string, SampleId>): set<SampleId> {
    set i | 0 <= i < |posts| && posts[i].accepted && posts[i].name in ids :: ids[posts[i].name]
  }

  predicate Known(posts: seq<Upload.Entry>, ids: map<string, SampleId>) {
    && (forall i :: 0 <= i < |posts| ==> posts[i].name in ids)
    && (forall i, j :: 0 <= i < j < |posts| ==> ids[posts[i].name] != ids[posts[j].name])
  }

  // One post and what becomes of it. A request that is not accepted was lost or turned down.
  function PostActions(id: SampleId, accepted: bool, backfill: bool, now: HubTime): seq<Action> {
    if accepted then [Post(id), Handle(id, backfill, now), Confirm(id), Delete] else [Post(id), Turn(id), GiveUp]
  }

  function UploadActions(posts: seq<Upload.Entry>, ids: map<string, SampleId>, late: set<string>, now: HubTime): seq<Action>
    requires Known(posts, ids)
  {
    if posts == [] then []
    else
      var e := posts[|posts| - 1];
      UploadActions(posts[..|posts| - 1], ids, late, now) + PostActions(ids[e.name], e.accepted, e.name in late, now)
  }

  ghost predicate Ready(w: World, now: HubTime) {
    w.uploader.Idle? && Clock(w.trace) <= now
  }

  lemma PostDelivered(w: World, id: SampleId, backfill: bool, now: HubTime)
    requires Ready(w, now) && id in w.queue && Ingestion.Ingest(HubState(w), w.queue[id], backfill, now).Ok?
    ensures var r := Result(w, PostActions(id, true, backfill, now));
            r.Some? && Ready(r.value, now) && r.value.queue == w.queue - {id} && r.value.deleted == w.deleted + {id}
  {
    hide Run, Coherent, Clocked, Ingestion.Ingest, Result, Ready;
    var w2 := Handled(w, id, backfill, now);
    var w3 := Do(w2, Confirm(id));
    ReadyIs(w, now);
    ResultFour(w, Post(id), Handle(id, backfill, now), Confirm(id), Delete);
    ReadyIs(Do(w3, Delete), now);
  }

  lemma ReadyIs(w: World, now: HubTime)
    ensures Ready(w, now) <==> w.uploader.Idle? && Clock(w.trace) <= now
  {
  }

  // A request that is posted and taken in at once.
  lemma Handled(w: World, id: SampleId, backfill: bool, now: HubTime) returns (after: World)
    requires Ready(w, now) && id in w.queue && Ingestion.Ingest(HubState(w), w.queue[id], backfill, now).Ok?
    ensures Enabled(w, Post(id)) && Enabled(Do(w, Post(id)), Handle(id, backfill, now))
    ensures after == Do(Do(w, Post(id)), Handle(id, backfill, now))
    ensures after.uploader == Posting(id) && id in after.confirmations && Clock(after.trace) == now
    ensures after.queue == w.queue && after.deleted == w.deleted
  {
    hide Run, Coherent, Clocked, Ingestion.Ingest;
    after := Do(Do(w, Post(id)), Handle(id, backfill, now));
    assert after.trace == w.trace + [Ledger.Upload(w.queue[id], backfill, now)];
  }

  lemma PostTurned(w: World, id: SampleId, backfill: bool, now: HubTime)
    requires Ready(w, now) && id in w.queue
    ensures var r := Result(w, PostActions(id, false, backfill, now));
            r.Some? && Ready(r.value, now) && r.value.queue == w.queue && r.value.deleted == w.deleted
  {
    hide Run, Coherent, Clocked, Ingestion.Ingest, Result;
    ResultThree(w, Post(id), Turn(id), GiveUp);
  }

  // The hub takes in each post that is accepted, at its turn.
  ghost predicate Answers(w: World, posts: seq<Upload.Entry>, ids: map<string, SampleId>, late: set<string>, now: HubTime)
    requires Known(posts, ids)
  {
    forall i :: 0 <= i < |posts| && posts[i].accepted ==> TakesIn(w, posts, ids, late, now, i)
  }

  ghost predicate TakesIn(w: World, posts: seq<Upload.Entry>, ids: map<string, SampleId>, late: set<string>, now: HubTime, i: nat)
    requires Known(posts, ids) && i < |posts|
  {
    var before, id := Result(w, UploadActions(posts[..i], ids, late, now)), ids[posts[i].name];
    before.Some? && id in before.value.queue ==>
      Ingestion.Ingest(HubState(before.value), before.value.queue[id], posts[i].name in late, now).Ok?
  }

  // A round of the uploader is a series of posts: the samples that leave the queue are those
  // of the confirmed posts, and the agent deletes them.
  lemma {:induction false} UploadRound(w: World, posts: seq<Upload.Entry>, ids: map<string, SampleId>, late: set<string>, now: HubTime)
    requires Ready(w, now) && Known(posts, ids) && Answers(w, posts, ids, late, now)
    requires forall i :: 0 <= i < |posts| ==> ids[posts[i].name] in w.queue
    ensures var r := Result(w, UploadActions(posts, ids, late, now));
            && r.Some? && Ready(r.value, now)
            && r.value.queue == w.queue - PostIds(posts, ids)
            && r.value.deleted == w.deleted + PostIds(posts, ids)
  {
    hide Enabled, Do, Ingestion.Ingest, PostActions, Result, HubState;
    if posts == [] {
      assert Result(w, []) == Some(w) by {
        NothingPruned(w, ids);
      }
      assert PostIds(posts, ids) == {};
      assert w.queue - {} == w.queue;
    } else {
      var n := |posts| - 1;
      var init, e := posts[..n], posts[n];
      var id := ids[e.name];
      assert posts == init + [e];
      AnswersBefore(w, posts, ids, late, now);
      UploadRound(w, init, ids, late, now);
      PostIdsAppend(init, e, ids);
      LastPost(posts, ids);
      var before := Result(w, UploadActions(init, ids, late, now)).value;
      if e.accepted {
        assert TakesIn(w, posts, ids, late, now, n);
        PostDelivered(before, id, e.name in late, now);
      } else {
        PostTurned(before, id, e.name in late, now);
        assert before.deleted + {} == before.deleted;
      }
      ResultConcat(w, UploadActions(init, ids, late, now), PostActions(id, e.accepted, e.name in late, now));
    }
  }

  lemma AnswersBefore(w: World, posts: seq<Upload.Entry>, ids: map<string, SampleId>, late: set<string>, now: HubTime)
    requires posts != [] && Known(posts, ids) && Answers(w, posts, ids, late, now)
    ensures Known(posts[..|posts| - 1], ids) && Answers(w, posts[..|posts| - 1], ids, late, now)
  {
    hide Ingestion.Ingest, Result, HubState;
    var init := posts[..|posts| - 1];
    forall i | 0 <= i < |init| && init[i].accepted
      ensures TakesIn(w, init, ids, late, now, i)
    {
      assert TakesIn(w, posts, ids, late, now, i);
      assert init[..i] == posts[..i];
    }
  }

  lemma PostIdsAppend(posts: seq<Upload.Entry>, e: Upload.Entry, ids: map<string, SampleId>)
    ensures PostIds(posts + [e], ids) == PostIds(posts, ids) + (if e.accepted && e.name in ids then {ids[e.name]} else {})
  {
    var all := posts + [e];
    assert all[|posts|] == e;
    forall i | 0 <= i < |posts| ensures all[i] == posts[i] {
    }
  }

  lemma LastPost(posts: seq<Upload.Entry>, ids: map<string, SampleId>)
    requires posts != [] && Known(posts, ids)
    ensures ids[posts[|posts| - 1].name] !in PostIds(posts[..|posts| - 1], ids)
  {
  }
}
