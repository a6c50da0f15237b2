/**
 The disk queue of an agent (internal/agent/queue.go). Pruning walks the files in name
 order, which is the order of sampling, and removes samples while the queue is too large
 or a sample too old. When ages fall along the names, that is the least it can remove.
 */
module Queue {

  const CAPACITY: int := 100 * 1024 * 1024
  const MAX_AGE: int := 24 * 3_600_000

  // A directory entry, with what the file system answers about it: whether its size and
  // age can be read, whether it can be removed, and whether the count of losses can then
  // be written. The age is in milliseconds.
  datatype File = File(name: string, isSample: bool, size: nat, age: int, statOk: bool, removable: bool, counted: bool)

  function Total(files: seq<File>): nat {
    if files == [] then 0 else (if files[0].statOk then files[0].size else 0) + Total(files[1..])
  }

  predicate Evicted(f: File, size: int) {
    f.isSample && f.statOk && f.removable && (size > CAPACITY || f.age > MAX_AGE)
  }

  // The files left after the walk, when size is the sum that it starts with.
  function Kept(files: seq<File>, size: int): seq<File> {
    if files == [] then []
    else if Evicted(files[0], size) then Kept(files[1..], size - files[0].size)
    else [files[0]] + Kept(files[1..], size)
  }

  // The files removed, in the order of the walk.
  function Gone(files: seq<File>, size: int): seq<File> {
    if files == [] then []
    else if Evicted(files[0], size) then [files[0]] + Gone(files[1..], size - files[0].size)
    else Gone(files[1..], size)
  }

  // The count on the disk once the given files are gone: the last one whose count could be
  // written left it.
  function Written(gone: seq<File>, count: nat, disk: nat): nat {
    if gone == [] then disk
    else if gone[|gone| - 1].counted then count + |gone|
    else Written(gone[..|gone| - 1], count, disk)
  }

  lemma {:induction false} GoneOrKept(files: seq<File>, size: int)
    ensures |Gone(files, size)| + |Kept(files, size)| == |files|
    ensures multiset(Gone(files, size)) + multiset(Kept(files, size)) == multiset(files)
  {
    if files != [] {
      assert files == [files[0]] + files[1..];
      GoneOrKept(files[1..], if Evicted(files[0], size) then size - files[0].size else size);
    }
  }

  // A file goes only if it is a sample that can be read and removed, and is too old, or the
  // files that are left at its turn are too large together.
  lemma {:induction false} GoneFor(files: seq<File>, size: int, i: nat)
    requires i < |Gone(files, size)|
    ensures var g := Gone(files, size)[i];
            && g.isSample && g.statOk && g.removable
            && (g.age > 86_400_000 || size - Sizes(Gone(files, size)[..i]) > 104_857_600)
  {
    var f := files[0];
    if Evicted(f, size) {
      var rest := Gone(files[1..], size - f.size);
      assert Gone(files, size) == [f] + rest;
      if i > 0 {
        GoneFor(files[1..], size - f.size, i - 1);
        assert Gone(files, size)[..i] == [f] + rest[..i - 1];
      }
    } else {
      GoneFor(files[1..], size, i);
    }
  }

  function Sizes(files: seq<File>): nat {
    if files == [] then 0 else files[0].size + Sizes(files[1..])
  }

  // A file that stays is no sample, or cannot be read or removed, or is young enough.
  lemma {:induction false} KeptFor(files: seq<File>, size: int, f: File)
    requires f in Kept(files, size)
    ensures f in files && (f.isSample && f.statOk && f.removable ==> f.age <= 86_400_000)
  {
    if files != [] {
      if Evicted(files[0], size) {
        KeptFor(files[1..], size - files[0].size, f);
      } else if f != files[0] {
        KeptFor(files[1..], size, f);
      }
    }
  }

  // The size that the walk starts with: the files whose size can be read.
  lemma {:induction false} TotalIs(files: seq<File>)
    ensures (forall f :: f in files ==> f.statOk) ==> Total(files) == Sizes(files)
    ensures (forall f :: f in files ==> !f.statOk) ==> Total(files) == 0
    ensures Total(files) <= Sizes(files)
  {
    if files != [] {
      assert files[0] in files && forall f :: f in files[1..] ==> f in files;
      TotalIs(files[1..]);
    }
  }

  // The disk has the count of the last write that succeeded, or still the old one.
  lemma {:induction false} WrittenIs(gone: seq<File>, count: nat, disk: nat, i: nat)
    requires i < |gone| && gone[i].counted && forall j :: i < j < |gone| ==> !gone[j].counted
    ensures Written(gone, count, disk) == count + i + 1
  {
    if i < |gone| - 1 {
      WrittenIs(gone[..|gone| - 1], count, disk, i);
    }
  }

  lemma {:induction false} NothingWritten(gone: seq<File>, count: nat, disk: nat)
    requires forall j :: 0 <= j < |gone| ==> !gone[j].counted
    ensures Written(gone, count, disk) == disk
  {
    if gone != [] {
      NothingWritten(gone[..|gone| - 1], count, disk);
    }
  }

  // The disk ends up with the count that is returned if and only if the last write
  // succeeded, or none did and it happens to have held that count before.
  lemma {:induction false} DiskIsCurrentIff(gone: seq<File>, count: nat, disk: nat)
    ensures Written(gone, count, disk) == count + |gone|
       <==> || (gone != [] && gone[|gone| - 1].counted)
            || ((forall i :: 0 <= i < |gone| ==> !gone[i].counted) && disk == count + |gone|)
  {
    if i: nat :| i < |gone| && gone[i].counted && forall j :: i < j < |gone| ==> !gone[j].counted {
      WrittenIs(gone, count, disk, i);
    } else {
      NoneCounted(gone, |gone|);
      NothingWritten(gone, count, disk);
    }
  }

  // Without a last one there is none.
  lemma {:induction false} NoneCounted(gone: seq<File>, n: nat)
    requires n <= |gone| && forall j :: n <= j < |gone| ==> !gone[j].counted
    requires forall i: nat :: i < |gone| && gone[i].counted ==> exists j :: i < j < |gone| && gone[j].counted
    ensures forall j :: 0 <= j < |gone| ==> !gone[j].counted
  {
    if n != 0 {
      NoneCounted(gone, n - 1);
    }
  }

  // The walk after i files of the listing: the files kept so far come first.
  ghost predicate Walked(listing: seq<File>, i: nat, kept: seq<File>, gone: seq<File>, files: seq<File>, size: int)
    requires i <= |listing|
  {
    && |kept| + |gone| == i
    && gone + Gone(listing[i..], size) == Gone(listing, Total(listing))
    && files == kept + listing[i..]
    && kept + Kept(listing[i..], size) == Kept(listing, Total(listing))
  }

  lemma WalkStep(listing: seq<File>, i: nat, kept: seq<File>, gone: seq<File>, files: seq<File>, size: int)
    requires i < |listing| && Walked(listing, i, kept, gone, files, size)
    ensures var f := listing[i];
            if Evicted(f, size) then Walked(listing, i + 1, kept, gone + [f], kept + listing[i + 1..], size - f.size)
            else Walked(listing, i + 1, kept + [f], gone, files, size)
  {
    var f, rest := listing[i], listing[i + 1..];
    assert listing[i..] == [f] + rest && listing[i..][1..] == rest;
    if Evicted(f, size) {
      assert gone + ([f] + Gone(rest, size - f.size)) == (gone + [f]) + Gone(rest, size - f.size);
    } else {
      assert kept + ([f] + Kept(rest, size)) == (kept + [f]) + Kept(rest, size);
      assert kept + ([f] + rest) == (kept + [f]) + rest;
    }
  }

  method ListingSize(listing: seq<File>) returns (size: int)
    ensures size == Total(listing)
  {
    size := 0;
    for i := 0 to |listing|
      invariant size == Total(listing) - Total(listing[i..])
    {
      assert listing[i..][1..] == listing[i + 1..];
      if listing[i].statOk {
        size := size + listing[i].size;
      }
    }
  }

  class Disk {
    var files: seq<File>
    var dropped: nat

    // Returns the cumulative count of losses, which is also written to the disk; that a
    // write failed is ignored.
    method PruneQueue(count: nat) returns (r: nat)
      modifies this
      ensures files == Kept(old(files), Total(old(files)))
      ensures r == count + |Gone(old(files), Total(old(files)))|
      ensures dropped == Written(Gone(old(files), Total(old(files))), count, old(dropped))
    {
      hide Kept, Gone, Total, Written;
      var listing := files;
      var size := ListingSize(listing);
      r := count;
      // Where the next file of the listing now stands in the directory.
      var place := 0;
      ghost var kept: seq<File>, gone: seq<File> := [], [];
      WalkStart(listing);
      WrittenStart(count, dropped);
      for i := 0 to |listing|
        invariant Walked(listing, i, kept, gone, files, size) && place == |kept|
        invariant r == count + |gone|
        invariant dropped == Written(gone, count, old(dropped))
      {
        hide Walked;
        var f := listing[i];
        WalkStep(listing, i, kept, gone, files, size);
        WalkShape(listing, i, kept, gone, files, size);
        if !f.isSample || !f.statOk || (size <= CAPACITY && f.age <= MAX_AGE) || !f.removable {
          kept := kept + [f];
          place := place + 1;
          continue;
        }
        files := files[..place] + files[place + 1..];
        size := size - f.size;
        r := r + 1;
        if f.counted {
          dropped := r;
        }
        WrittenStep(gone, f, count, old(dropped));
        gone := gone + [f];
      }
      NothingLeft(listing, kept, gone, files, size);
    }
  }

  lemma WalkStart(listing: seq<File>)
    ensures Walked(listing, 0, [], [], listing, Total(listing))
  {
    assert listing[0..] == listing;
  }

  lemma WrittenStart(count: nat, disk: nat)
    ensures Written([], count, disk) == disk
  {
  }

  lemma WrittenStep(gone: seq<File>, f: File, count: nat, disk: nat)
    ensures Written(gone + [f], count, disk) == if f.counted then count + |gone| + 1 else Written(gone, count, disk)
  {
    assert (gone + [f])[..|gone|] == gone;
  }

  lemma WalkShape(listing: seq<File>, i: nat, kept: seq<File>, gone: seq<File>, files: seq<File>, size: int)
    requires i < |listing| && Walked(listing, i, kept, gone, files, size)
    ensures |kept| <= i && |kept| < |files|
    ensures files[..|kept|] + files[|kept| + 1..] == kept + listing[i + 1..]
  {
  }

  lemma NothingLeft(listing: seq<File>, kept: seq<File>, gone: seq<File>, files: seq<File>, size: int)
    requires Walked(listing, |listing|, kept, gone, files, size)
    ensures files == kept == Kept(listing, Total(listing)) && gone == Gone(listing, Total(listing))
  {
    assert listing[|listing|..] == [];
  }

  /******* The least that restores both limits *******/

  function SampleCount(files: seq<File>): nat {
    if files == [] then 0 else (if files[0].isSample then 1 else 0) + SampleCount(files[1..])
  }

  // The files without the first n samples.
  function WithoutFirst(files: seq<File>, n: nat): seq<File> {
    if files == [] || n == 0 then files
    else if files[0].isSample then WithoutFirst(files[1..], n - 1)
    else [files[0]] + WithoutFirst(files[1..], n)
  }

  // Both limits hold for the files, next to extra bytes of other files.
  ghost predicate Fits(files: seq<File>, extra: int) {
    extra + Total(files) <= 104_857_600 && forall f :: f in files && f.isSample ==> f.age <= 86_400_000
  }

  ghost predicate Obliging(files: seq<File>) {
    forall f :: f in files ==> f.statOk && f.removable
  }

  ghost predicate OldestFirst(files: seq<File>) {
    forall i, j :: 0 <= i < j < |files| && files[i].isSample && files[j].isSample ==> files[i].age >= files[j].age
  }

  lemma {:induction false} FittingStays(files: seq<File>, extra: int)
    requires Fits(files, extra)
    ensures Kept(files, extra + Total(files)) == files
  {
    if files != [] {
      var f, rest := files[0], files[1..];
      var size := if f.statOk then f.size else 0;
      assert f in files;
      FittingStays(rest, extra + size);
    }
  }

  // Exactly the first n samples go.
  ghost predicate LeastPrefix(files: seq<File>, extra: int, kept: seq<File>, n: nat) {
    && n <= SampleCount(files)
    && kept == WithoutFirst(files, n)
    && (Fits(kept, extra) || n == SampleCount(files))
    && (forall m: nat :: m < n ==> !Fits(WithoutFirst(files, m), extra))
  }

  lemma {:induction false} WalkIsLeast(files: seq<File>, extra: int) returns (n: nat)
    requires Obliging(files) && OldestFirst(files)
    ensures LeastPrefix(files, extra, Kept(files, extra + Total(files)), n)
  {
    hide Kept, Total, WithoutFirst, Fits, LeastPrefix;
    if files == [] {
      n := 0;
      NoFiles(extra);
    } else {
      var f, rest := files[0], files[1..];
      assert files == [f] + rest && f in files && forall g :: g in rest ==> g in files;
      if !f.isSample {
        n := WalkIsLeast(rest, extra + f.size);
        KeepOther(f, rest, extra, n);
      } else if Evicted(f, extra + Total(files)) {
        var m := WalkIsLeast(rest, extra);
        n := m + 1;
        EvictFirst(f, rest, extra, m);
      } else {
        n := 0;
        KeepAll(files, extra);
      }
    }
  }

  lemma NoFiles(extra: int)
    ensures LeastPrefix([], extra, Kept([], extra + Total([])), 0)
  {
  }

  // The first sample is neither too old nor in a queue that is too large: nothing goes.
  lemma KeepAll(files: seq<File>, extra: int)
    requires Obliging(files) && OldestFirst(files) && files != [] && files[0].isSample
    requires !Evicted(files[0], extra + Total(files))
    ensures LeastPrefix(files, extra, Kept(files, extra + Total(files)), 0)
  {
    hide Total, Kept;
    assert files[0] in files;
    forall f | f in files && f.isSample
      ensures f.age <= MAX_AGE
    {
      var i :| 0 <= i < |files| && files[i] == f;
    }
    assert Fits(files, extra);
    FittingStays(files, extra);
  }

  // A sample is evicted only when the files from it on do not fit.
  lemma EvictFirst(f: File, rest: seq<File>, extra: int, m: nat)
    requires f.statOk && Evicted(f, extra + Total([f] + rest))
    requires LeastPrefix(rest, extra, Kept(rest, extra + Total(rest)), m)
    ensures LeastPrefix([f] + rest, extra, Kept([f] + rest, extra + Total([f] + rest)), m + 1)
  {
    var files := [f] + rest;
    assert files[1..] == rest && f in files;
    forall k: nat | k < m + 1
      ensures !Fits(WithoutFirst(files, k), extra)
    {
      if k > 0 {
        assert WithoutFirst(files, k) == WithoutFirst(rest, k - 1);
      }
    }
  }

  // A file that is not a sample stays, and its size counts.
  lemma KeepOther(f: File, rest: seq<File>, extra: int, n: nat)
    requires !f.isSample && f.statOk
    requires LeastPrefix(rest, extra + f.size, Kept(rest, extra + f.size + Total(rest)), n)
    ensures LeastPrefix([f] + rest, extra, Kept([f] + rest, extra + Total([f] + rest)), n)
  {
    var files := [f] + rest;
    assert files[1..] == rest;
    forall m: nat
      ensures WithoutFirst(files, m) == [f] + WithoutFirst(rest, m)
      ensures Fits([f] + WithoutFirst(rest, m), extra) == Fits(WithoutFirst(rest, m), extra + f.size)
    {
      var left := WithoutFirst(rest, m);
      assert ([f] + left)[1..] == left;
      assert forall g :: g in [f] + left <==> g == f || g in left;
    }
  }

  // When the files can be read and removed and ages fall along the names, pruning removes
  // exactly the shortest prefix of samples after which both limits hold, or all samples
  // if none is enough.
  lemma {:induction false} PruningIsMinimal(files: seq<File>)
    requires Obliging(files) && OldestFirst(files)
    ensures exists n: nat :: LeastPrefix(files, 0, Kept(files, Total(files)), n)
  {
    var n := WalkIsLeast(files, 0);
  }
}
