/**
 * `find_queue_files`: the audio files of the queue directory, newest first.
 * The directory is an abstract listing of entries instead of a real one.
 */
module QueueFiles {

  /** One directory entry: its name, the extension after its final dot, its modification time and size. */
  datatype QueueFile = QueueFile(name: string, ext: string, mtime: int, size: nat)

  /** The queue directory: absent, or present with its entries in listing order. */
  datatype Directory = Missing | Present(listing: seq<QueueFile>)

  /** The extensions the queue accepts. */
  const SupportedFormats: set<string> := {"mp3", "mp4", "mpeg", "mpga", "m4a", "wav", "webm"}

  /** The entries of `listing` whose extension is in `exts`, in listing order: what `glob("*.ext")` yields per extension. */
  function Matching(listing: seq<QueueFile>, exts: set<string>): (r: seq<QueueFile>)
    ensures |r| <= |listing|
    ensures forall f :: f in r ==> f in listing && f.ext in exts
  {
    if listing == [] then []
    else (if listing[0].ext in exts then [listing[0]] else []) + Matching(listing[1..], exts)
  }

  /** An entry occurs in the matches exactly as often as in the listing when its extension is accepted, and never otherwise. */
  lemma {:induction false} MatchingCount(listing: seq<QueueFile>, exts: set<string>, f: QueueFile)
    ensures multiset(Matching(listing, exts))[f] == if f.ext in exts then multiset(listing)[f] else 0
  {
    if listing != [] {
      MatchingCount(listing[1..], exts, f);
      assert listing == [listing[0]] + listing[1..];
    }
  }

  /** Matching against a union of disjoint extension sets is, up to order, matching against each. */
  lemma MatchingUnion(listing: seq<QueueFile>, exts: set<string>, ext: string)
    requires ext !in exts
    ensures multiset(Matching(listing, exts + {ext}))
         == multiset(Matching(listing, exts)) + multiset(Matching(listing, {ext}))
  {
    forall f: QueueFile
      ensures multiset(Matching(listing, exts + {ext}))[f]
           == (multiset(Matching(listing, exts)) + multiset(Matching(listing, {ext})))[f]
    {
      MatchingCount(listing, exts + {ext}, f);
      MatchingCount(listing, exts, f);
      MatchingCount(listing, {ext}, f);
    }
  }

  /** No entry matches exactly when no entry of the listing has an accepted extension. */
  lemma {:induction false} MatchingEmpty(listing: seq<QueueFile>, exts: set<string>)
    ensures Matching(listing, exts) == [] <==> forall f :: f in listing ==> f.ext !in exts
  {
    if listing != [] {
      MatchingEmpty(listing[1..], exts);
      assert forall f :: f in listing <==> f == listing[0] || f in listing[1..];
    }
  }

  /** Nothing matches when no extension is accepted. */
  lemma MatchingNothing(listing: seq<QueueFile>)
    ensures Matching(listing, {}) == []
  {
    forall f: QueueFile ensures multiset(Matching(listing, {}))[f] == 0 {
      MatchingCount(listing, {}, f);
    }
    assert multiset(Matching(listing, {})) == multiset{};
  }

  /** Newest first: modification times never increase along the sequence. */
  predicate NewestFirst(files: seq<QueueFile>) {
    forall p, q :: 0 <= p < q < |files| ==> files[p].mtime >= files[q].mtime
  }

  /** Exchanges two entries of the array and leaves the others alone. */
  method Swap(a: array<QueueFile>, i: nat, j: nat)
    requires i < j < a.Length
    modifies a
    ensures a[i] == old(a[j]) && a[j] == old(a[i])
    ensures forall k :: 0 <= k < a.Length && k != i && k != j ==> a[k] == old(a[k])
    ensures multiset(a[..]) == old(multiset(a[..]))
  {
    a[i], a[j] := a[j], a[i];
  }

  /**
   * One step of the insertion sort: with `a[..i]` newest first, moves `a[i]`
   * towards the front past every older entry, so that `a[..i+1]` is newest
   * first; the entries after `i` stay where they were.
   */
  method InsertNewest(a: array<QueueFile>, i: nat)
    requires i < a.Length
    requires NewestFirst(a[..i])
    modifies a
    ensures NewestFirst(a[..i + 1])
    ensures multiset(a[..]) == old(multiset(a[..]))
    ensures forall k :: i < k < a.Length ==> a[k] == old(a[k])
  {
    var j := i;
    while j > 0 && a[j - 1].mtime < a[j].mtime
      invariant 0 <= j <= i
      invariant forall p, q :: 0 <= p < q <= i && q != j ==> a[p].mtime >= a[q].mtime
      invariant multiset(a[..]) == old(multiset(a[..]))
      invariant forall k :: i < k < a.Length ==> a[k] == old(a[k])
    {
      Swap(a, j - 1, j);
      j := j - 1;
    }
  }

  /**
   * `files.sort(key=mtime, reverse=True)`, in place: an insertion sort that
   * leaves the array newest first and a permutation of what it held.
   */
  method SortNewestFirst(a: array<QueueFile>)
    modifies a
    ensures NewestFirst(a[..])
    ensures multiset(a[..]) == old(multiset(a[..]))
  {
    for i := 0 to a.Length
      invariant NewestFirst(a[..i])
      invariant multiset(a[..]) == old(multiset(a[..]))
    {
      InsertNewest(a, i);
    }
    assert a[..a.Length] == a[..];
  }

  /**
   * The supported audio files of the queue directory, newest first; none
   * when the directory is absent. The extensions are visited in whatever
   * order the set yields them, so entries with equal times may come in any
   * order.
   */
  method FindQueueFiles(dir: Directory) returns (files: seq<QueueFile>)
    ensures dir.Missing? ==> files == []
    ensures dir.Present? ==> multiset(files) == multiset(Matching(dir.listing, SupportedFormats))
    ensures NewestFirst(files)
  {
    if dir.Missing? {
      return [];
    }
    var found: seq<QueueFile> := [];
    var pending := SupportedFormats;
    MatchingNothing(dir.listing);
    assert SupportedFormats - pending == {};
    while pending != {}
      invariant pending <= SupportedFormats
      invariant multiset(found) == multiset(Matching(dir.listing, SupportedFormats - pending))
      decreases pending
    {
      var ext :| ext in pending;
      MatchingUnion(dir.listing, SupportedFormats - pending, ext);
      assert SupportedFormats - (pending - {ext}) == (SupportedFormats - pending) + {ext};
      found := found + Matching(dir.listing, {ext});
      pending := pending - {ext};
    }
    assert SupportedFormats - pending == SupportedFormats;
    var a := new QueueFile[|found|](i requires 0 <= i < |found| => found[i]);
    assert a[..] == found;
    SortNewestFirst(a);
    files := a[..];
  }

  /**
   * What the search returns, entry by entry: an entry of an existing
   * directory is returned, as often as it is listed, exactly when its
   * extension is supported.
   */
  lemma {:induction false} FoundExactlySupported(dir: Directory, files: seq<QueueFile>, f: QueueFile)
    requires dir.Present?
    requires multiset(files) == multiset(Matching(dir.listing, SupportedFormats))
    ensures multiset(files)[f] == if f.ext in SupportedFormats then multiset(dir.listing)[f] else 0
    ensures f in files <==> f in dir.listing && f.ext in SupportedFormats
  {
    MatchingCount(dir.listing, SupportedFormats, f);
  }
}
