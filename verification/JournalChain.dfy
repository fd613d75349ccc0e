/** What the digest chain protects: two journals with the same last digest are the same, and no event but
    the last can be changed or dropped unnoticed (src/workflow/journal.ts, src/artifacts/task-journal.ts). */
module JournalChain {
  import opened Wrappers
  import opened JournalNames
  import opened Journal

  /** File contents that form a chain from the first event on. */
  ghost predicate Chained<E(!new), P(!new)>(c: Codec<E, P>, id: nat, blobs: seq<Bytes>, es: seq<E>) {
    && |blobs| == |es|
    && forall i :: 0 <= i < |blobs| ==> Linked(c, id, blobs, es, i)
  }

  predicate Linked<E(==), P>(c: Codec<E, P>, id: nat, blobs: seq<Bytes>, es: seq<E>, i: nat)
    requires i < |blobs| == |es|
  {
    c.decode(blobs[i])
    == Some(Envelope(id, i + 1, if i == 0 then None else Some(c.digest(blobs[i - 1])), es[i]))
  }

  function Contents(names: seq<string>, files: map<string, Bytes>): (blobs: seq<Bytes>)
    requires forall name :: name in names ==> name in files
    ensures |blobs| == |names|
  {
    seq(|names|, i requires 0 <= i < |names| => files[names[i]])
  }

  function TipOf<E, P>(c: Codec<E, P>, blobs: seq<Bytes>): Option<string> {
    if blobs == [] then None else Some(c.digest(blobs[|blobs| - 1]))
  }

  lemma LinkedGrows<E, P>(c: Codec<E, P>, id: nat, blobs: seq<Bytes>, es: seq<E>, b: Bytes, e: E, i: nat)
    requires i < |blobs| == |es| && Linked(c, id, blobs, es, i)
    ensures Linked(c, id, blobs + [b], es + [e], i)
  {
  }

  /** What was read is a chain. */
  lemma {:induction false} ReadIsChained<E(!new), P(!new)>(c: Codec<E, P>, id: nat, marker: string, names: seq<string>,
                                                           files: map<string, Bytes>, k: nat)
    requires k <= |names| && forall name :: name in names ==> name in files
    requires ReadPrefix(c, id, marker, names, files, k).Ok?
    ensures var t := ReadPrefix(c, id, marker, names, files, k).value;
            && Chained(c, id, Contents(names, files)[..k], t.events)
            && t.previous == TipOf(c, Contents(names, files)[..k])
  {
    if k > 0 {
      ReadIsChained(c, id, marker, names, files, k - 1);
      var before := ReadPrefix(c, id, marker, names, files, k - 1).value;
      var t := ReadPrefix(c, id, marker, names, files, k).value;
      var blobs := Contents(names, files);
      assert blobs[..k] == blobs[..k - 1] + [blobs[k - 1]];
      assert t.events == before.events + [t.events[k - 1]];
      forall i | 0 <= i < k ensures Linked(c, id, blobs[..k], t.events, i) {
        if i < k - 1 { LinkedGrows(c, id, blobs[..k - 1], before.events, blobs[k - 1], t.events[k - 1], i); }
      }
    }
  }

  lemma WholeReadIsChained<E(!new), P(!new)>(c: Codec<E, P>, id: nat, marker: Option<string>, names: seq<string>,
                                             files: map<string, Bytes>)
    requires forall name :: name in names ==> name in files
    requires Read(c, id, marker, names, files).Ok?
    ensures var t := Read(c, id, marker, names, files).value;
            && Chained(c, id, Contents(names, files), t.events)
            && t.previous == TipOf(c, Contents(names, files))
  {
    ReadIsChained(c, id, marker.value, names, files, |names|);
    assert Contents(names, files)[..|names|] == Contents(names, files);
  }

  /** Two chains that share one file agree up to it, as long as no two of their files share a digest. */
  lemma {:induction false} SharedFile<E(!new), P(!new)>(c: Codec<E, P>, id: nat, other: nat, a: seq<Bytes>, b: seq<Bytes>,
                                                        es: seq<E>, fs: seq<E>, i: nat, j: nat)
    requires DigestsDiffer(c, a + b) && Chained(c, id, a, es) && Chained(c, other, b, fs)
    requires i < |a| && j < |b| && a[i] == b[j]
    ensures i == j && id == other && a[..i + 1] == b[..i + 1] && es[..i + 1] == fs[..i + 1]
    decreases i
  {
    assert Linked(c, id, a, es, i) && Linked(c, other, b, fs, j);
    if i > 0 {
      assert c.digest(a[i - 1]) == c.digest(b[j - 1]);
      assert a[i - 1] in a + b && b[j - 1] in a + b;
      SharedFile(c, id, other, a, b, es, fs, i - 1, j - 1);
    }
    assert a[..i + 1] == a[..i] + [a[i]] && b[..i + 1] == b[..i] + [b[i]];
    assert es[..i + 1] == es[..i] + [es[i]] && fs[..i + 1] == fs[..i] + [fs[i]];
  }

  /** Two chains that end in the same digest are the same. */
  lemma SameTipSameChain<E(!new), P(!new)>(c: Codec<E, P>, id: nat, other: nat, a: seq<Bytes>, b: seq<Bytes>,
                                           es: seq<E>, fs: seq<E>)
    requires DigestsDiffer(c, a + b) && Chained(c, id, a, es) && Chained(c, other, b, fs)
    requires a != [] && b != [] && TipOf(c, a) == TipOf(c, b)
    ensures id == other && a == b && es == fs
  {
    assert a[|a| - 1] in a + b && b[|b| - 1] in a + b;
    SharedFile(c, id, other, a, b, es, fs, |a| - 1, |b| - 1);
    assert a[..|a|] == a && b[..|b|] == b && es[..|a|] == es && fs[..|b|] == fs;
  }

  /** Two journals that both read, and end in the same digest, hold the same events. */
  lemma SameTipSameHistory<E(!new), P(!new)>(c: Codec<E, P>, id: nat, other: nat, marker: Option<string>, mark: Option<string>,
                                             names: seq<string>, files: map<string, Bytes>,
                                             others: seq<string>, copies: map<string, Bytes>)
    requires (forall name :: name in names ==> name in files) && (forall name :: name in others ==> name in copies)
    requires DigestsDiffer(c, Contents(names, files) + Contents(others, copies))
    requires Read(c, id, marker, names, files).Ok? && Read(c, other, mark, others, copies).Ok?
    requires Read(c, id, marker, names, files).value.previous == Read(c, other, mark, others, copies).value.previous
    ensures Read(c, id, marker, names, files).value.events == Read(c, other, mark, others, copies).value.events
    ensures id == other && Contents(names, files) == Contents(others, copies)
  {
    WholeReadIsChained(c, id, marker, names, files);
    WholeReadIsChained(c, other, mark, others, copies);
    SameTipSameChain(c, id, other, Contents(names, files), Contents(others, copies),
                     Read(c, id, marker, names, files).value.events, Read(c, other, mark, others, copies).value.events);
  }

  /** A directory that reads and still has a journal's last file begins with all of that journal. */
  lemma LastFileKeepsAll<E(!new), P(!new)>(c: Codec<E, P>, id: nat, marker: Option<string>, mark: Option<string>,
                                           names: seq<string>, files: map<string, Bytes>,
                                           others: seq<string>, copies: map<string, Bytes>)
    requires (forall name :: name in names ==> name in files) && (forall name :: name in others ==> name in copies)
    requires DigestsDiffer(c, Contents(names, files) + Contents(others, copies))
    requires Read(c, id, marker, names, files).Ok? && Read(c, id, mark, others, copies).Ok?
    requires Contents(names, files)[|names| - 1] in Contents(others, copies)
    ensures |names| <= |others| && Contents(others, copies)[..|names|] == Contents(names, files)
  {
    WholeReadIsChained(c, id, marker, names, files);
    ChainIsKept(c, id, Contents(names, files), Read(c, id, marker, names, files).value.events, mark, others, copies);
  }

  /** A directory that reads and has the last file of a chain begins with that chain and its events. */
  lemma ChainIsKept<E(!new), P(!new)>(c: Codec<E, P>, id: nat, a: seq<Bytes>, es: seq<E>,
                                      mark: Option<string>, others: seq<string>, copies: map<string, Bytes>)
    requires forall name :: name in others ==> name in copies
    requires DigestsDiffer(c, a + Contents(others, copies)) && Chained(c, id, a, es) && a != []
    requires Read(c, id, mark, others, copies).Ok? && a[|a| - 1] in Contents(others, copies)
    ensures |a| <= |others| && Contents(others, copies)[..|a|] == a
    ensures |a| <= |Read(c, id, mark, others, copies).value.events|
    ensures Read(c, id, mark, others, copies).value.events[..|a|] == es
  {
    WholeReadIsChained(c, id, mark, others, copies);
    var b, fs := Contents(others, copies), Read(c, id, mark, others, copies).value.events;
    var j: nat :| j < |b| && b[j] == a[|a| - 1];
    SharedFile(c, id, id, a, b, es, fs, |a| - 1, j);
    assert a[..|a|] == a && es[..|a|] == es;
  }

  lemma PrefixHas(a: seq<Bytes>, b: seq<Bytes>, k: nat)
    requires k < |a| <= |b| && b[..|a|] == a
    ensures a[k] in b
  {
    assert b[..|a|][k] == b[k];
  }

  /** So a change to any event but the last, or its loss, is noticed: without the contents of an earlier
      file the directory does not read. */
  lemma TamperingIsNoticed<E(!new), P(!new)>(c: Codec<E, P>, id: nat, marker: Option<string>, mark: Option<string>,
                                             names: seq<string>, files: map<string, Bytes>,
                                             others: seq<string>, copies: map<string, Bytes>, k: nat)
    requires (forall name :: name in names ==> name in files) && (forall name :: name in others ==> name in copies)
    requires DigestsDiffer(c, Contents(names, files) + Contents(others, copies))
    requires Read(c, id, marker, names, files).Ok? && k < |names|
    requires Contents(names, files)[|names| - 1] in Contents(others, copies)
    requires Contents(names, files)[k] !in Contents(others, copies)
    ensures Read(c, id, mark, others, copies).Err?
  {
    if Read(c, id, mark, others, copies).Ok? {
      LastFileKeepsAll(c, id, marker, mark, names, files, others, copies);
      PrefixHas(Contents(names, files), Contents(others, copies), k);
      assert false;
    }
  }

  // ----- What that means for the files create and append write -----

  function Blobs<E, P>(c: Codec<E, P>, id: nat, es: seq<E>): (blobs: seq<Bytes>)
    ensures |blobs| == |es|
  {
    seq(|es|, i requires 0 <= i < |es| => Blob(c, id, es, i))
  }

  lemma WrittenIsChained<E(!new), P(!new)>(c: Codec<E, P>, id: nat, es: seq<E>)
    requires Lawful(c) && |es| <= c.maxEvents
    ensures Chained(c, id, Blobs(c, id, es), es)
    ensures TipOf(c, Blobs(c, id, es)) == Tip(c, id, es, |es|)
  {
    var blobs := Blobs(c, id, es);
    forall i | 0 <= i < |es| ensures Linked(c, id, blobs, es, i) {
      BlobDecodes(c, id, es, i);
      if i > 0 { assert blobs[i - 1] == Blob(c, id, es, i - 1); }
    }
  }

  /** Two written histories with the same last digest are the same. */
  lemma SameTipSameWritten<E(!new), P(!new)>(c: Codec<E, P>, id: nat, other: nat, es: seq<E>, fs: seq<E>)
    requires Lawful(c) && 0 < |es| <= c.maxEvents && 0 < |fs| <= c.maxEvents
    requires DigestsDiffer(c, Blobs(c, id, es) + Blobs(c, other, fs))
    requires Tip(c, id, es, |es|) == Tip(c, other, fs, |fs|)
    ensures id == other && es == fs
  {
    WrittenIsChained(c, id, es);
    WrittenIsChained(c, other, fs);
    SameTipSameChain(c, id, other, Blobs(c, id, es), Blobs(c, other, fs), es, fs);
  }

  /** Whatever became of the directory of a written history: if it reads, and still has the last file
      written, it begins with that history. */
  lemma WrittenIsKept<E(!new), P(!new)>(c: Codec<E, P>, id: nat, es: seq<E>,
                                        mark: Option<string>, others: seq<string>, copies: map<string, Bytes>)
    requires Lawful(c) && 0 < |es| <= c.maxEvents
    requires forall name :: name in others ==> name in copies
    requires DigestsDiffer(c, Blobs(c, id, es) + Contents(others, copies))
    requires Read(c, id, mark, others, copies).Ok? && Blob(c, id, es, |es| - 1) in Contents(others, copies)
    ensures es <= Read(c, id, mark, others, copies).value.events
    ensures Blobs(c, id, es) <= Contents(others, copies)
  {
    WrittenIsChained(c, id, es);
    ChainIsKept(c, id, Blobs(c, id, es), es, mark, others, copies);
  }

  /** The end is open: without its last files a journal reads as the history up to there. */
  lemma {:induction false} TruncationReads<E, P>(c: Codec<E, P>, id: nat, marker: Option<string>, names: seq<string>,
                                                 files: map<string, Bytes>, k: nat)
    requires forall name :: name in names ==> name in files
    requires Read(c, id, marker, names, files).Ok? && 0 < k <= |names|
    requires forall name :: name in names[..k] ==> name in files
    ensures |Read(c, id, marker, names, files).value.events| == |names|
    ensures Read(c, id, marker, names[..k], files).Ok?
    ensures Read(c, id, marker, names[..k], files).value.events
         == Read(c, id, marker, names, files).value.events[..k]
  {
    ReadsSame(c, id, marker.value, names, files, k, k);
    ReadsMore(c, id, marker.value, names, files, k, |names|);
  }

  lemma {:induction false} ReadsSame<E, P>(c: Codec<E, P>, id: nat, marker: string, names: seq<string>,
                                           files: map<string, Bytes>, k: nat, i: nat)
    requires forall name :: name in names ==> name in files
    requires i <= k <= |names| && forall name :: name in names[..k] ==> name in files
    ensures ReadPrefix(c, id, marker, names[..k], files, i) == ReadPrefix(c, id, marker, names, files, i)
  {
    if i > 0 { ReadsSame(c, id, marker, names, files, k, i - 1); }
  }

  lemma {:induction false} ReadsMore<E, P>(c: Codec<E, P>, id: nat, marker: string, names: seq<string>,
                                           files: map<string, Bytes>, k: nat, n: nat)
    requires forall name :: name in names ==> name in files
    requires k <= n <= |names| && ReadPrefix(c, id, marker, names, files, n).Ok?
    ensures ReadPrefix(c, id, marker, names, files, k).Ok?
    ensures |ReadPrefix(c, id, marker, names, files, n).value.events| == n
    ensures ReadPrefix(c, id, marker, names, files, k).value.events
         == ReadPrefix(c, id, marker, names, files, n).value.events[..k]
    decreases n
  {
    if n > 0 { ReadsMore(c, id, marker, names, files, if k < n then k else n - 1, n - 1); }
  }
}
