/** The journal's directory over time: create, append, and reading it back. One writer at a time, as the
    leases see to (src/workflow/journal.ts, src/artifacts/task-journal.ts). */
module JournalStore {
  import opened Wrappers
  import opened JournalNames
  import opened Journal
  import JournalChain

  datatype WriteResult = Written | Unreadable | TooMany | Credentials | TooLarge | Refused | TimelineFull | WriteFailed

  /** Up to its last event, the extended history is written as before. */
  lemma SameBefore<E, P>(c: Codec<E, P>, id: nat, es: seq<E>, e: E)
    ensures forall i :: 0 <= i < |es| ==> Blob(c, id, es + [e], i) == Blob(c, id, es, i) && (es + [e])[i] == es[i]
    ensures forall k :: 0 <= k <= |es| ==> Fold(c, es + [e], k) == Fold(c, es, k)
    ensures forall k :: 0 <= k <= |es| ==> Total(c, id, es + [e], k) == Total(c, id, es, k)
  {
    forall i | 0 <= i < |es| ensures Blob(c, id, es + [e], i) == Blob(c, id, es, i) {
      Extends(c, id, es, e, i + 1);
      assert Blob(c, id, es + [e], i + 1 - 1) == Blob(c, id, es, i + 1 - 1);
    }
    forall k | 0 <= k <= |es|
      ensures Fold(c, es + [e], k) == Fold(c, es, k) && Total(c, id, es + [e], k) == Total(c, id, es, k)
    {
      Extends(c, id, es, e, k);
    }
  }

  /** What append checks of the next event. */
  predicate Fits<E, P>(c: Codec<E, P>, id: nat, es: seq<E>, e: E) {
    var n := |es|;
    var blob := Blob(c, id, es + [e], n);
    && n < c.maxEvents && c.safe(e) && |blob| <= c.maxEventBytes
    && c.project(Fold(c, es, n), e).Some?
    && Total(c, id, es, n) + |blob| <= c.maxTimelineBytes
  }

  lemma LastStep<E, P>(c: Codec<E, P>, id: nat, es: seq<E>, e: E)
    requires es == [] || Fold(c, es, |es|).Some?
    ensures var more, n := es + [e], |es|;
            && Total(c, id, more, n + 1) == Total(c, id, es, n) + |Blob(c, id, more, n)|
            && Fold(c, more, n + 1) == c.project(Fold(c, es, n), e)
            && more[n] == e
  {
    SameBefore(c, id, es, e);
  }

  /** The checks of append come to whether the extended history may be stored. */
  lemma StorableSnoc<E, P>(c: Codec<E, P>, id: nat, es: seq<E>, e: E)
    requires es == [] || Storable(c, id, es)
    ensures Storable(c, id, es + [e]) <==> Fits(c, id, es, e)
  {
    if es != [] { assert Fold(c, es, |es|).Some?; }
    SameBefore(c, id, es, e);
    LastStep(c, id, es, e);
    if Storable(c, id, es + [e]) {
      assert Fold(c, es + [e], |es| + 1).Some? && Total(c, id, es + [e], |es| + 1) <= c.maxTimelineBytes;
      assert c.safe((es + [e])[|es|]);
    }
  }

  lemma FilesSnoc<E, P>(c: Codec<E, P>, id: nat, es: seq<E>, e: E)
    ensures var more, n := es + [e], |es|;
            && Files(c, id, more, n + 1) == Files(c, id, es, n)[NameAt(c, id, more, n) := Blob(c, id, more, n)]
            && (n > 0 ==> Tip(c, id, more, 1) == Tip(c, id, es, 1))
            && Blob(c, id, more, n) == c.encode(Envelope(id, n + 1, Tip(c, id, es, n), e))
  {
    Extends(c, id, es, e, |es|);
    if es != [] { Extends(c, id, es, e, 1); }
  }

  class Store<E(!new), P(!new)> {
    const c: Codec<E, P>
    const id: nat
    var marker: Option<string>
    var files: map<string, Bytes>
    ghost var history: seq<E>

    ghost predicate Valid()
      reads this
    {
      && Lawful(c)
      && files == Files(c, id, history, |history|)
      && (history != [] ==> Storable(c, id, history))
      && (marker.Some? ==> history != [] && marker == Tip(c, id, history, 1))
    }

    constructor (codec: Codec<E, P>, journalId: nat)
      requires Lawful(codec)
      ensures Valid() && history == [] && marker.None? && c == codec && id == journalId
    {
      c, id, marker, files, history := codec, journalId, None, map[], [];
    }

    /** readTimeline: a published journal reads as its history, and nothing else reads at all. */
    method ReadBack() returns (r: Result<Timeline<E, P>, ReadError>)
      requires Valid()
      ensures marker.None? ==> r == Err(NotPublished)
      ensures marker.Some? ==> r == Ok(At(c, id, history, |history|)) && r.value.events == history
    {
      if history != [] { NamesAreSorted(c, id, history); }
      if marker.None? { return Err(NotPublished); }
      var names :| Lists(names, files.Keys);
      RoundTrip(c, id, history, names);
      r := ReadTimeline(c, id, marker, names, files);
    }

    /** The file of the next event. A write that fails may still have published it. */
    method WriteNext(e: E, previous: Option<string>, count: nat) returns (ok: bool, sha256: string)
      requires Valid() && count == |history| && previous == Tip(c, id, history, |history|)
      requires Storable(c, id, history + [e])
      requires marker.None? ==> history == []
      modifies this`files, this`history
      ensures Valid()
      ensures ok ==> history == old(history) + [e] && Some(sha256) == Tip(c, id, history, |history|)
      ensures !ok ==> history == old(history) || history == old(history) + [e]
    {
      var blob := c.encode(Envelope(id, count + 1, previous, e));
      sha256 := c.digest(blob);
      if * { return false, sha256; }
      FilesSnoc(c, id, history, e);
      files := files[c.name(count + 1, sha256) := blob];
      history := history + [e];
      ok := *;
    }

    /** create: the first event, then the ready marker. A stop between the two leaves no journal to read. */
    method Create(e: E) returns (r: WriteResult)
      requires Valid() && history == [] && marker.None? && c.maxEvents > 0
      modifies this
      ensures Valid()
      ensures r == Written <==> marker.Some?
      ensures r == Written ==> history == [e]
      ensures r == Written ==> Storable(c, id, [e])
      ensures Storable(c, id, [e]) ==> r == Written || r == WriteFailed
    {
      var blob := c.encode(Envelope(id, 1, None, e));
      StorableSnoc(c, id, [], e);
      assert [] + [e] == [e] && Blob(c, id, [e], 0) == blob;
      if !c.safe(e) { return Credentials; }
      if |blob| > c.maxEventBytes { return TooLarge; }
      if c.project(None, e).None? { return Refused; }
      if |blob| > c.maxTimelineBytes { return TimelineFull; }
      var ok, sha256 := WriteNext(e, None, 0);
      if !ok { return WriteFailed; }
      if * { return WriteFailed; }
      marker := Some(sha256);
      return Written;
    }

    /** What append checks of the next event, with everything read back: `None` if the extended history
        may be stored. */
    method CheckNext(t: Timeline<E, P>, e: E) returns (refusal: Option<WriteResult>)
      requires Valid() && history != [] && t == At(c, id, history, |history|) && t.events == history
      ensures refusal.None? <==> Storable(c, id, history + [e])
      ensures refusal.Some? ==> refusal.value !in {Written, Unreadable, WriteFailed}
    {
      StorableSnoc(c, id, history, e);
      FilesSnoc(c, id, history, e);
      var blob := c.encode(Envelope(id, |t.events| + 1, t.previous, e));
      if |t.events| >= c.maxEvents { return Some(TooMany); }
      if !c.safe(e) { return Some(Credentials); }
      if |blob| > c.maxEventBytes { return Some(TooLarge); }
      if c.project(t.projection, e).None? { return Some(Refused); }
      if t.bytesRead + |blob| > c.maxTimelineBytes { return Some(TimelineFull); }
      return None;
    }

    /** append: read everything back, check, and write one file more. It succeeds exactly when the
        extended history may be stored and the write does not fail. */
    method Append(e: E) returns (r: WriteResult)
      requires Valid()
      modifies this`files, this`history
      ensures Valid()
      ensures r == Written ==> history == old(history) + [e] && marker.Some?
      ensures r == WriteFailed ==> history == old(history) || history == old(history) + [e]
      ensures r != Written && r != WriteFailed ==> history == old(history) && files == old(files)
      ensures r == Unreadable <==> marker.None?
      ensures marker.Some? ==> (Storable(c, id, old(history) + [e]) <==> r == Written || r == WriteFailed)
    {
      var timeline := ReadBack();
      if timeline.Err? { return Unreadable; }
      var t := timeline.value;
      var refusal := CheckNext(t, e);
      if refusal.Some? { return refusal.value; }
      var ok, _ := WriteNext(e, t.previous, |t.events|);
      return if ok then Written else WriteFailed;
    }
  }

  /** Two stores of one format whose journals end in the same digest hold the same journal. */
  lemma SameTipSameStore<E(!new), P(!new)>(s: Store<E, P>, t: Store<E, P>)
    requires s.Valid() && t.Valid() && s.c == t.c && s.history != [] && t.history != []
    requires DigestsDiffer(s.c, JournalChain.Blobs(s.c, s.id, s.history) + JournalChain.Blobs(t.c, t.id, t.history))
    requires Tip(s.c, s.id, s.history, |s.history|) == Tip(t.c, t.id, t.history, |t.history|)
    ensures s.id == t.id && s.history == t.history && s.files == t.files
  {
    JournalChain.SameTipSameWritten(s.c, s.id, t.id, s.history, t.history);
  }

  /** And whatever happened to a store's directory, reading it gives the store's history and perhaps more,
      or an error, as long as the last file written is there. */
  lemma StoreIsKept<E(!new), P(!new)>(s: Store<E, P>, mark: Option<string>, others: seq<string>, copies: map<string, Bytes>)
    requires s.Valid() && s.history != [] && forall name :: name in others ==> name in copies
    requires DigestsDiffer(s.c, JournalChain.Blobs(s.c, s.id, s.history) + JournalChain.Contents(others, copies))
    requires Blob(s.c, s.id, s.history, |s.history| - 1) in JournalChain.Contents(others, copies)
    ensures Read(s.c, s.id, mark, others, copies).Err?
            || s.history <= Read(s.c, s.id, mark, others, copies).value.events
  {
    if Read(s.c, s.id, mark, others, copies).Ok? {
      JournalChain.WrittenIsKept(s.c, s.id, s.history, mark, others, copies);
    }
  }
}
