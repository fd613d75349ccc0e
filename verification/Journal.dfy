/** The event journal on disk: one file per event, named by sequence and digest and chained by digests,
    and its replay (src/workflow/journal.ts, src/artifacts/task-journal.ts). The two journals differ in
    their events, limits and acceptor, which are parameters here. */
module Journal {
  import opened Wrappers
  import opened JournalNames

  datatype Envelope<E> = Envelope(journalId: nat, sequence: nat, previous: Option<string>, data: E)

  /** The parts a journal takes from elsewhere: JSON, SHA-256, file names, the credential check, the
      acceptor. */
  datatype Codec<!E, !P> = Codec(
    encode: Envelope<E> -> Bytes,
    decode: Bytes -> Option<Envelope<E>>,
    digest: Bytes -> string,
    name: (nat, string) -> string,
    parseName: string -> Option<(nat, string)>,
    safe: E -> bool,
    project: (Option<P>, E) -> Option<P>,
    maxEventBytes: nat,
    maxEvents: nat,
    maxTimelineBytes: nat)

  ghost predicate Lawful<E(!new), P(!new)>(c: Codec<E, P>) {
    && (forall e :: c.decode(c.encode(e)) == Some(e))
    && (forall a :: IsDigest(c.digest(a)))
    && NamesLawful(c)
  }

  /** No two of these contents share a digest. */
  predicate DigestsDiffer<E, P>(c: Codec<E, P>, blobs: seq<Bytes>) {
    forall a, b :: a in blobs && b in blobs && c.digest(a) == c.digest(b) ==> a == b
  }

  /** Names are read back as written, and sort by sequence. */
  ghost predicate NamesLawful<E, P>(c: Codec<E, P>) {
    && (forall i: nat, s :: i <= c.maxEvents && IsDigest(s) ==> c.parseName(c.name(i, s)) == Some((i, s)))
    && (forall i: nat, j: nat, a, b :: i < j <= c.maxEvents ==> Less(c.name(i, a), c.name(j, b)))
  }

  /** The file names of both journals are lawful for every limit of twelve digits. */
  lemma EventNamesAreLawful<E, P>(c: Codec<E, P>)
    requires c.name == EventFileName && c.parseName == ParseName && c.maxEvents < Pow10(SEQUENCE_DIGITS)
    ensures NamesLawful(c)
  {
    forall i: nat, s | i <= c.maxEvents && IsDigest(s) ensures c.parseName(c.name(i, s)) == Some((i, s)) {
      NameRoundTrip(i, s);
    }
    forall i: nat, j: nat, a, b | i < j <= c.maxEvents ensures Less(c.name(i, a), c.name(j, b)) {
      NamesSort(i, j, a, b);
    }
  }

  datatype ReadError =
    | NotPublished | Empty | TooManyEvents | NotContiguous | EventTooLarge | TimelineTooLarge | DigestMismatch
    | Malformed | Unsafe | ChainBroken | MarkerMismatch | Rejected

  /** The variables of the replay loop. */
  datatype Timeline<E, P> = Timeline(events: seq<E>, projection: Option<P>, previous: Option<string>, bytesRead: nat)

  /** One pass of the replay loop. */
  function ReadEvent<E, P>(c: Codec<E, P>, id: nat, marker: string, t: Timeline<E, P>, name: string, contents: Bytes)
    : Result<Timeline<E, P>, ReadError>
  {
    var expectedSequence := |t.events| + 1;
    var parsed := c.parseName(name);
    var sha256 := c.digest(contents);
    if parsed.None? || parsed.value.0 != expectedSequence then Err(NotContiguous)
    else if |contents| > c.maxEventBytes then Err(EventTooLarge)
    else if t.bytesRead + |contents| > c.maxTimelineBytes then Err(TimelineTooLarge)
    else if sha256 != parsed.value.1 then Err(DigestMismatch)
    else
      match c.decode(contents)
      case None => Err(Malformed)
      case Some(Envelope(journalId, sequence, previous, data)) =>
        if journalId != id || sequence != expectedSequence then Err(Malformed)
        else if !c.safe(data) then Err(Unsafe)
        else if previous != t.previous then Err(ChainBroken)
        else if expectedSequence == 1 && sha256 != marker then Err(MarkerMismatch)
        else
          var next := c.project(t.projection, data);
          if next.None? then Err(Rejected)
          else Ok(Timeline(t.events + [data], next, Some(sha256), t.bytesRead + |contents|))
  }

  /** The loop over the first `k` names. */
  function ReadPrefix<E, P>(c: Codec<E, P>, id: nat, marker: string, names: seq<string>, files: map<string, Bytes>, k: nat)
    : Result<Timeline<E, P>, ReadError>
    requires k <= |names| && forall name :: name in names ==> name in files
  {
    if k == 0 then Ok(Timeline([], None, None, 0))
    else
      match ReadPrefix(c, id, marker, names, files, k - 1)
      case Err(e) => Err(e)
      case Ok(t) => ReadEvent(c, id, marker, t, names[k - 1], files[names[k - 1]])
  }

  function Read<E, P>(c: Codec<E, P>, id: nat, marker: Option<string>, names: seq<string>, files: map<string, Bytes>)
    : Result<Timeline<E, P>, ReadError>
    requires forall name :: name in names ==> name in files
  {
    if marker.None? then Err(NotPublished)
    else if |names| == 0 then Err(Empty)
    else if |names| > c.maxEvents then Err(TooManyEvents)
    else ReadPrefix(c, id, marker.value, names, files, |names|)
  }

  /** readTimeline over the sorted listing of the events directory. */
  method ReadTimeline<E, P>(c: Codec<E, P>, id: nat, marker: Option<string>, names: seq<string>, files: map<string, Bytes>)
    returns (r: Result<Timeline<E, P>, ReadError>)
    requires forall name :: name in names ==> name in files
    ensures r == Read(c, id, marker, names, files)
  {
    if marker.None? { return Err(NotPublished); }
    if |names| == 0 { return Err(Empty); }
    if |names| > c.maxEvents { return Err(TooManyEvents); }
    var t: Timeline<E, P> := Timeline([], None, None, 0);
    for k := 0 to |names|
      invariant ReadPrefix(c, id, marker.value, names, files, k) == Ok(t)
    {
      var next := ReadEvent(c, id, marker.value, t, names[k], files[names[k]]);
      if next.Err? {
        StaysFailed(c, id, marker.value, names, files, k + 1, |names|);
        return next;
      }
      t := next.value;
    }
    return Ok(t);
  }

  lemma {:induction false} StaysFailed<E, P>(c: Codec<E, P>, id: nat, marker: string, names: seq<string>,
                                             files: map<string, Bytes>, k: nat, n: nat)
    requires k <= n <= |names| && forall name :: name in names ==> name in files
    requires ReadPrefix(c, id, marker, names, files, k).Err?
    ensures ReadPrefix(c, id, marker, names, files, n) == ReadPrefix(c, id, marker, names, files, k)
    decreases n
  {
    if k < n { StaysFailed(c, id, marker, names, files, k, n - 1); }
  }

  // ----- What create and append write -----

  /** The left fold of the acceptor over the first k events; `None` once one is rejected. */
  function Fold<E, P>(c: Codec<E, P>, es: seq<E>, k: nat): Option<P>
    requires k <= |es|
  {
    if k == 0 || (k > 1 && Fold(c, es, k - 1).None?) then None
    else c.project(Fold(c, es, k - 1), es[k - 1])
  }

  /** The contents of the file of event i. */
  function Blob<E, P>(c: Codec<E, P>, id: nat, es: seq<E>, i: nat): Bytes
    requires i < |es|
  {
    c.encode(Envelope(id, i + 1, if i == 0 then None else Some(c.digest(Blob(c, id, es, i - 1))), es[i]))
  }

  /** The digest that event k + 1 has to name. */
  function Tip<E, P>(c: Codec<E, P>, id: nat, es: seq<E>, k: nat): Option<string>
    requires k <= |es|
  {
    if k == 0 then None else Some(c.digest(Blob(c, id, es, k - 1)))
  }

  function Total<E, P>(c: Codec<E, P>, id: nat, es: seq<E>, k: nat): nat
    requires k <= |es|
  {
    if k == 0 then 0 else Total(c, id, es, k - 1) + |Blob(c, id, es, k - 1)|
  }

  function NameAt<E, P>(c: Codec<E, P>, id: nat, es: seq<E>, i: nat): string
    requires i < |es|
  {
    c.name(i + 1, c.digest(Blob(c, id, es, i)))
  }

  function NamesOf<E, P>(c: Codec<E, P>, id: nat, es: seq<E>): (names: seq<string>)
    ensures |names| == |es|
  {
    seq(|es|, i requires 0 <= i < |es| => NameAt(c, id, es, i))
  }

  /** The events directory with the files of the first k events. */
  function Files<E, P>(c: Codec<E, P>, id: nat, es: seq<E>, k: nat): map<string, Bytes>
    requires k <= |es|
  {
    if k == 0 then map[] else Files(c, id, es, k - 1)[NameAt(c, id, es, k - 1) := Blob(c, id, es, k - 1)]
  }

  /** A history the journal may hold: accepted, without credentials, and within the limits. */
  predicate Storable<E, P>(c: Codec<E, P>, id: nat, es: seq<E>) {
    && 0 < |es| <= c.maxEvents
    && (forall k :: 0 < k <= |es| ==> Fold(c, es, k).Some?)
    && (forall i :: 0 <= i < |es| ==> c.safe(es[i]) && |Blob(c, id, es, i)| <= c.maxEventBytes)
    && (forall k :: 0 <= k <= |es| ==> Total(c, id, es, k) <= c.maxTimelineBytes)
  }

  ghost predicate NamesDistinct<E, P>(c: Codec<E, P>) {
    forall i: nat, j: nat, a, b :: i < j <= c.maxEvents ==> c.name(i, a) != c.name(j, b)
  }

  lemma NamesDiffer<E, P>(c: Codec<E, P>)
    requires NamesLawful(c)
    ensures NamesDistinct(c)
  {
    forall i: nat, j: nat, a, b | i < j <= c.maxEvents ensures c.name(i, a) != c.name(j, b) {
      LessAsymmetric(c.name(i, a), c.name(j, b));
    }
  }

  /** Every file of the chain is found under its own name. */
  lemma {:induction false} FileFound<E, P>(c: Codec<E, P>, id: nat, es: seq<E>, k: nat, i: nat)
    requires NamesDistinct(c) && i < k <= |es| <= c.maxEvents
    ensures var name := NameAt(c, id, es, i);
            name in Files(c, id, es, k) && Files(c, id, es, k)[name] == Blob(c, id, es, i)
  {
    if i < k - 1 {
      FileFound(c, id, es, k - 1, i);
      assert NameAt(c, id, es, i) != NameAt(c, id, es, k - 1);
    }
  }

  lemma {:induction false} FilesNamed<E, P>(c: Codec<E, P>, id: nat, es: seq<E>, k: nat)
    requires k <= |es|
    ensures forall name :: name in Files(c, id, es, k) <==> name in NamesOf(c, id, es)[..k]
  {
    if k > 0 {
      FilesNamed(c, id, es, k - 1);
      assert NamesOf(c, id, es)[..k] == NamesOf(c, id, es)[..k - 1] + [NameAt(c, id, es, k - 1)];
    }
  }

  lemma NamesAreSorted<E, P>(c: Codec<E, P>, id: nat, es: seq<E>)
    requires NamesLawful(c) && |es| <= c.maxEvents
    ensures Lists(NamesOf(c, id, es), Files(c, id, es, |es|).Keys)
  {
    var names := NamesOf(c, id, es);
    FilesNamed(c, id, es, |es|);
    assert names[..|es|] == names;
    forall i, j | 0 <= i < j < |names| ensures Less(names[i], names[j]) {
      assert names[i] == NameAt(c, id, es, i) && names[j] == NameAt(c, id, es, j);
    }
  }

  /** The replay loop's variables behind event k. */
  function At<E, P>(c: Codec<E, P>, id: nat, es: seq<E>, k: nat): Timeline<E, P>
    requires k <= |es|
  {
    Timeline(es[..k], Fold(c, es, k), Tip(c, id, es, k), Total(c, id, es, k))
  }

  /** The envelope of event i comes back from its file. */
  lemma BlobDecodes<E(!new), P(!new)>(c: Codec<E, P>, id: nat, es: seq<E>, i: nat)
    requires Lawful(c) && i < |es| <= c.maxEvents
    ensures c.decode(Blob(c, id, es, i)) == Some(Envelope(id, i + 1, Tip(c, id, es, i), es[i]))
    ensures c.parseName(NameAt(c, id, es, i)) == Some((i + 1, c.digest(Blob(c, id, es, i))))
  {
  }

  /** One file of the journal replays its event. */
  lemma ReplaysOne<E(!new), P(!new)>(c: Codec<E, P>, id: nat, es: seq<E>, marker: string, i: nat)
    requires Lawful(c) && Storable(c, id, es) && Tip(c, id, es, 1) == Some(marker) && i < |es|
    ensures ReadEvent(c, id, marker, At(c, id, es, i), NameAt(c, id, es, i), Blob(c, id, es, i)) == Ok(At(c, id, es, i + 1))
  {
    BlobDecodes(c, id, es, i);
    StorableAt(c, id, es, i);
    assert es[..i + 1] == es[..i] + [es[i]];
  }

  lemma StorableAt<E, P>(c: Codec<E, P>, id: nat, es: seq<E>, i: nat)
    requires Storable(c, id, es) && i < |es|
    ensures Fold(c, es, i + 1).Some? && Fold(c, es, i + 1) == c.project(Fold(c, es, i), es[i])
    ensures Total(c, id, es, i + 1) == Total(c, id, es, i) + |Blob(c, id, es, i)| <= c.maxTimelineBytes
    ensures c.safe(es[i]) && |Blob(c, id, es, i)| <= c.maxEventBytes
  {
    assert Total(c, id, es, i + 1) <= c.maxTimelineBytes;
    if i > 0 { assert Fold(c, es, i).Some?; }
  }

  /** Each name leads to the file of its event. */
  predicate Serves<E, P>(c: Codec<E, P>, id: nat, es: seq<E>, names: seq<string>, files: map<string, Bytes>) {
    && |names| == |es|
    && (forall name :: name in names ==> name in files)
    && (forall i :: 0 <= i < |es| ==> names[i] == NameAt(c, id, es, i) && files[names[i]] == Blob(c, id, es, i))
  }

  /** A listing whose every file takes the loop one event further takes it to the end. */
  lemma {:induction false} ReplaysPrefix<E, P>(c: Codec<E, P>, id: nat, marker: string, names: seq<string>,
                                               files: map<string, Bytes>, at: seq<Timeline<E, P>>, k: nat)
    requires k <= |names| && |at| == |names| + 1 && at[0] == Timeline([], None, None, 0)
    requires forall name :: name in names ==> name in files
    requires forall i :: 0 <= i < |names| ==> ReadEvent(c, id, marker, at[i], names[i], files[names[i]]) == Ok(at[i + 1])
    ensures ReadPrefix(c, id, marker, names, files, k) == Ok(at[k])
  {
    if k > 0 {
      ReplaysPrefix(c, id, marker, names, files, at, k - 1);
      assert ReadEvent(c, id, marker, at[k - 1], names[k - 1], files[names[k - 1]]) == Ok(at[k - 1 + 1]);
    }
  }

  lemma ListingServes<E, P>(c: Codec<E, P>, id: nat, es: seq<E>, names: seq<string>)
    requires NamesLawful(c) && |es| <= c.maxEvents && Lists(names, Files(c, id, es, |es|).Keys)
    ensures Serves(c, id, es, names, Files(c, id, es, |es|))
  {
    NamesAreSorted(c, id, es);
    ListingIsUnique(names, NamesOf(c, id, es), Files(c, id, es, |es|).Keys);
    NamesDiffer(c);
    forall i | 0 <= i < |es|
      ensures names[i] == NameAt(c, id, es, i) && names[i] in Files(c, id, es, |es|)
              && Files(c, id, es, |es|)[names[i]] == Blob(c, id, es, i)
    {
      FileFound(c, id, es, |es|, i);
    }
  }

  /** The loop's variables at every event. */
  function Ats<E, P>(c: Codec<E, P>, id: nat, es: seq<E>): (at: seq<Timeline<E, P>>)
    ensures |at| == |es| + 1 && forall k :: 0 <= k <= |es| ==> at[k] == At(c, id, es, k)
  {
    seq(|es| + 1, k requires 0 <= k <= |es| => At(c, id, es, k))
  }

  lemma ServedReplays<E(!new), P(!new)>(c: Codec<E, P>, id: nat, es: seq<E>, marker: string, names: seq<string>,
                                        files: map<string, Bytes>, i: nat)
    requires Lawful(c) && Storable(c, id, es) && Tip(c, id, es, 1) == Some(marker) && i < |es|
    requires Serves(c, id, es, names, files)
    ensures ReadEvent(c, id, marker, Ats(c, id, es)[i], names[i], files[names[i]]) == Ok(Ats(c, id, es)[i + 1])
  {
    ReplaysOne(c, id, es, marker, i);
  }

  lemma ServedReads<E, P>(c: Codec<E, P>, id: nat, es: seq<E>, marker: string, names: seq<string>, files: map<string, Bytes>)
    requires Serves(c, id, es, names, files)
    requires forall i :: 0 <= i < |names| ==>
               ReadEvent(c, id, marker, Ats(c, id, es)[i], names[i], files[names[i]]) == Ok(Ats(c, id, es)[i + 1])
    ensures ReadPrefix(c, id, marker, names, files, |names|) == Ok(At(c, id, es, |es|))
  {
    assert Ats(c, id, es)[0] == At(c, id, es, 0);
    ReplaysPrefix(c, id, marker, names, files, Ats(c, id, es), |es|);
  }

  /** Round trip: whatever history the journal holds, its listing replays exactly that history. */
  lemma RoundTrip<E(!new), P(!new)>(c: Codec<E, P>, id: nat, es: seq<E>, names: seq<string>)
    requires Lawful(c) && Storable(c, id, es) && Lists(names, Files(c, id, es, |es|).Keys)
    ensures Read(c, id, Tip(c, id, es, 1), names, Files(c, id, es, |es|)) == Ok(At(c, id, es, |es|))
    ensures At(c, id, es, |es|).events == es
  {
    var marker, files := Tip(c, id, es, 1).value, Files(c, id, es, |es|);
    ListingServes(c, id, es, names);
    forall i | 0 <= i < |names|
      ensures ReadEvent(c, id, marker, Ats(c, id, es)[i], names[i], files[names[i]]) == Ok(Ats(c, id, es)[i + 1])
    {
      ServedReplays(c, id, es, marker, names, files, i);
    }
    ServedReads(c, id, es, marker, names, files);
  }

  /** Appending an event leaves what is written alone. */
  lemma {:induction false} Extends<E, P>(c: Codec<E, P>, id: nat, es: seq<E>, e: E, k: nat)
    requires k <= |es|
    ensures Fold(c, es + [e], k) == Fold(c, es, k)
    ensures Total(c, id, es + [e], k) == Total(c, id, es, k)
    ensures Files(c, id, es + [e], k) == Files(c, id, es, k)
    ensures k > 0 ==> Blob(c, id, es + [e], k - 1) == Blob(c, id, es, k - 1)
  {
    if k > 0 { Extends(c, id, es, e, k - 1); }
  }
}
