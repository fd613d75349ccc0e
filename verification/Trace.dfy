/** The trace of a task: its events gathered into spans, and the spans read page by page
    (src/observability/service.ts). */
module Trace {
  import opened Domain
  import opened Wrappers
  import opened TaskModel
  import opened TaskPatchGate

  /** What a span identifier is a digest of; identifiers are taken to collide only when these are equal.
      Events are named by their position in the timeline. */
  datatype SpanId = OfEvent(position: nat) | OfAttempt(runId: Id) | OfApplication(request: nat)

  datatype Span = Span(id: SpanId, sequence: nat, lastSequence: nat, sources: seq<nat>)

  datatype AttemptEvents = AttemptEvents(started: nat, workerCompleted: Option<nat>, completed: Option<nat>)

  function EventSpan(i: nat): Span {
    Span(OfEvent(i), i + 1, i + 1, [i])
  }

  function Optional(o: Option<nat>): seq<nat> {
    if o.Some? then [o.value] else []
  }

  function AttemptSources(a: AttemptEvents): seq<nat> {
    [a.started] + Optional(a.workerCompleted) + Optional(a.completed)
  }

  function AttemptSpan(runId: Id, a: AttemptEvents): Span {
    var last := if a.completed.Some? then a.completed.value
                else if a.workerCompleted.Some? then a.workerCompleted.value else a.started;
    Span(OfAttempt(runId), a.started + 1, last + 1, AttemptSources(a))
  }

  function ApplicationSpan(events: seq<nat>): Span
    requires events != []
  {
    Span(OfApplication(events[0]), events[0] + 1, events[|events| - 1] + 1, events)
  }

  // ----- Which span an event belongs to, read off the timeline alone -----

  /** The last request up to this event. */
  function RequestOf(es: seq<Event>, i: nat): nat
    requires i < |es|
  {
    if es[i].PatchApplicationRequested? || i == 0 then i else RequestOf(es, i - 1)
  }

  function OwnerOf(es: seq<Event>, i: nat): SpanId
    requires i < |es|
  {
    match es[i]
    case WorkerStarted(r, _, _) => OfAttempt(r)
    case WorkerCompleted(r, _, _) => OfAttempt(r)
    case AttemptCompleted(r, _, _) => OfAttempt(r)
    case PatchApplicationRequested(_) => OfApplication(RequestOf(es, i))
    case PatchApproved(_) => OfApplication(RequestOf(es, i))
    case PatchApplied(_, _) => OfApplication(RequestOf(es, i))
    case PatchApplicationRejected(_, _) => OfApplication(RequestOf(es, i))
    case _ => OfEvent(i)
  }

  /** The events of the first n that belong to this identifier, in order; the creation is the root's. */
  function SourcesOf(es: seq<Event>, n: nat, id: SpanId): seq<nat>
    requires n <= |es|
  {
    if n <= 1 then []
    else SourcesOf(es, n - 1, id) + (if OwnerOf(es, n - 1) == id then [n - 1] else [])
  }

  lemma {:induction false} SourcesBelong(es: seq<Event>, n: nat, id: SpanId)
    requires n <= |es|
    ensures forall i :: i in SourcesOf(es, n, id) <==> 0 < i < n && OwnerOf(es, i) == id
    ensures forall k, l :: 0 <= k < l < |SourcesOf(es, n, id)| ==> SourcesOf(es, n, id)[k] < SourcesOf(es, n, id)[l]
  {
    if n > 1 {
      SourcesBelong(es, n - 1, id);
      var before := SourcesOf(es, n - 1, id);
      forall k | 0 <= k < |before| ensures before[k] < n - 1 { assert before[k] in before; }
    }
  }

  lemma {:induction false} NoSources(es: seq<Event>, n: nat, id: SpanId)
    requires n <= |es| && forall i :: 0 < i < n ==> OwnerOf(es, i) != id
    ensures SourcesOf(es, n, id) == []
  {
    if n > 1 { NoSources(es, n - 1, id); }
  }

  lemma {:induction false} RequestBefore(es: seq<Event>, i: nat)
    requires i < |es|
    ensures RequestOf(es, i) <= i
  {
    if i > 0 && !es[i].PatchApplicationRequested? { RequestBefore(es, i - 1); }
  }

  // ----- The loop over the events -----

  datatype Spans = Spans(
    spans: seq<Span>,
    attempts: map<Id, AttemptEvents>,
    application: Option<seq<nat>>)

  predicate HasSpan(t: Spans, id: SpanId) {
    match id
    case OfAttempt(r) => r in t.attempts
    case _ =>
      || (exists k :: 0 <= k < |t.spans| && t.spans[k].id == id)
      || (t.application.Some? && t.application.value != [] && id == OfApplication(t.application.value[0]))
  }

  ghost predicate SpansRight(es: seq<Event>, n: nat, spans: seq<Span>)
    requires n <= |es|
  {
    && (forall k :: 0 <= k < |spans| ==> SpanRight(es, n, spans[k]))
    && (forall k, l :: 0 <= k < l < |spans| ==> spans[k].id != spans[l].id)
  }

  predicate SpanRight(es: seq<Event>, n: nat, span: Span)
    requires n <= |es|
  {
    && span.sources == SourcesOf(es, n, span.id)
    && span.sources != [] && span.sequence == span.sources[0] + 1
    && span.lastSequence == span.sources[|span.sources| - 1] + 1
  }

  ghost predicate OpenRight(es: seq<Event>, n: nat, t: Spans)
    requires n <= |es|
  {
    && (forall k :: 0 <= k < |t.spans| ==> !t.spans[k].id.OfAttempt?)
    && (forall r :: r in t.attempts ==> AttemptSources(t.attempts[r]) == SourcesOf(es, n, OfAttempt(r)))
    && (t.application.Some? ==>
          && t.application.value != []
          && t.application.value == SourcesOf(es, n, OfApplication(t.application.value[0]))
          && (forall k :: 0 <= k < |t.spans| ==> t.spans[k].id != OfApplication(t.application.value[0])))
  }

  ghost predicate Complete(es: seq<Event>, n: nat, t: Spans)
    requires n <= |es|
  {
    forall i :: 0 < i < n ==> HasSpan(t, OwnerOf(es, i))
  }

  /** Every event so far is in the span it belongs to, and in no other. */
  ghost predicate Gathered(es: seq<Event>, n: nat, t: Spans)
    requires n <= |es|
  {
    SpansRight(es, n, t.spans) && OpenRight(es, n, t) && Complete(es, n, t)
  }

  /** The loop's variables agree with the acceptor's projection. */
  ghost predicate InStep(es: seq<Event>, n: nat, t: Spans, p: Projection)
    requires n <= |es|
  {
    && t.attempts.Keys == p.knownRunIds
    && (t.application.Some? <==> p.application in {ApplicationPending, ApplicationApproved})
    && (t.application.Some? ==>
          t.application.value != [] && n > 0 && RequestOf(es, n - 1) == t.application.value[0])
    && (p.activeAttempt.Some? ==>
          var a := p.activeAttempt.value;
          && a.runId in t.attempts
          && t.attempts[a.runId].completed.None?
          && (t.attempts[a.runId].workerCompleted.Some? <==> a.workerOutcome.Some?))
  }

  /** One event of the switch; `None` is the invalid-history error. */
  function Step(t: Spans, e: Event, i: nat): Option<Spans> {
    match e
    case TaskCreated => Some(t)
    case WorkerStarted(r, _, _) => Some(t.(attempts := t.attempts[r := AttemptEvents(i, None, None)]))
    case WorkerCompleted(r, _, _) =>
      if r !in t.attempts then None
      else Some(t.(attempts := t.attempts[r := t.attempts[r].(workerCompleted := Some(i))]))
    case AttemptCompleted(r, _, _) =>
      if r !in t.attempts then None
      else Some(t.(attempts := t.attempts[r := t.attempts[r].(completed := Some(i))]))
    case PatchApplicationRequested(_) => if t.application.Some? then None else Some(t.(application := Some([i])))
    case PatchApproved(_) =>
      if t.application.None? then None else Some(t.(application := Some(t.application.value + [i])))
    case PatchApplied(_, _) => CloseApplication(t, i)
    case PatchApplicationRejected(_, _) => CloseApplication(t, i)
    case _ => Some(t.(spans := t.spans + [EventSpan(i)]))
  }

  function CloseApplication(t: Spans, i: nat): Option<Spans> {
    if t.application.None? then None
    else Some(t.(spans := t.spans + [ApplicationSpan(t.application.value + [i])], application := None))
  }

  /** A closed span stays right while other events come. */
  lemma SpansStay(es: seq<Event>, n: nat, spans: seq<Span>)
    requires n < |es| && SpansRight(es, n, spans)
    requires forall k :: 0 <= k < |spans| ==> spans[k].id != OwnerOf(es, n)
    ensures SpansRight(es, n + 1, spans)
  {
    forall k | 0 <= k < |spans| ensures SpanRight(es, n + 1, spans[k]) {
      assert SpanRight(es, n, spans[k]);
    }
  }

  lemma SpansGrow(es: seq<Event>, n: nat, spans: seq<Span>, span: Span)
    requires n <= |es| && SpansRight(es, n, spans) && SpanRight(es, n, span)
    requires forall k :: 0 <= k < |spans| ==> spans[k].id != span.id
    ensures SpansRight(es, n, spans + [span])
  {
  }

  /** An identifier that owns nothing yet is not a closed span's. */
  lemma NotYetSpan(es: seq<Event>, n: nat, spans: seq<Span>, id: SpanId)
    requires n <= |es| && SpansRight(es, n, spans) && SourcesOf(es, n, id) == []
    ensures forall k :: 0 <= k < |spans| ==> spans[k].id != id
  {
    forall k | 0 <= k < |spans| ensures spans[k].id != id { assert SpanRight(es, n, spans[k]); }
  }

  lemma OwnSpanFits(es: seq<Event>, spans: seq<Span>, i: nat)
    requires 0 < i < |es| && SpansRight(es, i, spans) && OwnerOf(es, i).OfEvent?
    ensures SpansRight(es, i + 1, spans + [EventSpan(i)])
  {
    var id := OfEvent(i);
    forall j | 0 < j < i ensures OwnerOf(es, j) != id {}
    NoSources(es, i, id);
    NotYetSpan(es, i, spans, id);
    SpansStay(es, i, spans);
    SpansGrow(es, i + 1, spans, EventSpan(i));
  }

  lemma OwnSpanOpen(es: seq<Event>, t: Spans, i: nat)
    requires 0 < i < |es| && OpenRight(es, i, t) && OwnerOf(es, i).OfEvent?
    ensures OpenRight(es, i + 1, t.(spans := t.spans + [EventSpan(i)]))
  {
  }

  /** An event with a span of its own. */
  lemma OwnSpanStep(es: seq<Event>, t: Spans, i: nat)
    requires 0 < i < |es| && Gathered(es, i, t) && OwnerOf(es, i).OfEvent? && !es[i].TaskCreated?
    ensures Step(t, es[i], i) == Some(t.(spans := t.spans + [EventSpan(i)]))
    ensures Gathered(es, i + 1, Step(t, es[i], i).value)
  {
    var u := t.(spans := t.spans + [EventSpan(i)]);
    OwnSpanFits(es, t.spans, i);
    OwnSpanOpen(es, t, i);
    assert u.spans[|t.spans|] == EventSpan(i);
    StaysComplete(es, t, u, i);
  }

  lemma KeepsSpan(t: Spans, u: Spans, id: SpanId)
    requires HasSpan(t, id) && t.attempts.Keys <= u.attempts.Keys
    requires t.spans <= u.spans && (t.application.Some? && t.application.value != [] ==>
               && u.application.Some? && u.application.value != [] && u.application.value[0] == t.application.value[0])
    ensures HasSpan(u, id)
  {
    if !id.OfAttempt? {
      if k :| 0 <= k < |t.spans| && t.spans[k].id == id { assert u.spans[k] == t.spans[k]; }
    }
  }

  lemma StaysComplete(es: seq<Event>, t: Spans, u: Spans, i: nat)
    requires i < |es| && Complete(es, i, t) && (i > 0 ==> HasSpan(u, OwnerOf(es, i)))
    requires t.attempts.Keys <= u.attempts.Keys && t.spans <= u.spans
    requires t.application.Some? && t.application.value != [] ==>
               && u.application.Some? && u.application.value != [] && u.application.value[0] == t.application.value[0]
    ensures Complete(es, i + 1, u)
  {
    forall j | 0 < j < i + 1 ensures HasSpan(u, OwnerOf(es, j)) {
      if j < i { KeepsSpan(t, u, OwnerOf(es, j)); }
    }
  }

  /** The start of an attempt that is not known yet. */
  lemma StartStep(es: seq<Event>, t: Spans, i: nat)
    requires 0 < i < |es| && Gathered(es, i, t) && es[i].WorkerStarted? && es[i].runId !in t.attempts
    ensures Step(t, es[i], i).Some? && Gathered(es, i + 1, Step(t, es[i], i).value)
  {
    var id := OwnerOf(es, i);
    SpansStay(es, i, t.spans);
    forall j | 0 < j < i ensures OwnerOf(es, j) != id { assert HasSpan(t, OwnerOf(es, j)); }
    NoSources(es, i, id);
    StaysComplete(es, t, Step(t, es[i], i).value, i);
  }

  /** The attempt's record with one more event. */
  function Extended(a: AttemptEvents, e: Event, i: nat): AttemptEvents {
    if e.WorkerCompleted? then a.(workerCompleted := Some(i)) else a.(completed := Some(i))
  }

  lemma SourcesGrow(a: AttemptEvents, e: Event, i: nat)
    requires a.completed.None? && (e.WorkerCompleted? ==> a.workerCompleted.None?)
    ensures AttemptSources(Extended(a, e, i)) == AttemptSources(a) + [i]
  {
  }

  lemma EndingOpen(es: seq<Event>, t: Spans, u: Spans, i: nat, r: Id)
    requires 0 < i < |es| && OpenRight(es, i, t) && OwnerOf(es, i) == OfAttempt(r) && r in t.attempts
    requires u.spans == t.spans && u.application == t.application && u.attempts.Keys == t.attempts.Keys
    requires AttemptSources(u.attempts[r]) == AttemptSources(t.attempts[r]) + [i]
    requires forall q :: q in t.attempts && q != r ==> u.attempts[q] == t.attempts[q]
    ensures OpenRight(es, i + 1, u)
  {
  }

  /** One of the two ends of a known attempt, for the first time. */
  lemma EndingStep(es: seq<Event>, t: Spans, i: nat)
    requires 0 < i < |es| && Gathered(es, i, t) && (es[i].WorkerCompleted? || es[i].AttemptCompleted?)
    requires es[i].runId in t.attempts && t.attempts[es[i].runId].completed.None?
    requires es[i].WorkerCompleted? ==> t.attempts[es[i].runId].workerCompleted.None?
    ensures Step(t, es[i], i).Some? && Gathered(es, i + 1, Step(t, es[i], i).value)
  {
    var r := es[i].runId;
    SourcesGrow(t.attempts[r], es[i], i);
    EndingOpen(es, t, Step(t, es[i], i).value, i, r);
    SpansStay(es, i, t.spans);
    StaysComplete(es, t, Step(t, es[i], i).value, i);
  }

  /** A patch application opens. */
  lemma RequestStep(es: seq<Event>, t: Spans, i: nat)
    requires 0 < i < |es| && Gathered(es, i, t) && es[i].PatchApplicationRequested? && t.application.None?
    ensures Step(t, es[i], i).Some? && Gathered(es, i + 1, Step(t, es[i], i).value)
  {
    var id := OfApplication(i);
    forall j | 0 < j < i ensures OwnerOf(es, j) != id { RequestBefore(es, j); }
    NoSources(es, i, id);
    NotYetSpan(es, i, t.spans, id);
    SpansStay(es, i, t.spans);
    StaysComplete(es, t, Step(t, es[i], i).value, i);
  }

  /** A patch application goes on. */
  lemma ApprovalStep(es: seq<Event>, t: Spans, i: nat)
    requires 0 < i < |es| && Gathered(es, i, t) && t.application.Some? && es[i].PatchApproved?
    requires RequestOf(es, i - 1) == t.application.value[0]
    ensures Step(t, es[i], i).Some? && Gathered(es, i + 1, Step(t, es[i], i).value)
  {
    SpansStay(es, i, t.spans);
    StaysComplete(es, t, Step(t, es[i], i).value, i);
  }

  predicate ClosesApplication(e: Event) {
    e.PatchApplied? || e.PatchApplicationRejected?
  }

  /** A span with the next event that belongs to it. */
  lemma SpanExtends(es: seq<Event>, i: nat, sources: seq<nat>)
    requires 0 < i < |es| && sources != [] && OwnerOf(es, i) == OfApplication(sources[0])
    requires sources == SourcesOf(es, i, OfApplication(sources[0]))
    ensures SpanRight(es, i + 1, ApplicationSpan(sources + [i]))
    ensures ApplicationSpan(sources + [i]).id == OfApplication(sources[0])
  {
    assert (sources + [i])[0] == sources[0] && (sources + [i])[|sources|] == i;
  }

  lemma ClosingOwner(es: seq<Event>, i: nat)
    requires 0 < i < |es| && ClosesApplication(es[i])
    ensures OwnerOf(es, i) == OfApplication(RequestOf(es, i - 1))
  {
  }

  /** A patch application closes: its span is the one that was open. */
  lemma ClosingSpan(es: seq<Event>, t: Spans, i: nat)
    requires 0 < i < |es| && Gathered(es, i, t) && t.application.Some? && ClosesApplication(es[i])
    requires RequestOf(es, i - 1) == t.application.value[0]
    ensures SpanRight(es, i + 1, ApplicationSpan(t.application.value + [i]))
    ensures ApplicationSpan(t.application.value + [i]).id == OwnerOf(es, i) == OfApplication(t.application.value[0])
  {
    ClosingOwner(es, i);
    SpanExtends(es, i, t.application.value);
  }

  lemma AttemptsStay(es: seq<Event>, t: Spans, i: nat)
    requires i < |es| && OpenRight(es, i, t) && !OwnerOf(es, i).OfAttempt?
    ensures forall r :: r in t.attempts ==> AttemptSources(t.attempts[r]) == SourcesOf(es, i + 1, OfAttempt(r))
  {
  }

  lemma ClosingSpans(es: seq<Event>, t: Spans, i: nat)
    requires 0 < i < |es| && Gathered(es, i, t) && t.application.Some? && ClosesApplication(es[i])
    requires RequestOf(es, i - 1) == t.application.value[0]
    ensures SpansRight(es, i + 1, t.spans + [ApplicationSpan(t.application.value + [i])])
  {
    ClosingSpan(es, t, i);
    SpansStay(es, i, t.spans);
    SpansGrow(es, i + 1, t.spans, ApplicationSpan(t.application.value + [i]));
  }

  function Closed(t: Spans, i: nat): Spans
    requires t.application.Some?
  {
    t.(spans := t.spans + [ApplicationSpan(t.application.value + [i])], application := None)
  }

  lemma ClosingOpen(es: seq<Event>, t: Spans, i: nat)
    requires i < |es| && OpenRight(es, i, t) && t.application.Some? && ClosesApplication(es[i])
    ensures OpenRight(es, i + 1, Closed(t, i))
  {
    AttemptsStay(es, t, i);
  }

  lemma ClosingCompletes(es: seq<Event>, t: Spans, i: nat)
    requires 0 < i < |es| && Complete(es, i, t) && t.application.Some? && t.application.value != []
    requires OwnerOf(es, i) == OfApplication(t.application.value[0])
    ensures Complete(es, i + 1, Closed(t, i))
  {
    var u := Closed(t, i);
    var span := u.spans[|t.spans|];
    forall j | 0 < j < i + 1 ensures HasSpan(u, OwnerOf(es, j)) {
      if j < i { Reopens(t, u, span, OwnerOf(es, j)); }
    }
  }

  lemma ClosingStep(es: seq<Event>, t: Spans, i: nat)
    requires 0 < i < |es| && Gathered(es, i, t) && t.application.Some? && ClosesApplication(es[i])
    requires RequestOf(es, i - 1) == t.application.value[0]
    ensures Step(t, es[i], i) == Some(Closed(t, i)) && Gathered(es, i + 1, Closed(t, i))
  {
    ClosingSpan(es, t, i);
    ClosingSpans(es, t, i);
    ClosingOpen(es, t, i);
    ClosingCompletes(es, t, i);
  }

  lemma Reopens(t: Spans, u: Spans, span: Span, id: SpanId)
    requires HasSpan(t, id) && t.attempts == u.attempts && u.spans == t.spans + [span]
    requires t.application.Some? && t.application.value != [] && span.id == OfApplication(t.application.value[0])
    ensures HasSpan(u, id)
  {
    assert u.spans[|t.spans|] == span;
    if k :| 0 <= k < |t.spans| && t.spans[k].id == id { assert u.spans[k] == t.spans[k]; }
  }

  // ----- In step with the acceptor -----

  lemma StepGathers(es: seq<Event>, t: Spans, p: Projection, i: nat)
    requires 0 < i < |es| && Gathered(es, i, t) && InStep(es, i, t, p) && Project(Some(p), es[i]).Some?
    ensures Step(t, es[i], i).Some? && Gathered(es, i + 1, Step(t, es[i], i).value)
  {
    var e := es[i];
    if e.WorkerStarted? {
      StartStep(es, t, i);
    } else if e.WorkerCompleted? || e.AttemptCompleted? {
      EndingStep(es, t, i);
    } else if e.PatchApplicationRequested? {
      RequestStep(es, t, i);
    } else if e.PatchApproved? {
      ApprovalStep(es, t, i);
    } else if ClosesApplication(e) {
      ClosingStep(es, t, i);
    } else {
      OwnSpanStep(es, t, i);
    }
  }

  lemma AttemptInStep(es: seq<Event>, t: Spans, p: Projection, i: nat)
    requires 0 < i < |es| && InStep(es, i, t, p) && Project(Some(p), es[i]).Some?
    requires OwnerOf(es, i).OfAttempt? && (p.activeAttempt.Some? || p.lastAttempt.Some? ==> p.application == NotRequested)
    requires p.status.None? ==> p.application == NotRequested
    ensures Step(t, es[i], i).Some? && InStep(es, i + 1, Step(t, es[i], i).value, Project(Some(p), es[i]).value)
  {
  }

  lemma ApplicationInStep(es: seq<Event>, t: Spans, p: Projection, i: nat)
    requires 0 < i < |es| && InStep(es, i, t, p) && Project(Some(p), es[i]).Some?
    requires IsPatchApplicationEvent(es[i])
    ensures Step(t, es[i], i).Some? && InStep(es, i + 1, Step(t, es[i], i).value, Project(Some(p), es[i]).value)
  {
  }

  lemma OtherInStep(es: seq<Event>, t: Spans, p: Projection, i: nat)
    requires 0 < i < |es| && InStep(es, i, t, p) && Project(Some(p), es[i]).Some?
    requires OwnerOf(es, i).OfEvent? && (p.status.None? ==> p.application == NotRequested)
    ensures Step(t, es[i], i).Some? && InStep(es, i + 1, Step(t, es[i], i).value, Project(Some(p), es[i]).value)
  {
  }

  lemma StaysInStep(es: seq<Event>, t: Spans, p: Projection, i: nat)
    requires 0 < i < |es| && InStep(es, i, t, p) && Project(Some(p), es[i]).Some?
    requires p.status.None? ==> p.application == NotRequested
    ensures Step(t, es[i], i).Some? && InStep(es, i + 1, Step(t, es[i], i).value, Project(Some(p), es[i]).value)
  {
    if IsPatchApplicationEvent(es[i]) {
      ApplicationInStep(es, t, p, i);
    } else if OwnerOf(es, i).OfAttempt? {
      AttemptInStep(es, t, p, i);
    } else {
      OtherInStep(es, t, p, i);
    }
  }

  // ----- The whole trace -----

  /** Insertion by compareSpans. No two spans of a trace have the same sequence. */
  function Insert(span: Span, spans: seq<Span>): seq<Span> {
    if spans == [] then [span]
    else if span.sequence <= spans[0].sequence then [span] + spans
    else [spans[0]] + Insert(span, spans[1..])
  }

  function Sort(spans: seq<Span>): seq<Span> {
    if spans == [] then [] else Insert(spans[0], Sort(spans[1..]))
  }

  predicate Ascending(spans: seq<Span>) {
    forall k, l :: 0 <= k < l < |spans| ==> spans[k].sequence <= spans[l].sequence
  }

  lemma {:induction false} InsertHas(span: Span, spans: seq<Span>)
    ensures multiset(Insert(span, spans)) == multiset(spans) + multiset{span}
  {
    if spans != [] && span.sequence > spans[0].sequence {
      InsertHas(span, spans[1..]);
      assert spans == [spans[0]] + spans[1..];
    }
  }

  lemma {:induction false} InsertAscends(span: Span, spans: seq<Span>, least: nat)
    requires Ascending(spans) && least <= span.sequence
    requires forall k :: 0 <= k < |spans| ==> least <= spans[k].sequence
    ensures Ascending(Insert(span, spans))
    ensures forall k :: 0 <= k < |Insert(span, spans)| ==> least <= Insert(span, spans)[k].sequence
  {
    if spans != [] && span.sequence > spans[0].sequence { InsertAscends(span, spans[1..], spans[0].sequence); }
  }

  lemma {:induction false} SortKeeps(spans: seq<Span>)
    ensures Ascending(Sort(spans)) && multiset(Sort(spans)) == multiset(spans)
  {
    if spans != [] {
      SortKeeps(spans[1..]);
      InsertHas(spans[0], Sort(spans[1..]));
      InsertAscends(spans[0], Sort(spans[1..]), 0);
      assert spans == [spans[0]] + spans[1..];
    }
  }

  lemma CountOnce(spans: seq<Span>, k: nat, l: nat)
    requires k < l < |spans| && spans[k] == spans[l]
    ensures multiset(spans)[spans[k]] >= 2
  {
    assert spans == spans[..l] + [spans[l]] + spans[l + 1..];
    assert spans[k] in spans[..l] by { assert spans[..l][k] == spans[k]; }
  }

  lemma {:induction false} DistinctCount(spans: seq<Span>, span: Span)
    requires forall k, l :: 0 <= k < l < |spans| ==> spans[k].id != spans[l].id
    ensures multiset(spans)[span] <= 1
  {
    if spans != [] {
      DistinctCount(spans[1..], span);
      assert spans == [spans[0]] + spans[1..];
      forall l | 0 <= l < |spans[1..]| ensures spans[1..][l] != spans[0] { assert spans[1..][l] == spans[l + 1]; }
    }
  }

  /** Each event behind the creation is in one span, and in one only; no two spans share an identifier;
      and the spans come in the order of their first events. */
  ghost predicate IsTrace(es: seq<Event>, spans: seq<Span>) {
    && (forall span :: span in spans ==> SpanRight(es, |es|, span))
    && (forall i :: 0 < i < |es| ==> Held(spans, OwnerOf(es, i)))
    && (forall k, l :: 0 <= k < l < |spans| ==> spans[k].id != spans[l].id && spans[k].sequence <= spans[l].sequence)
  }

  predicate Held(spans: seq<Span>, id: SpanId) {
    exists k :: 0 <= k < |spans| && spans[k].id == id
  }

  lemma SortedHas(spans: seq<Span>, span: Span)
    ensures span in Sort(spans) <==> span in spans
  {
    SortKeeps(spans);
    assert span in multiset(Sort(spans)) <==> span in multiset(spans);
  }

  lemma SortedHolds(spans: seq<Span>, id: SpanId)
    requires Held(spans, id)
    ensures Held(Sort(spans), id)
  {
    var k :| 0 <= k < |spans| && spans[k].id == id;
    SortedHas(spans, spans[k]);
    var l :| 0 <= l < |Sort(spans)| && Sort(spans)[l] == spans[k];
  }

  lemma SortedDistinct(es: seq<Event>, spans: seq<Span>, k: nat, l: nat)
    requires SpansRight(es, |es|, spans) && k < l < |Sort(spans)|
    ensures Sort(spans)[k].id != Sort(spans)[l].id
  {
    var sorted := Sort(spans);
    SortKeeps(spans);
    SortedHas(spans, sorted[k]);
    SortedHas(spans, sorted[l]);
    var k' :| 0 <= k' < |spans| && spans[k'] == sorted[k];
    var l' :| 0 <= l' < |spans| && spans[l'] == sorted[l];
    DistinctCount(spans, sorted[k]);
    if sorted[k] == sorted[l] { CountOnce(sorted, k, l); }
  }

  lemma SortsToTrace(es: seq<Event>, spans: seq<Span>)
    requires SpansRight(es, |es|, spans) && forall i :: 0 < i < |es| ==> Held(spans, OwnerOf(es, i))
    ensures IsTrace(es, Sort(spans))
  {
    var sorted := Sort(spans);
    SortKeeps(spans);
    forall span | span in sorted ensures SpanRight(es, |es|, span) { SortedHas(spans, span); }
    forall i | 0 < i < |es| ensures Held(sorted, OwnerOf(es, i)) { SortedHolds(spans, OwnerOf(es, i)); }
    forall k, l | 0 <= k < l < |sorted| ensures sorted[k].id != sorted[l].id { SortedDistinct(es, spans, k, l); }
  }

  /** What the trace says of events: each is a source of exactly one span, and a source of its own. */
  lemma EachEventOnce(es: seq<Event>, spans: seq<Span>, i: nat)
    requires IsTrace(es, spans) && 0 < i < |es|
    ensures exists k :: 0 <= k < |spans| && i in spans[k].sources
                        && forall l :: 0 <= l < |spans| && i in spans[l].sources ==> l == k
  {
    assert Held(spans, OwnerOf(es, i));
    var k :| 0 <= k < |spans| && spans[k].id == OwnerOf(es, i);
    forall l | 0 <= l < |spans| ensures i in spans[l].sources <==> spans[l].id == OwnerOf(es, i) {
      assert spans[l] in spans;
      SourcesBelong(es, |es|, spans[l].id);
    }
  }

  lemma HeldGrows(spans: seq<Span>, span: Span, id: SpanId)
    ensures Held(spans + [span], id) <==> Held(spans, id) || span.id == id
  {
    assert (spans + [span])[|spans|] == span;
    if k :| 0 <= k < |spans| && spans[k].id == id { assert (spans + [span])[k] == spans[k]; }
  }

  /** The span of one attempt, pushed. */
  lemma AttemptSpanFits(es: seq<Event>, t: Spans, spans: seq<Span>, r: Id)
    requires OpenRight(es, |es|, t) && r in t.attempts
    requires SpansRight(es, |es|, spans) && !Held(spans, OfAttempt(r))
    ensures SpansRight(es, |es|, spans + [AttemptSpan(r, t.attempts[r])])
  {
    var span := AttemptSpan(r, t.attempts[r]);
    SpansGrow(es, |es|, spans, span);
  }

  /** The spans of the attempts, pushed behind the others. */
  method PushAttempts(ghost es: seq<Event>, t: Spans) returns (spans: seq<Span>)
    requires Gathered(es, |es|, t) && t.application.None?
    ensures SpansRight(es, |es|, spans) && t.spans <= spans
    ensures forall r :: r in t.attempts ==> Held(spans, OfAttempt(r))
  {
    spans := t.spans;
    var left := t.attempts.Keys;
    while left != {}
      invariant left <= t.attempts.Keys && t.spans <= spans && SpansRight(es, |es|, spans)
      invariant forall r :: r in t.attempts ==> (r !in left <==> Held(spans, OfAttempt(r)))
    {
      var r :| r in left;
      AttemptSpanFits(es, t, spans, r);
      forall q ensures Held(spans + [AttemptSpan(r, t.attempts[r])], OfAttempt(q)) <==> Held(spans, OfAttempt(q)) || r == q {
        HeldGrows(spans, AttemptSpan(r, t.attempts[r]), OfAttempt(q));
      }
      spans := spans + [AttemptSpan(r, t.attempts[r])];
      left := left - {r};
    }
  }

  /** The open application and the attempts are pushed, and everything is sorted. */
  method FinishTrace(ghost es: seq<Event>, gathered: Spans) returns (spans: seq<Span>)
    requires Gathered(es, |es|, gathered)
    ensures IsTrace(es, spans)
  {
    var t := gathered;
    if t.application.Some? {
      var span := ApplicationSpan(t.application.value);
      SpansGrow(es, |es|, t.spans, span);
      t := t.(spans := t.spans + [span], application := None);
      forall id | HasSpan(gathered, id) ensures HasSpan(t, id) { Reopens(gathered, t, span, id); }
    }
    spans := PushAttempts(es, t);
    forall i | 0 < i < |es| ensures Held(spans, OwnerOf(es, i)) {
      assert HasSpan(gathered, OwnerOf(es, i));
      HeldInAll(t, spans, OwnerOf(es, i));
    }
    SortsToTrace(es, spans);
    spans := Sort(spans);
  }

  /** One event further in an accepted timeline. */
  lemma TimelineStep(es: seq<Event>, t: Spans, i: nat)
    requires Accepted(es) && 0 < i < |es| && Accepted(es[..i])
    requires Gathered(es, i, t) && InStep(es, i, t, Replay(es[..i]).value)
    ensures Step(t, es[i], i).Some? && Accepted(es[..i + 1])
    ensures var u := Step(t, es[i], i).value;
            Gathered(es, i + 1, u) && InStep(es, i + 1, u, Replay(es[..i + 1]).value)
  {
    AcceptedHistory(es[..i]);
    AcceptedPrefix(es, i + 1);
    assert es[..i + 1] == es[..i] + [es[i]];
    ReplaySnoc(es[..i], es[i]);
    StepGathers(es, t, Replay(es[..i]).value, i);
    StaysInStep(es, t, Replay(es[..i]).value, i);
  }

  /** projectTaskTrace. On every accepted timeline it succeeds. */
  method ProjectTaskTrace(es: seq<Event>) returns (r: Option<seq<Span>>)
    requires Accepted(es)
    ensures r.Some? && IsTrace(es, r.value)
  {
    AcceptedPrefix(es, 1);
    assert es[..1] == [es[0]];
    var t := Spans([], map[], None);
    for i := 1 to |es|
      invariant Accepted(es[..i]) && Gathered(es, i, t) && InStep(es, i, t, Replay(es[..i]).value)
    {
      TimelineStep(es, t, i);
      var next := Step(t, es[i], i);
      if next.None? { return None; }
      t := next.value;
    }
    var spans := FinishTrace(es, t);
    return Some(spans);
  }

  lemma HeldInAll(t: Spans, spans: seq<Span>, id: SpanId)
    requires HasSpan(t, id) && t.application.None? && t.spans <= spans
    requires forall r :: r in t.attempts ==> Held(spans, OfAttempt(r))
    ensures Held(spans, id)
  {
    if !id.OfAttempt? {
      var k :| 0 <= k < |t.spans| && t.spans[k].id == id;
      assert spans[k] == t.spans[k];
    }
  }

  // ----- Pages -----

  datatype Page = Page(spans: seq<Span>, nextCursor: Option<SpanId>)

  /** `findIndex` */
  function IndexOf(spans: seq<Span>, id: SpanId): (k: nat)
    ensures k <= |spans|
    ensures k < |spans| ==> spans[k].id == id
    ensures forall l :: 0 <= l < k ==> spans[l].id != id
  {
    if spans == [] || spans[0].id == id then 0 else 1 + IndexOf(spans[1..], id)
  }

  /** paginateTrace: `None` is the invalid-cursor error. */
  function Paginate(spans: seq<Span>, cursor: Option<SpanId>, limit: nat): Option<Page>
    requires limit >= 1
  {
    if cursor.Some? && IndexOf(spans, cursor.value) == |spans| then None
    else
      var start := if cursor.None? then 0 else IndexOf(spans, cursor.value) + 1;
      var end := if start + limit < |spans| then start + limit else |spans|;
      Some(Page(spans[start..end], if end < |spans| then Some(spans[end - 1].id) else None))
  }

  /** The cursor behind the first `at` spans. */
  function CursorAt(spans: seq<Span>, at: nat): Option<SpanId>
    requires at <= |spans|
  {
    if at == 0 then None else Some(spans[at - 1].id)
  }

  /** The page that such a cursor leads to. */
  lemma PageAt(spans: seq<Span>, at: nat, limit: nat)
    requires limit >= 1 && at <= |spans| && (at > 0 ==> at < |spans|)
    requires forall k, l :: 0 <= k < l < |spans| ==> spans[k].id != spans[l].id
    ensures var end := Min(at + limit, |spans|);
            Paginate(spans, CursorAt(spans, at), limit)
            == Some(Page(spans[at..end], if end < |spans| then CursorAt(spans, end) else None))
  {
    if at > 0 { assert IndexOf(spans, spans[at - 1].id) == at - 1; }
  }

  /** Following nextCursor from the first page on visits every span once, in order. */
  method FollowCursors(spans: seq<Span>, limit: nat) returns (visited: seq<Span>)
    requires limit >= 1 && forall k, l :: 0 <= k < l < |spans| ==> spans[k].id != spans[l].id
    ensures visited == spans
  {
    var cursor: Option<SpanId> := None;
    visited := [];
    while true
      invariant |visited| <= |spans| && visited == spans[..|visited|]
      invariant visited != [] ==> |visited| < |spans|
      invariant cursor == CursorAt(spans, |visited|)
      decreases |spans| - |visited|
    {
      PageAt(spans, |visited|, limit);
      var page := Paginate(spans, cursor, limit);
      if page.None? { return; }
      visited := visited + page.value.spans;
      cursor := page.value.nextCursor;
      if cursor.None? { return; }
    }
  }
}
