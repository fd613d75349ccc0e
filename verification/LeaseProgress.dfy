/** Who can come to hold the workflow lease: a new attempt takes it over from stale files, a second host from
    a holder of more than a day, and what is left by processes that are gone may stand in the way of all. */
module LeaseProgress {
  import opened Wrappers
  import opened WorkflowLease

  lemma RunSnoc(actions: seq<Action>, a: Action)
    requires Run(actions).Some? && Enabled(Run(actions).value, a)
    ensures Run(actions + [a]) == Some(Apply(Run(actions).value, a))
  {
    assert (actions + [a])[..|actions|] == actions;
  }

  /** Files are those of attempts that have made them, and no attempt began in the future. */
  ghost predicate Owned(s: State) {
    && (forall x :: x in s.pending ==> x in s.attempts && !s.attempts[x].phase.Begun?)
    && (forall x :: x in s.claims ==> Visible(s, x))
    && (forall x :: x in s.attempts ==> s.attempts[x].createdAt <= s.now)
  }

  lemma {:induction false} FilesHaveOwners(actions: seq<Action>)
    requires Run(actions).Some?
    ensures Owned(Run(actions).value)
  {
    if actions != [] {
      var before, a := actions[..|actions| - 1], actions[|actions| - 1];
      FilesHaveOwners(before);
      OwnedStep(Run(before).value, a);
    }
  }

  lemma OwnedStep(s: State, a: Action)
    requires Owned(s) && Enabled(s, a)
    ensures Owned(Apply(s, a))
  {
    var u := Apply(s, a);
    forall x | x in u.claims ensures Visible(u, x) { StepKeeps(s, a, x); }
  }

  /** From s to u only attempt t has acted, and no time has passed. */
  predicate ActedAlone(s: State, u: State, t: Token) {
    && u.now == s.now && u.crashed == s.crashed
    && u.attempts.Keys <= s.attempts.Keys + {t}
    && (forall x :: x in s.attempts ==>
          && x in u.attempts
          && u.attempts[x].process == s.attempts[x].process && u.attempts[x].createdAt == s.attempts[x].createdAt
          && (x != t ==> u.attempts[x] == s.attempts[x]))
  }

  /** The listing leaves room for one more claim, and every staging file without a claim is whole. */
  ghost predicate Leasable(s: State) {
    && |s.claims| + |s.pending| < MAX_CLAIMS_PER_WORKFLOW
    && (forall x :: x in s.pending && x !in s.claims ==> Whole(s, x))
  }

  predicate StaleFor(s: State, t: Token, x: Token)
    requires t in s.attempts
  {
    x in s.attempts && JudgedStale(s, s.attempts[t].process.host, x)
  }

  /** Every file but the attempt's own claim is among these. */
  predicate Covers(s: State, t: Token, inClaims: set<Token>, inPending: set<Token>) {
    && t in s.claims && t !in inClaims
    && (forall x :: x in s.claims ==> x == t || x in inClaims)
    && (forall x :: x in s.pending ==> x in inPending || x in inClaims)
  }

  /** Every file the scan has still to read is stale for the scanning host, and it will miss none. */
  ghost predicate OnlyStaleLeft(s: State, t: Token) {
    && t in s.attempts && Alive(s, t) && s.attempts[t].phase.Scanning?
    && var phase := s.attempts[t].phase;
    && Covers(s, t, phase.todo + phase.stale, phase.todoPending + phase.stalePending)
    && (forall x :: x in phase.todoPending ==> x in s.pending && Whole(s, x) && StaleFor(s, t, x))
    && (forall x :: x in phase.todo ==> x in s.claims && StaleFor(s, t, x))
  }

  function LeftToRead(s: State, t: Token): nat
    requires t in s.attempts && s.attempts[t].phase.Scanning?
  {
    |s.attempts[t].phase.todoPending| + |s.attempts[t].phase.todo|
  }

  lemma ReadsPending(s: State, t: Token, x: Token)
    requires OnlyStaleLeft(s, t) && x in s.attempts[t].phase.todoPending
    ensures var a := ReadPending(t, x);
            Enabled(s, a) && ActedAlone(s, Apply(s, a), t) && OnlyStaleLeft(Apply(s, a), t)
            && LeftToRead(Apply(s, a), t) < LeftToRead(s, t)
  {
    var phase := s.attempts[t].phase;
    assert |phase.todoPending - {x}| < |phase.todoPending|;
  }

  lemma ReadsClaim(s: State, t: Token, x: Token)
    requires OnlyStaleLeft(s, t) && s.attempts[t].phase.todoPending == {} && x in s.attempts[t].phase.todo
    ensures var a := ReadClaim(t, x);
            Enabled(s, a) && ActedAlone(s, Apply(s, a), t) && OnlyStaleLeft(Apply(s, a), t)
            && LeftToRead(Apply(s, a), t) < LeftToRead(s, t)
  {
    var phase := s.attempts[t].phase;
    assert |phase.todo - {x}| < |phase.todo|;
  }

  /** What the scan found is all there is to take away. */
  ghost predicate StaleFound(s: State, t: Token) {
    && t in s.attempts && Alive(s, t)
    && var phase := s.attempts[t].phase;
    && (phase.Recovering? || phase.Removing?) && Covers(s, t, phase.stale, phase.stalePending)
  }

  /** The attempt holds the lease, and its claim is the only file. */
  predicate Took(s: State, t: Token) {
    t in s.attempts && Alive(s, t) && s.attempts[t].phase.Holding? && s.claims == {t} && s.pending == {}
  }

  /** The next step of such a scan: read a file, or finish. */
  lemma ScanStep(s: State, t: Token) returns (a: Action)
    requires OnlyStaleLeft(s, t)
    ensures Enabled(s, a) && ActedAlone(s, Apply(s, a), t)
    ensures a.FinishScan? ==> Took(Apply(s, a), t) || StaleFound(Apply(s, a), t)
    ensures !a.FinishScan? ==> OnlyStaleLeft(Apply(s, a), t) && LeftToRead(Apply(s, a), t) < LeftToRead(s, t)
  {
    var phase := s.attempts[t].phase;
    if x :| x in phase.todoPending {
      a := ReadPending(t, x);
      ReadsPending(s, t, x);
    } else if x :| x in phase.todo {
      a := ReadClaim(t, x);
      ReadsClaim(s, t, x);
    } else {
      a := FinishScan(t);
    }
  }

  /** A scan over stale files alone comes to its end. */
  lemma {:induction false} ScanEnds(actions: seq<Action>, t: Token) returns (all: seq<Action>)
    requires Run(actions).Some? && OnlyStaleLeft(Run(actions).value, t)
    ensures actions <= all && Run(all).Some? && ActedAlone(Run(actions).value, Run(all).value, t)
    ensures Took(Run(all).value, t) || StaleFound(Run(all).value, t)
    decreases LeftToRead(Run(actions).value, t)
  {
    var a := ScanStep(Run(actions).value, t);
    RunSnoc(actions, a);
    all := actions + [a];
    if !a.FinishScan? { all := ScanEnds(all, t); }
  }

  function LeftToRemove(s: State, t: Token): nat
    requires t in s.attempts
  {
    |s.claims| + |s.pending| + if s.attempts[t].phase.Recovering? then 1 else 0
  }

  lemma RemovesStaging(s: State, t: Token, x: Token)
    requires StaleFound(s, t) && s.attempts[t].phase.Removing? && x in s.pending
    ensures var a := RemoveStaging(t, x);
            Enabled(s, a) && ActedAlone(s, Apply(s, a), t) && StaleFound(Apply(s, a), t)
            && LeftToRemove(Apply(s, a), t) < LeftToRemove(s, t)
  {
    assert |s.pending - {x}| < |s.pending|;
  }

  lemma RemovesClaim(s: State, t: Token, x: Token)
    requires StaleFound(s, t) && s.attempts[t].phase.Removing? && s.pending == {} && x in s.claims && x != t
    ensures var a := RemoveClaim(t, x);
            Enabled(s, a) && ActedAlone(s, Apply(s, a), t) && StaleFound(Apply(s, a), t)
            && LeftToRemove(Apply(s, a), t) < LeftToRemove(s, t)
  {
    assert |s.claims - {x}| < |s.claims|;
  }

  /** The next step behind such a scan: reconcile, take a file away, or finish. */
  lemma RemovalStep(s: State, t: Token) returns (a: Action)
    requires StaleFound(s, t)
    ensures Enabled(s, a) && ActedAlone(s, Apply(s, a), t)
    ensures a.FinishRemoval? ==> Took(Apply(s, a), t)
    ensures !a.FinishRemoval? ==> StaleFound(Apply(s, a), t) && LeftToRemove(Apply(s, a), t) < LeftToRemove(s, t)
  {
    if s.attempts[t].phase.Recovering? {
      a := Reconcile(t);
    } else if x :| x in s.pending {
      a := RemoveStaging(t, x);
      RemovesStaging(s, t, x);
    } else if x :| x in s.claims && x != t {
      a := RemoveClaim(t, x);
      RemovesClaim(s, t, x);
    } else {
      a := FinishRemoval(t);
    }
  }

  /** Recovery from stale files comes to its end. */
  lemma {:induction false} RemovalEnds(actions: seq<Action>, t: Token) returns (all: seq<Action>)
    requires Run(actions).Some? && StaleFound(Run(actions).value, t)
    ensures actions <= all && Run(all).Some?
    ensures Took(Run(all).value, t) && ActedAlone(Run(actions).value, Run(all).value, t)
    decreases LeftToRemove(Run(actions).value, t)
  {
    var a := RemovalStep(Run(actions).value, t);
    RunSnoc(actions, a);
    all := actions + [a];
    if !a.FinishRemoval? { all := RemovalEnds(all, t); }
  }

  /** Nothing stands in the way of an attempt's claim: first its staging file, */
  lemma Creates(actions: seq<Action>, t: Token, p: Process) returns (all: seq<Action>)
    requires Run(actions).Some? && t !in Run(actions).value.attempts && p !in Run(actions).value.crashed
    ensures actions <= all && Run(all).Some?
    ensures var s := Run(actions).value;
            Run(all).value == s.(attempts := s.attempts[t := Attempt(p, s.now, Created)], pending := s.pending + {t})
  {
    RunSnoc(actions, Begin(t, p));
    all := actions + [Begin(t, p)];
    RunSnoc(all, Create(t));
    all := all + [Create(t)];
    var s := Run(actions).value;
    assert s.attempts[t := Attempt(p, s.now, Begun)][t := Attempt(p, s.now, Created)]
        == s.attempts[t := Attempt(p, s.now, Created)];
  }

  lemma Stages(actions: seq<Action>, t: Token, p: Process) returns (all: seq<Action>)
    requires Run(actions).Some? && t !in Run(actions).value.attempts && p !in Run(actions).value.crashed
    ensures actions <= all && Run(all).Some?
    ensures var s := Run(actions).value;
            Run(all).value == s.(attempts := s.attempts[t := Attempt(p, s.now, Staged)], pending := s.pending + {t})
  {
    all := Creates(actions, t, p);
    RunSnoc(all, Stage(t));
    all := all + [Stage(t)];
  }

  /** and then its claim. */
  lemma Publishes(actions: seq<Action>, t: Token, p: Process) returns (all: seq<Action>)
    requires Run(actions).Some? && t !in Run(actions).value.attempts && p !in Run(actions).value.crashed
    ensures actions <= all && Run(all).Some?
    ensures var s := Run(actions).value;
            Run(all).value == s.(attempts := s.attempts[t := Attempt(p, s.now, Published)], claims := s.claims + {t})
  {
    FilesHaveOwners(actions);
    all := Stages(actions, t, p);
    RunSnoc(all, Link(t));
    all := all + [Link(t)];
    RunSnoc(all, Unstage(t));
    all := all + [Unstage(t)];
    RunSnoc(all, Confirm(t));
    all := all + [Confirm(t)];
    var s := Run(actions).value;
    assert s.pending + {t} - {t} == s.pending;
  }

  /** Undisturbed, it then lists what is there, if that is within the limit. */
  lemma ListsAll(actions: seq<Action>, t: Token) returns (all: seq<Action>)
    requires Run(actions).Some? && t in Run(actions).value.claims
    requires var s := Run(actions).value;
             && t in s.attempts && s.attempts[t].phase.Published? && Alive(s, t)
             && |s.claims| + |s.pending| <= MAX_CLAIMS_PER_WORKFLOW
    ensures actions <= all && Run(all).Some?
    ensures var s := Run(actions).value;
            Run(all).value == s.(attempts := s.attempts[t := s.attempts[t].(
              phase := Scanning(s.claims, s.pending - s.claims, s.claims - {t}, {}, {}))])
  {
    var s := Run(actions).value;
    RunSnoc(actions, StartListing(t));
    all := actions + [StartListing(t)];
    FilesHaveOwners(all);
    RunSnoc(all, FinishListing(t, s.claims, s.pending));
    all := all + [FinishListing(t, s.claims, s.pending)];
  }

  /** The state u after such a listing in s. */
  predicate Listed(s: State, u: State, t: Token, p: Process) {
    u == s.(
      claims := s.claims + {t},
      attempts := s.attempts[t := Attempt(p, s.now, Scanning(s.claims + {t}, s.pending - s.claims, s.claims, {}, {}))])
  }

  /** Up to its listing nothing stands in an attempt's way. */
  lemma Lists(actions: seq<Action>, t: Token, p: Process) returns (all: seq<Action>)
    requires Run(actions).Some? && t !in Run(actions).value.attempts && p !in Run(actions).value.crashed
    requires Leasable(Run(actions).value)
    ensures actions <= all && Run(all).Some?
    ensures Listed(Run(actions).value, Run(all).value, t, p)
  {
    FilesHaveOwners(actions);
    var published := Publishes(actions, t, p);
    all := ListsAll(published, t);
    var s := Run(actions).value;
    assert s.claims + {t} - {t} == s.claims && s.pending - (s.claims + {t}) == s.pending - s.claims;
  }

  lemma ListedAlone(s: State, u: State, t: Token, p: Process)
    requires Owned(s) && t !in s.attempts && p !in s.crashed && Listed(s, u, t, p)
    ensures t in u.attempts && Alive(u, t) && u.attempts[t].phase.Scanning? && ActedAlone(s, u, t)
    ensures Covers(u, t, s.claims, s.pending - s.claims)
  {
    assert t !in s.claims && t !in s.pending;
  }

  lemma ListedStale(s: State, u: State, t: Token, p: Process, x: Token)
    requires t !in s.attempts && Listed(s, u, t, p)
    requires x in s.attempts && JudgedStale(s, p.host, x)
    ensures StaleFor(u, t, x) && (Whole(s, x) ==> Whole(u, x))
  {
  }

  lemma ListingIsStale(s: State, u: State, t: Token, p: Process)
    requires Leasable(s) && t !in s.attempts && Listed(s, u, t, p)
    requires forall x :: x in s.claims + s.pending ==> x in s.attempts && JudgedStale(s, p.host, x)
    ensures forall x :: x in s.pending - s.claims ==> Whole(u, x) && StaleFor(u, t, x)
    ensures forall x :: x in s.claims ==> StaleFor(u, t, x)
  {
    forall x | x in s.pending - s.claims ensures Whole(u, x) && StaleFor(u, t, x) {
      assert x in s.claims + s.pending;
      ListedStale(s, u, t, p, x);
    }
    forall x | x in s.claims ensures StaleFor(u, t, x) {
      assert x in s.claims + s.pending;
      ListedStale(s, u, t, p, x);
    }
  }

  lemma FindsStale(s: State, u: State, t: Token, p: Process)
    requires Owned(s) && Leasable(s) && t !in s.attempts && p !in s.crashed && Listed(s, u, t, p)
    requires forall x :: x in s.claims + s.pending ==> x in s.attempts && JudgedStale(s, p.host, x)
    ensures OnlyStaleLeft(u, t) && ActedAlone(s, u, t)
  {
    ListedAlone(s, u, t, p);
    ListingIsStale(s, u, t, p);
  }

  /** A new attempt takes the lease, acting alone, whenever every file it finds is stale for its host, the
      files leave room for its claim, and none of the staging files is half written. It leaves no file but
      its own claim. */
  lemma TakesLease(actions: seq<Action>, t: Token, p: Process) returns (all: seq<Action>)
    requires Run(actions).Some? && t !in Run(actions).value.attempts && p !in Run(actions).value.crashed
    requires Leasable(Run(actions).value)
    requires var s := Run(actions).value;
             forall x :: x in s.claims + s.pending ==> x in s.attempts && JudgedStale(s, p.host, x)
    ensures actions <= all && Run(all).Some?
    ensures Took(Run(all).value, t) && ActedAlone(Run(actions).value, Run(all).value, t)
    ensures Run(all).value.attempts[t].process == p
    ensures Run(all).value.attempts[t].createdAt == Run(actions).value.now
  {
    FilesHaveOwners(actions);
    var listed := Lists(actions, t, p);
    FindsStale(Run(actions).value, Run(listed).value, t, p);
    all := ScanEnds(listed, t);
    if !Took(Run(all).value, t) { all := RemovalEnds(all, t); }
  }

  /** The exception is real: after a day a second host holds the lease while the first still does. */
  lemma RemoteLeaseExpires(p: Process, q: Process) returns (all: seq<Action>)
    requires p.host != q.host
    ensures Run(all).Some?
    ensures var s := Run(all).value;
            s.attempts.Keys == {0, 1} && s.attempts[0].phase.Holding? && Alive(s, 0) && Took(s, 1)
  {
    assert Run([]) == Some(EMPTY);
    var first := TakesLease([], 0, p);
    var s := Run(first).value;
    assert s.attempts.Keys == {0};
    var day := Wait(STALE_REMOTE_LOCK_MS + 1);
    RunSnoc(first, day);
    all := TakesLease(first + [day], 1, q);
  }

  // ----- Files that stand in the way for good -----

  /** Everybody is gone. */
  predicate Deserted(s: State) {
    forall x :: x in s.attempts ==> !Alive(s, x)
  }

  predicate HeldAlive(s: State) {
    exists t :: t in s.attempts && Alive(s, t) && Holds(s, t)
  }

  ghost predicate Regained(actions: seq<Action>, later: seq<Action>) {
    Run(actions + later).Some? && HeldAlive(Run(actions + later).value)
  }

  /** The attempt has not finished a listing, or has given up. */
  predicate NotListed(phase: Phase) {
    !phase.Scanning? && !phase.Recovering? && !phase.Removing? && !phase.Holding?
  }

  /** As many files of dead processes as a listing may return, and nobody has listed them with success. */
  ghost predicate Jammed(s: State, inClaims: set<Token>, inPending: set<Token>) {
    && inClaims <= s.claims && inPending <= s.pending
    && |inClaims| + |inPending| >= MAX_CLAIMS_PER_WORKFLOW
    && (forall x :: x in inClaims + inPending ==> x in s.attempts && !Alive(s, x))
    && (forall t :: t in s.attempts && Alive(s, t) ==> JamsAttempt(s.attempts[t].phase, inClaims, inPending))
  }

  predicate JamsAttempt(phase: Phase, inClaims: set<Token>, inPending: set<Token>) {
    NotListed(phase) && (phase.Listing? ==> inClaims <= phase.listed && inPending <= phase.pendingListed)
  }

  /** No listing that finds so many files succeeds. */
  lemma ListingExceeds(s: State, a: Action, inClaims: set<Token>, inPending: set<Token>)
    requires Jammed(s, inClaims, inPending) && Enabled(s, a)
    ensures !a.FinishListing?
  {
    if a.FinishListing? {
      var phase := s.attempts[a.t].phase;
      assert inClaims <= phase.listed * s.claims && inPending <= phase.pendingListed * s.pending;
      assert inClaims + {a.t} <= a.names && inPending <= a.pendingNames && a.t !in inClaims;
      SubsetSize(inClaims + {a.t}, a.names);
      SubsetSize(inPending, a.pendingNames);
    }
  }

  lemma JamStays(s: State, a: Action, inClaims: set<Token>, inPending: set<Token>)
    requires Jammed(s, inClaims, inPending) && Enabled(s, a)
    ensures Jammed(Apply(s, a), inClaims, inPending)
  {
    ListingExceeds(s, a, inClaims, inPending);
  }

  /** A half-written staging file of a dead process, which no live attempt has read. */
  ghost predicate HalfWritten(s: State, x: Token) {
    && x in s.pending && x !in s.claims && x in s.attempts && !Alive(s, x) && s.attempts[x].phase.Created?
    && (forall t :: t in s.attempts && Alive(s, t) ==> AwaitsStaging(s.attempts[t].phase, x))
  }

  predicate AwaitsStaging(phase: Phase, x: Token) {
    && !phase.Recovering? && !phase.Removing? && !phase.Holding?
    && (phase.Listing? ==> x in phase.pendingListed)
    && (phase.Scanning? ==> x in phase.todoPending)
  }

  lemma StillAwaits(s: State, a: Action, x: Token, t: Token)
    requires HalfWritten(s, x) && Enabled(s, a)
    requires t in Apply(s, a).attempts && Alive(Apply(s, a), t)
    ensures AwaitsStaging(Apply(s, a).attempts[t].phase, x)
  {
    if t in s.attempts { assert Alive(s, t) && AwaitsStaging(s.attempts[t].phase, x); }
  }

  lemma HalfWrittenStays(s: State, a: Action, x: Token)
    requires HalfWritten(s, x) && Enabled(s, a)
    ensures HalfWritten(Apply(s, a), x)
  {
    var u := Apply(s, a);
    forall t | t in u.attempts && Alive(u, t) ensures AwaitsStaging(u.attempts[t].phase, x) {
      StillAwaits(s, a, x, t);
    }
  }

  lemma LastStep(actions: seq<Action>, later: seq<Action>) returns (before: seq<Action>, a: Action)
    requires later != [] && Run(actions + later).Some?
    ensures |before| < |later| && Run(actions + before).Some? && Enabled(Run(actions + before).value, a)
    ensures Run(actions + later).value == Apply(Run(actions + before).value, a)
  {
    before, a := later[..|later| - 1], later[|later| - 1];
    assert (actions + later)[..|actions + later| - 1] == actions + before;
  }

  /** Too many files of dead processes block the workflow: whatever happens later, nobody alive holds the lease. */
  lemma {:induction false} TooManyClaimsBlock(actions: seq<Action>, later: seq<Action>, inClaims: set<Token>,
                                              inPending: set<Token>)
    requires Run(actions).Some? && Jammed(Run(actions).value, inClaims, inPending) && Run(actions + later).Some?
    ensures Jammed(Run(actions + later).value, inClaims, inPending)
    ensures !HeldAlive(Run(actions + later).value)
    decreases |later|
  {
    if later == [] {
      assert actions + later == actions;
    } else {
      var before, a := LastStep(actions, later);
      TooManyClaimsBlock(actions, before, inClaims, inPending);
      JamStays(Run(actions + before).value, a, inClaims, inPending);
    }
  }

  /** And so does one half-written staging file of a dead process. */
  lemma {:induction false} HalfWrittenBlocks(actions: seq<Action>, later: seq<Action>, x: Token)
    requires Run(actions).Some? && HalfWritten(Run(actions).value, x) && Run(actions + later).Some?
    ensures HalfWritten(Run(actions + later).value, x)
    ensures !HeldAlive(Run(actions + later).value)
    decreases |later|
  {
    if later == [] {
      assert actions + later == actions;
    } else {
      var before, a := LastStep(actions, later);
      HalfWrittenBlocks(actions, before, x);
      HalfWrittenStays(Run(actions + before).value, a, x);
    }
  }

  /** After a day every file of a dead process is stale for everyone. */
  lemma DayPasses(actions: seq<Action>, host: nat) returns (day: Action)
    requires Run(actions).Some? && Deserted(Run(actions).value)
    ensures Run(actions + [day]).Some?
    ensures var s, u := Run(actions).value, Run(actions + [day]).value;
            && u == s.(now := u.now) && Owned(u)
            && forall x :: x in u.claims + u.pending ==> x in u.attempts && JudgedStale(u, host, x)
  {
    FilesHaveOwners(actions);
    day := Wait(STALE_REMOTE_LOCK_MS + 1);
    RunSnoc(actions, day);
    FilesHaveOwners(actions + [day]);
  }

  lemma DesertedIsRegained(actions: seq<Action>, t: Token, p: Process)
    requires Run(actions).Some? && Deserted(Run(actions).value) && Leasable(Run(actions).value)
    requires t !in Run(actions).value.attempts && p !in Run(actions).value.crashed
    ensures exists later :: Regained(actions, later)
  {
    var day := DayPasses(actions, p.host);
    var all := TakesLease(actions + [day], t, p);
    RegainedBy(actions, all, t);
  }

  lemma RegainedBy(actions: seq<Action>, all: seq<Action>, t: Token)
    requires actions <= all && Run(all).Some? && Took(Run(all).value, t)
    ensures Regained(actions, all[|actions|..])
  {
    assert actions + all[|actions|..] == all;
    assert Holds(Run(all).value, t) && Alive(Run(all).value, t);
  }

  /** When a workflow that everybody has left can be leased again: exactly if the files left behind leave
      room for another claim and no staging file among them is half written. */
  lemma CanBeRegained(actions: seq<Action>, t: Token, p: Process)
    requires Run(actions).Some? && Deserted(Run(actions).value)
    requires t !in Run(actions).value.attempts && p !in Run(actions).value.crashed
    ensures (exists later :: Regained(actions, later)) <==> Leasable(Run(actions).value)
  {
    var s := Run(actions).value;
    FilesHaveOwners(actions);
    if Leasable(s) {
      DesertedIsRegained(actions, t, p);
    } else {
      forall later ensures !Regained(actions, later) {
        if Run(actions + later).Some? { NotRegained(actions, later); }
      }
    }
  }

  lemma NotRegained(actions: seq<Action>, later: seq<Action>)
    requires Run(actions).Some? && Run(actions + later).Some?
    requires var s := Run(actions).value; Deserted(s) && Owned(s) && !Leasable(s)
    ensures !HeldAlive(Run(actions + later).value)
  {
    var s := Run(actions).value;
    if |s.claims| + |s.pending| >= MAX_CLAIMS_PER_WORKFLOW {
      TooManyClaimsBlock(actions, later, s.claims, s.pending);
    } else {
      var x :| x in s.pending && x !in s.claims && !Whole(s, x);
      HalfWrittenBlocks(actions, later, x);
    }
  }

  /** Deserted, with n claims and nothing else, by attempts and processes numbered below n. */
  ghost predicate Piled(s: State, n: nat) {
    && Deserted(s) && |s.claims| == n && s.pending == {}
    && (forall x :: x in s.attempts ==> x < n) && (forall p :: p in s.crashed ==> p.id < n)
  }

  lemma OneMore(before: seq<Action>, host: nat, n: nat) returns (actions: seq<Action>)
    requires Run(before).Some? && Piled(Run(before).value, n)
    ensures Run(actions).Some? && Piled(Run(actions).value, n + 1)
  {
    FilesHaveOwners(before);
    var p := Process(host, n);
    actions := Publishes(before, n, p);
    RunSnoc(actions, Crash(p));
    actions := actions + [Crash(p)];
  }

  /** Both do happen: claims pile up one crash at a time, */
  lemma {:induction false} ClaimsPileUp(host: nat, n: nat) returns (actions: seq<Action>)
    ensures Run(actions).Some? && Piled(Run(actions).value, n)
    ensures n >= MAX_CLAIMS_PER_WORKFLOW ==> forall later :: !Regained(actions, later)
  {
    if n == 0 {
      assert Run([]) == Some(EMPTY);
      actions := [];
    } else {
      var before := ClaimsPileUp(host, n - 1);
      actions := OneMore(before, host, n - 1);
    }
    CanBeRegained(actions, n, Process(host, n));
  }

  /** and one crash while a claim is being written is enough. */
  lemma HalfWrittenLeft(p: Process) returns (actions: seq<Action>)
    ensures Run(actions).Some? && Deserted(Run(actions).value) && Run(actions).value.claims == {}
    ensures forall later :: !Regained(actions, later)
  {
    assert Run([]) == Some(EMPTY);
    actions := Creates([], 0, p);
    RunSnoc(actions, Crash(p));
    actions := actions + [Crash(p)];
    assert 0 in Run(actions).value.pending;
    CanBeRegained(actions, 1, Process(p.host, p.id + 1));
  }
}
