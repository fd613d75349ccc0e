/** The workflow lease: claims in a directory, published, listed and judged by any number of attempts
    in any number of processes (src/workflow/lease.ts). One action is one step of one attempt, a crash,
    or the passing of time; a run is any sequence of enabled actions. */
module WorkflowLease {
  import opened Wrappers

  const STALE_REMOTE_LOCK_MS := 24 * 60 * 60 * 1_000
  const MAX_CLAIMS_PER_WORKFLOW := 128

  type Token = nat

  /** One incarnation of a process. A reused process id is another process. */
  datatype Process = Process(host: nat, id: nat)

  /** Created: the staging file is there, but not yet whole. Dropped: the staging file was taken back.
      While an attempt is listing, `listed` and `pendingListed` are the names there when it began; after
      that, the names its listing returned. */
  datatype Phase =
    | Begun
    | Created
    | Staged
    | Dropped
    | Linked
    | Published
    | Listing(listed: set<Token>, pendingListed: set<Token>)
    | Scanning(listed: set<Token>, todoPending: set<Token>, todo: set<Token>, stalePending: set<Token>,
               stale: set<Token>)
    | Recovering(listed: set<Token>, stalePending: set<Token>, stale: set<Token>)
    | Removing(listed: set<Token>, stalePending: set<Token>, stale: set<Token>)
    | Holding(listed: set<Token>)
    | Failing
    | Over

  datatype Attempt = Attempt(process: Process, createdAt: nat, phase: Phase)

  /** `claims` are the `.lock` files, `pending` their `.publish-` staging files. */
  datatype State = State(now: nat, attempts: map<Token, Attempt>, claims: set<Token>, pending: set<Token>,
                         crashed: set<Process>)

  datatype Action =
    | Wait(ms: nat)
    | Crash(process: Process)
    | Begin(t: Token, process: Process)
    | Create(t: Token)
    | Stage(t: Token)
    | Abandon(t: Token)
    | Link(t: Token)
    | Unstage(t: Token)
    | Confirm(t: Token)
    | StartListing(t: Token)
    | FinishListing(t: Token, names: set<Token>, pendingNames: set<Token>)
    | ReadPending(t: Token, x: Token)
    | ReadClaim(t: Token, x: Token)
    | FinishScan(t: Token)
    | Reconcile(t: Token)
    | RemoveStaging(t: Token, x: Token)
    | RemoveClaim(t: Token, x: Token)
    | FinishRemoval(t: Token)
    | Release(t: Token)
    | Fail(t: Token)
    | Retract(t: Token)

  predicate Alive(s: State, t: Token)
    requires t in s.attempts
  {
    s.attempts[t].process !in s.crashed
  }

  /** isLive answers false: on its own host only for a process that is gone, elsewhere only by age. */
  predicate JudgedStale(s: State, host: nat, x: Token)
    requires x in s.attempts
  {
    if s.attempts[x].process.host == host then !Alive(s, x)
    else s.now > s.attempts[x].createdAt + STALE_REMOTE_LOCK_MS
  }

  /** The staging file holds a whole record. */
  predicate Whole(s: State, x: Token) {
    x in s.attempts && !s.attempts[x].phase.Begun? && !s.attempts[x].phase.Created?
  }

  /** The attempt whose step it is. */
  function Actor(a: Action): Option<Token> {
    match a
    case Wait(_) => None
    case Crash(_) => None
    case Begin(_, _) => None
    case _ => Some(a.t)
  }

  predicate Enabled(s: State, a: Action) {
    match a
    case Wait(_) => true
    case Crash(_) => true
    case Begin(t, process) => t !in s.attempts && process !in s.crashed
    case _ => a.t in s.attempts && Alive(s, a.t) && EnabledFor(s, a, s.attempts[a.t].phase)
  }

  /** The attempt's claim has been linked. */
  predicate Visible(s: State, t: Token) {
    t in s.attempts && var phase := s.attempts[t].phase;
    !phase.Begun? && !phase.Created? && !phase.Staged? && !phase.Dropped?
  }

  /** From the link on until the attempt is over, its own staging file may still be there. */
  predicate MayUnstage(phase: Phase) {
    phase.Linked? || Acquiring(phase) || phase.Holding? || phase.Failing?
  }

  predicate Acquiring(phase: Phase) {
    phase.Published? || phase.Listing? || phase.Scanning? || phase.Recovering? || phase.Removing?
  }

  /** What a listing may return: every name that was there from its beginning to its end, and of the
      others, added or removed meanwhile or before, any that ever was there. */
  predicate MayList(s: State, began: Phase, names: set<Token>, pendingNames: set<Token>)
    requires began.Listing?
  {
    && began.listed * s.claims <= names && (forall x :: x in names ==> Visible(s, x))
    && began.pendingListed * s.pending <= pendingNames
    && (forall x :: x in pendingNames ==> x in s.attempts && !s.attempts[x].phase.Begun?)
  }

  /** An attempt that meets anything else can only fail; one that stops for good takes no further step. */
  predicate EnabledFor(s: State, a: Action, phase: Phase)
    requires Actor(a).Some? && a.t in s.attempts
  {
    match a
    case Create(_) => phase.Begun?
    case Stage(_) => phase.Created?
    case Abandon(_) => phase.Staged?
    case Link(t) => phase.Staged? && t in s.pending
    case Unstage(_) => MayUnstage(phase)
    case Confirm(_) => phase.Linked?
    case StartListing(t) => phase.Published?
    case FinishListing(t, names, pendingNames) =>
      && phase.Listing? && t in names && MayList(s, phase, names, pendingNames)
      && |names| + |pendingNames| <= MAX_CLAIMS_PER_WORKFLOW
    case ReadPending(t, x) =>
      && phase.Scanning? && x in phase.todoPending
      && x in s.pending && Whole(s, x) && JudgedStale(s, s.attempts[t].process.host, x)
    case ReadClaim(t, x) =>
      && phase.Scanning? && phase.todoPending == {} && x in phase.todo
      && (x in s.claims ==> x in s.attempts && JudgedStale(s, s.attempts[t].process.host, x))
    case FinishScan(_) => phase.Scanning? && phase.todoPending == {} && phase.todo == {}
    case Reconcile(_) => phase.Recovering?
    case RemoveStaging(_, x) => phase.Removing? && x in phase.stalePending + phase.stale
    case RemoveClaim(_, x) => phase.Removing? && x in phase.stale && x !in s.pending
    case FinishRemoval(_) => phase.Removing? && phase.stalePending !! s.pending && phase.stale !! s.claims
    case Release(t) => phase.Holding? && t !in s.pending
    case Fail(_) => Acquiring(phase)
    case Retract(t) => phase.Failing? && t !in s.pending
  }

  function NextPhase(s: State, a: Action, phase: Phase): Phase
    requires Actor(a).Some? && a.t in s.attempts && EnabledFor(s, a, phase)
  {
    match a
    case Create(_) => Created
    case Stage(_) => Staged
    case Abandon(_) => Dropped
    case Link(_) => Linked
    case Unstage(_) => phase
    case Confirm(_) => Published
    case StartListing(_) => Listing(s.claims, s.pending)
    case FinishListing(t, names, pendingNames) => Scanning(names, pendingNames - names, names - {t}, {}, {})
    case ReadPending(_, x) => phase.(todoPending := phase.todoPending - {x}, stalePending := phase.stalePending + {x})
    case ReadClaim(_, x) =>
      phase.(todo := phase.todo - {x}, stale := if x in s.claims then phase.stale + {x} else phase.stale)
    case FinishScan(_) =>
      if phase.stalePending + phase.stale == {} then Holding(phase.listed)
      else Recovering(phase.listed, phase.stalePending, phase.stale)
    case Reconcile(_) => Removing(phase.listed, phase.stalePending, phase.stale)
    case FinishRemoval(_) => Holding(phase.listed)
    case Fail(_) => Failing
    case RemoveStaging(_, _) => phase
    case RemoveClaim(_, _) => phase
    case _ => Over
  }

  function Apply(s: State, a: Action): State
    requires Enabled(s, a)
  {
    match a
    case Wait(ms) => s.(now := s.now + ms)
    case Crash(process) => s.(crashed := s.crashed + {process})
    case Begin(t, process) => s.(attempts := s.attempts[t := Attempt(process, s.now, Begun)])
    case _ =>
      var mine := s.attempts[a.t];
      var u := s.(attempts := s.attempts[a.t := mine.(phase := NextPhase(s, a, mine.phase))]);
      match a
      case Create(t) => u.(pending := s.pending + {t})
      case Abandon(t) => u.(pending := s.pending - {t})
      case Link(t) => u.(claims := s.claims + {t})
      case Unstage(t) => u.(pending := s.pending - {t})
      case RemoveStaging(_, x) => u.(pending := s.pending - {x})
      case RemoveClaim(_, x) => u.(claims := s.claims - {x})
      case Release(t) => u.(claims := s.claims - {t})
      case Retract(t) => u.(claims := s.claims - {t})
      case _ => u
  }

  const EMPTY := State(0, map[], {}, {}, {})

  /** The state a run ends in, if every action of it is enabled in its turn. */
  function Run(actions: seq<Action>): Option<State> {
    if actions == [] then Some(EMPTY)
    else
      var before := Run(actions[..|actions| - 1]);
      var a := actions[|actions| - 1];
      if before.Some? && Enabled(before.value, a) then Some(Apply(before.value, a)) else None
  }

  // ----- Safety -----

  /** The attempt's look at the directory has begun. */
  predicate HasLooked(phase: Phase) {
    phase.Listing? || phase.Scanning? || phase.Recovering? || phase.Removing? || phase.Holding?
  }

  /** The lease is this attempt's: its scan met no live claim. */
  predicate Holds(s: State, t: Token) {
    t in s.attempts && var phase := s.attempts[t].phase; phase.Recovering? || phase.Removing? || phase.Holding?
  }

  /** The claim is older than a day, and there is an attempt on another host to notice. */
  predicate Expired(s: State, t: Token) {
    && t in s.attempts
    && s.now > s.attempts[t].createdAt + STALE_REMOTE_LOCK_MS
    && exists u :: u in s.attempts && s.attempts[u].process.host != s.attempts[t].process.host
  }

  predicate MayBeRemoved(s: State, t: Token) {
    t in s.attempts && (!Alive(s, t) || Expired(s, t))
  }

  /** Nothing has to wait for this attempt. */
  predicate Gone(s: State, t: Token) {
    MayBeRemoved(s, t) || (t in s.attempts && (s.attempts[t].phase.Failing? || s.attempts[t].phase.Over?))
  }

  function StaleOf(phase: Phase): set<Token> {
    if phase.Scanning? || phase.Recovering? || phase.Removing? then phase.stalePending + phase.stale else {}
  }

  function TodoOf(phase: Phase): set<Token> {
    if phase.Listing? then phase.listed else if phase.Scanning? then phase.todo else {}
  }

  ghost predicate ClaimsKept(s: State) {
    && (forall t :: t in s.claims ==> Visible(s, t))
    && (forall t :: Visible(s, t) ==> t in s.claims || Gone(s, t))
  }

  ghost predicate StaleJudged(s: State) {
    forall t, x :: t in s.attempts && x in StaleOf(s.attempts[t].phase) ==> MayBeRemoved(s, x)
  }

  ghost predicate ScansRight(s: State) {
    forall t, x :: t in s.attempts && HasLooked(s.attempts[t].phase) && x in s.attempts[t].phase.listed ==>
      Visible(s, x) && (x == t || x in TodoOf(s.attempts[t].phase) || Gone(s, x))
  }

  /** Of two attempts that look, the one that began later found the other's claim there, and keeps it in view. */
  ghost predicate OneSawTheOther(s: State) {
    forall t, u :: t in s.attempts && u in s.attempts && t != u
                   && HasLooked(s.attempts[t].phase) && HasLooked(s.attempts[u].phase) ==>
      Gone(s, t) || Gone(s, u) || t in s.attempts[u].phase.listed || u in s.attempts[t].phase.listed
  }

  ghost predicate Safe(s: State) {
    ClaimsKept(s) && StaleJudged(s) && ScansRight(s) && OneSawTheOther(s)
  }

  /** What no step takes back. */
  lemma StepKeeps(s: State, a: Action, t: Token)
    requires Enabled(s, a)
    ensures MayBeRemoved(s, t) ==> MayBeRemoved(Apply(s, a), t)
    ensures Gone(s, t) ==> Gone(Apply(s, a), t)
    ensures Visible(s, t) ==> Visible(Apply(s, a), t)
  {
    var u := Apply(s, a);
    if Expired(s, t) {
      var other :| other in s.attempts && s.attempts[other].process.host != s.attempts[t].process.host;
      assert other in u.attempts && u.attempts[other].process.host != u.attempts[t].process.host;
    }
  }

  /** Judged stale is dead or expired, whoever judges. */
  lemma JudgedRightly(s: State, t: Token, x: Token)
    requires t in s.attempts && x in s.attempts && JudgedStale(s, s.attempts[t].process.host, x)
    ensures MayBeRemoved(s, x)
  {
  }

  lemma StepClaims(s: State, a: Action)
    requires Safe(s) && Enabled(s, a)
    ensures ClaimsKept(Apply(s, a))
  {
    var u := Apply(s, a);
    forall t | t in u.claims ensures Visible(u, t) { StepKeeps(s, a, t); }
    forall t | Visible(u, t) ensures t in u.claims || Gone(u, t) { StepKeeps(s, a, t); }
  }

  lemma StepStale(s: State, a: Action)
    requires Safe(s) && Enabled(s, a)
    ensures StaleJudged(Apply(s, a))
  {
    var u := Apply(s, a);
    forall t, x | t in u.attempts && x in StaleOf(u.attempts[t].phase) ensures MayBeRemoved(u, x) {
      StepKeeps(s, a, x);
      if a.ReadPending? || a.ReadClaim? {
        if a.x in s.attempts && JudgedStale(s, s.attempts[a.t].process.host, a.x) { JudgedRightly(s, a.t, a.x); }
      }
    }
  }

  lemma ScanOf(s: State, a: Action, t: Token, x: Token)
    requires Safe(s) && Enabled(s, a)
    requires var u := Apply(s, a); t in u.attempts && HasLooked(u.attempts[t].phase) && x in u.attempts[t].phase.listed
    ensures var u := Apply(s, a); Visible(u, x) && (x == t || x in TodoOf(u.attempts[t].phase) || Gone(u, x))
  {
    StepKeeps(s, a, x);
    if a.ReadClaim? && a.t == t && a.x == x && x in s.claims { JudgedRightly(s, t, x); }
  }

  lemma StepScans(s: State, a: Action)
    requires Safe(s) && Enabled(s, a)
    ensures ScansRight(Apply(s, a))
  {
    var u := Apply(s, a);
    forall t, x | t in u.attempts && HasLooked(u.attempts[t].phase) && x in u.attempts[t].phase.listed
      ensures Visible(u, x) && (x == t || x in TodoOf(u.attempts[t].phase) || Gone(u, x))
    {
      ScanOf(s, a, t, x);
    }
  }

  /** A look begins with the claims there are, and loses none from view but of the gone. */
  lemma LookStep(s: State, a: Action, t: Token)
    requires Safe(s) && Enabled(s, a)
    requires t in Apply(s, a).attempts && HasLooked(Apply(s, a).attempts[t].phase)
    ensures t in s.attempts && Visible(s, t)
    ensures !HasLooked(s.attempts[t].phase) ==> a == StartListing(t) && Apply(s, a).attempts[t].phase.listed == s.claims
    ensures HasLooked(s.attempts[t].phase) ==>
              forall x :: x in s.attempts[t].phase.listed ==> x in Apply(s, a).attempts[t].phase.listed || Gone(s, x)
  {
  }

  lemma StepSaw(s: State, a: Action)
    requires Safe(s) && Enabled(s, a)
    ensures OneSawTheOther(Apply(s, a))
  {
    var v := Apply(s, a);
    forall t, u | t in v.attempts && u in v.attempts && t != u
                  && HasLooked(v.attempts[t].phase) && HasLooked(v.attempts[u].phase)
      ensures Gone(v, t) || Gone(v, u) || t in v.attempts[u].phase.listed || u in v.attempts[t].phase.listed
    {
      StepKeeps(s, a, t);
      StepKeeps(s, a, u);
      LookStep(s, a, t);
      LookStep(s, a, u);
    }
  }

  lemma {:induction false} RunIsSafe(actions: seq<Action>)
    requires Run(actions).Some?
    ensures Safe(Run(actions).value)
  {
    if actions != [] {
      var before, a := actions[..|actions| - 1], actions[|actions| - 1];
      RunIsSafe(before);
      var s := Run(before).value;
      StepClaims(s, a);
      StepStale(s, a);
      StepScans(s, a);
      StepSaw(s, a);
    }
  }

  /** Mutual exclusion: two attempts of live processes hold the lease together only if the claim of one
      of them is more than a day old and an attempt on another host than its own was there to expire it. */
  lemma MutualExclusion(actions: seq<Action>, t: Token, u: Token)
    requires Run(actions).Some? && t != u
    requires Holds(Run(actions).value, t) && Holds(Run(actions).value, u)
    requires Alive(Run(actions).value, t) && Alive(Run(actions).value, u)
    ensures Expired(Run(actions).value, t) || Expired(Run(actions).value, u)
  {
    RunIsSafe(actions);
    var s := Run(actions).value;
    var p, q := s.attempts[t].phase, s.attempts[u].phase;
    assert HasLooked(p) && HasLooked(q) && TodoOf(p) == {} && TodoOf(q) == {};
    assert t in q.listed || u in p.listed || Gone(s, t) || Gone(s, u);
    assert Gone(s, t) || Gone(s, u);
  }

  /** On one host there is never a second live holder. */
  lemma MutualExclusionOnOneHost(actions: seq<Action>, host: nat, t: Token, u: Token)
    requires Run(actions).Some?
    requires var s := Run(actions).value;
             && (forall x :: x in s.attempts ==> s.attempts[x].process.host == host)
             && Holds(s, t) && Holds(s, u) && Alive(s, t) && Alive(s, u)
    ensures t == u
  {
    if t != u { MutualExclusion(actions, t, u); }
  }

  /** Only the holder takes another attempt's files away, and only those of a dead process or of an
      expired claim; every other file goes by its own attempt's hand. */
  lemma RemovalByHolder(actions: seq<Action>, a: Action, x: Token)
    requires Run(actions).Some? && Enabled(Run(actions).value, a)
    requires var s, u := Run(actions).value, Apply(Run(actions).value, a);
             (x in s.claims && x !in u.claims) || (x in s.pending && x !in u.pending)
    ensures Actor(a).Some?
    ensures a.t == x || (Holds(Run(actions).value, a.t) && MayBeRemoved(Run(actions).value, x))
  {
    RunIsSafe(actions);
    var s := Run(actions).value;
    match a {
      case RemoveStaging(t, y) => assert x == y && y in StaleOf(s.attempts[t].phase);
      case RemoveClaim(t, y) => assert x == y && y in StaleOf(s.attempts[t].phase);
      case _ =>
    }
  }
}
