/** The glob matcher: a worklist over positions in the value and the pattern, with a visited set and a
    budget shared between calls (src/lib/glob.ts). */
module Glob {
  import opened Wrappers

  const MAX_GLOB_STATES := 200_000

  // ----- What a pattern means -----

  predicate HasGlobstarSlash(p: string, j: nat) {
    j + 2 < |p| && p[j] == '*' && p[j + 1] == '*' && p[j + 2] == '/'
  }

  predicate HasGlobstar(p: string, j: nat) {
    j + 1 < |p| && p[j] == '*' && p[j + 1] == '*'
  }

  predicate AnyText(v: string, i: nat, k: nat) {
    i <= k <= |v|
  }

  predicate NoSlash(v: string, i: nat, k: nat) {
    i <= k <= |v| && forall n :: i <= n < k ==> v[n] != '/'
  }

  predicate UpToSlash(v: string, i: nat, k: nat) {
    i < k <= |v| && v[k - 1] == '/'
  }

  /** The value from i on matches the pattern from j on: `**``/` stands for nothing or anything that ends
      in a slash, `**` for anything, `*` for anything without a slash, `?` for one character that is no
      slash, and every other character for itself. */
  ghost predicate Matches(v: string, p: string, i: nat, j: nat)
    requires i <= |v| && j <= |p|
    decreases |p| - j
  {
    if j == |p| then i == |v|
    else if HasGlobstarSlash(p, j) then
      Matches(v, p, i, j + 3) || exists k: nat :: UpToSlash(v, i, k) && Matches(v, p, k, j + 3)
    else if HasGlobstar(p, j) then exists k: nat :: AnyText(v, i, k) && Matches(v, p, k, j + 2)
    else if p[j] == '*' then exists k: nat :: NoSlash(v, i, k) && Matches(v, p, k, j + 1)
    else i < |v| && (if p[j] == '?' then v[i] != '/' else v[i] == p[j]) && Matches(v, p, i + 1, j + 1)
  }

  // ----- The matcher's states -----

  datatype GlobState = GlobState(valueIndex: nat, patternIndex: nat, globstarSlashActive: bool)

  predicate InRange(v: string, p: string, s: GlobState) {
    && s.valueIndex <= |v| && s.patternIndex <= |p|
    && (s.globstarSlashActive ==> HasGlobstarSlash(p, s.patternIndex))
  }

  /** An active state is inside the text of a globstar, up to its slash. */
  ghost predicate Means(v: string, p: string, s: GlobState)
    requires InRange(v, p, s)
  {
    if s.globstarSlashActive then
      exists k: nat :: UpToSlash(v, s.valueIndex, k) && Matches(v, p, k, s.patternIndex + 3)
    else Matches(v, p, s.valueIndex, s.patternIndex)
  }

  predicate Accepts(v: string, p: string, s: GlobState) {
    !s.globstarSlashActive && s.patternIndex == |p| && s.valueIndex == |v|
  }

  /** The states one pass of the loop pushes, in order. */
  function Successors(v: string, p: string, s: GlobState): (next: seq<GlobState>)
    requires InRange(v, p, s)
    ensures forall t :: t in next ==> InRange(v, p, t)
    ensures |next| <= 2
  {
    var i, j := s.valueIndex, s.patternIndex;
    if s.globstarSlashActive then
      if i == |v| then []
      else [GlobState(i + 1, j, true)] + (if v[i] == '/' then [GlobState(i + 1, j + 3, false)] else [])
    else if j == |p| then []
    else if HasGlobstarSlash(p, j) then
      [GlobState(i, j + 3, false)] + (if i < |v| then [GlobState(i, j, true)] else [])
    else if HasGlobstar(p, j) then
      [GlobState(i, j + 2, false)] + (if i < |v| then [GlobState(i + 1, j, false)] else [])
    else if p[j] == '*' then
      [GlobState(i, j + 1, false)] + (if i < |v| && v[i] != '/' then [GlobState(i + 1, j, false)] else [])
    else if i < |v| && p[j] == '?' && v[i] != '/' then [GlobState(i + 1, j + 1, false)]
    else if i < |v| && p[j] == v[i] then [GlobState(i + 1, j + 1, false)]
    else []
  }

  ghost predicate SomeMeans(v: string, p: string, states: seq<GlobState>)
    requires forall t :: t in states ==> InRange(v, p, t)
  {
    exists n :: 0 <= n < |states| && Means(v, p, states[n])
  }

  lemma ActiveStep(v: string, p: string, s: GlobState)
    requires InRange(v, p, s) && s.globstarSlashActive
    ensures Means(v, p, s) <==> SomeMeans(v, p, Successors(v, p, s))
  {
    var i, j, next := s.valueIndex, s.patternIndex, Successors(v, p, s);
    if i < |v| {
      if k: nat :| UpToSlash(v, i, k) && Matches(v, p, k, j + 3) {
        if k == i + 1 {
          assert Means(v, p, next[1]);
        } else {
          assert UpToSlash(v, i + 1, k);
          assert Means(v, p, next[0]);
        }
      }
      if Means(v, p, next[0]) {
        var k: nat :| UpToSlash(v, i + 1, k) && Matches(v, p, k, j + 3);
        assert UpToSlash(v, i, k);
      }
      if v[i] == '/' && Means(v, p, next[1]) { assert UpToSlash(v, i, i + 1); }
    }
  }

  lemma GlobstarStep(v: string, p: string, s: GlobState)
    requires InRange(v, p, s) && !s.globstarSlashActive
    requires HasGlobstar(p, s.patternIndex) && !HasGlobstarSlash(p, s.patternIndex)
    ensures Means(v, p, s) <==> SomeMeans(v, p, Successors(v, p, s))
  {
    var i, j, next := s.valueIndex, s.patternIndex, Successors(v, p, s);
    if k: nat :| AnyText(v, i, k) && Matches(v, p, k, j + 2) {
      if k == i {
        assert Means(v, p, next[0]);
      } else {
        assert AnyText(v, i + 1, k);
        assert Means(v, p, next[1]);
      }
    }
    if Means(v, p, next[0]) { assert AnyText(v, i, i); }
    if i < |v| && Means(v, p, next[1]) {
      var k: nat :| AnyText(v, i + 1, k) && Matches(v, p, k, j + 2);
      assert AnyText(v, i, k);
    }
  }

  lemma StarStep(v: string, p: string, s: GlobState)
    requires InRange(v, p, s) && !s.globstarSlashActive && s.patternIndex < |p|
    requires p[s.patternIndex] == '*' && !HasGlobstar(p, s.patternIndex)
    ensures Means(v, p, s) <==> SomeMeans(v, p, Successors(v, p, s))
  {
    var i, j, next := s.valueIndex, s.patternIndex, Successors(v, p, s);
    if k: nat :| NoSlash(v, i, k) && Matches(v, p, k, j + 1) {
      if k == i {
        assert Means(v, p, next[0]);
      } else {
        assert NoSlash(v, i + 1, k);
        assert Means(v, p, next[1]);
      }
    }
    if Means(v, p, next[0]) { assert NoSlash(v, i, i); }
    if i < |v| && v[i] != '/' && Means(v, p, next[1]) {
      var k: nat :| NoSlash(v, i + 1, k) && Matches(v, p, k, j + 1);
      assert NoSlash(v, i, k);
    }
  }

  lemma GlobstarSlashStep(v: string, p: string, s: GlobState)
    requires InRange(v, p, s) && !s.globstarSlashActive && HasGlobstarSlash(p, s.patternIndex)
    ensures Means(v, p, s) <==> SomeMeans(v, p, Successors(v, p, s))
  {
    var i, j, next := s.valueIndex, s.patternIndex, Successors(v, p, s);
    if Matches(v, p, i, j + 3) { assert Means(v, p, next[0]); }
    if k: nat :| UpToSlash(v, i, k) && Matches(v, p, k, j + 3) { assert Means(v, p, next[1]); }
  }

  /** One pass preserves the meaning: a state matches if it accepts or one of its successors matches. */
  lemma StepMeans(v: string, p: string, s: GlobState)
    requires InRange(v, p, s)
    ensures Means(v, p, s) <==> Accepts(v, p, s) || SomeMeans(v, p, Successors(v, p, s))
  {
    var i, j, next := s.valueIndex, s.patternIndex, Successors(v, p, s);
    if s.globstarSlashActive {
      ActiveStep(v, p, s);
    } else if j < |p| {
      if HasGlobstarSlash(p, j) {
        GlobstarSlashStep(v, p, s);
      } else if HasGlobstar(p, j) {
        GlobstarStep(v, p, s);
      } else if p[j] == '*' {
        StarStep(v, p, s);
      } else if next != [] {
        assert Means(v, p, s) <==> Means(v, p, next[0]);
      }
    }
  }

  // ----- Visited states -----

  /** The product, by addition, which is the form the proofs below need. */
  function Times(a: nat, b: nat): nat {
    if b == 0 then 0 else Times(a, b - 1) + a
  }

  lemma {:induction false} TimesIsProduct(a: nat, b: nat)
    ensures Times(a, b) == a * b
  {
    if b > 0 { TimesIsProduct(a, b - 1); }
  }

  lemma {:induction false} TimesGrows(a: nat, b: nat, b': nat)
    requires b < b'
    ensures Times(a, b) + a <= Times(a, b')
  {
    if b < b' - 1 { TimesGrows(a, b, b' - 1); }
  }

  /** stateKey: (patternIndex * (|value| + 1) + valueIndex) * 2, and one more when active. */
  function Key(v: string, s: GlobState): nat {
    (Times(|v| + 1, s.patternIndex) + s.valueIndex) * 2 + (if s.globstarSlashActive then 1 else 0)
  }

  /** 2 * (|value| + 1) * (|pattern| + 1) */
  function StateLimit(v: string, p: string): nat {
    2 * Times(|v| + 1, |p| + 1)
  }

  /** No two states share a key, and every key is below the limit. */
  lemma KeyIsInjective(v: string, p: string, s: GlobState, t: GlobState)
    requires InRange(v, p, s) && InRange(v, p, t)
    ensures Key(v, s) == Key(v, t) ==> s == t
    ensures Key(v, s) < StateLimit(v, p)
  {
    if s.patternIndex < t.patternIndex { TimesGrows(|v| + 1, s.patternIndex, t.patternIndex); }
    if t.patternIndex < s.patternIndex { TimesGrows(|v| + 1, t.patternIndex, s.patternIndex); }
    TimesGrows(|v| + 1, s.patternIndex, |p| + 1);
  }

  lemma {:induction false} BoundedSet(keys: set<nat>, n: nat)
    requires forall k :: k in keys ==> k < n
    ensures |keys| <= n
  {
    if n > 0 {
      var rest := keys - {n - 1};
      BoundedSet(rest, n - 1);
      assert |keys| <= |rest + {n - 1}| by { assert keys <= rest + {n - 1}; SubsetSize(keys, rest + {n - 1}); }
    } else if k :| k in keys {
      assert false;
    }
  }

  // ----- The search -----

  ghost predicate Known(seen: set<GlobState>, pending: seq<GlobState>, t: GlobState) {
    t in seen || t in pending
  }

  /** Every state already expanded accepts nothing, and its successors are expanded or on the stack. */
  ghost predicate Closed(v: string, p: string, seen: set<GlobState>, pending: seq<GlobState>) {
    forall s :: s in seen ==>
      && InRange(v, p, s) && !Accepts(v, p, s)
      && forall t :: t in Successors(v, p, s) ==> Known(seen, pending, t)
  }

  /** With nothing left to expand, no state that was expanded can match. */
  lemma {:induction false} NothingMatches(v: string, p: string, seen: set<GlobState>, s: GlobState)
    requires Closed(v, p, seen, []) && s in seen
    ensures !Means(v, p, s)
    decreases |p| - s.patternIndex, |v| - s.valueIndex, !s.globstarSlashActive
  {
    StepMeans(v, p, s);
    var next := Successors(v, p, s);
    forall n | 0 <= n < |next| ensures !Means(v, p, next[n]) {
      assert Known(seen, [], next[n]);
      NothingMatches(v, p, seen, next[n]);
    }
  }

  /** Expanding the top of the stack keeps the search closed. */
  lemma Expands(v: string, p: string, seen: set<GlobState>, pending: seq<GlobState>, s: GlobState)
    requires Closed(v, p, seen, pending + [s]) && InRange(v, p, s) && !Accepts(v, p, s)
    ensures Closed(v, p, seen + {s}, pending + Successors(v, p, s))
  {
    var next := pending + Successors(v, p, s);
    forall x, t | x in seen && t in Successors(v, p, x) ensures Known(seen + {s}, next, t) {
      assert Known(seen, pending + [s], t);
    }
  }

  /** So does dropping a state expanded before. */
  lemma Skips(v: string, p: string, seen: set<GlobState>, pending: seq<GlobState>, s: GlobState)
    requires Closed(v, p, seen, pending + [s]) && s in seen
    ensures Closed(v, p, seen, pending)
  {
    forall x, t | x in seen && t in Successors(v, p, x) ensures Known(seen, pending, t) {
      assert Known(seen, pending + [s], t);
    }
  }

  /** Whatever is on the stack, if it matches then the whole value does. */
  ghost predicate Sound(v: string, p: string, pending: seq<GlobState>, goal: bool) {
    forall t :: t in pending ==> InRange(v, p, t) && (Means(v, p, t) ==> goal)
  }

  lemma StaysSound(v: string, p: string, pending: seq<GlobState>, s: GlobState, goal: bool)
    requires Sound(v, p, pending + [s], goal)
    ensures InRange(v, p, s) && Sound(v, p, pending, goal)
    ensures Accepts(v, p, s) ==> goal
    ensures Sound(v, p, pending + Successors(v, p, s), goal)
  {
    assert s in pending + [s];
    StepMeans(v, p, s);
    forall t | t in pending ensures InRange(v, p, t) && (Means(v, p, t) ==> goal) {
      assert t in pending + [s];
    }
  }

  /** The search as a whole: what is known of its three collections between two passes. */
  ghost predicate Searching(v: string, p: string, pending: seq<GlobState>, seen: set<GlobState>, visited: set<nat>,
                            goal: bool) {
    && Sound(v, p, pending, goal)
    && Closed(v, p, seen, pending) && Known(seen, pending, GlobState(0, 0, false))
    && KeysOf(v, p, seen, visited)
  }

  lemma SearchSkips(v: string, p: string, pending: seq<GlobState>, seen: set<GlobState>, visited: set<nat>,
                    s: GlobState, goal: bool)
    requires Searching(v, p, pending + [s], seen, visited, goal)
    ensures InRange(v, p, s)
    ensures Key(v, s) in visited ==> Searching(v, p, pending, seen, visited, goal)
  {
    StaysSound(v, p, pending, s, goal);
    VisitedMeansSeen(v, p, seen, visited, s);
    if s in seen { Skips(v, p, seen, pending, s); }
  }

  lemma SearchExpands(v: string, p: string, pending: seq<GlobState>, seen: set<GlobState>, visited: set<nat>,
                      s: GlobState, goal: bool)
    requires Searching(v, p, pending + [s], seen, visited, goal) && InRange(v, p, s)
    ensures Accepts(v, p, s) ==> goal
    ensures |visited + {Key(v, s)}| <= StateLimit(v, p)
    ensures !Accepts(v, p, s) ==>
              Searching(v, p, pending + Successors(v, p, s), seen + {s}, visited + {Key(v, s)}, goal)
  {
    StaysSound(v, p, pending, s, goal);
    VisitedWithinLimit(v, p, seen + {s}, visited + {Key(v, s)});
    if !Accepts(v, p, s) { Expands(v, p, seen, pending, s); }
  }

  lemma SearchEnds(v: string, p: string, seen: set<GlobState>, visited: set<nat>, goal: bool)
    requires Searching(v, p, [], seen, visited, goal) && goal == Matches(v, p, 0, 0)
    ensures !goal
  {
    NothingMatches(v, p, seen, GlobState(0, 0, false));
  }

  /** The visited keys are those of the states expanded so far. */
  ghost predicate KeysOf(v: string, p: string, seen: set<GlobState>, visited: set<nat>) {
    && (forall s :: s in seen ==> InRange(v, p, s) && Key(v, s) in visited)
    && (forall key :: key in visited ==> exists s :: s in seen && Key(v, s) == key)
  }

  lemma VisitedMeansSeen(v: string, p: string, seen: set<GlobState>, visited: set<nat>, s: GlobState)
    requires KeysOf(v, p, seen, visited) && InRange(v, p, s)
    ensures Key(v, s) in visited <==> s in seen
  {
    if Key(v, s) in visited {
      var t :| t in seen && Key(v, t) == Key(v, s);
      KeyIsInjective(v, p, s, t);
    }
  }

  lemma VisitedWithinLimit(v: string, p: string, seen: set<GlobState>, visited: set<nat>)
    requires KeysOf(v, p, seen, visited)
    ensures |visited| <= StateLimit(v, p)
  {
    forall key | key in visited ensures key < StateLimit(v, p) {
      var s :| s in seen && Key(v, s) == key;
      KeyIsInjective(v, p, s, s);
    }
    BoundedSet(visited, StateLimit(v, p));
  }

  class Budget {
    var remainingStates: int

    constructor ()
      ensures remainingStates == MAX_GLOB_STATES
    {
      remainingStates := MAX_GLOB_STATES;
    }
  }

  /** matchNormalizedGlob: `None` is the GLOB_MATCH_LIMIT error. The answer is what the pattern means, and
      a budget of `StateLimit` always suffices. */
  method MatchNormalizedGlob(v: string, p: string, budget: Budget) returns (r: Option<bool>)
    modifies budget
    ensures r.Some? ==> r.value == Matches(v, p, 0, 0)
    ensures r.Some? ==> 0 <= budget.remainingStates
                        && 0 < old(budget.remainingStates) - budget.remainingStates <= StateLimit(v, p)
    ensures r.None? ==> old(budget.remainingStates) < StateLimit(v, p) && budget.remainingStates < 0
  {
    var pending, visited: set<nat> := [GlobState(0, 0, false)], {};
    ghost var goal, seen: set<GlobState> := Matches(v, p, 0, 0), {};
    while pending != []
      invariant Searching(v, p, pending, seen, visited, goal)
      invariant old(budget.remainingStates) - budget.remainingStates == |visited| <= StateLimit(v, p)
      invariant |visited| > 0 ==> budget.remainingStates >= 0
      invariant pending == [] ==> |visited| > 0
      decreases StateLimit(v, p) - |visited|, |pending|
    {
      var s := pending[|pending| - 1];
      assert pending == pending[..|pending| - 1] + [s];
      pending := pending[..|pending| - 1];
      SearchSkips(v, p, pending, seen, visited, s, goal);
      if Key(v, s) in visited { continue; }
      SearchExpands(v, p, pending, seen, visited, s, goal);
      visited := visited + {Key(v, s)};
      seen := seen + {s};
      budget.remainingStates := budget.remainingStates - 1;
      if budget.remainingStates < 0 { return None; }
      if Accepts(v, p, s) { return Some(true); }
      pending := pending + Successors(v, p, s);
    }
    SearchEnds(v, p, seen, visited, goal);
    return Some(false);
  }

  // ----- Calls -----

  /** normalizePath: slashes forward, and one leading `./` gone. */
  function NormalizePath(value: string): string {
    var forward := seq(|value|, i requires 0 <= i < |value| => if value[i] == '\\' then '/' else value[i]);
    if "./" <= forward then forward[2..] else forward
  }

  ghost predicate GlobMatches(value: string, pattern: string) {
    Matches(NormalizePath(value), NormalizePath(pattern), 0, 0)
  }

  function Limit(value: string, pattern: string): nat {
    StateLimit(NormalizePath(value), NormalizePath(pattern))
  }

  method MatchGlob(value: string, pattern: string, budget: Budget) returns (r: Option<bool>)
    modifies budget
    ensures r.Some? ==> r.value == GlobMatches(value, pattern) && 0 <= budget.remainingStates
    ensures r.Some? ==> 0 < old(budget.remainingStates) - budget.remainingStates <= Limit(value, pattern)
    ensures r.None? ==> old(budget.remainingStates) < Limit(value, pattern) && budget.remainingStates < 0
  {
    r := MatchNormalizedGlob(NormalizePath(value), NormalizePath(pattern), budget);
  }

  /** What the first n patterns can spend together. */
  function TotalLimit(value: string, patterns: seq<string>, n: nat): nat
    requires n <= |patterns|
  {
    if n == 0 then 0 else TotalLimit(value, patterns, n - 1) + Limit(value, patterns[n - 1])
  }

  lemma {:induction false} TotalLimitGrows(value: string, patterns: seq<string>, n: nat, m: nat)
    requires n <= m <= |patterns|
    ensures TotalLimit(value, patterns, n) <= TotalLimit(value, patterns, m)
  {
    if n < m { TotalLimitGrows(value, patterns, n, m - 1); }
  }

  /** One of the first n patterns matches. */
  ghost predicate AnyMatches(value: string, patterns: seq<string>, n: nat)
    requires n <= |patterns|
  {
    n > 0 && (AnyMatches(value, patterns, n - 1) || GlobMatches(value, patterns[n - 1]))
  }

  lemma {:induction false} AnyMatchesMeans(value: string, patterns: seq<string>, n: nat)
    requires n <= |patterns|
    ensures AnyMatches(value, patterns, n) <==> exists m :: 0 <= m < n && GlobMatches(value, patterns[m])
  {
    if n > 0 { AnyMatchesMeans(value, patterns, n - 1); }
  }

  lemma {:induction false} AnyMatchesGrows(value: string, patterns: seq<string>, n: nat, m: nat)
    requires n <= m <= |patterns| && AnyMatches(value, patterns, n)
    ensures AnyMatches(value, patterns, m)
  {
    if n < m { AnyMatchesGrows(value, patterns, n, m - 1); }
  }

  /** matchesAnyGlob: one budget for all patterns, and no pattern tried behind the first that matches. */
  method MatchesAnyGlob(value: string, patterns: seq<string>, budget: Budget) returns (r: Option<bool>)
    modifies budget
    ensures r.Some? ==> r.value == AnyMatches(value, patterns, |patterns|)
    ensures r.None? ==> old(budget.remainingStates) < TotalLimit(value, patterns, |patterns|)
  {
    for n := 0 to |patterns|
      invariant !AnyMatches(value, patterns, n)
      invariant old(budget.remainingStates) - budget.remainingStates <= TotalLimit(value, patterns, n)
    {
      TotalLimitGrows(value, patterns, n + 1, |patterns|);
      r := MatchGlob(value, patterns[n], budget);
      if r == Some(true) { AnyMatchesGrows(value, patterns, n + 1, |patterns|); }
      if r != Some(false) { return; }
    }
    return Some(false);
  }
}
