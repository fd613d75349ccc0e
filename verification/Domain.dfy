/** Types and string tests shared by the task and workflow models (src/domain/types.ts). */
module Domain {
  import opened Wrappers

  /** A UUID. */
  type Id = nat

  datatype RunStatus = Completed | Failed | Blocked | PolicyViolation | TimedOut | Cancelled

  predicate Bounded(s: string, most: nat) {
    0 < |s| <= most
  }

  /** A failure code, if any, has 1 to 200 characters. */
  predicate ValidCode(code: Option<string>) {
    code.Some? ==> Bounded(code.value, 200)
  }

  predicate Contains(s: string, part: string) {
    part <= s || (s != "" && Contains(s[1..], part))
  }

  predicate EndsWith(s: string, part: string) {
    |part| <= |s| && s[|s| - |part|..] == part
  }
}
