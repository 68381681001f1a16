/** Which names a route answers to (crates/codegen/astra-auth/src/server.rs, `choose_model`). */
module RouteNames {
  import opened Routes

  /** The two cases of one ASCII letter. */
  predicate CasesOf(a: char, b: char) {
    ('A' <= a <= 'Z' && b == a + 32 as char) || ('A' <= b <= 'Z' && a == b + 32 as char)
  }

  /** Equal but for the case of ASCII letters. */
  predicate SameName(a: string, b: string) {
    |a| == |b| && forall k :: 0 <= k < |a| ==> a[k] == b[k] || CasesOf(a[k], b[k])
  }

  lemma {:induction false} LowerExactly(a: string, b: string)
    ensures Lower(a) == Lower(b) <==> SameName(a, b)
  {
    if Lower(a) == Lower(b) {
      forall k | 0 <= k < |a|
        ensures a[k] == b[k] || CasesOf(a[k], b[k])
      {
        assert Lower(a)[k] == Lower(b)[k];
      }
    }
  }

  /** A route answers to its id, its display name and its upstream model, in any letter case, and to nothing else. */
  lemma {:induction false} AnswersExactly(r: ModelRoute, name: string)
    ensures Answers(r, name) <==>
            SameName(r.id, name) || SameName(r.displayName, name) || SameName(r.upstreamModel, name)
  {
    LowerExactly(r.id, name);
    LowerExactly(r.displayName, name);
    LowerExactly(r.upstreamModel, name);
  }
}
