/**
  The alias search shared by both iterations of the program: walk the declared
  trigger tokens in order and stop at the first one the fuzzy matcher accepts.

  The matcher itself (`SkimMatcherV2::fuzzy_match(choice, pattern).is_some()`
  from the `fuzzy_matcher` crate) is foreign code; it is a parameter of every
  member that needs it and nothing is assumed about it.
*/
module Fuzzy {
  import opened Wrappers

  /** `Matcher(choice, pattern)` holds when the crate returns some score. */
  type Matcher = (string, string) -> bool

  /** No token before position `k` matches `pattern`. */
  predicate NoneBefore(tokens: seq<string>, pattern: string, fuzzy: Matcher, k: int)
    requires k <= |tokens|
  {
    forall j :: 0 <= j < k ==> !fuzzy(tokens[j], pattern)
  }

  /** The position of the first token that accepts `pattern`, if there is one. */
  function FirstMatch(tokens: seq<string>, pattern: string, fuzzy: Matcher): (r: Option<nat>)
    ensures r.Some? ==> r.value < |tokens| && fuzzy(tokens[r.value], pattern)
    ensures r.Some? ==> NoneBefore(tokens, pattern, fuzzy, r.value)
    ensures r.None? <==> NoneBefore(tokens, pattern, fuzzy, |tokens|)
  {
    if tokens == [] then None
    else if fuzzy(tokens[0], pattern) then Some(0)
    else match FirstMatch(tokens[1..], pattern, fuzzy)
      case None => None
      case Some(k) => Some(k + 1)
  }

  /** The three facts of FirstMatch's contract pin its result down completely. */
  lemma FirstMatchIsUnique(tokens: seq<string>, pattern: string, fuzzy: Matcher, k: nat)
    requires k < |tokens| && fuzzy(tokens[k], pattern)
    requires NoneBefore(tokens, pattern, fuzzy, k)
    ensures FirstMatch(tokens, pattern, fuzzy) == Some(k)
  {
  }
}
