/**
  The alias table of the current iteration
  (src/url_handler/url_macro_handler/url_macro_handler.rs): six bookmarked
  destinations, the ordered trigger tokens that name them, and the fuzzy
  search that picks the first token accepting the input.
*/
module UrlMacroHandler {
  import opened Wrappers
  import opened Fuzzy

  /** `SpecialUrl`: the bookmarked destinations. */
  datatype SpecialUrl = Github | Gmail | DevServer | Ng | Yt | Default

  /** `to_url_string`: the canonical destination of each alias. */
  function ToUrlString(v: SpecialUrl): (r: string)
    ensures (|r| > 8 && "https://" <= r) <==> !(v.DevServer? || v.Ng?)
    ensures (v.DevServer? || v.Ng?) ==> "localhost:" <= r
    ensures '.' in r <==> !(v.DevServer? || v.Ng?)
    ensures ' ' !in r
  {
    match v
    case Github => "https://github.com/astherath"
    case Gmail => "https://gmail.com"
    case DevServer =>
      var r := "localhost:8000/docs";
      assert r[0] == 'l' && '.' !in r;
      r
    case Ng =>
      var r := "localhost:4200";
      assert r[0] == 'l' && '.' !in r;
      r
    case Yt => "https://youtube.com"
    case Default => "https://google.com"
  }

  /** Distinct aliases lead to distinct destinations. */
  lemma ToUrlStringInjective(v: SpecialUrl, w: SpecialUrl)
    requires ToUrlString(v) == ToUrlString(w)
    ensures v == w
  {
  }

  /** `from_str`: each trigger token names its alias; any other string names `Default`. */
  function FromStr(strVal: string): (r: SpecialUrl)
    ensures r == Github <==> strVal == "github"
    ensures r == Gmail <==> strVal == "mail"
    ensures r == DevServer <==> strVal == "dev"
    ensures r == Ng <==> strVal == "ng"
    ensures r == Yt <==> strVal == "yt"
    ensures r == Default <==> strVal !in ["github", "mail", "dev", "ng", "yt"]
  {
    match strVal
    case "github" => Github
    case "mail" => Gmail
    case "dev" => DevServer
    case "ng" => Ng
    case "yt" => Yt
    case "new" => Default
    case _ => Default
  }

  /**
    `get_all_possible_value_strs` (and its `_array` twin, which holds the same
    six tokens): the trigger tokens in declaration order. No token is
    repeated and no two tokens name the same alias.
  */
  function GetAllPossibleValueStrs(): (r: seq<string>)
    ensures |r| == 6
    ensures forall i, j :: 0 <= i < j < |r| ==> r[i] != r[j]
    ensures forall i, j :: 0 <= i < j < |r| ==> FromStr(r[i]) != FromStr(r[j])
  {
    var r := ["github", "mail", "dev", "ng", "yt", "new"];
    assert FromStr(r[0]) == Github && FromStr(r[1]) == Gmail && FromStr(r[2]) == DevServer;
    assert FromStr(r[3]) == Ng && FromStr(r[4]) == Yt && FromStr(r[5]) == Default;
    r
  }

  /** Every alias is named by some trigger token. */
  lemma EveryAliasHasAToken(v: SpecialUrl)
    ensures exists i :: 0 <= i < |GetAllPossibleValueStrs()| && FromStr(GetAllPossibleValueStrs()[i]) == v
  {
    var tokens := GetAllPossibleValueStrs();
    var i := match v
      case Github => 0
      case Gmail => 1
      case DevServer => 2
      case Ng => 3
      case Yt => 4
      case Default => 5;
    assert FromStr(tokens[i]) == v;
  }

  /**
    `get_shorthand_url_pairs`: one `(token, destination)` row per trigger
    token, in declaration order, as the `view` listing shows them.
  */
  function GetShorthandUrlPairs(): (r: seq<(string, string)>)
    ensures |r| == |GetAllPossibleValueStrs()|
    ensures forall i :: 0 <= i < |r| ==>
      r[i].0 == GetAllPossibleValueStrs()[i] && r[i].1 == ToUrlString(FromStr(r[i].0))
  {
    var tokens := GetAllPossibleValueStrs();
    seq(|tokens|, i requires 0 <= i < |tokens| => (tokens[i], ToUrlString(FromStr(tokens[i]))))
  }

  /** The `view` listing shows every destination once: its rows are pairwise different in both columns. */
  lemma ShorthandUrlPairsDistinct(i: int, j: int)
    requires 0 <= i < j < |GetShorthandUrlPairs()|
    ensures GetShorthandUrlPairs()[i].0 != GetShorthandUrlPairs()[j].0
    ensures GetShorthandUrlPairs()[i].1 != GetShorthandUrlPairs()[j].1
  {
    var pairs := GetShorthandUrlPairs();
    var tokens := GetAllPossibleValueStrs();
    if pairs[i].1 == pairs[j].1 {
      ToUrlStringInjective(FromStr(tokens[i]), FromStr(tokens[j]));
    }
  }

  /**
    Specification of `try_to_match_from_str`: the alias of the first token,
    in declaration order, that the matcher accepts for `urlStr`.
  */
  function MatchAlias(urlStr: string, fuzzy: Matcher): (r: Option<SpecialUrl>)
    ensures r.None? <==> NoneBefore(GetAllPossibleValueStrs(), urlStr, fuzzy, 6)
    ensures r.Some? ==> exists k :: (0 <= k < 6
      && fuzzy(GetAllPossibleValueStrs()[k], urlStr)
      && NoneBefore(GetAllPossibleValueStrs(), urlStr, fuzzy, k)
      && r.value == FromStr(GetAllPossibleValueStrs()[k]))
  {
    var tokens := GetAllPossibleValueStrs();
    match FirstMatch(tokens, urlStr, fuzzy)
    case None => None
    case Some(k) => Some(FromStr(tokens[k]))
  }

  /** `try_to_match_from_str`: the loop over the tokens with its early return. */
  method TryToMatchFromStr(urlStr: string, fuzzy: Matcher) returns (r: Option<SpecialUrl>)
    ensures r == MatchAlias(urlStr, fuzzy)
  {
    var possibleEnumStrings := GetAllPossibleValueStrs();
    var i := 0;
    while i < |possibleEnumStrings|
      invariant 0 <= i <= |possibleEnumStrings|
      invariant NoneBefore(possibleEnumStrings, urlStr, fuzzy, i)
    {
      if fuzzy(possibleEnumStrings[i], urlStr) {
        FirstMatchIsUnique(possibleEnumStrings, urlStr, fuzzy, i);
        return Some(FromStr(possibleEnumStrings[i]));
      }
      i := i + 1;
    }
    return None;
  }

  /**
    A token the matcher accepts for itself, with no earlier token accepting
    it, resolves to its own alias.
  */
  lemma TokenResolvesToItsAlias(k: nat, fuzzy: Matcher)
    requires k < |GetAllPossibleValueStrs()|
    requires fuzzy(GetAllPossibleValueStrs()[k], GetAllPossibleValueStrs()[k])
    requires NoneBefore(GetAllPossibleValueStrs(), GetAllPossibleValueStrs()[k], fuzzy, k)
    ensures MatchAlias(GetAllPossibleValueStrs()[k], fuzzy)
         == Some(FromStr(GetAllPossibleValueStrs()[k]))
  {
    FirstMatchIsUnique(GetAllPossibleValueStrs(), GetAllPossibleValueStrs()[k], fuzzy, k);
  }
}
