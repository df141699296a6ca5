/**
  The older, self-contained iteration of the launcher (src/cli.rs). Its alias
  table has a `Logs` destination and two tokens for some aliases, no token
  for `Default`, and its normaliser has no search rules: every non-blank
  input is only given a scheme when it seems to lack one. There is no
  browser selector; the launch always uses the path from the environment.
*/
module Cli {
  import opened Wrappers
  import opened Fuzzy
  import opened Text
  import UrlInput

  /** `SpecialUrl` of this iteration. */
  datatype SpecialUrl = Github | Logs | Gmail | DevServer | Default

  /** `UrlInputType` of this iteration. */
  datatype UrlInputType =
    | Regular(urlStr: string)
    | Blank
    | Special(specialUrl: SpecialUrl)

  /** What `open_browser_to_url` asks `open` to do. */
  datatype Launch = BlankPage | OpenUrl(url: string)

  /** `get_all_possible_value_strs`: the trigger tokens in declaration order. */
  function GetAllPossibleValueStrs(): (r: seq<string>)
    ensures |r| == 6
    ensures forall i, j :: 0 <= i < j < |r| ==> r[i] != r[j]
    ensures forall i :: 0 <= i < |r| ==> FromStr(r[i]) != Default
  {
    ["github", "mail", "gmail", "logs", "log", "dev"]
  }

  /** `from_str`: two tokens each for `Gmail` and `Logs`; any other string is `Default`. */
  function FromStr(strVal: string): (r: SpecialUrl)
    ensures r == Github <==> strVal == "github"
    ensures r == Gmail <==> strVal == "mail" || strVal == "gmail"
    ensures r == Logs <==> strVal == "logs" || strVal == "log"
    ensures r == DevServer <==> strVal == "dev"
    ensures r == Default <==> strVal !in ["github", "mail", "gmail", "logs", "log", "dev"]
  {
    match strVal
    case "github" => Github
    case "mail" | "gmail" => Gmail
    case "logs" | "log" => Logs
    case "dev" => DevServer
    case _ => Default
  }

  /** `to_url_string`: the canonical destination of each alias. */
  function ToUrlString(v: SpecialUrl): (r: string)
    ensures |r| > UrlInput.MinHttpPrefixSize
    ensures UrlInput.HttpsPrefixStart <= r <==> !v.DevServer?
    ensures v.DevServer? ==> "localhost:" <= r
  {
    match v
    case Github => "https://github.com/astherath"
    case Gmail => "https://gmail.com"
    case Logs =>
      var host := "https://dashboard.heroku.com";
      assert host[..7] == UrlInput.HttpsPrefixStart;
      host + "/apps/sparkdev-underline/logs"
    case DevServer =>
      var r := "localhost:8000/docs";
      assert r[0] == 'l';
      r
    case Default => "https://google.com"
  }

  /**
    Specification of `try_to_match_from_str`: the alias of the first token,
    in declaration order, that the matcher accepts for `urlStr`. No token
    names `Default`, so the search never yields it.
  */
  function MatchAlias(urlStr: string, fuzzy: Matcher): (r: Option<SpecialUrl>)
    ensures r.None? <==> NoneBefore(GetAllPossibleValueStrs(), urlStr, fuzzy, 6)
    ensures r.Some? ==> exists k :: (0 <= k < 6
      && fuzzy(GetAllPossibleValueStrs()[k], urlStr)
      && NoneBefore(GetAllPossibleValueStrs(), urlStr, fuzzy, k)
      && r.value == FromStr(GetAllPossibleValueStrs()[k]))
    ensures r != Some(Default)
  {
    var tokens := GetAllPossibleValueStrs();
    match FirstMatch(tokens, urlStr, fuzzy)
    case None => None
    case Some(k) => Some(FromStr(tokens[k]))
  }

  /** `try_to_match_from_str`: the loop over the tokens with its early return. */
  method TryToMatchFromStr(urlStr: string, fuzzy: Matcher) returns (r: Option<SpecialUrl>)
    ensures r == MatchAlias(urlStr, fuzzy)
  {
    var possibleEnumStrings := GetAllPossibleValueStrs();
    var i := 0;
    while i < |possibleEnumStrings|
      invariant 0 <= i <= |possibleEnumStrings|
      invariant NoneBefore(possibleEnumStrings, urlStr, fuzzy, i)
    {
      if fuzzy(possibleEnumStrings[i], urlStr) {
        FirstMatchIsUnique(possibleEnumStrings, urlStr, fuzzy, i);
        return Some(FromStr(possibleEnumStrings[i]));
      }
      i := i + 1;
    }
    return None;
  }

  /** `get_url_from_raw_match`: no argument, an alias, or a literal. */
  function GetUrlFromRawMatch(rawCliMatch: Option<string>, fuzzy: Matcher): (r: UrlInputType)
    ensures r.Blank? <==> rawCliMatch.None?
    ensures r.Regular? ==> (rawCliMatch == Some(r.urlStr)
      && NoneBefore(GetAllPossibleValueStrs(), r.urlStr, fuzzy, |GetAllPossibleValueStrs()|))
    ensures r.Special? ==> rawCliMatch.Some? && MatchAlias(rawCliMatch.value, fuzzy) == Some(r.specialUrl)
    ensures r != Special(Default)
  {
    match rawCliMatch
    case Some(urlStr) =>
      (match MatchAlias(urlStr, fuzzy)
       case Some(specialUrl) => Special(specialUrl)
       case None => Regular(urlStr))
    case None => Blank
  }

  /**
    `validate_and_fix_url_string` of this iteration: inputs of at most 7
    UTF-8 bytes, and longer ones whose first 7 characters are neither
    `http://` nor `https:/`, get `http://`; the rest pass through.
  */
  function ValidateAndFixUrlString(urlStr: string): (r: string)
    ensures UrlInput.HasSchemePrefix(r)
    ensures r == urlStr || r == UrlInput.HttpPrefix + urlStr
    ensures r == urlStr ==> ByteLen(urlStr) > UrlInput.MinHttpPrefixSize
  {
    if ByteLen(urlStr) <= UrlInput.MinHttpPrefixSize then
      UrlInput.AddHttpPrefixToUrl(urlStr)
    else
      var prefixSubstring := TakeChars(urlStr, UrlInput.MinHttpPrefixSize);
      if prefixSubstring == UrlInput.HttpPrefix || prefixSubstring == UrlInput.HttpsPrefixStart then
        urlStr
      else
        UrlInput.AddHttpPrefixToUrl(urlStr)
  }

  /**
    `open_browser_to_url` with `open_browser_to_url_string`: a blank window
    for `Blank`; otherwise the literal, or the alias's destination, goes
    through the normaliser.
  */
  function OpenBrowserToUrl(url: UrlInputType): (r: Launch)
    ensures r.BlankPage? <==> url.Blank?
    ensures r.OpenUrl? ==> UrlInput.HasSchemePrefix(r.url)
    ensures url.Regular? ==> r.url == ValidateAndFixUrlString(url.urlStr)
    ensures url.Special? ==> r.url == ValidateAndFixUrlString(ToUrlString(url.specialUrl))
  {
    match url
    case Regular(urlString) => OpenUrl(ValidateAndFixUrlString(urlString))
    case Special(specialUrl) => OpenUrl(ValidateAndFixUrlString(ToUrlString(specialUrl)))
    case Blank => BlankPage
  }

  /**
    The outcome stated in characters only: a string of more than 7
    characters that starts with `http://` or `https:/` passes through, every
    other string gets `http://`. Measuring in UTF-8 bytes instead changes
    nothing, because the two accepted prefixes are 7 bytes long.
  */
  lemma {:induction false} ValidateAndFixByCharacters(s: string)
    ensures ValidateAndFixUrlString(s)
         == if |s| > UrlInput.MinHttpPrefixSize && UrlInput.HasSchemePrefix(s) then s
            else UrlInput.HttpPrefix + s
  {
    assert ByteLen(UrlInput.HttpPrefix) == 7 && ByteLen(UrlInput.HttpsPrefixStart) == 7;
    if |s| >= UrlInput.MinHttpPrefixSize {
      assert TakeChars(s, UrlInput.MinHttpPrefixSize) == s[..UrlInput.MinHttpPrefixSize];
    }
  }

  /** The length test comes first, so the bare scheme `http://` gets a second one. */
  lemma BareSchemeIsDoubled()
    ensures ValidateAndFixUrlString("http://") == "http://http://"
  {
    assert ByteLen(UrlInput.HttpPrefix) == 7;
  }

  /**
    Normalising twice gives what normalising once gives, for every input but
    the empty one: `""` becomes `http://`, which is short and gets a second
    `http://`.
  */
  lemma {:induction false} ValidateAndFixIdempotentIffNonEmpty(s: string)
    ensures ValidateAndFixUrlString(ValidateAndFixUrlString(s)) == ValidateAndFixUrlString(s)
        <==> s != ""
  {
    var r := ValidateAndFixUrlString(s);
    ValidateAndFixByCharacters(s);
    ValidateAndFixByCharacters(r);
    if s == "" {
      assert r == UrlInput.HttpPrefix;
    } else {
      assert |r| > UrlInput.MinHttpPrefixSize;
    }
  }

  /**
    Where each alias ends up: the destinations with a scheme are opened as
    they are, and the `dev` destination `localhost:8000/docs` is given
    `http://`.
  */
  lemma {:induction false} SpecialUrlLaunch(v: SpecialUrl)
    ensures OpenBrowserToUrl(Special(v))
         == OpenUrl(if v.DevServer? then UrlInput.HttpPrefix + ToUrlString(v) else ToUrlString(v))
  {
    ValidateAndFixByCharacters(ToUrlString(v));
  }

  /**
    A token the matcher accepts for itself, with no earlier token accepting
    it, resolves to its own alias and opens that alias's destination.
  */
  lemma {:induction false} TokenOpensItsDestination(k: nat, fuzzy: Matcher)
    requires k < |GetAllPossibleValueStrs()|
    requires fuzzy(GetAllPossibleValueStrs()[k], GetAllPossibleValueStrs()[k])
    requires NoneBefore(GetAllPossibleValueStrs(), GetAllPossibleValueStrs()[k], fuzzy, k)
    ensures GetUrlFromRawMatch(Some(GetAllPossibleValueStrs()[k]), fuzzy)
         == Special(FromStr(GetAllPossibleValueStrs()[k]))
    ensures OpenBrowserToUrl(GetUrlFromRawMatch(Some(GetAllPossibleValueStrs()[k]), fuzzy))
         == OpenUrl(ValidateAndFixUrlString(ToUrlString(FromStr(GetAllPossibleValueStrs()[k]))))
  {
    FirstMatchIsUnique(GetAllPossibleValueStrs(), GetAllPossibleValueStrs()[k], fuzzy, k);
  }
}
