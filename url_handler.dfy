/**
  The classifier and dispatcher of the current iteration
  (src/url_handler/mod.rs). The launch itself is a side effect in the source;
  here it is the returned `Launch` value that says what would be opened with
  which browser selector.
*/
module UrlHandler {
  import opened Wrappers
  import opened Fuzzy
  import opened Text
  import opened UrlInput
  import opened UrlMacroHandler

  /** What `open_browser_to_url` asks the launcher to do. */
  datatype Launch =
    | BlankPage(bin: Option<string>)
    | OpenUrl(url: string, bin: Option<string>)

  /** `get_url_from_raw_match`: no argument, an alias, or a literal. */
  function GetUrlFromRawMatch(rawCliMatch: Option<string>, fuzzy: Matcher): (r: UrlInputType)
    ensures r.Blank? <==> rawCliMatch.None?
    ensures r.Regular? ==> (rawCliMatch == Some(r.urlStr)
      && NoneBefore(GetAllPossibleValueStrs(), r.urlStr, fuzzy, |GetAllPossibleValueStrs()|))
    ensures r.Special? ==> rawCliMatch.Some? && MatchAlias(rawCliMatch.value, fuzzy) == Some(r.specialUrl)
  {
    match rawCliMatch
    case Some(urlStr) =>
      (match MatchAlias(urlStr, fuzzy)
       case Some(specialUrl) => Special(specialUrl)
       case None => Regular(urlStr))
    case None => Blank
  }

  /**
    `open_browser_to_url`: a blank window for `Blank`; otherwise the literal,
    or the alias's destination, goes through the normaliser. The selector is
    handed on unchanged.
  */
  function OpenBrowserToUrl(url: UrlInputType, binToUse: Option<string>): (r: Launch)
    ensures r.bin == binToUse
    ensures r.BlankPage? <==> url.Blank?
    ensures r.OpenUrl? ==> IsNormalUrl(r.url)
    ensures url.Regular? ==> r.url == ValidateAndFixUrlString(url.urlStr)
    ensures url.Special? ==> r.url == ValidateAndFixUrlString(ToUrlString(url.specialUrl))
  {
    match url
    case Regular(rawUrlString) => OpenUrl(ValidateAndFixUrlString(rawUrlString), binToUse)
    case Special(specialUrl) => OpenUrl(ValidateAndFixUrlString(ToUrlString(specialUrl)), binToUse)
    case Blank => BlankPage(binToUse)
  }

  /**
    The whole pipeline as its caller runs it: classify the optional
    argument, then dispatch it.
  */
  function Run(rawCliMatch: Option<string>, binToUse: Option<string>, fuzzy: Matcher): (r: Launch)
    ensures r.bin == binToUse
    ensures r.BlankPage? <==> rawCliMatch.None?
    ensures r.OpenUrl? ==> IsNormalUrl(r.url)
  {
    OpenBrowserToUrl(GetUrlFromRawMatch(rawCliMatch, fuzzy), binToUse)
  }

  /**
    Where each alias ends up: a destination with a scheme is opened as it
    is; the two `localhost:` destinations have no dot and are searched for
    on Google instead.
  */
  lemma {:induction false} SpecialUrlLaunch(v: SpecialUrl, binToUse: Option<string>)
    ensures OpenBrowserToUrl(Special(v), binToUse) == OpenUrl(
      if v.DevServer? || v.Ng? then GoogleSearchBase + ToUrlString(v) else ToUrlString(v),
      binToUse)
  {
    var canonical := ToUrlString(v);
    if v.DevServer? || v.Ng? {
      assert canonical[0] == 'l';
      assert !(YtShorthand <= canonical);
      ReplaceSpacesWithoutSpace(canonical);
    } else {
      assert canonical[0] == 'h';
      assert canonical[..7] == HttpsPrefixStart;
      DottedInputGetsScheme(canonical);
    }
  }

  /** With no argument the pipeline opens a blank window, whatever the selector. */
  lemma RunWithoutArgument(binToUse: Option<string>, fuzzy: Matcher)
    ensures Run(None, binToUse, fuzzy) == BlankPage(binToUse)
  {
  }

  /**
    With an argument the pipeline opens the normalised argument when no
    token accepts it, and the normalised destination of the first accepting
    token otherwise.
  */
  lemma {:induction false} RunWithArgument(s: string, binToUse: Option<string>, fuzzy: Matcher)
    ensures Run(Some(s), binToUse, fuzzy) == OpenUrl(
      if NoneBefore(GetAllPossibleValueStrs(), s, fuzzy, 6) then ValidateAndFixUrlString(s)
      else ValidateAndFixUrlString(ToUrlString(MatchAlias(s, fuzzy).value)),
      binToUse)
  {
  }

  /**
    An alias token that the matcher accepts for itself, with no earlier
    token accepting it, opens its own destination: `github` opens the
    GitHub profile.
  */
  lemma {:induction false} GithubTokenOpensProfile(binToUse: Option<string>, fuzzy: Matcher)
    requires fuzzy("github", "github")
    ensures Run(Some("github"), binToUse, fuzzy) == OpenUrl("https://github.com/astherath", binToUse)
  {
    TokenResolvesToItsAlias(0, fuzzy);
    assert GetUrlFromRawMatch(Some("github"), fuzzy) == Special(Github);
    SpecialUrlLaunch(Github, binToUse);
  }

  /** A phrase no token accepts is searched for on Google, spaces as `+`. */
  lemma {:induction false} PhraseOpensGoogleSearch(s: string, binToUse: Option<string>, fuzzy: Matcher)
    requires s == "foo bar"
    requires NoneBefore(GetAllPossibleValueStrs(), s, fuzzy, 6)
    ensures Run(Some(s), binToUse, fuzzy) == OpenUrl(GoogleSearchBase + "foo+bar", binToUse)
  {
    assert GetUrlFromRawMatch(Some(s), fuzzy) == Regular(s);
    PhraseExample(s);
  }

  /**
    A `yt +` phrase no token accepts is searched for on YouTube. Only the
    four characters `yt +` are dropped, so the space after them survives as
    a leading `+` in the query.
  */
  lemma {:induction false} YtPhraseOpensYouTubeSearch(s: string, binToUse: Option<string>, fuzzy: Matcher)
    requires s == "yt + lofi beats"
    requires NoneBefore(GetAllPossibleValueStrs(), s, fuzzy, 6)
    ensures Run(Some(s), binToUse, fuzzy) == OpenUrl(YtSearchBase + "+lofi+beats", binToUse)
  {
    assert GetUrlFromRawMatch(Some(s), fuzzy) == Regular(s);
    YtPhraseExample(s);
  }
}
