/**
  The URL normaliser of the current iteration (src/url_handler/url_input.rs):
  a first-match-wins chain of rules that turns the raw input into the string
  handed to the launcher.

    1. input starting with `yt +`           -> YouTube search for the rest
    2. input with a space, or with no `.`   -> Google search for the input
    3. input of at most 7 UTF-8 bytes       -> `http://` + input
    4. first 7 characters `http://`/`https:/` -> input unchanged
    5. anything else                        -> `http://` + input
*/
module UrlInput {
  import opened Text
  import UrlMacroHandler

  /** `UrlInputType`: what the classifier makes of the optional argument. */
  datatype UrlInputType =
    | Regular(urlStr: string)
    | Blank
    | Special(specialUrl: UrlMacroHandler.SpecialUrl)

  const YtShorthand: string := "yt +"
  const GoogleSearchBase: string := "https://www.google.com/search?q="
  const YtSearchBase: string := "https://www.youtube.com/results?search_query="
  const HttpPrefix: string := "http://"
  const HttpsPrefixStart: string := "https:/"
  const MinHttpPrefixSize: nat := 7

  /** The input already starts with one of the two accepted 7-character prefixes. */
  predicate HasSchemePrefix(s: string)
  {
    HttpPrefix <= s || HttpsPrefixStart <= s
  }

  /** The shape of every string the normaliser produces. */
  predicate IsNormalUrl(s: string)
  {
    && ' ' !in s
    && '.' in s
    && |s| > MinHttpPrefixSize
    && HasSchemePrefix(s)
  }

  /** `s` is `base` followed by `term` with every space turned into `+`. */
  predicate IsQueryFor(s: string, base: string, term: string)
  {
    && |s| == |base| + |term|
    && s[..|base|] == base
    && forall i :: 0 <= i < |term| ==> s[|base| + i] == (if term[i] == ' ' then '+' else term[i])
  }

  /** `turn_to_search_url`: a Google search for the whole term. */
  function TurnToSearchUrl(searchTerm: string): (r: string)
    ensures IsQueryFor(r, GoogleSearchBase, searchTerm)
    ensures IsNormalUrl(r)
  {
    var fmtSearchTerm := ReplaceSpaces(searchTerm);
    var r := GoogleSearchBase + fmtSearchTerm;
    assert r[..|GoogleSearchBase|] == GoogleSearchBase;
    assert ' ' !in GoogleSearchBase;
    assert r[11] == '.';
    r
  }

  /** `turn_to_yt_search_url`: a YouTube search for the term minus its first four characters. */
  function TurnToYtSearchUrl(searchTerm: string): (r: string)
    ensures IsQueryFor(r, YtSearchBase, SkipChars(searchTerm, 4))
    ensures IsNormalUrl(r)
  {
    var fmtSearchTerm := ReplaceSpaces(SkipChars(searchTerm, 4));
    var r := YtSearchBase + fmtSearchTerm;
    assert r[..|YtSearchBase|] == YtSearchBase;
    assert ' ' !in YtSearchBase;
    assert r[19] == '.';
    r
  }

  /** `add_http_prefix_to_url`. */
  function AddHttpPrefixToUrl(urlStr: string): (r: string)
    ensures HttpPrefix <= r && r[|HttpPrefix|..] == urlStr
  {
    HttpPrefix + urlStr
  }

  /** `validate_and_fix_url_string`: the rule chain, in the source's order. */
  function ValidateAndFixUrlString(urlStr: string): (r: string)
    ensures IsNormalUrl(r)
  {
    if YtShorthand <= urlStr then
      TurnToYtSearchUrl(urlStr)
    else if ' ' in urlStr || '.' !in urlStr then
      TurnToSearchUrl(urlStr)
    else if ByteLen(urlStr) <= MinHttpPrefixSize then
      AddHttpPrefixToUrl(urlStr)
    else
      var prefixSubstring := TakeChars(urlStr, MinHttpPrefixSize);
      if prefixSubstring == HttpPrefix || prefixSubstring == HttpsPrefixStart then
        urlStr
      else
        AddHttpPrefixToUrl(urlStr)
  }

  /** Rule 1: `yt +` input becomes a YouTube search for the rest, spaces as `+`. */
  lemma YtShortcutSearchesYouTube(s: string)
    requires YtShorthand <= s
    ensures IsQueryFor(ValidateAndFixUrlString(s), YtSearchBase, s[|YtShorthand|..])
  {
  }

  /** Rule 2: a phrase (a space, or no dot at all) becomes a Google search for itself. */
  lemma PhraseSearchesGoogle(s: string)
    requires !(YtShorthand <= s)
    requires ' ' in s || '.' !in s
    ensures IsQueryFor(ValidateAndFixUrlString(s), GoogleSearchBase, s)
  {
  }

  /**
    Rule 3 tests the UTF-8 byte length, rule 4 the first 7 characters. Whichever
    measure calls a dotted input "short", that input cannot carry an accepted
    prefix, so rule 3 and rule 5 agree on it and the choice of measure is moot.
  */
  lemma {:induction false} ShortInputHasNoScheme(s: string)
    requires '.' in s
    requires ByteLen(s) <= MinHttpPrefixSize || |s| <= MinHttpPrefixSize
    ensures !HasSchemePrefix(s)
  {
  }

  /**
    Rules 3 to 5 together: a dotted input without spaces is returned as it is
    when it already starts with `http://` or `https:/`, and gets `http://`
    otherwise; no length, in bytes or in characters, is involved.
  */
  lemma {:induction false} DottedInputGetsScheme(s: string)
    requires !(YtShorthand <= s)
    requires ' ' !in s && '.' in s
    ensures ValidateAndFixUrlString(s) == if HasSchemePrefix(s) then s else HttpPrefix + s
  {
    if ByteLen(s) <= MinHttpPrefixSize || |s| <= MinHttpPrefixSize {
      ShortInputHasNoScheme(s);
    } else {
      assert TakeChars(s, MinHttpPrefixSize) == s[..MinHttpPrefixSize];
    }
  }

  /** A string with a scheme prefix is never taken for the YouTube shortcut. */
  lemma SchemeIsNotYtShorthand(s: string)
    requires HasSchemePrefix(s)
    ensures !(YtShorthand <= s)
  {
    assert s[0] == 'h' by {
      if HttpPrefix <= s {
        assert s[0] == HttpPrefix[0];
      } else {
        assert s[0] == HttpsPrefixStart[0];
      }
    }
  }

  /** Normalising twice gives what normalising once gives. */
  lemma {:induction false} ValidateAndFixIdempotent(s: string)
    ensures ValidateAndFixUrlString(ValidateAndFixUrlString(s)) == ValidateAndFixUrlString(s)
  {
    var r := ValidateAndFixUrlString(s);
    SchemeIsNotYtShorthand(r);
    DottedInputGetsScheme(r);
  }

  /** The normal form is exactly the set of fixed points of the normaliser. */
  lemma {:induction false} NormalUrlIsFixedPoint(s: string)
    ensures ValidateAndFixUrlString(s) == s <==> IsNormalUrl(s)
  {
    if IsNormalUrl(s) {
      SchemeIsNotYtShorthand(s);
      DottedInputGetsScheme(s);
    }
  }

  /**
    A URL with a scheme but without a dot (a local server) is not passed
    through: it is searched for on Google like a phrase.
  */
  lemma LocalServerUrlIsSearched()
    ensures ValidateAndFixUrlString("http://localhost:3000")
         == GoogleSearchBase + "http://localhost:3000"
  {
    var s := "http://localhost:3000";
    assert s[0] == 'h';
    assert '.' !in s;
    ReplaceSpacesWithoutSpace(s);
  }

  /** `foo bar` becomes a Google search for `foo+bar`. */
  lemma {:induction false} PhraseExample(s: string)
    requires s == "foo bar"
    ensures ValidateAndFixUrlString(s) == GoogleSearchBase + "foo+bar"
  {
    assert ValidateAndFixUrlString(s) == GoogleSearchBase + ReplaceSpaces(s) by {
      assert s[0] == 'f' && s[3] == ' ';
    }
    var q := ReplaceSpaces(s);
    assert q[0] == 'f' && q[1] == 'o' && q[2] == 'o' && q[3] == '+';
    assert q[4] == 'b' && q[5] == 'a' && q[6] == 'r';
  }

  /**
    `yt + lofi beats` becomes a YouTube search. Only the four characters
    `yt +` are dropped, so the space after them survives as a leading `+`.
  */
  lemma {:induction false} YtPhraseExample(s: string)
    requires s == "yt + lofi beats"
    ensures ValidateAndFixUrlString(s) == YtSearchBase + "+lofi+beats"
  {
    var rest := SkipChars(s, 4);
    assert rest == " lofi beats" by {
      assert |s| == 15 && rest == s[4..];
      assert rest[0] == ' ' && rest[1] == 'l' && rest[2] == 'o' && rest[3] == 'f' && rest[4] == 'i' && rest[5] == ' ';
      assert rest[6] == 'b' && rest[7] == 'e' && rest[8] == 'a' && rest[9] == 't' && rest[10] == 's';
    }
    assert ValidateAndFixUrlString(s) == YtSearchBase + ReplaceSpaces(rest) by {
      assert s[..4] == YtShorthand;
    }
    LofiBeatsQuery(rest);
  }

  /** The query part of the example above. */
  lemma LofiBeatsQuery(rest: string)
    requires rest == " lofi beats"
    ensures ReplaceSpaces(rest) == "+lofi+beats"
  {
    assert rest[0] == ' ' && rest[1] == 'l' && rest[2] == 'o' && rest[3] == 'f' && rest[4] == 'i' && rest[5] == ' ';
    assert rest[6] == 'b' && rest[7] == 'e' && rest[8] == 'a' && rest[9] == 't' && rest[10] == 's';
    var q := ReplaceSpaces(rest);
    assert q[0] == '+' && q[1] == 'l' && q[2] == 'o' && q[3] == 'f' && q[4] == 'i' && q[5] == '+';
    assert q[6] == 'b' && q[7] == 'e' && q[8] == 'a' && q[9] == 't' && q[10] == 's';
  }
}
