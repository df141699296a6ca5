# browser-cli: input classification and URL normalisation

A Dafny model of the core of `browser`, a command-line launcher that opens a
browser window at a URL, a bookmarked alias, a Google search, a YouTube
search, or a blank page. The model covers everything between the optional
command-line string and the URL string handed to `open`:

- `UrlInput` — the URL normaliser `validate_and_fix_url_string` of the
  current iteration and its helpers: a first-match-wins chain (YouTube
  shortcut `yt +`, Google search for phrases and for dot-less input,
  `http://` for short input, pass-through for `http://`/`https:/`,
  `http://` otherwise).
- `UrlMacroHandler` — the alias table `SpecialUrl`: canonical destinations,
  token → alias, the ordered token list, the `(token, url)` pairs of the
  `view` listing, and the first-match fuzzy search over the tokens (a
  method with the source's loop, proved equal to its specification).
- `UrlHandler` — the classifier `get_url_from_raw_match` and the dispatcher
  `open_browser_to_url`, which returns a `Launch` value (`BlankPage(bin)` or
  `OpenUrl(url, bin)`) instead of spawning a process.
- `Cli` — the older, self-contained iteration in `src/cli.rs`: its own alias
  table (with `gmail`, `logs`, `log`), classifier, dispatcher and a
  normaliser without search rules.
- `Text` — the `str` operations the normalisers use: `replace(" ", "+")`,
  `len()` as a UTF-8 byte count, `chars().take(n)`, `chars().skip(n)`.
- `Fuzzy` — the matcher `SkimMatcherV2::fuzzy_match(choice, pattern).is_some()`
  is foreign code. It is a parameter `fuzzy: (string, string) -> bool`, and
  nothing is assumed about it. `FirstMatch` is the "first declared token it
  accepts" search that both iterations run.

Outcomes that the model proves:
- Every URL the current normaliser produces is in normal form: no space,
  contains a dot, longer than 7 characters, and starts with `http://` or
  `https:/`.
- The normal form is exactly the set of fixed points of the normaliser, so
  the normaliser is idempotent.
- The rule that tests the UTF-8 byte length gives the same results as a
  test on the character count.
- Each alias has a known end result.
- The older normaliser is idempotent exactly on non-empty input.

Behaviour of the code worth knowing:
- `src/url_handler/url_input.rs:15` sends any input without a `.` to Google.
  This includes `http://localhost:3000` (`UrlInput.LocalServerUrlIsSearched`)
  and the `dev` and `ng` destinations `localhost:8000/docs` and
  `localhost:4200` (`UrlHandler.SpecialUrlLaunch`). Only the older
  iteration opens `localhost:8000/docs` with `http://` in front
  (`Cli.SpecialUrlLaunch`).
- The YouTube shortcut drops exactly the four characters `yt +`
  (`src/url_handler/url_input.rs:39`), so the space that follows them is
  kept: `yt + lofi beats` searches for `+lofi+beats`
  (`UrlInput.YtPhraseExample`).
- Prefix and length tests are not all character-based. Rust's `len()`
  counts UTF-8 bytes, and `chars().take(7)` counts characters.
  `UrlInput.DottedInputGetsScheme` and `Cli.ValidateAndFixByCharacters`
  show that the difference never changes an output.

## Model

| member | source | states |
|---|---|---|
| Text.ReplaceSpaces | src/url_handler/url_input.rs:34 | `replace(" ", "+")` keeps the length, turns each space into `+` and leaves every other character where it was; the result has no space |
| Text.ReplaceSpacesWithoutSpace | src/url_handler/url_input.rs:34 | a string without spaces is unchanged by the replacement |
| Text.Utf8Width | src/url_handler/url_input.rs:20 | a scalar value takes 1 to 4 UTF-8 bytes, and exactly 1 when it is ASCII |
| Text.ByteLen | src/url_handler/url_input.rs:20 | `len()` lies between the character count and four times it, and equals the character count exactly when every character is ASCII |
| Text.TakeChars | src/url_handler/url_input.rs:25 | `chars().take(n)` is a prefix of the input of length `min(n, \|s\|)` |
| Text.SkipChars | src/url_handler/url_input.rs:39 | `chars().skip(n)` is what follows `chars().take(n)`, empty when the input is no longer than `n` |
| Fuzzy.FirstMatch | src/url_handler/url_macro_handler/url_macro_handler.rs:25-35 | the result is the position of a token the matcher accepts with no earlier token accepting, or none exactly when no token accepts |
| Fuzzy.FirstMatchIsUnique | src/url_handler/url_macro_handler/url_macro_handler.rs:25-35 | an accepted position with no accepted position before it is the search's result |
| UrlInput.TurnToSearchUrl | src/url_handler/url_input.rs:33-36 | the Google search URL is the Google base followed by the term with spaces as `+`, character by character, and is in normal form |
| UrlInput.TurnToYtSearchUrl | src/url_handler/url_input.rs:38-41 | the YouTube URL is the YouTube base followed by the term minus its first 4 characters with spaces as `+`, and is in normal form |
| UrlInput.AddHttpPrefixToUrl | src/url_handler/url_input.rs:44-46 | the result starts with `http://` and what follows is the input |
| UrlInput.ValidateAndFixUrlString | src/url_handler/url_input.rs:9-31 | every output has no space, contains `.`, is longer than 7 and starts with `http://` or `https:/` |
| UrlInput.YtShortcutSearchesYouTube | src/url_handler/url_input.rs:11-12 | input starting with `yt +` yields the YouTube search for the input minus its first 4 characters, spaces as `+` |
| UrlInput.PhraseSearchesGoogle | src/url_handler/url_input.rs:15-16 | otherwise input with a space or without `.` (the empty input included) yields the Google search for the input, spaces as `+` |
| UrlInput.ShortInputHasNoScheme | src/url_handler/url_input.rs:19-29 | a dotted input that is at most 7 long in bytes or in characters cannot start with `http://` or `https:/` |
| UrlInput.DottedInputGetsScheme | src/url_handler/url_input.rs:19-29 | otherwise (no space, a dot) the input comes back unchanged when it starts with `http://` or `https:/` and with `http://` in front when not; neither length measure plays a part |
| UrlInput.ValidateAndFixIdempotent | src/url_handler/url_input.rs:9-31 | normalising twice equals normalising once |
| UrlInput.NormalUrlIsFixedPoint | src/url_handler/url_input.rs:9-31 | the normaliser leaves a string unchanged exactly when it is in normal form |
| UrlInput.LocalServerUrlIsSearched | src/url_handler/url_input.rs:15-16 | `http://localhost:3000` is not passed through but searched for on Google |
| UrlInput.PhraseExample | src/url_handler/url_input.rs:33-36 | `foo bar` yields the Google search for `foo+bar` |
| UrlInput.YtPhraseExample | src/url_handler/url_input.rs:38-41 | `yt + lofi beats` yields the YouTube search for `+lofi+beats` |
| UrlMacroHandler.ToUrlString | src/url_handler/url_macro_handler/url_macro_handler.rs:13-23 | exactly the aliases other than DevServer and Ng have an `https://` destination with a dot; DevServer and Ng point at `localhost:`; no destination has a space |
| UrlMacroHandler.ToUrlStringInjective | src/url_handler/url_macro_handler/url_macro_handler.rs:13-23 | distinct aliases have distinct destinations |
| UrlMacroHandler.FromStr | src/url_handler/url_macro_handler/url_macro_handler.rs:37-47 | `github`, `mail`, `dev`, `ng`, `yt` are the only strings giving Github, Gmail, DevServer, Ng, Yt; every other string, `new` included, gives Default |
| UrlMacroHandler.GetAllPossibleValueStrs | src/url_handler/url_macro_handler/url_macro_handler.rs:49-57 | six tokens, none repeated, and no two naming the same alias |
| UrlMacroHandler.EveryAliasHasAToken | src/url_handler/url_macro_handler/url_macro_handler.rs:37-57 | every alias is named by some declared token |
| UrlMacroHandler.GetShorthandUrlPairs | src/url_handler/url_macro_handler/url_macro_handler.rs:59-65 | one pair per token in declared order; pair i is token i with the destination of its alias |
| UrlMacroHandler.ShorthandUrlPairsDistinct | src/url_handler/url_macro_handler/url_macro_handler.rs:59-65 | no two rows of the listing share a token or a destination |
| UrlMacroHandler.MatchAlias | src/url_handler/url_macro_handler/url_macro_handler.rs:25-35 | none exactly when the matcher accepts no token; otherwise the alias of a token the matcher accepts with none before it accepted |
| UrlMacroHandler.TryToMatchFromStr | src/url_handler/url_macro_handler/url_macro_handler.rs:25-35 | the loop with early return computes exactly the first-match search |
| UrlMacroHandler.TokenResolvesToItsAlias | src/url_handler/url_macro_handler/url_macro_handler.rs:25-35 | a token the matcher accepts for itself, with no earlier token accepting it, resolves to its own alias |
| UrlHandler.GetUrlFromRawMatch | src/url_handler/mod.rs:11-19 | Blank exactly for an absent argument; Regular only for the unchanged argument when no token accepts it; Special only with the alias the search finds |
| UrlHandler.OpenBrowserToUrl | src/url_handler/mod.rs:21-36 | the selector is passed through; a blank launch exactly for Blank; a URL launch is in normal form and is the normalised literal or the normalised alias destination |
| UrlHandler.SpecialUrlLaunch | src/url_handler/mod.rs:27-29 | Github, Gmail, Yt and Default open their destination unchanged; DevServer and Ng open the Google search for their `localhost:` destination |
| UrlHandler.Run | src/url_handler/mod.rs:11-36 | the caller's composition of classification and dispatch: the selector is passed through, a blank launch exactly when the argument is absent, and every URL launch is in normal form |
| UrlHandler.RunWithoutArgument | src/url_handler/mod.rs:17-19 | no argument launches a blank page with the given selector |
| UrlHandler.RunWithArgument | src/url_handler/mod.rs:11-36 | an argument launches its normalised self when no token accepts it, and otherwise the normalised destination of the alias found |
| UrlHandler.GithubTokenOpensProfile | src/url_handler/mod.rs:13-29 | when the matcher accepts `github` for itself, `github` opens `https://github.com/astherath` |
| UrlHandler.PhraseOpensGoogleSearch | src/url_handler/mod.rs:13-25 | `foo bar`, when no token accepts it, opens the Google search for `foo+bar` |
| UrlHandler.YtPhraseOpensYouTubeSearch | src/url_handler/mod.rs:13-25 | `yt + lofi beats`, when no token accepts it, opens the YouTube search for `+lofi+beats` |
| Cli.GetAllPossibleValueStrs | src/cli.rs:39-44 | six distinct tokens, none of which names Default |
| Cli.FromStr | src/cli.rs:58-66 | `github` gives Github, `mail`/`gmail` give Gmail, `logs`/`log` give Logs, `dev` gives DevServer, and only these strings give those aliases; everything else gives Default |
| Cli.ToUrlString | src/cli.rs:68-77 | every destination is longer than 7; exactly the destinations other than DevServer's start with `https:/`; DevServer's is `localhost:…` |
| Cli.MatchAlias | src/cli.rs:46-56 | none exactly when no token accepts; otherwise the alias of the first accepting token, which is never Default |
| Cli.TryToMatchFromStr | src/cli.rs:46-56 | the loop with early return computes exactly the first-match search |
| Cli.GetUrlFromRawMatch | src/cli.rs:86-95 | Blank exactly for an absent argument; Regular only for the unchanged argument no token accepts; Special with the alias found, never Default |
| Cli.ValidateAndFixUrlString | src/cli.rs:124-141 | the output starts with `http://` or `https:/`, is the input or `http://` + input, and is the input only when it is longer than 7 bytes |
| Cli.OpenBrowserToUrl | src/cli.rs:97-122 | blank launch exactly for Blank; otherwise the normalised literal or normalised alias destination, with an accepted prefix |
| Cli.ValidateAndFixByCharacters | src/cli.rs:124-137 | stated in characters only: input longer than 7 starting with `http://`/`https:/` is unchanged, all other input gets `http://` |
| Cli.BareSchemeIsDoubled | src/cli.rs:124-130 | `http://` becomes `http://http://`, because the length test comes first |
| Cli.ValidateAndFixIdempotentIffNonEmpty | src/cli.rs:124-141 | normalising twice equals normalising once exactly for non-empty input (`""` → `http://` → `http://http://`) |
| Cli.SpecialUrlLaunch | src/cli.rs:97-111 | every alias opens its destination unchanged except DevServer, which opens `http://localhost:8000/docs` |
| Cli.TokenOpensItsDestination | src/cli.rs:86-111 | a token the matcher accepts for itself, with no earlier token accepting it, classifies as its own alias and launches that alias's normalised destination |

## Left out

- The fuzzy matcher's internals (`SkimMatcherV2` scoring, case handling). It is a foreign crate, so it is a parameter of the model. No outcome that depends on its scoring, such as the typo `gmial` reaching Gmail, is stated.
- Process spawning, the `BROWSER_BIN_PATH` environment lookup, OS detection and the browser-path table. This covers `src/url_handler/browser_command_handler.rs`, which is not part of this model. In `src/cli.rs` it covers `open_browser_to_blank_page`, `run_open_browser_command_with_args` and `get_path_of_browser_executable` (lines 143-170). `open_browser_to_url` returns the `Launch` that would be spawned instead. Its `io::Result` error path is launcher I/O and is not modelled.
- The clap wiring of `src/cli.rs` (`get_matches_and_run_command`, lines 8-28), the `view` subcommand's printing and the `bin-name` argument parsing. These are argument parsing and output formatting outside the core; the `view` rows themselves are `GetShorthandUrlPairs`.
- `get_all_possible_value_strs_array` (url_macro_handler.rs:55-57) and the `Vec` built from it (49-54) hold the same six tokens, so both are modelled by one function.
- `Cli` uses `UrlInput.AddHttpPrefixToUrl` and the prefix constants, because `src/cli.rs:139-141` is the same code as `src/url_handler/url_input.rs:44-46`.
