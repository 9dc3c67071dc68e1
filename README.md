# x-cli-common in Dafny

A model of `lib/x-cli-common.mjs`, the library behind the `x-post` and
`x-delete` command-line tools for the X (Twitter) API, with proofs of the
rules the library follows. It has two parts.

- **Argument parsers.** `parsePostArgs` and `parseDeleteArgs` scan the
  command-line tokens from left to right.
  - A `parseOptions` flag starts on. The first `--` switches it off.
  - `--help`/`-h` returns at once.
  - `--config`/`-c`, `--reply-to`/`-r`, `--quote` and `--quote-url` take
    the next token as their value (`parseOptionValue`).
  - Any other dash token is an unknown option.
  - `x-post` joins its remaining tokens into the tweet text. `x-delete`
    takes them as tweet IDs.
  - Both helpers, `normalizeTweetId` and `extractTweetIdFromUrl`, are
    modelled.
- **Credential resolver.** `loadCredentials` first looks at the four
  credential environment variables.
  - If any of them has a value, the environment is the only source.
  - Otherwise it builds the ordered, de-duplicated list of candidate
    configuration files (`buildConfigPaths`). The first file that exists
    decides the outcome.
  - `getCredentialHelpText` renders the setup instructions and the paths
    that were searched.

Each parser has three parts:
- a function for one step of its loop (`PostStep`, `DeleteStep`) over the
  loop's variables: the `parseOptions` flag, the `parsed` object and, for
  posts, `textParts`;
- a recursive function for the rest of the scan (`PostLoop`, `DeleteLoop`);
- the checks after the loop (`PostFinish`, `DeleteFinish`).

`PostSpec` and `DeleteSpec` combine these three parts. The source's loops
are the methods `ParsePostArgs` and `ParseDeleteArgs`. Like the source, they
advance the index by hand, flip the flag, push to the lists and return
early, and each is proved equal to its specification function.
`BuildConfigPaths` and `LoadCredentials`/`WalkConfigPaths` are methods
proved equal to the functions `Dedup(Candidates(..))`, `Resolve` and
`ResolveFiles`.

The model passes its inputs explicitly:
- the environment is a `map<string, string>`;
- the file system is a `map<string, string>` from path to contents, where a
  path that is a key exists;
- `JSON.parse` is a function parameter that returns either a thrown error's
  message or the parsed fields;
- `path.join(a, b)` is `a + "/" + b`.

String operations follow the JavaScript definitions:
- `trim` removes the ECMAScript white-space and line-terminator characters;
- `\d` is an ASCII digit.

`LoadCredentials` also returns the list of existence checks it made. This
list is how the model states that the file functions are not called when
environment credentials are present.

The model follows the code in three places where a reader might expect
otherwise:
- Partial environment credentials report `source` `'env'`. The
  environment is still the source, and the error lists the missing keys
  (lib/x-cli-common.mjs:228-236).
- A help result is `{ ...parsed, help: true }`. It keeps the configuration
  path, targets and IDs already parsed before the help token
  (lib/x-cli-common.mjs:67-69, 161-163).
- A credential field read from a file may be any truthy JSON value, not
  only a string (lib/x-cli-common.mjs:17-19, 270-277).

## Model

| member | source | states |
|---|---|---|
| Text.Trim | lib/x-cli-common.mjs:35 | `trim()` removes only leading and trailing white space: the result is a slice of the input with white space on both sides removed, it is empty exactly when the input is all white space, and otherwise neither starts nor ends with white space |
| Text.TrimUnchanged | lib/x-cli-common.mjs:35 | a string that neither starts nor ends with white space is its own trim |
| Text.TrimIdempotent | lib/x-cli-common.mjs:132 | trimming twice is trimming once, so the text `parsePostArgs` returns is already trimmed |
| Text.JoinWith | lib/x-cli-common.mjs:132 | `join`: no parts give the empty string, one part is itself, and more open with the first part followed by the separator; `SplitJoinRoundTrip` is its inverse |
| Text.JoinWithConcat | lib/x-cli-common.mjs:305 | joining two non-empty lists is joining each and putting the separator between them |
| Text.SplitJoinRoundTrip | lib/x-cli-common.mjs:305 | lines without line breaks, joined with `\n`, split back into exactly those lines |
| TweetIds.NormalizeTweetId | lib/x-cli-common.mjs:33-38 | the result is the trimmed value exactly when the trimmed value is non-empty and all decimal digits, and none otherwise |
| TweetIds.NormalizeIdempotent | lib/x-cli-common.mjs:33-38 | a normalized ID normalizes to itself |
| TweetIds.NormalizeRejectsDash | lib/x-cli-common.mjs:33-38 | a value starting with `-` is never a tweet ID |
| TweetIds.NormalizeRejectsNonDigit | lib/x-cli-common.mjs:36 | a value whose first character is neither white space nor a digit is rejected |
| TweetIds.NormalizeKeepsTweetId | lib/x-cli-common.mjs:33-38 | an all-digit, non-empty value is returned unchanged |
| TweetIds.FindStatusMatch | lib/x-cli-common.mjs:42 | finds the leftmost position where `/status/` followed by a digit starts, or shows there is none |
| TweetIds.LeadingDigits | lib/x-cli-common.mjs:42 | the greedy `\d+`: the longest all-digit prefix |
| TweetIds.ExtractTweetIdFromUrl | lib/x-cli-common.mjs:40-44 | a result exists exactly when some `/status/<digit>` occurs; it is the full digit run after the leftmost such occurrence, and it is a tweet ID |
| TweetIds.ExtractFromStatusUrl | lib/x-cli-common.mjs:40-44 | `<prefix>/status/<id><rest>` yields `id` when no match starts inside the prefix and `rest` does not continue the digits |
| TweetIds.LeadingDigitsOfRun | lib/x-cli-common.mjs:42 | `\d+` at the front of a digit run followed by a non-digit captures exactly that run |
| TestVectors.NormalizeAcceptsDigits | test/x-cli-common.test.mjs:12-15 | `normalizeTweetId('123456')` is `'123456'` |
| TestVectors.NormalizeRejectsExamples | test/x-cli-common.test.mjs:17-21 | `'abc123'`, `'-123'` and `''` normalize to null |
| TestVectors.ExtractRejectsNonUrl | test/x-cli-common.test.mjs:28 | `'not-a-url'` yields no tweet ID |
| ArgScan.OptionValue | lib/x-cli-common.mjs:25-31 | the value is the next token exactly when it exists, is non-empty and does not start with `-`; otherwise the error is `Missing value for <option>.` |
| PostArgs.PostStep | lib/x-cli-common.mjs:59-122 | one iteration: the index advances by 2 exactly for a live value option and by 1 otherwise; only a live `--` switches option parsing off; a non-option token is appended to the text parts; a later `--config` replaces the path; a step returns only on a live dash token other than `--`, with help set exactly for a help flag and an error otherwise, keeping the fields parsed so far; targets stay tweet IDs, and a target once set stays set. The exact result of each branch is stated by the `PostStep…` lemmas and `PostMissingValue` below |
| PostArgs.PostLoop | lib/x-cli-common.mjs:59-123 | from a pending state, an early return holds help exactly when it holds no error, and has valid targets and no text; a finished scan is still pending, has only appended to the text parts, and keeps every target set before it |
| PostArgs.PostFinish | lib/x-cli-common.mjs:125-140 | both targets set gives `Cannot use --reply-to and --quote/--quote-url together.` whatever the text; otherwise an empty joined, trimmed text gives `Missing tweet text. Use --help for examples.`; from a pending state it succeeds exactly when neither applies, and the text on success is the parts joined with single spaces and trimmed |
| PostArgs.PostFinishSound | lib/x-cli-common.mjs:125-140 | after a finished scan the result never has help set, has no text on error, and on success has at most one target and a non-empty trimmed text |
| PostArgs.PostSpec | lib/x-cli-common.mjs:46-141 | help and error exclude each other, a help or error result has empty text, a success has at most one target and a non-empty trimmed text, and targets are always tweet IDs |
| PostArgs.PostStepExtend | lib/x-cli-common.mjs:59-123 | a step that continues reads no token at or beyond the current prefix's end |
| PostArgs.PostStepTruncate | lib/x-cli-common.mjs:59-123 | a step that continues is the same step on the token list cut after the point it reaches |
| PostArgs.PostLoopExtend | lib/x-cli-common.mjs:59-123 | a scan that runs through `pre` reaches the end of `pre` in the same state whatever tokens follow |
| PostArgs.PostHelpWins | lib/x-cli-common.mjs:67-69 | once the scan reaches `--help`/`-h` with options live, the result is help with no error whatever follows, keeping the fields parsed before it |
| PostArgs.PostStepHelp | lib/x-cli-common.mjs:67-69 | a live help flag returns `parsed` with help set |
| PostArgs.PostStepSeparator | lib/x-cli-common.mjs:62-65 | a live `--` switches option parsing off and moves on one token |
| PostArgs.PostLoopHelpReached | lib/x-cli-common.mjs:67-69 | a help result of a scan comes from a help flag that the scan reached with options live |
| PostArgs.PostHelpOnlyFromFlag | lib/x-cli-common.mjs:67-69 | `parsePostArgs` returns help only when some help token is reached with options live |
| PostArgs.PostTextRun | lib/x-cli-common.mjs:118-122 | tokens that cannot be options are appended to the text parts in order |
| PostArgs.PostSeparator | lib/x-cli-common.mjs:62-65 | after a live `--`, every later token, including `--` and `--help`, becomes text in order |
| PostArgs.PostMissingValue | lib/x-cli-common.mjs:71-116 | a value option followed by nothing, an empty token or a dash token stops with `Missing value for <option>.`, so it never takes another option as its value |
| PostArgs.PostStepConfig | lib/x-cli-common.mjs:71-77 | a live `--config`/`-c` without a usable value stops with `Missing value for <option>.`; with one, the next token becomes the configuration path, replacing any earlier one, and the scan moves on two tokens |
| PostArgs.PostStepTarget | lib/x-cli-common.mjs:79-101 | a live `--reply-to`/`-r` or `--quote` with a value that is not a tweet ID once trimmed stops with `Invalid tweet ID for <option>: "<value>".`; otherwise the trimmed value becomes the reply or the quote target respectively and the scan moves on two tokens |
| PostArgs.PostStepQuoteUrl | lib/x-cli-common.mjs:103-116 | a live `--quote-url` whose value holds no `/status/<digits>` stops with `Failed to parse tweet ID from --quote-url value: "<value>".`; otherwise the extracted ID becomes the quote target and the scan moves on two tokens |
| PostArgs.PostStepUnknown | lib/x-cli-common.mjs:118-120 | any other live dash token stops with `Unknown option: <token>`, keeping the fields parsed so far |
| PostArgs.PostBothTargetsConflict | lib/x-cli-common.mjs:125-130 | once a scan has set both a reply and a quote target, in either order, a scan that runs to the end fails with the conflict error whatever follows |
| PostArgs.ParsePostArgs | lib/x-cli-common.mjs:46-141 | the imperative loop returns exactly `PostSpec(args)` |
| DeleteArgs.Trimmed | lib/x-cli-common.mjs:177-181 | the trimmed form of each token, one for one and in order |
| DeleteArgs.DeleteStep | lib/x-cli-common.mjs:153-182 | one iteration: the index advances by 2 exactly for a live `--config`/`-c`; a token that cannot be an option is appended trimmed when it is a tweet ID and otherwise stops with `Invalid tweet ID: "<token>".`; a return keeps the path and IDs parsed so far; the IDs stay tweet IDs. The exact result of each branch is stated by the `DeleteStep…` lemmas below |
| DeleteArgs.DeleteLoop | lib/x-cli-common.mjs:153-182 | from a pending state, an early return holds help exactly when it holds no error, and all collected IDs are tweet IDs |
| DeleteArgs.DeleteFinish | lib/x-cli-common.mjs:184-191 | a finished scan succeeds exactly when it collected an ID, and otherwise returns `At least one tweet ID is required. Use --help for examples.` |
| DeleteArgs.DeleteSpec | lib/x-cli-common.mjs:143-192 | help and error exclude each other, a success has at least one ID, and every ID is a tweet ID |
| DeleteArgs.DeleteStepExtend | lib/x-cli-common.mjs:153-182 | a step that continues reads no token at or beyond the current prefix's end |
| DeleteArgs.DeleteStepTruncate | lib/x-cli-common.mjs:153-182 | a step that continues is the same step on the token list cut after the point it reaches |
| DeleteArgs.DeleteLoopExtend | lib/x-cli-common.mjs:153-182 | a scan that runs through `pre` reaches the end of `pre` in the same state whatever tokens follow |
| DeleteArgs.DeleteHelpWins | lib/x-cli-common.mjs:161-163 | once the scan reaches `--help`/`-h` with options live, the result is help with no error whatever follows, keeping the path and IDs parsed before it |
| DeleteArgs.DeleteLoopHelpReached | lib/x-cli-common.mjs:161-163 | a help result of a scan comes from a help flag that the scan reached with options live |
| DeleteArgs.DeleteHelpOnlyFromFlag | lib/x-cli-common.mjs:161-163 | `parseDeleteArgs` returns help only when some help token is reached with options live |
| DeleteArgs.DeleteStepHelp | lib/x-cli-common.mjs:161-163 | a live help flag returns `parsed` with help set |
| DeleteArgs.DeleteStepSeparator | lib/x-cli-common.mjs:156-159 | a live `--` switches option parsing off and moves on one token |
| DeleteArgs.DeleteStepConfig | lib/x-cli-common.mjs:165-171 | a live `--config`/`-c` without a usable value stops with `Missing value for <option>.`; with one, the next token becomes the configuration path, replacing any earlier one, and the scan moves on two tokens |
| DeleteArgs.DeleteStepUnknown | lib/x-cli-common.mjs:173-175 | any other live dash token stops with `Unknown option: <token>`, keeping the path and IDs parsed so far |
| DeleteArgs.DeleteStepId | lib/x-cli-common.mjs:177-181 | a token that cannot be an option and is a tweet ID is appended in trimmed form |
| DeleteArgs.DeleteStepInvalid | lib/x-cli-common.mjs:177-180 | a token that cannot be an option and is not a tweet ID stops the scan with `Invalid tweet ID: "<token>".` |
| DeleteArgs.DeleteIdRun | lib/x-cli-common.mjs:173-182 | a run of ID tokens is collected as the trimmed tokens, in input order |
| DeleteArgs.DeleteFirstInvalid | lib/x-cli-common.mjs:177-180 | the first token after such a run that fails normalization stops the scan with its error, keeping exactly the trimmed IDs before it |
| DeleteArgs.DeleteSeparator | lib/x-cli-common.mjs:156-159 | after a live `--` no later token is an option: when the later tokens are tweet IDs once trimmed, the result is the final check over the IDs before `--` followed by those trimmed tokens, in order |
| DeleteArgs.DeleteTailIds | lib/x-cli-common.mjs:173-182 | with option parsing off, a suffix of tweet IDs is collected trimmed and in order |
| DeleteArgs.ParseDeleteArgs | lib/x-cli-common.mjs:143-192 | the imperative loop returns exactly `DeleteSpec(args)` |
| Seqs.FirstIndex | lib/x-cli-common.mjs:208 | the position of the first occurrence |
| Seqs.FirstIndexPrefix | lib/x-cli-common.mjs:208 | an element of a prefix has the same first position in the whole list |
| Seqs.Dedup | lib/x-cli-common.mjs:208 | `[...new Set(paths)]` has no repeats and holds exactly the elements of its input |
| Seqs.DedupOrder | lib/x-cli-common.mjs:208 | de-duplication keeps elements in the order of their first occurrence |
| Seqs.DedupUnchanged | lib/x-cli-common.mjs:208 | a list without repeats is left as it is |
| JsValues.Lookup | lib/x-cli-common.mjs:22 | a property read gives a value exactly when the key is present, and then the stored value |
| JsValues.HasValue | lib/x-cli-common.mjs:17-19 | `undefined` and `null` have no value, a string has one exactly when it is not all white space, a boolean exactly when it is `true`, a number exactly when it is not zero, and arrays and objects always have one |
| JsValues.HasValueString | lib/x-cli-common.mjs:17-19 | a string has a value exactly when some character of it is not white space |
| ConfigPaths.PathJoin | lib/x-cli-common.mjs:200-205 | the directory, one `/`, then the name |
| ConfigPaths.ExplicitPaths | lib/x-cli-common.mjs:197-198 | one entry for each of the option and the environment path that is set and non-empty, the option's first and the environment's last, and no empty entry |
| ConfigPaths.DefaultPaths | lib/x-cli-common.mjs:200-206 | `<cwd>/x-api.json`, `<cwd>/.x-api.json` and `<home>/.config/x-api.json` in that order, followed by `<home>/.clawdbot/secrets/x-api.json` exactly when the legacy paths are asked for |
| ConfigPaths.Candidates | lib/x-cli-common.mjs:194-206 | three to six candidates before de-duplication |
| ConfigPaths.BuildConfigPaths | lib/x-cli-common.mjs:194-209 | the pushes give the explicit paths, then the defaults, and the result is their de-duplication |
| ConfigPaths.ConfigPathOrder | lib/x-cli-common.mjs:194-209 | the list has no repeats, starts with the explicit path (else `X_API_CONFIG`), always holds the three conventional paths (and the legacy one when asked for), holds exactly the candidates, and keeps them in precedence order |
| Credentials.MissingAmong | lib/x-cli-common.mjs:21-23 | exactly the keys without a value, and all of them missing exactly when the list is as long as the keys |
| Credentials.MissingKeys | lib/x-cli-common.mjs:21-23 | `getMissingCredentialKeys`: exactly the required keys without a value |
| Credentials.MissingAmongCons | lib/x-cli-common.mjs:22 | one step of `filter`: the first key is kept exactly when it has no value, followed by the filter of the rest |
| Credentials.MissingAmongFour | lib/x-cli-common.mjs:22 | over four keys, `filter` is the four tests in order |
| Credentials.MissingKeysUnrolled | lib/x-cli-common.mjs:21-23 | the missing keys come in the declared order consumerKey, consumerSecret, accessToken, accessTokenSecret |
| Credentials.MissingKeysSingle | lib/x-cli-common.mjs:21-23 | with one key holding a value, the missing keys are the other three in declared order |
| Credentials.MissingAmongSingle | lib/x-cli-common.mjs:22 | over any four keys with only one holding a value, `filter` keeps the other three in order |
| Credentials.EnvCredentials | lib/x-cli-common.mjs:220-225 | each required key maps to its environment variable, `X_API_KEY`, `X_API_SECRET`, `X_ACCESS_TOKEN` and `X_ACCESS_SECRET` |
| Credentials.HasAnyCredential | lib/x-cli-common.mjs:227 | `some(hasValue)`: true exactly when one of the four required keys has a value |
| Credentials.HasAnyIffNotAllMissing | lib/x-cli-common.mjs:227 | some environment credential has a value exactly when not all four keys are missing |
| Credentials.BundleOf | lib/x-cli-common.mjs:270-275 | credentials with no missing key give the four fields with their values |
| Credentials.EnvResolution | lib/x-cli-common.mjs:228-245 | with the environment as the source, any missing key gives `Missing environment variables: <keys>` and no credentials; otherwise it returns the environment's credentials; `source` is `env` and no path is searched |
| Credentials.FileResolution | lib/x-cli-common.mjs:258-292 | for the first existing file, a parse failure or missing fields give their errors and no credentials, and complete fields give credentials; `source` is that path and the whole list is reported as searched |
| Credentials.IncludeLegacy | lib/x-cli-common.mjs:215-216 | the option when given, and otherwise whether `X_API_USE_LEGACY_PATHS` is exactly `1` |
| Credentials.SearchPaths | lib/x-cli-common.mjs:247-253 | the candidate list has no repeats, always holds the three conventional paths and the legacy one when it is included, and starts with the explicit path, else with `X_API_CONFIG` when set |
| Credentials.FirstExisting | lib/x-cli-common.mjs:255-256 | the first candidate that exists, with every earlier one missing |
| Credentials.FirstExistingAt | lib/x-cli-common.mjs:255-256 | an existing path with no earlier existing one is the first existing |
| Credentials.ResolveFiles | lib/x-cli-common.mjs:255-300 | the first existing file decides the outcome; credentials come exactly without error; with no file the result is `No credentials found.`, no source and the whole list |
| Credentials.Resolve | lib/x-cli-common.mjs:211-301 | credentials come exactly without error and have all four values; any environment credential makes the environment the source with no path searched; otherwise the searched paths are the candidate list |
| Credentials.ProbedFiles | lib/x-cli-common.mjs:255-256 | existence is checked in order up to and including the first existing file |
| Credentials.Probes | lib/x-cli-common.mjs:227-256 | no existence check is made when an environment credential has a value |
| Credentials.LoadCredentials | lib/x-cli-common.mjs:211-301 | the method returns exactly `Resolve` and makes exactly the checks of `Probes` |
| Credentials.WalkConfigPaths | lib/x-cli-common.mjs:255-300 | the loop returns exactly `ResolveFiles` and probes exactly `ProbedFiles` |
| Credentials.EnvIgnoresFiles | lib/x-cli-common.mjs:227-245 | with any environment credential, the outcome is the same for every file system and parser, and no file is probed |
| Credentials.FirstFileAuthoritative | lib/x-cli-common.mjs:255-293 | the first existing file decides: later files do not change the outcome, the source is that file, and no later path is probed |
| Credentials.FirstFileDecides | lib/x-cli-common.mjs:255-293 | over any list of paths, the walk's outcome and probes are fixed by the first existing file and its contents |
| Credentials.SingleEnvVariable | lib/x-cli-common.mjs:227-237 | with only one credential variable set, the error lists the other three keys in declared order and returns no credentials |
| HelpText.Bullets | lib/x-cli-common.mjs:305 | one `  - <path>` line per searched path, in order |
| HelpText.Assemble | lib/x-cli-common.mjs:303-321 | the text starts with the setup block and is only that block exactly when no path was searched |
| HelpText.CredentialHelpText | lib/x-cli-common.mjs:303-321 | `getCredentialHelpText` starts with the setup instructions and is only those exactly when no path was searched |
| HelpText.JoinHeadedBlock | lib/x-cli-common.mjs:305 | a block, a heading line and a joined run of lines make one join of all the lines |
| HelpText.HelpTextJoin | lib/x-cli-common.mjs:303-321 | with searched paths the help text is the setup lines, `Searched config paths:` and the bullets, joined by line breaks |
| HelpText.EnvSetupIsLines | lib/x-cli-common.mjs:308-312 | the environment-variable instructions are single lines |
| HelpText.FileSetupIsLines | lib/x-cli-common.mjs:314-320 | the `x-api.json` instructions are single lines |
| HelpText.SetupIsLines | lib/x-cli-common.mjs:308-320 | no setup line holds a line break |
| HelpText.SetupTextLines | lib/x-cli-common.mjs:308-320 | the setup text split on line breaks is exactly the setup lines |
| HelpText.BulletsAreLines | lib/x-cli-common.mjs:305 | bullets of paths without line breaks are single lines |
| HelpText.HeadedLinesRoundTrip | lib/x-cli-common.mjs:305 | lines, a heading and more lines joined by line breaks split back into those lines |
| HelpText.AssembleLines | lib/x-cli-common.mjs:303-321 | the assembled help text splits into the setup lines, the heading and one bullet per searched path |

## Left out

- `x-post.mjs` is a legacy standalone script with its own credential loading and argument loop, console output and network call. It is not part of this model.
- `x-delete.mjs` is input/output glue: `process.argv`, console output, exit codes and the asynchronous delete calls. It is not part of this model.
- The process defaults of `loadCredentials` (`process.env`, `process.cwd()`, `homedir()`, `existsSync`, `readFileSync`) are caller-supplied values in `LoadOptions` and the file map. The `options = {}` default is not modelled.
- Existence and readability are one notion in the file map. A file that exists but whose read throws is left out. The source reports that through the same error path as a parse failure.
- `path.join` normalisation: `..`, repeated `/` and absolute second arguments are not modelled. Paths are joined with a plain `/`.
- Resolve: a configuration file whose JSON is the literal `null` is not modelled. Its field access throws outside the `try` (lib/x-cli-common.mjs:271). The model gives every parsed value a field map, empty for non-objects.
- NormalizeTweetId: takes a string only. A number argument converted with `String(value)` is not modelled, so the second assertion of test/x-cli-common.test.mjs:14 has no counterpart.
- ExtractTweetIdFromUrl: takes a string only. The `String(url)` conversion of non-string values is not modelled.
- JsValues.HasValue: numbers are reals. `NaN`, which is falsy, is not modelled.
- Credentials.EnvCredentials: options passed as `env` are strings only. Non-string environment values are not modelled.
- `getPostHelpText`, `getDeleteHelpText`, `POST_USAGE` and `DELETE_USAGE` are fixed literal texts with no logic. They are not modelled.
- DeleteArgs.DeleteLoop: does not state as its own contract that a scan only ever appends to the ID list. That property is established for ID runs by `DeleteIdRun`, `DeleteFirstInvalid` and `DeleteSeparator`.
- HelpText.CredentialHelpText: the property that its text splits into its lines is stated for any setup block (`AssembleLines`) and for the setup lines (`SetupIsLines`). It is not restated about the literal help text itself.
- Concurrency and asynchronous behaviour: the modelled code has neither.
