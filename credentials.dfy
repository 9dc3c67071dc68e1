/** `loadCredentials` (lib/x-cli-common.mjs): environment credentials take
    precedence over configuration files; otherwise the first existing file
    among the candidate paths decides the outcome. File existence and reading
    are a map from paths to contents, and `JSON.parse` is a parameter. */
module Credentials {
  import opened Wrappers
  import opened Text
  import opened Seqs
  import opened JsValues
  import opened ConfigPaths

  /** `REQUIRED_CREDENTIAL_KEYS`, in declared order. */
  const RequiredKeys: seq<string> := ["consumerKey", "consumerSecret", "accessToken", "accessTokenSecret"]

  /** The environment variable that supplies each required key. */
  function EnvVarFor(key: string): string
  {
    if key == "consumerKey" then "X_API_KEY"
    else if key == "consumerSecret" then "X_API_SECRET"
    else if key == "accessToken" then "X_ACCESS_TOKEN"
    else "X_ACCESS_SECRET"
  }

  const ConfigPathVar: string := "X_API_CONFIG"
  const LegacyToggleVar: string := "X_API_USE_LEGACY_PATHS"
  const EnvSource: string := "env"
  const NoCredentialsError: string := "No credentials found."

  /** The keys among `keys` whose value in `creds` fails `hasValue`, in the
      order of `keys`. */
  function MissingAmong(keys: seq<string>, creds: map<string, JsValue>): (r: seq<string>)
    ensures forall i :: 0 <= i < |r| ==> r[i] in keys && !HasValue(Lookup(creds, r[i]))
    ensures forall i :: 0 <= i < |keys| && !HasValue(Lookup(creds, keys[i])) ==> keys[i] in r
    ensures |r| <= |keys|
    ensures |r| == |keys| <==> forall i :: 0 <= i < |keys| ==> !HasValue(Lookup(creds, keys[i]))
  {
    if keys == [] then []
    else
      var rest := MissingAmong(keys[1..], creds);
      assert forall i :: 1 <= i < |keys| ==> keys[i] == keys[1..][i - 1];
      if HasValue(Lookup(creds, keys[0])) then rest else [keys[0]] + rest
  }

  /** `getMissingCredentialKeys(credentials)`: the required keys without a
      value, in declared order. */
  function MissingKeys(creds: map<string, JsValue>): (r: seq<string>)
    ensures forall i :: 0 <= i < |r| ==> r[i] in RequiredKeys && !HasValue(Lookup(creds, r[i]))
    ensures forall i :: 0 <= i < 4 && !HasValue(Lookup(creds, RequiredKeys[i])) ==> RequiredKeys[i] in r
    ensures |r| <= 4
    ensures |r| == 4 <==> forall i :: 0 <= i < 4 ==> !HasValue(Lookup(creds, RequiredKeys[i]))
  {
    MissingAmong(RequiredKeys, creds)
  }

  /** The object `envCredentials`: each required key whose variable is set. */
  function EnvCredentials(env: map<string, string>): (c: map<string, JsValue>)
    ensures forall k :: k in RequiredKeys ==>
              Lookup(c, k) == (if EnvVarFor(k) in env then Some(JString(env[EnvVarFor(k)])) else None)
  {
    map k | k in RequiredKeys && EnvVarFor(k) in env :: JString(env[EnvVarFor(k)])
  }

  /** `Object.values(envCredentials).some(hasValue)`. */
  function HasAnyCredential(c: map<string, JsValue>): (r: bool)
    ensures r <==> exists i :: 0 <= i < 4 && HasValue(Lookup(c, RequiredKeys[i]))
  {
    assert RequiredKeys[0] == "consumerKey" && RequiredKeys[1] == "consumerSecret";
    assert RequiredKeys[2] == "accessToken" && RequiredKeys[3] == "accessTokenSecret";
    HasValue(Lookup(c, "consumerKey")) || HasValue(Lookup(c, "consumerSecret"))
    || HasValue(Lookup(c, "accessToken")) || HasValue(Lookup(c, "accessTokenSecret"))
  }

  /** Some credential is present exactly when not all four are missing. */
  lemma HasAnyIffNotAllMissing(c: map<string, JsValue>)
    ensures HasAnyCredential(c) <==> |MissingKeys(c)| < 4
  {
    assert RequiredKeys[0] == "consumerKey" && RequiredKeys[1] == "consumerSecret";
    assert RequiredKeys[2] == "accessToken" && RequiredKeys[3] == "accessTokenSecret";
    var allMissing := forall i :: 0 <= i < 4 ==> !HasValue(Lookup(c, RequiredKeys[i]));
    assert allMissing <==> !HasAnyCredential(c);
  }

  /** The four credentials handed to the API client. */
  datatype CredentialBundle = CredentialBundle(
    consumerKey: JsValue,
    consumerSecret: JsValue,
    accessToken: JsValue,
    accessTokenSecret: JsValue)

  /** The object `loadCredentials` returns. */
  datatype Resolution = Resolution(
    credentials: Option<CredentialBundle>,
    error: Option<string>,
    source: Option<string>,
    searchedPaths: seq<string>)

  /** What `JSON.parse(readFile(path))` gives: a thrown error's message, or the
      fields of the parsed value (none for a value that is not an object). */
  datatype JsonParse = ParseFailed(message: string) | Parsed(fields: map<string, JsValue>)

  /** The options `loadCredentials` reads; the process defaults are left to the caller. */
  datatype LoadOptions = LoadOptions(
    env: map<string, string>,
    cwd: string,
    home: string,
    configPath: Option<string>,
    includeLegacyPaths: Option<bool>)

  predicate BundleHasValues(b: CredentialBundle)
  {
    HasValue(Some(b.consumerKey)) && HasValue(Some(b.consumerSecret))
    && HasValue(Some(b.accessToken)) && HasValue(Some(b.accessTokenSecret))
  }

  /** The four required fields of credentials none of which is missing. */
  function BundleOf(creds: map<string, JsValue>): (b: CredentialBundle)
    requires MissingKeys(creds) == []
    ensures BundleHasValues(b)
    ensures Some(b.consumerKey) == Lookup(creds, "consumerKey")
            && Some(b.consumerSecret) == Lookup(creds, "consumerSecret")
            && Some(b.accessToken) == Lookup(creds, "accessToken")
            && Some(b.accessTokenSecret) == Lookup(creds, "accessTokenSecret")
  {
    assert HasValue(Lookup(creds, RequiredKeys[0])) && HasValue(Lookup(creds, RequiredKeys[1]));
    assert HasValue(Lookup(creds, RequiredKeys[2])) && HasValue(Lookup(creds, RequiredKeys[3]));
    CredentialBundle(creds["consumerKey"], creds["consumerSecret"],
                     creds["accessToken"], creds["accessTokenSecret"])
  }

  function MissingEnvError(missing: seq<string>): string
  {
    "Missing environment variables: " + JoinWith(missing, ", ")
  }

  function ParseError(path: string, message: string): string
  {
    "Failed to parse credentials file (" + path + "): " + message
  }

  function MissingFieldsError(path: string, missing: seq<string>): string
  {
    "Credentials file is missing required fields (" + path + "): " + JoinWith(missing, ", ")
  }

  /** The outcome when the environment is the source. */
  function EnvResolution(creds: map<string, JsValue>): (r: Resolution)
    ensures r.source == Some(EnvSource) && r.searchedPaths == []
    ensures MissingKeys(creds) != [] ==>
              r.credentials == None && r.error == Some(MissingEnvError(MissingKeys(creds)))
    ensures MissingKeys(creds) == [] ==> r.error == None && r.credentials == Some(BundleOf(creds))
  {
    var missing := MissingKeys(creds);
    if |missing| > 0 then Resolution(None, Some(MissingEnvError(missing)), Some(EnvSource), [])
    else Resolution(Some(BundleOf(creds)), None, Some(EnvSource), [])
  }

  /** The outcome decided by the first existing file, at `path`. */
  function FileResolution(path: string, parsed: JsonParse, searched: seq<string>): (r: Resolution)
    ensures r.source == Some(path) && r.searchedPaths == searched
    ensures parsed.ParseFailed? ==> r.credentials == None && r.error == Some(ParseError(path, parsed.message))
    ensures parsed.Parsed? && MissingKeys(parsed.fields) != [] ==>
              r.credentials == None && r.error == Some(MissingFieldsError(path, MissingKeys(parsed.fields)))
    ensures parsed.Parsed? && MissingKeys(parsed.fields) == [] ==>
              r.error == None && r.credentials == Some(BundleOf(parsed.fields))
  {
    match parsed
    case ParseFailed(message) => Resolution(None, Some(ParseError(path, message)), Some(path), searched)
    case Parsed(fields) =>
      var missing := MissingKeys(fields);
      if |missing| > 0 then Resolution(None, Some(MissingFieldsError(path, missing)), Some(path), searched)
      else Resolution(Some(BundleOf(fields)), None, Some(path), searched)
  }

  /** `options.includeLegacyPaths ?? env.X_API_USE_LEGACY_PATHS === '1'`. */
  function IncludeLegacy(opts: LoadOptions): (r: bool)
    ensures opts.includeLegacyPaths.Some? ==> r == opts.includeLegacyPaths.value
    ensures opts.includeLegacyPaths.None? ==> (r <==> Lookup(opts.env, LegacyToggleVar) == Some("1"))
  {
    match opts.includeLegacyPaths
    case Some(b) => b
    case None => LegacyToggleVar in opts.env && opts.env[LegacyToggleVar] == "1"
  }

  /** The candidate list `buildConfigPaths` produces for these options. */
  function SearchPaths(opts: LoadOptions): (r: seq<string>)
    ensures NoDuplicates(r)
    ensures CwdPath(opts.cwd) in r && CwdHiddenPath(opts.cwd) in r && HomeConfigPath(opts.home) in r
    ensures IncludeLegacy(opts) ==> LegacyPath(opts.home) in r
    ensures Truthy(opts.configPath) ==> r[0] == opts.configPath.value
    ensures !Truthy(opts.configPath) && Truthy(Lookup(opts.env, ConfigPathVar)) ==> r[0] == opts.env[ConfigPathVar]
  {
    ConfigPathOrder(opts.cwd, opts.home, opts.configPath, Lookup(opts.env, ConfigPathVar), IncludeLegacy(opts));
    Dedup(Candidates(opts.cwd, opts.home, opts.configPath, Lookup(opts.env, ConfigPathVar), IncludeLegacy(opts)))
  }

  /** The index of the first path, at or after `from`, that exists in `fs`. */
  function FirstExisting(paths: seq<string>, fs: map<string, string>, from: nat): (r: Option<nat>)
    requires from <= |paths|
    ensures r.Some? ==> from <= r.value < |paths| && paths[r.value] in fs
    ensures r.Some? ==> forall j :: from <= j < r.value ==> paths[j] !in fs
    ensures r.None? ==> forall j :: from <= j < |paths| ==> paths[j] !in fs
    decreases |paths| - from
  {
    if from == |paths| then None
    else if paths[from] in fs then Some(from)
    else FirstExisting(paths, fs, from + 1)
  }

  /** The walk over the candidate paths: the first existing file decides;
      when none exists the result says so and lists every path searched. */
  function ResolveFiles(paths: seq<string>, fs: map<string, string>, parse: string -> JsonParse): (r: Resolution)
    ensures r.searchedPaths == paths
    ensures r.credentials.Some? <==> r.error == None
    ensures r.credentials.Some? ==> BundleHasValues(r.credentials.value)
    ensures (forall j :: 0 <= j < |paths| ==> paths[j] !in fs) ==>
              r == Resolution(None, Some(NoCredentialsError), None, paths)
    ensures forall k :: 0 <= k < |paths| && paths[k] in fs && (forall j :: 0 <= j < k ==> paths[j] !in fs)
                        ==> r == FileResolution(paths[k], parse(fs[paths[k]]), paths)
  {
    match FirstExisting(paths, fs, 0)
    case None => Resolution(None, Some(NoCredentialsError), None, paths)
    case Some(k) =>
      assert forall k' :: 0 <= k' < |paths| && paths[k'] in fs && (forall j :: 0 <= j < k' ==> paths[j] !in fs)
                          ==> k' == k;
      FileResolution(paths[k], parse(fs[paths[k]]), paths)
  }

  /** The result of `loadCredentials`, with the files as the map `fs` and
      `JSON.parse` as `parse`. */
  function Resolve(opts: LoadOptions, fs: map<string, string>, parse: string -> JsonParse): (r: Resolution)
    ensures r.credentials.Some? <==> r.error == None
    ensures r.credentials.Some? ==> BundleHasValues(r.credentials.value)
    ensures HasAnyCredential(EnvCredentials(opts.env)) ==>
              r.source == Some(EnvSource) && r.searchedPaths == []
    ensures !HasAnyCredential(EnvCredentials(opts.env)) ==> r.searchedPaths == SearchPaths(opts)
  {
    var envCreds := EnvCredentials(opts.env);
    if HasAnyCredential(envCreds) then EnvResolution(envCreds)
    else ResolveFiles(SearchPaths(opts), fs, parse)
  }

  /** The paths of `paths` whose existence the walk checks, in order: up to
      and including the first that exists. */
  function ProbedFiles(paths: seq<string>, fs: map<string, string>): (r: seq<string>)
    ensures |r| <= |paths| && r == paths[..|r|]
    ensures forall j :: 0 <= j < |r| - 1 ==> r[j] !in fs
    ensures |r| < |paths| ==> |r| > 0 && r[|r| - 1] in fs
  {
    match FirstExisting(paths, fs, 0)
    case None => paths
    case Some(k) => paths[..k + 1]
  }

  /** The paths whose existence `loadCredentials` checks, in order. */
  function Probes(opts: LoadOptions, fs: map<string, string>): (r: seq<string>)
    ensures HasAnyCredential(EnvCredentials(opts.env)) ==> r == []
  {
    if HasAnyCredential(EnvCredentials(opts.env)) then []
    else ProbedFiles(SearchPaths(opts), fs)
  }

  /** `loadCredentials`: the environment check, then the walk over the
      candidate paths. `probed` records each existence check made. */
  method LoadCredentials(opts: LoadOptions, fs: map<string, string>, parse: string -> JsonParse)
    returns (res: Resolution, probed: seq<string>)
    ensures res == Resolve(opts, fs, parse)
    ensures probed == Probes(opts, fs)
  {
    var includeLegacyPaths := IncludeLegacy(opts);
    var envCredentials := EnvCredentials(opts.env);
    if HasAnyCredential(envCredentials) {
      probed := [];
      var missingKeys := MissingKeys(envCredentials);
      if |missingKeys| > 0 {
        res := Resolution(None, Some(MissingEnvError(missingKeys)), Some(EnvSource), []);
        return;
      }
      res := Resolution(Some(BundleOf(envCredentials)), None, Some(EnvSource), []);
      return;
    }

    var configPaths := BuildConfigPaths(opts.cwd, opts.home, opts.configPath,
                                        Lookup(opts.env, ConfigPathVar), includeLegacyPaths);
    res, probed := WalkConfigPaths(configPaths, fs, parse);
  }

  /** The `for (const configPath of configPaths)` loop of `loadCredentials`:
      it skips missing files and returns at the first existing one. */
  method WalkConfigPaths(configPaths: seq<string>, fs: map<string, string>, parse: string -> JsonParse)
    returns (res: Resolution, probed: seq<string>)
    ensures res == ResolveFiles(configPaths, fs, parse)
    ensures probed == ProbedFiles(configPaths, fs)
  {
    probed := [];
    var k := 0;
    while k < |configPaths|
      invariant 0 <= k <= |configPaths|
      invariant probed == configPaths[..k]
      invariant forall j :: 0 <= j < k ==> configPaths[j] !in fs
    {
      var configPath := configPaths[k];
      probed := probed + [configPath];
      if configPath in fs {
        FirstExistingAt(configPaths, fs, k);
        res := FileResolution(configPath, parse(fs[configPath]), configPaths);
        return;
      }
      k := k + 1;
    }
    assert configPaths[..k] == configPaths;
    res := Resolution(None, Some(NoCredentialsError), None, configPaths);
  }

  /** Environment precedence: when any credential variable has a value the
      files are never consulted, so the outcome is the same for every file
      system and parser. */
  lemma EnvIgnoresFiles(opts: LoadOptions, fs1: map<string, string>, fs2: map<string, string>,
                        parse1: string -> JsonParse, parse2: string -> JsonParse)
    requires HasAnyCredential(EnvCredentials(opts.env))
    ensures Resolve(opts, fs1, parse1) == Resolve(opts, fs2, parse2)
    ensures Probes(opts, fs1) == []
  {
  }

  /** The first existing file is authoritative: files at later candidates,
      and whether they exist, do not change the outcome. */
  lemma FirstFileAuthoritative(opts: LoadOptions, k: nat, fs1: map<string, string>, fs2: map<string, string>,
                               parse: string -> JsonParse)
    requires !HasAnyCredential(EnvCredentials(opts.env))
    requires k < |SearchPaths(opts)|
    requires forall j :: 0 <= j < k ==> SearchPaths(opts)[j] !in fs1 && SearchPaths(opts)[j] !in fs2
    requires SearchPaths(opts)[k] in fs1 && SearchPaths(opts)[k] in fs2
    requires fs1[SearchPaths(opts)[k]] == fs2[SearchPaths(opts)[k]]
    ensures Resolve(opts, fs1, parse) == Resolve(opts, fs2, parse)
    ensures Resolve(opts, fs1, parse).source == Some(SearchPaths(opts)[k])
    ensures Probes(opts, fs1) == Probes(opts, fs2) == SearchPaths(opts)[..k + 1]
  {
    FirstFileDecides(SearchPaths(opts), k, fs1, fs2, parse);
  }

  /** The walk over any list of paths stops at the first existing file. */
  lemma FirstFileDecides(paths: seq<string>, k: nat, fs1: map<string, string>, fs2: map<string, string>,
                         parse: string -> JsonParse)
    requires k < |paths|
    requires forall j :: 0 <= j < k ==> paths[j] !in fs1 && paths[j] !in fs2
    requires paths[k] in fs1 && paths[k] in fs2 && fs1[paths[k]] == fs2[paths[k]]
    ensures ResolveFiles(paths, fs1, parse) == ResolveFiles(paths, fs2, parse)
    ensures ResolveFiles(paths, fs1, parse).source == Some(paths[k])
    ensures ProbedFiles(paths, fs1) == ProbedFiles(paths, fs2) == paths[..k + 1]
  {
    FirstExistingAt(paths, fs1, k);
    FirstExistingAt(paths, fs2, k);
  }

  lemma {:induction false} FirstExistingAt(paths: seq<string>, fs: map<string, string>, k: nat)
    requires k < |paths| && paths[k] in fs
    requires forall j :: 0 <= j < k ==> paths[j] !in fs
    ensures FirstExisting(paths, fs, 0) == Some(k)
  {
    var r := FirstExisting(paths, fs, 0);
    assert r.Some?;
    assert !(r.value < k);
  }

  /** One step of `filter`: the first key is checked, then the rest. Kept as a
      lemma so that each use unfolds `MissingAmong` exactly once. */
  lemma MissingAmongCons(keys: seq<string>, c: map<string, JsValue>)
    requires keys != []
    ensures MissingAmong(keys, c)
            == (if HasValue(Lookup(c, keys[0])) then [] else [keys[0]]) + MissingAmong(keys[1..], c)
  {
  }

  function MissingIfBlank(c: map<string, JsValue>, key: string): seq<string>
  {
    if HasValue(Lookup(c, key)) then [] else [key]
  }

  /** `MissingAmong` over four keys tests them one by one, in order. */
  lemma MissingAmongFour(keys: seq<string>, c: map<string, JsValue>)
    requires |keys| == 4
    ensures MissingAmong(keys, c)
            == MissingIfBlank(c, keys[0]) + (MissingIfBlank(c, keys[1])
               + (MissingIfBlank(c, keys[2]) + MissingIfBlank(c, keys[3])))
  {
    var t1, t2, t3 := keys[1..], keys[2..], keys[3..];
    assert t1[0] == keys[1] && t1[1..] == t2;
    assert t2[0] == keys[2] && t2[1..] == t3;
    assert t3[0] == keys[3] && t3[1..] == [];
    MissingAmongCons(t3, c);
    assert MissingAmong(t3, c) == MissingIfBlank(c, keys[3]);
    MissingAmongCons(t2, c);
    assert MissingAmong(t2, c) == MissingIfBlank(c, keys[2]) + MissingIfBlank(c, keys[3]);
    MissingAmongCons(t1, c);
    var m1 := MissingAmong(t1, c);
    assert m1 == MissingIfBlank(c, keys[1]) + (MissingIfBlank(c, keys[2]) + MissingIfBlank(c, keys[3]));
    MissingAmongCons(keys, c);
    assert MissingAmong(keys, c) == MissingIfBlank(c, keys[0]) + m1;
  }

  /** `MissingKeys` tests the four required keys one by one, in declared order. */
  lemma MissingKeysUnrolled(c: map<string, JsValue>)
    ensures MissingKeys(c)
            == MissingIfBlank(c, RequiredKeys[0]) + (MissingIfBlank(c, RequiredKeys[1])
               + (MissingIfBlank(c, RequiredKeys[2]) + MissingIfBlank(c, RequiredKeys[3])))
  {
    MissingAmongFour(RequiredKeys, c);
  }

  /** With only `RequiredKeys[i]` holding a value, the other three keys are
      missing, in declared order. */
  lemma MissingKeysSingle(c: map<string, JsValue>, i: nat)
    requires i < 4
    requires HasValue(Lookup(c, RequiredKeys[i]))
    requires forall j :: 0 <= j < 4 && j != i ==> !HasValue(Lookup(c, RequiredKeys[j]))
    ensures MissingKeys(c) == RequiredKeys[..i] + RequiredKeys[i + 1..]
  {
    MissingAmongSingle(RequiredKeys, c, i);
  }

  /** Over any four keys, with only `keys[i]` holding a value, the other three
      are missing, in order. */
  lemma MissingAmongSingle(keys: seq<string>, c: map<string, JsValue>, i: nat)
    requires |keys| == 4 && i < 4
    requires HasValue(Lookup(c, keys[i]))
    requires forall j :: 0 <= j < 4 && j != i ==> !HasValue(Lookup(c, keys[j]))
    ensures MissingAmong(keys, c) == keys[..i] + keys[i + 1..]
  {
    MissingAmongFour(keys, c);
    var ms := [MissingIfBlank(c, keys[0]), MissingIfBlank(c, keys[1]),
               MissingIfBlank(c, keys[2]), MissingIfBlank(c, keys[3])];
    forall j | 0 <= j < 4
      ensures ms[j] == (if j == i then [] else [keys[j]])
    {
    }
    SkipOne(keys, i, ms);
  }

  /** Four pieces, each empty at `i` and the key itself elsewhere, concatenate
      to the keys without `keys[i]`. */
  lemma SkipOne(keys: seq<string>, i: nat, ms: seq<seq<string>>)
    requires |keys| == 4 && i < 4 && |ms| == 4
    requires forall j :: 0 <= j < 4 ==> ms[j] == (if j == i then [] else [keys[j]])
    ensures keys[..i] + keys[i + 1..] == ms[0] + (ms[1] + (ms[2] + ms[3]))
  {
    if i == 0 {
      assert keys[..i] + keys[i + 1..] == [keys[1], keys[2], keys[3]];
    } else if i == 1 {
      assert keys[..i] + keys[i + 1..] == [keys[0], keys[2], keys[3]];
    } else if i == 2 {
      assert keys[..i] + keys[i + 1..] == [keys[0], keys[1], keys[3]];
    } else {
      assert keys[..i] + keys[i + 1..] == [keys[0], keys[1], keys[2]];
    }
  }

  /** Partial environment credentials: with only the variable for
      `RequiredKeys[i]` holding a value, the environment is still the source,
      the error lists the other three keys in declared order, and no
      credentials are returned. */
  lemma SingleEnvVariable(opts: LoadOptions, i: nat, fs: map<string, string>, parse: string -> JsonParse)
    requires i < 4
    requires HasValue(Lookup(EnvCredentials(opts.env), RequiredKeys[i]))
    requires forall j :: 0 <= j < 4 && j != i ==> !HasValue(Lookup(EnvCredentials(opts.env), RequiredKeys[j]))
    ensures Resolve(opts, fs, parse)
            == Resolution(None, Some(MissingEnvError(RequiredKeys[..i] + RequiredKeys[i + 1..])), Some(EnvSource), [])
  {
    var c := EnvCredentials(opts.env);
    assert RequiredKeys[i] in RequiredKeys;
    assert HasAnyCredential(c);
    MissingKeysSingle(c, i);
  }
}
