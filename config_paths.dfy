/** `buildConfigPaths` (lib/x-cli-common.mjs): the ordered, de-duplicated
    list of configuration files the credential resolver tries. */
module ConfigPaths {
  import opened Wrappers
  import opened Seqs

  /** `path.join(dir, name)`, as plain concatenation with `/`. */
  function PathJoin(dir: string, name: string): (r: string)
    ensures |r| == |dir| + 1 + |name|
    ensures r[..|dir|] == dir && r[|dir|] == '/' && r[|dir| + 1..] == name
  {
    dir + "/" + name
  }

  /** JavaScript truthiness of an optional string: present and non-empty. */
  predicate Truthy(o: Option<string>)
  {
    o.Some? && o.value != ""
  }

  function CwdPath(cwd: string): string { PathJoin(cwd, "x-api.json") }
  function CwdHiddenPath(cwd: string): string { PathJoin(cwd, ".x-api.json") }
  function HomeConfigPath(home: string): string { PathJoin(PathJoin(home, ".config"), "x-api.json") }
  function LegacyPath(home: string): string
  {
    PathJoin(PathJoin(PathJoin(home, ".clawdbot"), "secrets"), "x-api.json")
  }

  /** The paths named explicitly (option, then environment), when set. */
  function ExplicitPaths(configPath: Option<string>, envConfigPath: Option<string>): (r: seq<string>)
    ensures |r| == (if Truthy(configPath) then 1 else 0) + (if Truthy(envConfigPath) then 1 else 0)
    ensures Truthy(configPath) ==> r[0] == configPath.value
    ensures Truthy(envConfigPath) ==> r[|r| - 1] == envConfigPath.value
    ensures forall k :: 0 <= k < |r| ==> r[k] != ""
  {
    (if Truthy(configPath) then [configPath.value] else [])
    + (if Truthy(envConfigPath) then [envConfigPath.value] else [])
  }

  /** The conventional locations, in order, with the legacy one last when asked for. */
  function DefaultPaths(cwd: string, home: string, includeLegacy: bool): (r: seq<string>)
    ensures |r| == (if includeLegacy then 4 else 3)
    ensures r[0] == CwdPath(cwd) && r[1] == CwdHiddenPath(cwd) && r[2] == HomeConfigPath(home)
    ensures includeLegacy ==> r[3] == LegacyPath(home)
  {
    [CwdPath(cwd), CwdHiddenPath(cwd), HomeConfigPath(home)]
    + (if includeLegacy then [LegacyPath(home)] else [])
  }

  /** The candidates in precedence order, before duplicates are removed. */
  function Candidates(cwd: string, home: string, configPath: Option<string>,
                      envConfigPath: Option<string>, includeLegacy: bool): (r: seq<string>)
    ensures 3 <= |r| <= 6
  {
    ExplicitPaths(configPath, envConfigPath) + DefaultPaths(cwd, home, includeLegacy)
  }

  /** `buildConfigPaths`: successive pushes, then `[...new Set(paths)]`. */
  method BuildConfigPaths(cwd: string, home: string, configPath: Option<string>,
                          envConfigPath: Option<string>, includeLegacy: bool) returns (paths: seq<string>)
    ensures paths == Dedup(Candidates(cwd, home, configPath, envConfigPath, includeLegacy))
  {
    var all: seq<string> := [];
    if Truthy(configPath) { all := all + [configPath.value]; }
    if Truthy(envConfigPath) { all := all + [envConfigPath.value]; }
    assert all == ExplicitPaths(configPath, envConfigPath);
    ghost var explicit := all;
    all := all + [CwdPath(cwd)];
    all := all + [CwdHiddenPath(cwd)];
    all := all + [HomeConfigPath(home)];
    assert all == explicit + [CwdPath(cwd), CwdHiddenPath(cwd), HomeConfigPath(home)];
    if includeLegacy { all := all + [LegacyPath(home)]; }
    assert all == explicit + DefaultPaths(cwd, home, includeLegacy);
    paths := Dedup(all);
  }

  /** The de-duplicated list has no repeats; it starts with the explicit
      path, else the path from the environment; it holds the three
      conventional locations (and the legacy one when asked for); it
      contains exactly the candidates; and of two candidates, the one with
      the higher precedence comes first. */
  lemma ConfigPathOrder(cwd: string, home: string, configPath: Option<string>,
                        envConfigPath: Option<string>, includeLegacy: bool)
    ensures var c := Candidates(cwd, home, configPath, envConfigPath, includeLegacy);
            var paths := Dedup(c);
            NoDuplicates(paths)
            && (Truthy(configPath) ==> paths[0] == configPath.value)
            && (!Truthy(configPath) && Truthy(envConfigPath) ==> paths[0] == envConfigPath.value)
            && CwdPath(cwd) in paths && CwdHiddenPath(cwd) in paths && HomeConfigPath(home) in paths
            && (includeLegacy ==> LegacyPath(home) in paths)
            && (forall x :: x in paths <==> x in c)
            && (forall i, j :: 0 <= i < j < |paths| ==> FirstIndex(c, paths[i]) < FirstIndex(c, paths[j]))
  {
    var c := Candidates(cwd, home, configPath, envConfigPath, includeLegacy);
    var e := ExplicitPaths(configPath, envConfigPath);
    var d := DefaultPaths(cwd, home, includeLegacy);
    var paths := Dedup(c);
    DedupOrder(c);
    assert c[0] in paths;
    assert FirstIndex(c, c[0]) == 0;
    assert paths[0] == c[0];
    forall x ensures x in paths <==> x in c {
      if x in c { var i :| 0 <= i < |c| && c[i] == x; assert c[i] in paths; }
      if x in paths { var i :| 0 <= i < |paths| && paths[i] == x; }
    }
    assert c[|e|] == CwdPath(cwd) && c[|e| + 1] == CwdHiddenPath(cwd) && c[|e| + 2] == HomeConfigPath(home);
    assert includeLegacy ==> c[|e| + 3] == LegacyPath(home);
  }
}
