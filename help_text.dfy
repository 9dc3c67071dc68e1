/** `getCredentialHelpText` (lib/x-cli-common.mjs): setup instructions for
    both credential sources, followed by the searched paths when there are any. */
module HelpText {
  import opened Text

  /** The fixed instructions, line by line: the four environment variables,
      a blank line, then the layout of `x-api.json`. */
  const SetupLines: seq<string> := EnvSetupLines + [""] + FileSetupLines

  const EnvSetupLines: seq<string> := [
    "Set environment variables:",
    "  export X_API_KEY=\"...\"",
    "  export X_API_SECRET=\"...\"",
    "  export X_ACCESS_TOKEN=\"...\"",
    "  export X_ACCESS_SECRET=\"...\""
  ]

  const FileSetupLines: seq<string> := [
    "Or create x-api.json:",
    "  {",
    "    \"consumerKey\": \"...\",",
    "    \"consumerSecret\": \"...\",",
    "    \"accessToken\": \"...\",",
    "    \"accessTokenSecret\": \"...\"",
    "  }"
  ]

  const SetupText: string := JoinWith(SetupLines, "\n")

  const SearchedHeading: string := "Searched config paths:"
  const BulletPrefix: string := "  - "

  /** One bullet line per searched path, in order. */
  function Bullets(paths: seq<string>): (r: seq<string>)
    ensures |r| == |paths|
    ensures forall k :: 0 <= k < |r| ==> r[k] == BulletPrefix + paths[k]
  {
    if paths == [] then [] else [BulletPrefix + paths[0]] + Bullets(paths[1..])
  }

  /** The help text over any setup block and heading: the block, then the
      heading and the bullets on lines of their own when there are paths.
      The text starts with the block, and is nothing more exactly when there
      are no paths. */
  function Assemble(setup: string, heading: string, searchedPaths: seq<string>): (r: string)
    ensures |setup| <= |r| && r[..|setup|] == setup
    ensures r == setup <==> searchedPaths == []
  {
    var searched :=
      if |searchedPaths| > 0 then "\n" + heading + "\n" + JoinWith(Bullets(searchedPaths), "\n")
      else "";
    assert (setup + searched)[..|setup|] == setup;
    setup + searched
  }

  /** `getCredentialHelpText(searchedPaths)`: always opens with the setup
      instructions, and is only those instructions exactly when no path was
      searched. */
  function CredentialHelpText(searchedPaths: seq<string>): (r: string)
    ensures |SetupText| <= |r| && r[..|SetupText|] == SetupText
    ensures r == SetupText <==> searchedPaths == []
  {
    Assemble(SetupText, SearchedHeading, searchedPaths)
  }

  /** A joined block, a heading and a joined run of lines, each on lines of
      their own, are one join of all the lines. */
  lemma JoinHeadedBlock(lines: seq<string>, heading: string, bullets: seq<string>)
    requires lines != [] && bullets != []
    ensures JoinWith(lines, "\n") + ("\n" + heading + "\n" + JoinWith(bullets, "\n"))
            == JoinWith(lines + [heading] + bullets, "\n")
  {
    JoinWithConcat([heading], bullets, "\n");
    JoinWithConcat(lines, [heading] + bullets, "\n");
    assert lines + [heading] + bullets == lines + ([heading] + bullets);
  }

  /** The help text with searched paths is the setup lines, the heading and
      one `  - <path>` line per searched path, in order, joined by line
      breaks. */
  lemma HelpTextJoin(searchedPaths: seq<string>)
    requires searchedPaths != []
    ensures CredentialHelpText(searchedPaths)
            == JoinWith(SetupLines + [SearchedHeading] + Bullets(searchedPaths), "\n")
  {
    JoinHeadedBlock(SetupLines, SearchedHeading, Bullets(searchedPaths));
  }

  /** No line of `lines` holds a line break. */
  predicate SingleLines(lines: seq<string>)
  {
    forall k :: 0 <= k < |lines| ==> '\n' !in lines[k]
  }

  lemma EnvSetupIsLines()
    ensures SingleLines(EnvSetupLines)
  {
  }

  lemma FileSetupIsLines()
    ensures SingleLines(FileSetupLines)
  {
  }

  lemma SetupIsLines()
    ensures SingleLines(SetupLines)
  {
    EnvSetupIsLines();
    FileSetupIsLines();
    var a, b := EnvSetupLines + [""], FileSetupLines;
    forall k | 0 <= k < |a + b| ensures '\n' !in (a + b)[k] {
      if k >= |a| {
        assert (a + b)[k] == b[k - |a|];
      } else if k < |EnvSetupLines| {
        assert (a + b)[k] == EnvSetupLines[k];
      }
    }
  }

  /** Split on line breaks, the setup instructions are exactly their lines;
      with no searched paths they are the whole help text. */
  lemma SetupTextLines()
    ensures SplitOn(SetupText, '\n') == SetupLines
  {
    SetupIsLines();
    SplitJoinRoundTrip(SetupLines, '\n');
  }

  /** A bullet line holds a line break only when its path does. */
  lemma BulletsAreLines(paths: seq<string>)
    requires forall k :: 0 <= k < |paths| ==> '\n' !in paths[k]
    ensures SingleLines(Bullets(paths))
  {
    forall k | 0 <= k < |paths| ensures '\n' !in BulletPrefix + paths[k] {
      assert '\n' !in BulletPrefix;
    }
  }

  /** Lines, a heading line and more lines, all without line breaks, split
      back into those lines after being joined by line breaks. */
  lemma HeadedLinesRoundTrip(lines: seq<string>, heading: string, more: seq<string>)
    requires SingleLines(lines) && '\n' !in heading && SingleLines(more)
    ensures SplitOn(JoinWith(lines + [heading] + more, "\n"), '\n') == lines + [heading] + more
  {
    var all := lines + [heading] + more;
    forall k | 0 <= k < |all| ensures '\n' !in all[k] {
      if k < |lines| {
        assert all[k] == lines[k];
      } else if k > |lines| {
        assert all[k] == more[k - |lines| - 1];
      }
    }
    SplitJoinRoundTrip(all, '\n');
  }

  /** For any setup block made of lines and a heading without line breaks,
      the assembled text splits into the block's lines, the heading, then one
      bullet per searched path. `CredentialHelpText` is this assembly over
      `SetupLines`, which `SetupIsLines` shows to be such lines. */
  lemma AssembleLines(lines: seq<string>, heading: string, paths: seq<string>)
    requires lines != [] && paths != []
    requires SingleLines(lines) && '\n' !in heading
    requires forall k :: 0 <= k < |paths| ==> '\n' !in paths[k]
    ensures SplitOn(Assemble(JoinWith(lines, "\n"), heading, paths), '\n')
            == lines + [heading] + Bullets(paths)
  {
    JoinHeadedBlock(lines, heading, Bullets(paths));
    BulletsAreLines(paths);
    HeadedLinesRoundTrip(lines, heading, Bullets(paths));
  }
}
