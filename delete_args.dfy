/** `parseDeleteArgs` (lib/x-cli-common.mjs): the token scan of the
    `x-delete` command, as a state machine and as the source's loop. */
module DeleteArgs {
  import opened Wrappers
  import opened Text
  import opened TweetIds
  import opened ArgScan
  import opened Seqs

  /** The object `parseDeleteArgs` returns. */
  datatype DeleteIntent = DeleteIntent(
    help: bool,
    configPath: Option<string>,
    tweetIds: seq<string>,
    error: Option<string>)

  const InitialDelete: DeleteIntent := DeleteIntent(false, None, [], None)

  const NoIdsError: string := "At least one tweet ID is required. Use --help for examples."

  function InvalidIdError(arg: string): string
  {
    "Invalid tweet ID: \"" + arg + "\"."
  }

  /** The loop's variables: the `parseOptions` flag and the `parsed` object. */
  datatype DeleteScan = DeleteScan(live: bool, parsed: DeleteIntent)

  const InitialScan: DeleteScan := DeleteScan(true, InitialDelete)

  predicate AllTweetIds(ids: seq<string>)
  {
    forall k :: 0 <= k < |ids| ==> IsTweetId(ids[k])
  }

  /** What holds of `parsed` between two tokens. */
  predicate Pending(p: DeleteIntent)
  {
    !p.help && p.error == None && AllTweetIds(p.tweetIds)
  }

  /** The trimmed form of each token, in order. */
  function Trimmed(tokens: seq<string>): (r: seq<string>)
    ensures |r| == |tokens|
    ensures forall k :: 0 <= k < |r| ==> r[k] == Trim(tokens[k])
  {
    if tokens == [] then [] else [Trim(tokens[0])] + Trimmed(tokens[1..])
  }

  /** Peeling the first token of a suffix off `Trimmed`. */
  lemma TrimmedSuffixCons(args: seq<string>, i: nat)
    requires i < |args|
    ensures Trimmed(args[i..]) == [Trim(args[i])] + Trimmed(args[i + 1..])
  {
    assert args[i..][0] == args[i];
    assert args[i..][1..] == args[i + 1..];
  }

  /** One iteration of the loop, at token `i`. */
  function DeleteStep(args: seq<string>, i: nat, s: DeleteScan): (r: Step<DeleteScan, DeleteIntent>)
    requires i < |args|
    ensures r.Next? ==> i < r.next <= |args|
    ensures r.Next? ==> (r.next == i + 2 <==> s.live && IsConfigFlag(args[i]))
    ensures r.Next? ==> (r.state.live <==> s.live && args[i] != Separator)
    ensures r.Next? ==> r.state.parsed.help == s.parsed.help && r.state.parsed.error == s.parsed.error
    ensures r.Next? && r.next == i + 2 ==> r.state.parsed == s.parsed.(configPath := Some(args[i + 1]))
    ensures (!s.live || !StartsWithDash(args[i])) ==>
              if IsTweetId(Trim(args[i]))
              then r == Next(i + 1, s.(parsed := s.parsed.(tweetIds := s.parsed.tweetIds + [Trim(args[i])])))
              else r == Stop(s.parsed.(error := Some(InvalidIdError(args[i]))))
    ensures r.Stop? ==> (r.result.help <==> s.parsed.help || (s.live && IsHelpFlag(args[i])))
    ensures r.Stop? && r.result.help && !s.parsed.help ==> r.result.error == s.parsed.error
    ensures r.Stop? && !(s.live && IsHelpFlag(args[i])) ==> r.result.error.Some?
    ensures r.Stop? ==> r.result.configPath == s.parsed.configPath && r.result.tweetIds == s.parsed.tweetIds
    ensures AllTweetIds(s.parsed.tweetIds) && r.Next? ==> AllTweetIds(r.state.parsed.tweetIds)
  {
    var arg := args[i];
    var p := s.parsed;
    if s.live && arg == Separator then
      Next(i + 1, s.(live := false))
    else if s.live && IsHelpFlag(arg) then
      Stop(p.(help := true))
    else if s.live && IsConfigFlag(arg) then
      match OptionValue(args, i, arg)
      case Err(e) => Stop(p.(error := Some(e)))
      case Ok(v) => Next(i + 2, s.(parsed := p.(configPath := Some(v))))
    else if s.live && StartsWithDash(arg) then
      Stop(p.(error := Some(UnknownOptionError(arg))))
    else
      match NormalizeTweetId(arg)
      case None => Stop(p.(error := Some(InvalidIdError(arg))))
      case Some(id) => Next(i + 1, s.(parsed := p.(tweetIds := p.tweetIds + [id])))
  }

  /** The loop from token `i` on, in scan state `s`. */
  function DeleteLoop(args: seq<string>, i: nat, s: DeleteScan): (r: LoopEnd<DeleteScan, DeleteIntent>)
    requires i <= |args|
    ensures Pending(s.parsed) && r.Finished? ==> Pending(r.state.parsed)
    ensures Pending(s.parsed) && r.Early? ==>
              (AllTweetIds(r.result.tweetIds) && (r.result.help <==> r.result.error == None))
    ensures r.Finished? && r.state.live ==> s.live
    decreases |args| - i
  {
    if i == |args| then Finished(s)
    else
      match DeleteStep(args, i, s)
      case Stop(result) => Early(result)
      case Next(j, t) => DeleteLoop(args, j, t)
  }

  /** The check after the loop: at least one ID. */
  function DeleteFinish(s: DeleteScan): (r: DeleteIntent)
    ensures r.help == s.parsed.help && r.configPath == s.parsed.configPath
            && r.tweetIds == s.parsed.tweetIds
    ensures s.parsed.error == None ==> (r.error == None <==> s.parsed.tweetIds != [])
    ensures s.parsed.tweetIds == [] ==> r.error == Some(NoIdsError)
  {
    if s.parsed.tweetIds == [] then s.parsed.(error := Some(NoIdsError)) else s.parsed
  }

  /** The result of `parseDeleteArgs(args)`. */
  function DeleteSpec(args: seq<string>): (r: DeleteIntent)
    ensures r.help ==> r.error == None
    ensures r.error.Some? ==> !r.help
    ensures r.error == None && !r.help ==> r.tweetIds != []
    ensures AllTweetIds(r.tweetIds)
  {
    match DeleteLoop(args, 0, InitialScan)
    case Early(result) => result
    case Finished(s) => DeleteFinish(s)
  }

  /** A step that continues only looked at tokens before `|pre|`. */
  lemma DeleteStepExtend(pre: seq<string>, tail: seq<string>, i: nat, s: DeleteScan)
    requires i < |pre| && DeleteStep(pre, i, s).Next?
    ensures DeleteStep(pre + tail, i, s) == DeleteStep(pre, i, s)
  {
    var args := pre + tail;
    assert args[i] == pre[i];
    if i + 1 < |pre| {
      assert args[i + 1] == pre[i + 1];
      assert OptionValue(args, i, pre[i]) == OptionValue(pre, i, pre[i]);
    }
  }

  /** A step that continues at or before `k` is the same step on `args[..k]`. */
  lemma DeleteStepTruncate(args: seq<string>, k: nat, i: nat, s: DeleteScan)
    requires i < k <= |args|
    requires DeleteStep(args, i, s).Next? && DeleteStep(args, i, s).next <= k
    ensures DeleteStep(args[..k], i, s) == DeleteStep(args, i, s)
  {
    var pre := args[..k];
    assert pre[i] == args[i];
    if i + 1 < k {
      assert pre[i + 1] == args[i + 1];
      assert OptionValue(pre, i, args[i]) == OptionValue(args, i, args[i]);
    }
  }

  /** A scan of `pre` that runs to its end without returning is a prefix of
      the scan of any longer token list. */
  lemma {:induction false} DeleteLoopExtend(pre: seq<string>, tail: seq<string>, i: nat, s: DeleteScan)
    requires i <= |pre| && DeleteLoop(pre, i, s).Finished?
    ensures DeleteLoop(pre + tail, i, s) == DeleteLoop(pre + tail, |pre|, DeleteLoop(pre, i, s).state)
    decreases |pre| - i
  {
    if i < |pre| {
      DeleteStepExtend(pre, tail, i, s);
      var step := DeleteStep(pre, i, s);
      DeleteLoopExtend(pre, tail, step.next, step.state);
    }
  }

  /** Help short-circuit: once the scan reaches `--help` or `-h` with options
      live, the result is `help` with no error, whatever tokens follow; the
      configuration path and IDs collected before it are kept. */
  lemma DeleteHelpWins(pre: seq<string>, h: string, tail: seq<string>)
    requires IsHelpFlag(h)
    requires DeleteLoop(pre, 0, InitialScan).Finished? && DeleteLoop(pre, 0, InitialScan).state.live
    ensures DeleteSpec(pre + [h] + tail) == DeleteLoop(pre, 0, InitialScan).state.parsed.(help := true)
    ensures DeleteSpec(pre + [h] + tail).help && DeleteSpec(pre + [h] + tail).error == None
  {
    ConsAt(pre, h, tail);
    DeleteLoopExtend(pre, [h] + tail, 0, InitialScan);
    DeleteStepHelp(pre + [h] + tail, |pre|, DeleteLoop(pre, 0, InitialScan).state);
  }

  lemma {:induction false} DeleteLoopHelpReached(args: seq<string>, i: nat, s: DeleteScan)
    requires i <= |args| && !s.parsed.help
    requires DeleteLoop(args, i, s).Early? && DeleteLoop(args, i, s).result.help
    ensures exists k :: i <= k < |args| && IsHelpFlag(args[k])
                        && DeleteLoop(args[..k], i, s).Finished? && DeleteLoop(args[..k], i, s).state.live
    decreases |args| - i
  {
    var step := DeleteStep(args, i, s);
    if step.Stop? {
      assert DeleteLoop(args[..i], i, s) == Finished(s);
    } else {
      DeleteLoopHelpReached(args, step.next, step.state);
      var k :| step.next <= k < |args| && IsHelpFlag(args[k])
               && DeleteLoop(args[..k], step.next, step.state).Finished?
               && DeleteLoop(args[..k], step.next, step.state).state.live;
      DeleteStepTruncate(args, k, i, s);
    }
  }

  /** Conversely, a help result only comes from a help flag the scan reached
      with options live. */
  lemma DeleteHelpOnlyFromFlag(args: seq<string>)
    requires DeleteSpec(args).help
    ensures exists k :: 0 <= k < |args| && IsHelpFlag(args[k])
                        && DeleteLoop(args[..k], 0, InitialScan).Finished?
                        && DeleteLoop(args[..k], 0, InitialScan).state.live
  {
    DeleteLoopHelpReached(args, 0, InitialScan);
  }

  /** The scan state `s` with `ids` appended to the collected IDs. */
  function WithIds(s: DeleteScan, ids: seq<string>): DeleteScan
  {
    s.(parsed := s.parsed.(tweetIds := s.parsed.tweetIds + ids))
  }

  lemma WithIdsTwice(s: DeleteScan, a: seq<string>, b: seq<string>)
    ensures WithIds(WithIds(s, a), b) == WithIds(s, a + b)
  {
    assert s.parsed.tweetIds + a + b == s.parsed.tweetIds + (a + b);
  }

  /** A help flag met with options live stops the scan with `help` set. */
  lemma DeleteStepHelp(args: seq<string>, i: nat, s: DeleteScan)
    requires i < |args| && s.live && IsHelpFlag(args[i])
    ensures DeleteLoop(args, i, s) == Early(s.parsed.(help := true))
  {
  }

  /** The separator met with options live turns option parsing off. */
  lemma DeleteStepSeparator(args: seq<string>, i: nat, s: DeleteScan)
    requires i < |args| && s.live && args[i] == Separator
    ensures DeleteLoop(args, i, s) == DeleteLoop(args, i + 1, s.(live := false))
  {
  }

  /** `--config`/`-c` with options live: a missing value stops the scan with
      `Missing value for <option>.`; otherwise the next token becomes the
      configuration path, replacing any earlier one, and is consumed. */
  lemma DeleteStepConfig(args: seq<string>, i: nat, s: DeleteScan)
    requires i < |args| && s.live && IsConfigFlag(args[i])
    ensures OptionValue(args, i, args[i]).Err? ==>
              DeleteStep(args, i, s) == Stop(s.parsed.(error := Some(MissingValueError(args[i]))))
    ensures OptionValue(args, i, args[i]).Ok? ==>
              DeleteStep(args, i, s) == Next(i + 2, s.(parsed := s.parsed.(configPath := Some(args[i + 1]))))
  {
  }

  /** Any other dash token with options live stops the scan with
      `Unknown option: <token>`. */
  lemma DeleteStepUnknown(args: seq<string>, i: nat, s: DeleteScan)
    requires i < |args| && s.live && StartsWithDash(args[i]) && args[i] != Separator
    requires !IsHelpFlag(args[i]) && !IsConfigFlag(args[i])
    ensures DeleteStep(args, i, s) == Stop(s.parsed.(error := Some(UnknownOptionError(args[i]))))
  {
  }

  /** A token that cannot be an option and is a tweet ID is appended, trimmed. */
  lemma DeleteStepId(args: seq<string>, i: nat, s: DeleteScan)
    requires i < |args| && (!s.live || !StartsWithDash(args[i])) && IsTweetId(Trim(args[i]))
    ensures DeleteLoop(args, i, s) == DeleteLoop(args, i + 1, WithIds(s, [Trim(args[i])]))
  {
  }

  /** A token that cannot be an option and is not a tweet ID stops the scan. */
  lemma DeleteStepInvalid(args: seq<string>, i: nat, s: DeleteScan)
    requires i < |args| && (!s.live || !StartsWithDash(args[i])) && !IsTweetId(Trim(args[i]))
    ensures DeleteLoop(args, i, s) == Early(s.parsed.(error := Some(InvalidIdError(args[i]))))
  {
  }

  /** Tokens `i` to `k` of `args` are all tweet IDs that the scan cannot take
      for options (option parsing is off, or they do not start with `-`). */
  predicate IdTokens(args: seq<string>, i: nat, k: nat, live: bool)
    requires i <= k <= |args|
  {
    forall j :: i <= j < k ==> (!live || !StartsWithDash(args[j])) && IsTweetId(Trim(args[j]))
  }

  /** A run of such tokens is appended, trimmed, in order. */
  lemma {:induction false} DeleteIdRun(args: seq<string>, i: nat, s: DeleteScan)
    requires i <= |args| && IdTokens(args, i, |args|, s.live)
    ensures DeleteLoop(args, i, s) == Finished(WithIds(s, Trimmed(args[i..])))
    decreases |args| - i
  {
    if i < |args| {
      var x := Trim(args[i]);
      assert IdTokens(args, i + 1, |args|, WithIds(s, [x]).live);
      DeleteIdRun(args, i + 1, WithIds(s, [x]));
      DeleteStepId(args, i, s);
      TrimmedSuffixCons(args, i);
      WithIdsTwice(s, [x], Trimmed(args[i + 1..]));
    } else {
      assert Trimmed(args[i..]) == [];
      assert WithIds(s, []) == s by {
        assert s.parsed.tweetIds + [] == s.parsed.tweetIds;
      }
    }
  }

  /** After such a run, a token the scan cannot take for an option that is not
      a tweet ID stops the scan with `Invalid tweet ID: "<token>".`, keeping
      the IDs before it. */
  lemma DeleteFirstInvalid(args: seq<string>, i: nat, k: nat, s: DeleteScan)
    requires i <= k < |args| && IdTokens(args, i, k, s.live)
    requires (!s.live || !StartsWithDash(args[k])) && !IsTweetId(Trim(args[k]))
    ensures DeleteLoop(args, i, s)
            == Early(WithIds(s, Trimmed(args[i..k])).parsed.(error := Some(InvalidIdError(args[k]))))
  {
    var pre, tail := args[..k], args[k..];
    assert IdTokens(pre, i, |pre|, s.live) by {
      forall j | i <= j < k ensures pre[j] == args[j] { }
    }
    DeleteIdRun(pre, i, s);
    assert pre[i..] == args[i..k];
    TakeDrop(args, k);
    DeleteLoopExtend(pre, tail, i, s);
    DeleteStepInvalid(args, k, WithIds(s, Trimmed(args[i..k])));
  }

  /** The `--` separator: after it no token is an option, so a tail of tweet
      IDs is collected, trimmed and in order, before the final check. */
  lemma DeleteSeparator(pre: seq<string>, tail: seq<string>)
    requires DeleteLoop(pre, 0, InitialScan).Finished? && DeleteLoop(pre, 0, InitialScan).state.live
    requires forall k :: 0 <= k < |tail| ==> IsTweetId(Trim(tail[k]))
    ensures var s := DeleteLoop(pre, 0, InitialScan).state;
            DeleteSpec(pre + [Separator] + tail)
            == DeleteFinish(WithIds(DeleteScan(false, s.parsed), Trimmed(tail)))
  {
    var s := DeleteLoop(pre, 0, InitialScan).state;
    ConsAt(pre, Separator, tail);
    DeleteLoopExtend(pre, [Separator] + tail, 0, InitialScan);
    DeleteStepSeparator(pre + [Separator] + tail, |pre|, s);
    DeleteTailIds(pre + [Separator] + tail, |pre| + 1, tail, s.(live := false));
  }

  /** A suffix of tweet IDs scanned with option parsing off. */
  lemma DeleteTailIds(args: seq<string>, i: nat, tail: seq<string>, s: DeleteScan)
    requires i <= |args| && args[i..] == tail && !s.live
    requires forall k :: 0 <= k < |tail| ==> IsTweetId(Trim(tail[k]))
    ensures DeleteLoop(args, i, s) == Finished(WithIds(s, Trimmed(tail)))
  {
    assert IdTokens(args, i, |args|, false) by {
      forall j | i <= j < |args| ensures args[j] == tail[j - i] { }
    }
    DeleteIdRun(args, i, s);
  }

  /** `parseDeleteArgs`, with its `for` loop, manual index advance, mutable
      `parseOptions` flag, pushes to `parsed.tweetIds` and early returns. */
  method ParseDeleteArgs(args: seq<string>) returns (r: DeleteIntent)
    ensures r == DeleteSpec(args)
  {
    var parsed := InitialDelete;
    var parseOptions := true;
    var i := 0;
    while i < |args|
      invariant 0 <= i <= |args|
      invariant DeleteLoop(args, i, DeleteScan(parseOptions, parsed)) == DeleteLoop(args, 0, InitialScan)
      decreases |args| - i
    {
      var arg := args[i];
      if parseOptions && arg == Separator {
        parseOptions := false;
        i := i + 1;
        continue;
      }
      if parseOptions && IsHelpFlag(arg) {
        return parsed.(help := true);
      }
      if parseOptions && IsConfigFlag(arg) {
        var opt := OptionValue(args, i, arg);
        if opt.Err? {
          return parsed.(error := Some(opt.error));
        }
        parsed := parsed.(configPath := Some(opt.value));
        i := i + 2;
        continue;
      }
      if parseOptions && StartsWithDash(arg) {
        return parsed.(error := Some(UnknownOptionError(arg)));
      }
      var tweetId := NormalizeTweetId(arg);
      if tweetId.None? {
        return parsed.(error := Some(InvalidIdError(arg)));
      }
      parsed := parsed.(tweetIds := parsed.tweetIds + [tweetId.value]);
      i := i + 1;
    }

    if |parsed.tweetIds| == 0 {
      return parsed.(error := Some(NoIdsError));
    }
    return parsed;
  }
}
