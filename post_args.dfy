/** `parsePostArgs` (lib/x-cli-common.mjs): the token scan of the `x-post`
    command. The functions give the scan as a state machine, one token at a
    time; `ParsePostArgs` is the source's loop, proved equal to it. */
module PostArgs {
  import opened Wrappers
  import opened Text
  import opened TweetIds
  import opened ArgScan
  import opened Seqs

  /** The object `parsePostArgs` returns. */
  datatype PostIntent = PostIntent(
    help: bool,
    configPath: Option<string>,
    replyTo: Option<string>,
    quoteTo: Option<string>,
    text: string,
    error: Option<string>)

  const InitialPost: PostIntent := PostIntent(false, None, None, None, "", None)

  const ConflictError: string := "Cannot use --reply-to and --quote/--quote-url together."
  const MissingTextError: string := "Missing tweet text. Use --help for examples."

  function InvalidTargetError(option: string, value: string): string
  {
    "Invalid tweet ID for " + option + ": \"" + value + "\"."
  }

  function QuoteUrlError(value: string): string
  {
    "Failed to parse tweet ID from --quote-url value: \"" + value + "\"."
  }

  predicate IsReplyFlag(arg: string)
  {
    arg == "--reply-to" || arg == "-r"
  }

  /** The options that consume the following token. */
  predicate IsValueOption(arg: string)
  {
    IsConfigFlag(arg) || IsReplyFlag(arg) || arg == "--quote" || arg == "--quote-url"
  }

  /** The loop's variables: the `parseOptions` flag, the `parsed` object and
      `textParts`. */
  datatype PostScan = PostScan(live: bool, parsed: PostIntent, textParts: seq<string>)

  const InitialScan: PostScan := PostScan(true, InitialPost, [])

  /** Reply and quote targets, when set, are tweet IDs. */
  predicate TargetsValid(p: PostIntent)
  {
    (p.replyTo.Some? ==> IsTweetId(p.replyTo.value))
    && (p.quoteTo.Some? ==> IsTweetId(p.quoteTo.value))
  }

  /** What holds of `parsed` between two tokens. */
  predicate Pending(p: PostIntent)
  {
    !p.help && p.error == None && p.text == "" && TargetsValid(p)
  }

  /** One iteration of the loop, at token `i`. */
  function PostStep(args: seq<string>, i: nat, s: PostScan): (r: Step<PostScan, PostIntent>)
    requires i < |args|
    ensures r.Next? ==> i < r.next <= |args|
    ensures r.Next? ==> (r.next == i + 2 <==> s.live && IsValueOption(args[i]))
    ensures r.Next? && !(s.live && IsValueOption(args[i])) ==> r.next == i + 1
    ensures r.Next? ==> (r.state.live <==> s.live && args[i] != Separator)
    ensures r.Next? ==> r.state.parsed.help == s.parsed.help && r.state.parsed.error == s.parsed.error
                        && r.state.parsed.text == s.parsed.text
    ensures r.Next? && (!s.live || !StartsWithDash(args[i]))
            ==> r.state == s.(textParts := s.textParts + [args[i]])
    ensures r.Next? && r.next == i + 2 ==> r.state.textParts == s.textParts
    ensures r.Next? && r.next == i + 2 && IsConfigFlag(args[i])
            ==> r.state.parsed == s.parsed.(configPath := Some(args[i + 1]))
    ensures r.Stop? ==> s.live && StartsWithDash(args[i]) && args[i] != Separator
    ensures r.Stop? ==> (r.result.help <==> s.parsed.help || IsHelpFlag(args[i]))
    ensures r.Stop? && !IsHelpFlag(args[i]) ==> r.result.error.Some?
    ensures r.Stop? && IsHelpFlag(args[i]) ==> r.result.error == s.parsed.error
    ensures r.Stop? ==> r.result.configPath == s.parsed.configPath && r.result.replyTo == s.parsed.replyTo
                        && r.result.quoteTo == s.parsed.quoteTo && r.result.text == s.parsed.text
    ensures TargetsValid(s.parsed) && r.Next? ==> TargetsValid(r.state.parsed)
    ensures r.Next? ==> (s.parsed.replyTo.Some? ==> r.state.parsed.replyTo.Some?)
                        && (s.parsed.quoteTo.Some? ==> r.state.parsed.quoteTo.Some?)
  {
    var arg := args[i];
    var p := s.parsed;
    if s.live && arg == Separator then
      Next(i + 1, s.(live := false))
    else if s.live && IsHelpFlag(arg) then
      Stop(p.(help := true))
    else if s.live && IsConfigFlag(arg) then
      match OptionValue(args, i, arg)
      case Err(e) => Stop(p.(error := Some(e)))
      case Ok(v) => Next(i + 2, s.(parsed := p.(configPath := Some(v))))
    else if s.live && (IsReplyFlag(arg) || arg == "--quote") then
      match OptionValue(args, i, arg)
      case Err(e) => Stop(p.(error := Some(e)))
      case Ok(v) =>
        match NormalizeTweetId(v)
        case None => Stop(p.(error := Some(InvalidTargetError(arg, v))))
        case Some(id) =>
          if IsReplyFlag(arg) then Next(i + 2, s.(parsed := p.(replyTo := Some(id))))
          else Next(i + 2, s.(parsed := p.(quoteTo := Some(id))))
    else if s.live && arg == "--quote-url" then
      match OptionValue(args, i, arg)
      case Err(e) => Stop(p.(error := Some(e)))
      case Ok(v) =>
        match ExtractTweetIdFromUrl(v)
        case None => Stop(p.(error := Some(QuoteUrlError(v))))
        case Some(id) => Next(i + 2, s.(parsed := p.(quoteTo := Some(id))))
    else if s.live && StartsWithDash(arg) then
      Stop(p.(error := Some(UnknownOptionError(arg))))
    else
      Next(i + 1, s.(textParts := s.textParts + [arg]))
  }

  /** The loop from token `i` on, in scan state `s`. */
  function PostLoop(args: seq<string>, i: nat, s: PostScan): (r: LoopEnd<PostScan, PostIntent>)
    requires i <= |args|
    ensures Pending(s.parsed) && r.Finished? ==> Pending(r.state.parsed)
    ensures Pending(s.parsed) && r.Early? ==>
              (r.result.text == "" && TargetsValid(r.result) && (r.result.help <==> r.result.error == None))
    ensures r.Finished? && r.state.live ==> s.live
    ensures r.Finished? ==> |s.textParts| <= |r.state.textParts|
                            && r.state.textParts[..|s.textParts|] == s.textParts
    ensures r.Finished? ==> (s.parsed.replyTo.Some? ==> r.state.parsed.replyTo.Some?)
                            && (s.parsed.quoteTo.Some? ==> r.state.parsed.quoteTo.Some?)
    decreases |args| - i
  {
    if i == |args| then Finished(s)
    else
      match PostStep(args, i, s)
      case Stop(result) => Early(result)
      case Next(j, t) => PostLoop(args, j, t)
  }

  /** The checks after the loop: conflicting targets first, then the text. */
  function PostFinish(s: PostScan): (r: PostIntent)
    ensures r.help == s.parsed.help
    ensures r.configPath == s.parsed.configPath && r.replyTo == s.parsed.replyTo
            && r.quoteTo == s.parsed.quoteTo
    ensures s.parsed.replyTo.Some? && s.parsed.quoteTo.Some? ==> r.error == Some(ConflictError)
    ensures Pending(s.parsed) ==>
              (r.error == None <==> !(s.parsed.replyTo.Some? && s.parsed.quoteTo.Some?)
                                    && Trim(JoinWith(s.textParts, " ")) != "")
    ensures r.error == None ==> r.text == Trim(JoinWith(s.textParts, " "))
    ensures Pending(s.parsed) && r.error.Some? ==> r.text == ""
    ensures !(s.parsed.replyTo.Some? && s.parsed.quoteTo.Some?) && Trim(JoinWith(s.textParts, " ")) == ""
            ==> r.error == Some(MissingTextError)
  {
    var p := s.parsed;
    if p.replyTo.Some? && p.quoteTo.Some? then
      p.(error := Some(ConflictError))
    else
      var text := Trim(JoinWith(s.textParts, " "));
      if text == "" then p.(text := text, error := Some(MissingTextError))
      else p.(text := text)
  }

  /** What the final checks guarantee after a scan that ran to the end. */
  lemma PostFinishSound(s: PostScan)
    requires Pending(s.parsed)
    ensures var r := PostFinish(s);
            !r.help && (r.error.Some? ==> r.text == "") && TargetsValid(r)
            && (r.error == None ==>
                  !(r.replyTo.Some? && r.quoteTo.Some?) && r.text != "" && Trim(r.text) == r.text)
  {
    TrimIdempotent(JoinWith(s.textParts, " "));
  }

  /** The result of `parsePostArgs(args)`. */
  function PostSpec(args: seq<string>): (r: PostIntent)
    ensures r.help ==> r.error == None && r.text == ""
    ensures r.error.Some? ==> !r.help && r.text == ""
    ensures r.error == None && !r.help ==>
              !(r.replyTo.Some? && r.quoteTo.Some?) && r.text != "" && Trim(r.text) == r.text
    ensures TargetsValid(r)
  {
    match PostLoop(args, 0, InitialScan)
    case Early(result) => result
    case Finished(s) =>
      PostFinishSound(s);
      PostFinish(s)
  }

  /** A step that continues only looked at tokens before `|pre|`, so it is the
      same step whatever follows `pre`. */
  lemma PostStepExtend(pre: seq<string>, tail: seq<string>, i: nat, s: PostScan)
    requires i < |pre| && PostStep(pre, i, s).Next?
    ensures PostStep(pre + tail, i, s) == PostStep(pre, i, s)
  {
    var args := pre + tail;
    assert args[i] == pre[i];
    if i + 1 < |pre| {
      assert args[i + 1] == pre[i + 1];
      assert OptionValue(args, i, pre[i]) == OptionValue(pre, i, pre[i]);
    }
  }

  /** A step that continues at or before `k` is the same step on `args[..k]`. */
  lemma PostStepTruncate(args: seq<string>, k: nat, i: nat, s: PostScan)
    requires i < k <= |args|
    requires PostStep(args, i, s).Next? && PostStep(args, i, s).next <= k
    ensures PostStep(args[..k], i, s) == PostStep(args, i, s)
  {
    var pre := args[..k];
    assert pre[i] == args[i];
    if i + 1 < k {
      assert pre[i + 1] == args[i + 1];
      assert OptionValue(pre, i, args[i]) == OptionValue(args, i, args[i]);
    }
  }

  /** A scan of `pre` that runs to its end without returning is a prefix of
      the scan of any longer token list: that scan reaches `|pre|` in the
      same state. */
  lemma {:induction false} PostLoopExtend(pre: seq<string>, tail: seq<string>, i: nat, s: PostScan)
    requires i <= |pre| && PostLoop(pre, i, s).Finished?
    ensures PostLoop(pre + tail, i, s) == PostLoop(pre + tail, |pre|, PostLoop(pre, i, s).state)
    decreases |pre| - i
  {
    if i < |pre| {
      PostStepExtend(pre, tail, i, s);
      var step := PostStep(pre, i, s);
      PostLoopExtend(pre, tail, step.next, step.state);
    }
  }

  /** Help short-circuit: once the scan reaches `--help` or `-h` with options
      live, the result is `help` with no error, whatever tokens follow; the
      fields set before it are kept. */
  lemma PostHelpWins(pre: seq<string>, h: string, tail: seq<string>)
    requires IsHelpFlag(h)
    requires PostLoop(pre, 0, InitialScan).Finished? && PostLoop(pre, 0, InitialScan).state.live
    ensures PostSpec(pre + [h] + tail) == PostLoop(pre, 0, InitialScan).state.parsed.(help := true)
    ensures PostSpec(pre + [h] + tail).help && PostSpec(pre + [h] + tail).error == None
  {
    ConsAt(pre, h, tail);
    PostLoopExtend(pre, [h] + tail, 0, InitialScan);
    PostStepHelp(pre + [h] + tail, |pre|, PostLoop(pre, 0, InitialScan).state);
  }

  /** A help flag met with options live stops the scan with `help` set. */
  lemma PostStepHelp(args: seq<string>, i: nat, s: PostScan)
    requires i < |args| && s.live && IsHelpFlag(args[i])
    ensures PostLoop(args, i, s) == Early(s.parsed.(help := true))
  {
  }

  /** The separator met with options live turns option parsing off. */
  lemma PostStepSeparator(args: seq<string>, i: nat, s: PostScan)
    requires i < |args| && s.live && args[i] == Separator
    ensures PostLoop(args, i, s) == PostLoop(args, i + 1, s.(live := false))
  {
  }

  /** The scan of `args` reaches token `k` in a state that still parses options. */
  predicate ReachesLive(args: seq<string>, k: nat)
    requires k <= |args|
  {
    PostLoop(args[..k], 0, InitialScan).Finished? && PostLoop(args[..k], 0, InitialScan).state.live
  }

  lemma {:induction false} PostLoopHelpReached(args: seq<string>, i: nat, s: PostScan)
    requires i <= |args| && !s.parsed.help
    requires PostLoop(args, i, s).Early? && PostLoop(args, i, s).result.help
    ensures exists k :: i <= k < |args| && IsHelpFlag(args[k])
                        && PostLoop(args[..k], i, s).Finished? && PostLoop(args[..k], i, s).state.live
    decreases |args| - i
  {
    var step := PostStep(args, i, s);
    if step.Stop? {
      assert PostLoop(args[..i], i, s) == Finished(s);
    } else {
      PostLoopHelpReached(args, step.next, step.state);
      var k :| step.next <= k < |args| && IsHelpFlag(args[k])
               && PostLoop(args[..k], step.next, step.state).Finished?
               && PostLoop(args[..k], step.next, step.state).state.live;
      PostStepTruncate(args, k, i, s);
    }
  }

  /** Conversely, a help result only comes from a help flag the scan reached
      with options live. */
  lemma PostHelpOnlyFromFlag(args: seq<string>)
    requires PostSpec(args).help
    ensures exists k :: 0 <= k < |args| && IsHelpFlag(args[k]) && ReachesLive(args, k)
  {
    PostLoopHelpReached(args, 0, InitialScan);
  }

  /** Tokens that cannot be options, because option parsing is off or they do
      not start with `-`, are appended to the text parts in order. */
  lemma {:induction false} PostTextRun(args: seq<string>, i: nat, s: PostScan)
    requires i <= |args|
    requires forall k :: i <= k < |args| ==> !s.live || !StartsWithDash(args[k])
    ensures PostLoop(args, i, s) == Finished(s.(textParts := s.textParts + args[i..]))
    decreases |args| - i
  {
    if i < |args| {
      var t := s.(textParts := s.textParts + [args[i]]);
      assert !s.live || !StartsWithDash(args[i]);
      assert PostStep(args, i, s) == Next(i + 1, t);
      PostTextRun(args, i + 1, t);
      assert s.textParts + [args[i]] + args[i + 1..] == s.textParts + args[i..];
    } else {
      assert s.textParts + args[i..] == s.textParts;
    }
  }

  /** The `--` separator: after it no token is an option, `--` and `--help`
      included; every later token becomes text, in order. */
  lemma PostSeparator(pre: seq<string>, tail: seq<string>)
    requires PostLoop(pre, 0, InitialScan).Finished? && PostLoop(pre, 0, InitialScan).state.live
    ensures var s := PostLoop(pre, 0, InitialScan).state;
            PostSpec(pre + [Separator] + tail) == PostFinish(PostScan(false, s.parsed, s.textParts + tail))
  {
    var s := PostLoop(pre, 0, InitialScan).state;
    ConsAt(pre, Separator, tail);
    PostLoopExtend(pre, [Separator] + tail, 0, InitialScan);
    PostStepSeparator(pre + [Separator] + tail, |pre|, s);
    PostTextRun(pre + [Separator] + tail, |pre| + 1, s.(live := false));
  }

  /** A value option whose next token is absent, empty or starts with `-`
      stops the scan with `Missing value for <option>.`; a value option never
      takes `--`, `--help` or another option as its value. */
  lemma PostMissingValue(args: seq<string>, i: nat, s: PostScan)
    requires i < |args| && s.live && IsValueOption(args[i]) && args[i] != Separator
    requires i + 1 == |args| || args[i + 1] == "" || StartsWithDash(args[i + 1])
    ensures PostStep(args, i, s) == Stop(s.parsed.(error := Some(MissingValueError(args[i]))))
  {
  }

  /** `--config`/`-c` with options live: a missing value stops the scan with
      `Missing value for <option>.`; otherwise the next token becomes the
      configuration path, replacing any earlier one, and is consumed. */
  lemma PostStepConfig(args: seq<string>, i: nat, s: PostScan)
    requires i < |args| && s.live && IsConfigFlag(args[i])
    ensures OptionValue(args, i, args[i]).Err? ==>
              PostStep(args, i, s) == Stop(s.parsed.(error := Some(MissingValueError(args[i]))))
    ensures OptionValue(args, i, args[i]).Ok? ==>
              PostStep(args, i, s) == Next(i + 2, s.(parsed := s.parsed.(configPath := Some(args[i + 1]))))
  {
  }

  /** `--reply-to`/`-r` and `--quote` with a value: a value that is not a tweet
      ID once trimmed stops the scan with `Invalid tweet ID for <option>:
      "<value>".`; otherwise the trimmed value becomes the reply or quote
      target and is consumed. */
  lemma PostStepTarget(args: seq<string>, i: nat, s: PostScan)
    requires i + 1 < |args| && s.live && (IsReplyFlag(args[i]) || args[i] == "--quote")
    requires args[i + 1] != "" && !StartsWithDash(args[i + 1])
    ensures !IsTweetId(Trim(args[i + 1])) ==>
              PostStep(args, i, s) == Stop(s.parsed.(error := Some(InvalidTargetError(args[i], args[i + 1]))))
    ensures IsTweetId(Trim(args[i + 1])) && IsReplyFlag(args[i]) ==>
              PostStep(args, i, s) == Next(i + 2, s.(parsed := s.parsed.(replyTo := Some(Trim(args[i + 1])))))
    ensures IsTweetId(Trim(args[i + 1])) && args[i] == "--quote" ==>
              PostStep(args, i, s) == Next(i + 2, s.(parsed := s.parsed.(quoteTo := Some(Trim(args[i + 1])))))
  {
    var arg := args[i];
    assert arg != Separator && !IsHelpFlag(arg) && !IsConfigFlag(arg);
    assert OptionValue(args, i, arg) == Ok(args[i + 1]);
  }

  /** `--quote-url` with a value: a value without `/status/<digits>` stops the
      scan with `Failed to parse tweet ID from --quote-url value: "<value>".`;
      otherwise the extracted ID becomes the quote target. */
  lemma PostStepQuoteUrl(args: seq<string>, i: nat, s: PostScan)
    requires i + 1 < |args| && s.live && args[i] == "--quote-url"
    requires args[i + 1] != "" && !StartsWithDash(args[i + 1])
    ensures ExtractTweetIdFromUrl(args[i + 1]).None? ==>
              PostStep(args, i, s) == Stop(s.parsed.(error := Some(QuoteUrlError(args[i + 1]))))
    ensures ExtractTweetIdFromUrl(args[i + 1]).Some? ==>
              PostStep(args, i, s)
              == Next(i + 2, s.(parsed := s.parsed.(quoteTo := Some(ExtractTweetIdFromUrl(args[i + 1]).value))))
  {
    var arg := args[i];
    assert arg != Separator && !IsHelpFlag(arg) && !IsConfigFlag(arg) && !IsReplyFlag(arg) && arg != "--quote";
    assert OptionValue(args, i, arg) == Ok(args[i + 1]);
  }

  /** Any other dash token with options live stops the scan with
      `Unknown option: <token>`. */
  lemma PostStepUnknown(args: seq<string>, i: nat, s: PostScan)
    requires i < |args| && s.live && StartsWithDash(args[i]) && args[i] != Separator
    requires !IsHelpFlag(args[i]) && !IsValueOption(args[i])
    ensures PostStep(args, i, s) == Stop(s.parsed.(error := Some(UnknownOptionError(args[i]))))
  {
  }

  /** Conflicting targets: once a scan has set both a reply and a quote
      target, in either order, a scan that runs to the end fails with the
      conflict error, whatever the text. */
  lemma PostBothTargetsConflict(pre: seq<string>, tail: seq<string>)
    requires PostLoop(pre, 0, InitialScan).Finished?
    requires PostLoop(pre, 0, InitialScan).state.parsed.replyTo.Some?
    requires PostLoop(pre, 0, InitialScan).state.parsed.quoteTo.Some?
    requires PostLoop(pre + tail, 0, InitialScan).Finished?
    ensures PostSpec(pre + tail).error == Some(ConflictError)
  {
    PostLoopExtend(pre, tail, 0, InitialScan);
  }

  /** `parsePostArgs`, with its `for` loop, manual index advance, mutable
      `parseOptions` flag, pushes to `textParts` and early returns. */
  method ParsePostArgs(args: seq<string>) returns (r: PostIntent)
    ensures r == PostSpec(args)
  {
    var parsed := InitialPost;
    var textParts: seq<string> := [];
    var parseOptions := true;
    var i := 0;
    while i < |args|
      invariant 0 <= i <= |args|
      invariant PostLoop(args, i, PostScan(parseOptions, parsed, textParts)) == PostLoop(args, 0, InitialScan)
      decreases |args| - i
    {
      var arg := args[i];
      if parseOptions && arg == Separator {
        parseOptions := false;
        i := i + 1;
        continue;
      }
      if parseOptions && IsHelpFlag(arg) {
        return parsed.(help := true);
      }
      if parseOptions && IsConfigFlag(arg) {
        var opt := OptionValue(args, i, arg);
        if opt.Err? {
          return parsed.(error := Some(opt.error));
        }
        parsed := parsed.(configPath := Some(opt.value));
        i := i + 2;
        continue;
      }
      if parseOptions && IsReplyFlag(arg) {
        var opt := OptionValue(args, i, arg);
        if opt.Err? {
          return parsed.(error := Some(opt.error));
        }
        var tweetId := NormalizeTweetId(opt.value);
        if tweetId.None? {
          return parsed.(error := Some(InvalidTargetError(arg, opt.value)));
        }
        parsed := parsed.(replyTo := tweetId);
        i := i + 2;
        continue;
      }
      if parseOptions && arg == "--quote" {
        var opt := OptionValue(args, i, arg);
        if opt.Err? {
          return parsed.(error := Some(opt.error));
        }
        var tweetId := NormalizeTweetId(opt.value);
        if tweetId.None? {
          return parsed.(error := Some(InvalidTargetError(arg, opt.value)));
        }
        parsed := parsed.(quoteTo := tweetId);
        i := i + 2;
        continue;
      }
      if parseOptions && arg == "--quote-url" {
        var opt := OptionValue(args, i, arg);
        if opt.Err? {
          return parsed.(error := Some(opt.error));
        }
        var tweetId := ExtractTweetIdFromUrl(opt.value);
        if tweetId.None? {
          return parsed.(error := Some(QuoteUrlError(opt.value)));
        }
        parsed := parsed.(quoteTo := tweetId);
        i := i + 2;
        continue;
      }
      if parseOptions && StartsWithDash(arg) {
        return parsed.(error := Some(UnknownOptionError(arg)));
      }
      textParts := textParts + [arg];
      i := i + 1;
    }

    if parsed.replyTo.Some? && parsed.quoteTo.Some? {
      return parsed.(error := Some(ConflictError));
    }
    parsed := parsed.(text := Trim(JoinWith(textParts, " ")));
    if parsed.text == "" {
      return parsed.(error := Some(MissingTextError));
    }
    return parsed;
  }
}
