// The command-line entry point that feeds a markdown guide into a user's knowledge
// base: argument parsing over the argument vector and the defaults applied before
// the feed runs.

module FeedCli {
  import opened Common
  import opened Store
  import KnowledgeBase
  import Concepts

  /** The fields the command line can set. `None` is an unset field or one set to
      `undefined` by a flag in last position; for the chunk size it also stands for NaN,
      which every later use treats the same way. */
  datatype CliArgs = CliArgs(userId: Option<string>, source: Option<string>, chunkSize: Option<int>)

  const NoArgs := CliArgs(None, None, None)

  /** The usage error printed when no user is named. */
  const MissingUserMessage := "Error: --userId (-u) is required"

  datatype Flag = UserIdFlag | SourceFlag | ChunkSizeFlag

  /** The flag an argument spells, in its long or short form. */
  function FlagOf(arg: string): (f: Option<Flag>)
    ensures f == Some(UserIdFlag) <==> arg == "--userId" || arg == "-u"
    ensures f == Some(SourceFlag) <==> arg == "--source" || arg == "-s"
    ensures f == Some(ChunkSizeFlag) <==> arg == "--chunk-size" || arg == "-c"
  {
    if arg == "--userId" || arg == "-u" then Some(UserIdFlag)
    else if arg == "--source" || arg == "-s" then Some(SourceFlag)
    else if arg == "--chunk-size" || arg == "-c" then Some(ChunkSizeFlag)
    else None
  }

  /** `argv[i]`, which is `undefined` past the end. */
  function At(argv: seq<string>, i: nat): (v: Option<string>)
    ensures v.Some? <==> i < |argv|
    ensures i < |argv| ==> v.value == argv[i]
  {
    if i < |argv| then Some(argv[i]) else None
  }

  /** `parseInt(v, 10)`, where `parseInt(undefined, 10)` is NaN. */
  function ParseChunkSize(v: Option<string>): (n: Option<int>)
    ensures v.None? ==> n.None?
    ensures v.Some? ==> n == ParseInt(v.value)
  {
    if v.None? then None else ParseInt(v.value)
  }

  /** The record after flag `f` reads the value `v`. */
  function Set(args: CliArgs, f: Flag, v: Option<string>): (r: CliArgs)
    ensures f == UserIdFlag ==> r == args.(userId := v)
    ensures f == SourceFlag ==> r == args.(source := v)
    ensures f == ChunkSizeFlag ==> r == args.(chunkSize := ParseChunkSize(v))
  {
    match f
    case UserIdFlag => args.(userId := v)
    case SourceFlag => args.(source := v)
    case ChunkSizeFlag => args.(chunkSize := ParseChunkSize(v))
  }

  /** What reading `argv` from left to right does to `args`: a flag takes the argument
      after it as its value (`undefined` when there is none) and that argument is not read
      again; any other argument is skipped. */
  function Run(args: CliArgs, argv: seq<string>): CliArgs
    decreases |argv|
  {
    if argv == [] then args
    else match FlagOf(argv[0])
      case None => Run(args, argv[1..])
      case Some(f) =>
        if |argv| == 1 then Set(args, f, None)
        else Run(Set(args, f, Some(argv[1])), argv[2..])
  }

  /** The arguments left to read once the loop index is `i`. */
  function Rest(argv: seq<string>, i: nat): (rest: seq<string>)
    ensures i < |argv| ==> rest == argv[i..]
    ensures |argv| <= i ==> rest == []
  {
    if i < |argv| then argv[i..] else []
  }

  /** One step of the loop: the argument at `i` is skipped, or it is a flag that reads the
      argument after it. */
  lemma RunRest(args: CliArgs, argv: seq<string>, i: nat)
    requires i < |argv|
    ensures FlagOf(argv[i]).None? ==> Run(args, Rest(argv, i)) == Run(args, Rest(argv, i + 1))
    ensures FlagOf(argv[i]).Some? ==>
              Run(args, Rest(argv, i)) == Run(Set(args, FlagOf(argv[i]).value, At(argv, i + 1)), Rest(argv, i + 2))
  {
    var rest := argv[i..];
    assert rest[0] == argv[i];
    if i + 1 < |argv| {
      assert rest[1] == argv[i + 1];
      assert rest[2..] == Rest(argv, i + 2);
    }
    assert rest[1..] == Rest(argv, i + 1);
  }

  /** `parseArgs`, on the arguments after the program and script names. */
  method ParseArgs(argv: seq<string>) returns (args: CliArgs)
    ensures args == Run(NoArgs, argv)
  {
    args := NoArgs;
    var i := 0;
    while i < |argv|
      invariant i <= |argv| + 1
      invariant Run(args, Rest(argv, i)) == Run(NoArgs, argv)
      decreases |argv| + 1 - i
    {
      var arg := argv[i];
      RunRest(args, argv, i);
      if arg == "--userId" || arg == "-u" {
        assert FlagOf(arg) == Some(UserIdFlag);
        i := i + 1;
        args := args.(userId := At(argv, i));
      } else if arg == "--source" || arg == "-s" {
        assert FlagOf(arg) == Some(SourceFlag);
        i := i + 1;
        args := args.(source := At(argv, i));
      } else if arg == "--chunk-size" || arg == "-c" {
        assert FlagOf(arg) == Some(ChunkSizeFlag);
        i := i + 1;
        args := args.(chunkSize := ParseChunkSize(At(argv, i)));
      } else {
        assert FlagOf(arg).None?;
      }
      i := i + 1;
    }
  }

  /** `args` reads to its end without a flag left waiting for its value. */
  predicate Closed(argv: seq<string>)
    decreases |argv|
  {
    if argv == [] then true
    else if FlagOf(argv[0]).None? then Closed(argv[1..])
    else |argv| >= 2 && Closed(argv[2..])
  }

  /** Reading proceeds left to right: a closed prefix is read first, then the rest. */
  lemma {:induction false} RunAppend(args: CliArgs, xs: seq<string>, ys: seq<string>)
    requires Closed(xs)
    ensures Run(args, xs + ys) == Run(Run(args, xs), ys)
    decreases |xs|
  {
    if xs == [] {
      assert xs + ys == ys;
    } else {
      var zs := xs + ys;
      assert zs[0] == xs[0];
      match FlagOf(xs[0])
      case None =>
        assert zs[1..] == xs[1..] + ys;
        assert Run(args, zs) == Run(args, zs[1..]);
        RunAppend(args, xs[1..], ys);
      case Some(f) =>
        assert |xs| >= 2 && Closed(xs[2..]);
        assert zs[1] == xs[1];
        assert zs[2..] == xs[2..] + ys;
        assert Run(args, xs) == Run(Set(args, f, Some(xs[1])), xs[2..]);
        assert Run(args, zs) == Run(Set(args, f, Some(xs[1])), zs[2..]);
        RunAppend(Set(args, f, Some(xs[1])), xs[2..], ys);
    }
  }

  /** Arguments that spell no user flag leave the user field as it was; likewise for the
      source and the chunk size. */
  lemma {:induction false} RunKeepsUnmentioned(args: CliArgs, argv: seq<string>, f: Flag)
    requires forall k :: 0 <= k < |argv| ==> FlagOf(argv[k]) != Some(f)
    ensures f == UserIdFlag ==> Run(args, argv).userId == args.userId
    ensures f == SourceFlag ==> Run(args, argv).source == args.source
    ensures f == ChunkSizeFlag ==> Run(args, argv).chunkSize == args.chunkSize
    decreases |argv|
  {
    if argv != [] {
      match FlagOf(argv[0])
      case None =>
        RunKeepsUnmentioned(args, argv[1..], f);
      case Some(g) =>
        if |argv| > 1 {
          RunKeepsUnmentioned(Set(args, g, Some(argv[1])), argv[2..], f);
        }
    }
  }

  /** The last occurrence of a flag wins: after a closed prefix, the flag and its value,
      and arguments that never spell that flag again, the field holds that value. */
  lemma LastOccurrenceWins(xs: seq<string>, flag: string, v: string, ys: seq<string>)
    requires Closed(xs) && FlagOf(flag).Some?
    requires forall k :: 0 <= k < |ys| ==> FlagOf(ys[k]) != FlagOf(flag)
    ensures var args := Run(NoArgs, xs + [flag, v] + ys);
            && (FlagOf(flag) == Some(UserIdFlag) ==> args.userId == Some(v))
            && (FlagOf(flag) == Some(SourceFlag) ==> args.source == Some(v))
            && (FlagOf(flag) == Some(ChunkSizeFlag) ==> args.chunkSize == ParseInt(v))
  {
    var f := FlagOf(flag).value;
    RunAppend(NoArgs, xs, [flag, v] + ys);
    assert xs + [flag, v] + ys == xs + ([flag, v] + ys);
    var zs := [flag, v] + ys;
    assert zs[2..] == ys;
    RunKeepsUnmentioned(Set(Run(NoArgs, xs), f, Some(v)), ys, f);
  }

  /** Arguments that are no flag are ignored wherever they stand. */
  lemma IgnoresUnknown(args: CliArgs, x: string, ys: seq<string>)
    requires FlagOf(x).None?
    ensures Run(args, [x] + ys) == Run(args, ys)
  {
    assert ([x] + ys)[1..] == ys;
  }

  /** A flag's value is taken as it stands, even when it spells a flag itself, and reading
      resumes after it. */
  lemma ValueIsConsumed(args: CliArgs, flag: string, v: string, ys: seq<string>)
    requires FlagOf(flag).Some?
    ensures Run(args, [flag, v] + ys) == Run(Set(args, FlagOf(flag).value, Some(v)), ys)
  {
    assert ([flag, v] + ys)[2..] == ys;
  }

  /** A flag in last position sets its field to `undefined`. */
  lemma TrailingFlagIsUndefined(xs: seq<string>, flag: string)
    requires Closed(xs) && FlagOf(flag).Some?
    ensures var args := Run(NoArgs, xs + [flag]);
            && (FlagOf(flag) == Some(UserIdFlag) ==> args.userId.None?)
            && (FlagOf(flag) == Some(SourceFlag) ==> args.source.None?)
            && (FlagOf(flag) == Some(ChunkSizeFlag) ==> args.chunkSize.None?)
  {
    RunAppend(NoArgs, xs, [flag]);
  }

  /** `args.source || <default guide>`: an unset or empty source falls back to
      `defaultPath`, the reference guide's path joined onto the working directory, which
      is passed in because the working directory is not part of this model. */
  function SourcePath(args: CliArgs, defaultPath: string): (path: string)
    ensures args.source.Some? && args.source.value != [] ==> path == args.source.value
    ensures args.source.None? || args.source.value == [] ==> path == defaultPath
  {
    if args.source.Some? && args.source.value != [] then args.source.value else defaultPath
  }

  /** `args.chunkSize || 384`: an unset, NaN or zero chunk size falls back to 384 tokens. */
  function ChunkSize(args: CliArgs): (n: int)
    ensures n != 0
    ensures args.chunkSize.Some? && args.chunkSize.value != 0 ==> n == args.chunkSize.value
    ensures args.chunkSize.None? || args.chunkSize.value == 0 ==> n == KnowledgeBase.DefaultChunkSize
  {
    if args.chunkSize.Some? && args.chunkSize.value != 0 then args.chunkSize.value
    else KnowledgeBase.DefaultChunkSize
  }

  /** Passing the defaulted chunk size on changes nothing in the feed: it is the size the
      feed would have picked itself. */
  lemma ChunkSizeAgreesWithFeed(args: CliArgs)
    ensures KnowledgeBase.EffectiveChunkSize(Some(ChunkSize(args))) == KnowledgeBase.EffectiveChunkSize(args.chunkSize)
  {
  }

  /** `main`: parse the arguments; without a non-empty user id report the usage error and
      exit with status 1 before anything is fed; otherwise feed the source (or the
      default guide, `defaultPath`) with the defaulted chunk size, and exit with 0 on
      success and 1 on failure. */
  method FeedFromCommandLine(db: Db, svc: KnowledgeBase.IngestServices, argv: seq<string>, defaultPath: string)
    returns (status: int, r: Result<KnowledgeBase.FeedResult>)
    requires db.Valid()
    modifies db
    ensures db.Valid()
    ensures status == (if r.Ok? then 0 else 1)
    ensures var args := Run(NoArgs, argv);
            args.userId.None? || args.userId.value == [] ==>
              r == Err(Failure(MissingUserMessage)) && unchanged(db)
    ensures var args := Run(NoArgs, argv);
            args.userId.Some? && args.userId.value != [] ==>
              var text := KnowledgeBase.SourceText(svc, SourcePath(args, defaultPath));
              && (text.Err? ==> r == Err(text.error) && unchanged(db))
              && (text.Ok? ==>
                    KnowledgeBase.Fed(svc, args.userId.value, Concepts.ConceptsOf(Concepts.Sections(text.value)),
                                      ChunkSize(args), r, db.documents, db.embeddings))
  {
    var args := ParseArgs(argv);
    if args.userId.None? || args.userId.value == [] {
      return 1, Err(Failure(MissingUserMessage));
    }
    var size := ChunkSize(args);
    assert KnowledgeBase.EffectiveChunkSize(Some(size)) == size;
    r := KnowledgeBase.FeedKnowledgeBase(db, svc, args.userId.value, SourcePath(args, defaultPath), Some(size));
    status := if r.Ok? then 0 else 1;
  }
}
