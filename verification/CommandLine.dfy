/** The way of a command line from LDMD's arguments and DFLAGS to the list LDC
    parses: insertion, translation, hand-over and config file switches. */
module CommandLine {
  import opened Arguments
  import opened Translate
  import opened ResponseFile
  import opened Expansion
  import opened ResponseExpand
  import Sequences

  /** LDMD knows -run only; LDC's isRunArg also accepts --run. */
  predicate IsRun(arg: string, long: bool) { arg == "-run" || (long && arg == "--run") }

  /** The first position from `i` on of a run argument, or the length. */
  function RunPosition(args: seq<string>, i: nat, long: bool): (k: nat)
    requires i <= |args|
    ensures i <= k <= |args|
    ensures forall j :: i <= j < k ==> !IsRun(args[j], long)
    ensures k < |args| ==> IsRun(args[k], long)
    decreases |args| - i
  {
    if i == |args| || IsRun(args[i], long) then i else RunPosition(args, i + 1, long)
  }

  /** Insertion before a first run argument behind argv[0], else at the end. */
  function BeforeFirstRun(args: seq<string>, more: seq<string>, long: bool): seq<string>
    requires args != []
  {
    var k := RunPosition(args, 1, long);
    args[..k] + more + args[k..]
  }

  method FindRunIndex(args: seq<string>, long: bool) returns (runIndex: nat)
    requires args != []
    ensures runIndex == 0 ==> RunPosition(args, 1, long) == |args|
    ensures runIndex != 0 ==> RunPosition(args, 1, long) == runIndex < |args|
  {
    runIndex := 0;
    var i := 1;
    while i < |args|
      invariant 1 <= i <= |args| && RunPosition(args, 1, long) == RunPosition(args, i, long)
    {
      if IsRun(args[i], long) {
        return i;
      }
      i := i + 1;
    }
  }

  /** The start of translateArgs: DFLAGS go before a first -run, or to the end. */
  method InsertDflags(args: seq<string>, dflags: seq<string>) returns (r: seq<string>)
    requires args != []
    ensures r == BeforeFirstRun(args, dflags, false)
  {
    r := args;
    if dflags != [] {
      var runIndex := FindRunIndex(args, false);
      var at := if runIndex == 0 then |args| else runIndex;
      r := args[..at] + dflags + args[at..];
    }
  }

  class ArgVector {
    var items: seq<string>
    constructor (items: seq<string>)
      ensures this.items == items
    {
      this.items := items;
    }
  }

  function Extended(args: seq<string>, switches: seq<string>, postSwitches: seq<string>): seq<string>
    requires args != []
  {
    BeforeFirstRun(args[..1] + switches + args[1..], postSwitches, true)
  }

  class ConfigFile {
    var switches: seq<string>
    var postSwitches: seq<string>

    constructor (switches: seq<string>, postSwitches: seq<string>)
      ensures this.switches == switches && this.postSwitches == postSwitches
    {
      this.switches, this.postSwitches := switches, postSwitches;
    }

    method ExtendCommandLine(args: ArgVector)
      requires args.items != []
      modifies args
      ensures args.items == Extended(old(args.items), switches, postSwitches)
    {
      args.items := args.items[..1] + switches + args.items[1..];
      var runIndex := FindRunIndex(args.items, true);
      var at := if runIndex == 0 then |args.items| else runIndex;
      args.items := args.items[..at] + postSwitches + args.items[at..];
    }
  }

  // ----- everything from -run on arrives unchanged

  predicate EndsWith(s: seq<string>, suffix: seq<string>) {
    |suffix| <= |s| && s[|s| - |suffix|..] == suffix
  }

  lemma EndsWithTrans(a: seq<string>, b: seq<string>, c: seq<string>)
    requires EndsWith(a, b) && EndsWith(b, c)
    ensures EndsWith(a, c)
  {
    assert a[|a| - |c|..] == a[|a| - |b|..][|b| - |c|..];
  }

  lemma EndsWithAppend(a: seq<string>, b: seq<string>)
    ensures EndsWith(a + b, b)
  {
  }

  lemma {:induction false} RunPositionFirst(args: seq<string>, i: nat, long: bool, k: nat)
    requires i <= k < |args| && IsRun(args[k], long)
    ensures RunPosition(args, i, long) <= k
  {
    hide RunPosition;
  }

  /** Config switches keep a suffix that starts with a run argument. */
  lemma ExtendedKeepsRun(args: seq<string>, switches: seq<string>, post: seq<string>, tail: seq<string>)
    requires EndsWith(args, tail) && |tail| < |args| && tail != [] && IsRun(tail[0], true)
    ensures EndsWith(Extended(args, switches, post), tail)
  {
    var t := args[..1] + switches + args[1..];
    assert args[1..][|args| - 1 - |tail|..] == tail;
    assert t[|t| - |tail|..] == tail;
    var at := |t| - |tail|;
    assert t[at] == t[at..][0];
    RunPositionFirst(t, 1, true, at);
    var k := RunPosition(t, 1, true);
    assert t[k..][at - k..] == tail;
    EndsWithAppend(t[..k] + post, t[k..]);
    EndsWithTrans(Extended(args, switches, post), t[k..], tail);
  }

  /** DFLAGS insertion keeps the user's arguments from -run on at the end of what
      LDMD takes verbatim, even if DFLAGS itself holds a -run. */
  lemma {:induction false} DflagsKeepRun(args: seq<string>, dflags: seq<string>)
    requires args != [] && RunPosition(args, 1, false) < |args|
    ensures var k := RunPosition(args, 1, false); var c := BeforeFirstRun(args, dflags, false);
      && c != [] && FromRun(c[1..]) != [] && FromRun(c[1..])[0] == "-run"
      && EndsWith(FromRun(c[1..]), args[k..])
  {
    hide FromRun, RunPosition;
    var k := RunPosition(args, 1, false);
    var c := BeforeFirstRun(args, dflags, false);
    assert c[1..] == args[1..k] + (dflags + args[k..]);
    assert "-run" !in args[1..k];
    FromRunAppend(args[1..k], dflags + args[k..]);
    FromRunAppend(dflags, args[k..]);
    assert args[k..][0] == "-run";
    FromRunHead(args[k..]);
    FromRunStays(args[k..]);
    if "-run" in dflags {
      EndsWithAppend(FromRun(dflags), args[k..]);
      FromRunHead(dflags);
    }
  }

  // ----- what LDC makes of the list it is handed

  /** LDMD's hand-over: the arguments themselves, or their response file. */
  function Argv(t: seq<string>, fits: bool, path: string): seq<string>
    requires t != []
  {
    if fits then t else [t[0], "@" + path]
  }

  /** The files LDC finds, the response file among them. */
  function Disk(files: Texts, t: seq<string>, fits: bool, path: string): Texts
    requires t != []
  {
    if fits then files else files[path := Content(t[1..])]
  }

  /** LDC's arguments once it has expanded all response files. */
  function Received(files: Texts, t: seq<string>, fits: bool, path: string): Unfolding
    requires t != []
  {
    Unfold(Disk(files, t, fits, path), {}, Argv(t, fits, path))
  }

  /** LDC's final list: the config file's switches are inserted and everything is
      expanded once more. */
  function Parsed(files: Texts, t: seq<string>, fits: bool, path: string,
                  switches: seq<string>, post: seq<string>): Unfolding
    requires t != []
  {
    var r := Received(files, t, fits, path);
    if r.args == [] then r else Unfold(Disk(files, t, fits, path), {}, Extended(r.args, switches, post))
  }

  lemma FrontAndTail(args: seq<string>, tail: seq<string>)
    requires EndsWith(args, tail) && |tail| < |args|
    ensures var front := args[1..|args| - |tail|]; args[1..] == front + tail && args == [args[0]] + (front + tail)
  {
  }

  /** Without an own response file name LDC's program name stays first. */
  lemma UnfoldBehind(files: Texts, busy: set<string>, name: string, args: seq<string>)
    requires !IsReference(name)
    ensures Unfold(files, busy, [name] + args).args == [name] + Unfold(files, busy, args).args
  {
    assert ([name] + args)[1..] == args;
  }

  lemma UnfoldFile(files: Texts, name: string, path: string)
    requires path in files && !IsReference(name)
    ensures Unfold(files, {}, [name, "@" + path]).args == [name] + Unfold(files, {path}, Words(files[path])).args
  {
    var r: string := "@" + path;
    var one: seq<string> := [r];
    assert r[1..] == path && [name, r] == [name] + one && one[1..] == [];
    UnfoldBehind(files, {}, name, one);
    assert {} + {path} == {path};
    var u := Unfold(files, {path}, Words(files[path]));
    assert u.args + [] == u.args;
  }

  /** What is left of the last arguments when a reader drops empty ones. */
  function Handed(tail: seq<string>, fits: bool): seq<string> { if fits then tail else NonEmpty(tail) }

  lemma {:induction false} NonEmptyIn(args: seq<string>)
    ensures forall p :: p in NonEmpty(args) ==> p in args
    decreases |args|
  {
    if args != [] {
      NonEmptyIn(args[1..]);
    }
  }

  lemma HandedClean(files: Texts, tail: seq<string>, fits: bool)
    requires Clean(files, tail)
    ensures Clean(files, Handed(tail, fits))
  {
    NonEmptyIn(tail);
  }

  lemma {:induction false} ReceivedEnds(files: Texts, t: seq<string>, fits: bool, path: string, tail: seq<string>)
    requires EndsWith(t, tail) && |tail| < |t| && !IsReference(t[0]) && Clean(Disk(files, t, fits, path), tail)
    ensures var r := Received(files, t, fits, path).args; var h := Handed(tail, fits);
      EndsWith(r, h) && |h| < |r|
  {
    hide Unfold, EndsWith, Content, NonEmpty, Read;
    var d := Disk(files, t, fits, path);
    var front := t[1..|t| - |tail|];
    FrontAndTail(t, tail);
    HandedClean(d, tail, fits);
    var busy, x := {}, front;
    if fits {
      UnfoldBehind(d, {}, t[0], front + tail);
    } else {
      UnfoldFile(d, t[0], path);
      ReadBack(front + tail, false);
      NonEmptyAppend(front, tail);
      busy, x := {path}, NonEmpty(front);
    }
    UnfoldKeepsTail(d, busy, x, Handed(tail, fits));
    Sequences.Assoc([t[0]], Unfold(d, busy, x).args, Handed(tail, fits));
    EndsWithAppend([t[0]] + Unfold(d, busy, x).args, Handed(tail, fits));
  }

  lemma ParsedEnds(files: Texts, t: seq<string>, fits: bool, path: string, tail: seq<string>,
                   switches: seq<string>, post: seq<string>)
    requires EndsWith(t, tail) && |tail| < |t| && !IsReference(t[0]) && Clean(Disk(files, t, fits, path), tail)
    requires tail != [] && IsRun(tail[0], true)
    ensures EndsWith(Parsed(files, t, fits, path, switches, post).args, Handed(tail, fits))
  {
    hide Unfold, Content, NonEmpty, Received, Extended;
    var d, h := Disk(files, t, fits, path), Handed(tail, fits);
    ReceivedEnds(files, t, fits, path, tail);
    HandedStarts(tail, fits);
    var r := Received(files, t, fits, path).args;
    ExtendedKeepsRun(r, switches, post, h);
    HandedClean(d, tail, fits);
    var x := Extended(r, switches, post);
    assert x == x[..|x| - |h|] + h;
    UnfoldKeepsTail(d, {}, x[..|x| - |h|], h);
    EndsWithAppend(Unfold(d, {}, x[..|x| - |h|]).args, h);
  }

  lemma HandedStarts(tail: seq<string>, fits: bool)
    requires tail != [] && IsRun(tail[0], true)
    ensures var h := Handed(tail, fits); h != [] && h[0] == tail[0]
  {
  }

  // the two ends of a list can both be there only if nothing was dropped

  function Empties(args: seq<string>): nat {
    if args == [] then 0 else (if args[0] == "" then 1 else 0) + Empties(args[1..])
  }

  lemma {:induction false} EmptiesAppend(a: seq<string>, b: seq<string>)
    ensures Empties(a + b) == Empties(a) + Empties(b)
    decreases |a|
  {
    if a == [] {
      assert a + b == b;
    } else {
      Sequences.AppendTail(a, b);
      EmptiesAppend(a[1..], b);
    }
  }

  lemma {:induction false} EmptiesBound(args: seq<string>)
    ensures Empties(args) <= |args| && |NonEmpty(args)| + Empties(args) == |args| && Empties(NonEmpty(args)) == 0
    ensures args != [] && args[0] != "" ==> Empties(args) < |args|
    decreases |args|
  {
    if args != [] {
      EmptiesBound(args[1..]);
      EmptiesAppend(if args[0] == "" then [] else [args[0]], NonEmpty(args[1..]));
    }
  }

  lemma ShorterEnd(s: seq<string>, a: seq<string>, b: seq<string>)
    requires EndsWith(s, a) && EndsWith(s, b) && |b| <= |a|
    ensures a == a[..|a| - |b|] + b
  {
    assert s[|s| - |a|..][|a| - |b|..] == s[|s| - |b|..];
  }

  lemma BothEnds(s: seq<string>, tail: seq<string>)
    requires tail != [] && tail[0] != "" && EndsWith(s, tail) && EndsWith(s, NonEmpty(tail))
    ensures "" !in tail
  {
    hide EndsWith, NonEmpty, Empties;
    EmptiesBound(tail);
    NonEmptySame(tail);
    ShorterEnd(s, tail, NonEmpty(tail));
    var dropped := tail[..|tail| - |NonEmpty(tail)|];
    EmptiesAppend(dropped, NonEmpty(tail));
    EmptiesBound(dropped);
  }

  lemma CleanEnd(files: Texts, s: seq<string>, tail: seq<string>)
    requires Clean(files, s) && EndsWith(s, tail)
    ensures Clean(files, tail)
  {
    hide Refers;
    assert forall a :: a in tail ==> a in s;
  }

  /** Arguments from a run argument on at the end of what LDMD hands over: they end
      LDC's final list if none of them names a response file and, when handed over by
      a response file, none is empty. Where expansion meets no error, only then. */
  lemma SuffixArrives(files: Texts, t: seq<string>, fits: bool, path: string, tail: seq<string>,
                      switches: seq<string>, post: seq<string>)
    requires EndsWith(t, tail) && |tail| < |t| && !IsReference(t[0]) && tail != [] && IsRun(tail[0], true)
    ensures var p := Parsed(files, t, fits, path, switches, post);
      var intact := Clean(Disk(files, t, fits, path), tail) && (fits || "" !in tail);
      && (intact ==> EndsWith(p.args, tail))
      && (p.ok ==> (EndsWith(p.args, tail) <==> intact))
  {
    ReceivedSome(files, t, fits, path);
    var d, p := Disk(files, t, fits, path), Parsed(files, t, fits, path, switches, post);
    hide Unfold, Extended, NonEmpty, Received, Disk;
    if p.ok && EndsWith(p.args, tail) {
      UnfoldedIsClean(d, {}, Extended(Received(files, t, fits, path).args, switches, post));
      CleanEnd(d, p.args, tail);
    }
    if Clean(d, tail) {
      ParsedEnds(files, t, fits, path, tail, switches, post);
      NonEmptySame(tail);
      if !fits && EndsWith(p.args, tail) {
        BothEnds(p.args, tail);
      }
    }
  }

  lemma ReceivedSome(files: Texts, t: seq<string>, fits: bool, path: string)
    requires t != [] && !IsReference(t[0])
    ensures Received(files, t, fits, path).args != []
  {
    hide Unfold, Content;
    if fits {
      assert [t[0]] + t[1..] == t;
      UnfoldBehind(files, {}, t[0], t[1..]);
    } else {
      UnfoldFile(Disk(files, t, fits, path), t[0], path);
    }
  }

  // ----- end to end

  /** LDMD's combined list, behind its own name. */
  function Combined(args: seq<string>, dflags: seq<string>): seq<string>
    requires args != []
  {
    BeforeFirstRun(args, dflags, false)[1..]
  }

  /** Whatever DFLAGS and the config file contain: all that LDMD's combined list holds
      from its first -run on is an unchanged suffix of LDC's final list if, and where
      expansion meets no error only if, none of it names a response file and none of
      it is empty when handed over by a response file. */
  lemma RunSuffixArrives(ldc: string, args: seq<string>, dflags: seq<string>, files: Texts, fits: bool, path: string,
                         switches: seq<string>, post: seq<string>)
    requires args != [] && !IsReference(ldc) && "-run" in Combined(args, dflags)
    requires Translation(ldc, Combined(args, dflags)).Ok?
    ensures var t := Translation(ldc, Combined(args, dflags)).args; var tail := FromRun(Combined(args, dflags));
      var p := Parsed(files, t, fits, path, switches, post);
      var intact := Clean(Disk(files, t, fits, path), tail) && (fits || "" !in tail);
      && (intact ==> EndsWith(p.args, tail))
      && (p.ok ==> (EndsWith(p.args, tail) <==> intact))
  {
    hide Pieces, FromRun, ActionOf, FirstStop, Received, Parsed, Combined, BeforeRun;
    var c := Combined(args, dflags);
    FromRunHead(c);
    EndsWithAppend([ldc, "-ldmd"] + Pieces(BeforeRun(c)), FromRun(c));
    SuffixArrives(files, Translation(ldc, c).args, fits, path, FromRun(c), switches, post);
  }

  lemma SettledIsClean(files: Texts, args: seq<string>)
    requires AllSettled(args)
    ensures Clean(files, args) && "" !in args
  {
  }

  /** The user's own arguments from -run on, which LDMD has expanded itself, always end
      LDC's final list. */
  lemma UserArgumentsArrive(ldc: string, args: seq<string>, dflags: seq<string>, files: Texts, fits: bool, path: string,
                            switches: seq<string>, post: seq<string>)
    requires args != [] && !IsReference(ldc) && AllSettled(args) && RunPosition(args, 1, false) < |args|
    requires Translation(ldc, Combined(args, dflags)).Ok?
    ensures var t := Translation(ldc, Combined(args, dflags)).args;
      EndsWith(Parsed(files, t, fits, path, switches, post).args, args[RunPosition(args, 1, false)..])
  {
    hide Pieces, FromRun, ActionOf, FirstStop, Received, Parsed, RunPosition, BeforeRun;
    var c := Combined(args, dflags);
    var t := Translation(ldc, c).args;
    var own := args[RunPosition(args, 1, false)..];
    DflagsKeepRun(args, dflags);
    EndsWithAppend([ldc, "-ldmd"] + Pieces(BeforeRun(c)), FromRun(c));
    EndsWithTrans(t, FromRun(c), own);
    assert forall p :: p in own ==> p in args;
    SettledIsClean(Disk(files, t, fits, path), own);
    SuffixArrives(files, t, fits, path, own, switches, post);
  }

  lemma OneWord()
    ensures Words("x") == ["x"]
  {
    var x: string := "x";
    assert x[1..] == "" && "" + x == x;
    assert Read(x, "", false, false) == Read("", "x", true, false);
  }

  /** A DFLAGS that holds -run and, behind it, the name of a response file: the
      program gets the words of that file instead. */
  lemma ReferenceAfterRun(ldc: string, switches: seq<string>, post: seq<string>)
    requires !IsReference(ldc)
    ensures var dflags, files := ["-run", "a.d", "@f"], map["f" := "x"];
      && Combined(["ldmd2"], dflags) == dflags
      && Translation(ldc, dflags) == Ok([ldc, "-ldmd"] + dflags)
      && !EndsWith(Parsed(files, [ldc, "-ldmd"] + dflags, true, "", switches, post).args, dflags)
  {
    var dflags: seq<string>, files: Texts := ["-run", "a.d", "@f"], map["f" := "x"];
    assert Combined(["ldmd2"], dflags) == dflags;
    var t := [ldc, "-ldmd"] + dflags;
    assert [ldc, "-ldmd"] + [] + dflags == t;
    var ref: string := "@f";
    assert ref[1..] == "f" && dflags[2] == ref && Refers(files, dflags[2]);
    OneWord();
    hide Words, Extended, Unfold;
    EndsWithAppend([ldc, "-ldmd"], dflags);
    ReceivedSome(files, t, true, "");
    FlatUnfolds(files, Extended(Received(files, t, true, "").args, switches, post));
    SuffixArrives(files, t, true, "", dflags, switches, post);
  }

  /** A response file that names itself. */
  const LOOP: Texts := map["f" := Content(["-run", "@f"])]

  lemma LoopReads()
    ensures Words(LOOP["f"]) == ["-run", "@f"] && Refers(LOOP, "@f") && !Refers(LOOP, "-run") && "@f"[1..] == "f"
  {
    var ref: string := "@f";
    assert ref[1..] == "f" && ref[0] == '@';
    hide Read, Content;
    ReadBack(["-run", ref], false);
  }

  lemma LoopInside()
    ensures Unfold(LOOP, {"f"}, ["-run", "@f"]) == Unfolding(["-run", "@f"], false)
  {
    LoopReads();
    hide Refers, Words;
    var words, one: seq<string> := ["-run", "@f"], ["@f"];
    assert words[1..] == one && one[1..] == [] && one + [] == one;
    assert Unfold(LOOP, {"f"}, one) == Unfolding(one, false);
  }

  lemma LoopUnfolds(x: seq<string>)
    requires Clean(LOOP, x)
    ensures Unfold(LOOP, {}, x + ["@f"]) == Unfolding(x + ["-run", "@f"], false)
  {
    var words, one: seq<string> := ["-run", "@f"], ["@f"];
    LoopReads();
    LoopInside();
    UnfoldAppend(LOOP, {}, x, one);
    UnfoldClean(LOOP, {}, x);
    hide Refers, Words;
    assert one[1..] == [] && words + [] == words && {} + {"f"} == {"f"};
    assert UnfoldOne(LOOP, {}, "@f") == Unfolding(words, false);
  }

  /** Where expansion meets an error, arguments can end the list although one of them
      was expanded: the file that names itself is left behind in its own place. */
  lemma RecursiveReference(ldc: string)
    requires !IsReference(ldc)
    ensures var tail := ["-run", "@f"]; var p := Parsed(LOOP, [ldc, "-ldmd"] + tail, true, "", [], []);
      EndsWith(p.args, tail) && !Clean(LOOP, tail) && !p.ok
  {
    hide Unfold, Content;
    var ref: string := "@f";
    assert ref[1..] == "f" && Refers(LOOP, ref);
    var t := [ldc, "-ldmd", "-run"] + [ref];
    assert t == [ldc, "-ldmd"] + ["-run", "@f"];
    LoopUnfolds([ldc, "-ldmd", "-run"]);
    var r := [ldc, "-ldmd", "-run", "-run"] + [ref];
    assert r == [ldc, "-ldmd", "-run"] + ["-run", "@f"];
    assert Received(LOOP, t, true, "").args == r;
    assert Extended(r, [], []) == r;
    LoopUnfolds([ldc, "-ldmd", "-run", "-run"]);
    assert ["-run", "@f"][1] == ref;
  }

  /** LDMD's whole way to the list that LDC parses: the usage message, response_expand,
      DFLAGS, the translation, the hand-over and LDC's own additions. */
  method RunLdmd(ldc: string, argv: seq<string>, sources: Sources, dflags: seq<string>, files: Texts,
                 fits: bool, writable: bool, path: string, cfg: ConfigFile)
      returns (r: Outcome)
    requires argv != [] && Settled(argv[0]) && !IsReference(ldc)
    ensures var e := ExpandedArgs(sources, argv);
      && (e.Args? ==> e.args != [] && AllSettled(e.args))
      && r ==
         (if |argv| == 1 || !e.Args? then Exits(false)
          else
            var t := Translation(ldc, Combined(e.args, dflags));
            if !t.Ok? then t
            else if !fits && !writable then Exits(false)
            else Ok(Parsed(files, t.args, fits, path, cfg.switches, cfg.postSwitches).args))
      && (r.Ok? && RunPosition(e.args, 1, false) < |e.args| ==>
            EndsWith(r.args, e.args[RunPosition(e.args, 1, false)..]))
  {
    hide ActionOf, Pieces, Read, RunPosition, FromRun, ExpandedArgs, Unfold, Translation, Extended, Content;
    if ExpandedArgs(sources, argv).Args? {
      ExpandedStarts(sources, argv);
    }
    if |argv| == 1 {
      return Exits(false);
    }
    var e := ResponseExpandArgs(argv, sources);
    if !e.Args? {
      return Exits(false);
    }
    var combined := InsertDflags(e.args, dflags);
    r := TranslateArgs(ldc, combined[1..]);
    if r.Ok? {
      TranslationStarts(ldc, combined[1..]);
      var t := r.args;
      if RunPosition(e.args, 1, false) < |e.args| {
        UserArgumentsArrive(ldc, e.args, dflags, files, fits, path, cfg.switches, cfg.postSwitches);
      }
      var launch := ExecuteAndWait(t, fits, writable, path);
      if launch.NotLaunched? {
        return Exits(false);
      }
      var disk := if fits then files else files[path := launch.content];
      var child := Unfold(disk, {}, launch.argv);
      ReceivedSome(files, t, fits, path);
      var v := new ArgVector(child.args);
      cfg.ExtendCommandLine(v);
      r := Ok(Unfold(disk, {}, v.items).args);
    }
  }

  lemma ExpandedStarts(sources: Sources, argv: seq<string>)
    requires argv != [] && Settled(argv[0]) && ExpandedArgs(sources, argv).Args?
    ensures var r := ExpandedArgs(sources, argv).args; r != [] && AllSettled(r)
  {
    ExpandedSettled(sources, multiset{}, argv);
    assert argv + [] == argv;
    var front := ExpandedTail(sources, multiset{}, argv, []);
  }

  lemma TranslationStarts(ldc: string, args: seq<string>)
    requires Translation(ldc, args).Ok?
    ensures var t := Translation(ldc, args).args; t != [] && t[0] == ldc
  {
    hide Pieces, BeforeRun, FromRun, FirstStop;
  }

  // ----- where insertions go, in argument lists written out

  predicate NoRun(args: seq<string>, long: bool) {
    forall i :: 0 <= i < |args| ==> args[i] != "-run" && (long ==> args[i] != "--run")
  }

  lemma {:induction false} RunPositionAt(args: seq<string>, i: nat, k: nat, long: bool)
    requires i <= k <= |args| && (forall j :: i <= j < k ==> !IsRun(args[j], long)) && (k < |args| ==> IsRun(args[k], long))
    ensures RunPosition(args, i, long) == k
  {
    hide RunPosition;
  }

  /** Without a run argument the insertion is at the end; otherwise before the first
      one, behind everything that comes before it. A run argument as argv[0] counts
      as the program's name. */
  lemma InsertsBefore(name: string, x: seq<string>, y: seq<string>, more: seq<string>, long: bool, run: string)
    requires NoRun(x, long) && (run == "-run" || (long && run == "--run"))
    ensures BeforeFirstRun([name] + x, more, long) == [name] + x + more
    ensures BeforeFirstRun([name] + x + [run] + y, more, long) == [name] + x + more + [run] + y
  {
    hide RunPosition;
    var a, b := [name] + x, [name] + x + [run] + y;
    assert forall j :: 1 <= j < |a| ==> a[j] == x[j - 1] && b[j] == x[j - 1];
    RunPositionAt(a, 1, |a|, long);
    RunPositionAt(b, 1, |a|, long);
    assert a[..|a|] == a && a[|a|..] == [] && b[..|a|] == a && b[|a|..] == [run] + y;
    assert a + more + ([run] + y) == a + more + [run] + y;
  }

  /** LDMD's list: the user's arguments, then DFLAGS, then everything from -run on. */
  lemma CombinedIs(name: string, x: seq<string>, y: seq<string>, dflags: seq<string>)
    requires NoRun(x, false)
    ensures Combined([name] + x, dflags) == x + dflags
    ensures Combined([name] + x + ["-run"] + y, dflags) == x + dflags + ["-run"] + y
  {
    hide BeforeFirstRun;
    InsertsBefore(name, x, y, dflags, false, "-run");
    assert ([name] + x + dflags)[1..] == x + dflags;
    assert ([name] + x + dflags + ["-run"] + y)[1..] == x + dflags + ["-run"] + y;
  }

  /** LDC's list: the config file's switches right behind the name, the arguments, then
      its post-switches, and after those a run argument with all that follows. */
  lemma ExtendedIs(name: string, x: seq<string>, y: seq<string>, switches: seq<string>, post: seq<string>, run: string)
    requires NoRun(x, true) && NoRun(switches, true) && (run == "-run" || run == "--run")
    ensures Extended([name] + x, switches, post) == [name] + switches + x + post
    ensures Extended([name] + x + [run] + y, switches, post) == [name] + switches + x + post + [run] + y
  {
    hide BeforeFirstRun;
    InsertsBefore(name, switches + x, y, post, true, run);
    Opened(name, x, switches);
    Opened(name, x + [run] + y, switches);
    assert [name] + x + [run] + y == [name] + (x + [run] + y);
    assert [name] + switches + (x + [run] + y) == [name] + (switches + x) + [run] + y;
    assert [name] + (switches + x) == [name] + switches + x;
  }

  lemma Opened(name: string, x: seq<string>, switches: seq<string>)
    ensures var a := [name] + x; a[..1] + switches + a[1..] == [name] + switches + x
  {
  }

  /** Arguments and switches that name no file reach LDC's parser as they were put
      together, and a file named by the config file's switches is read in its place. */
  lemma ParsedIs(files: Texts, name: string, x: seq<string>, switches: seq<string>, post: seq<string>, f: string)
    requires !IsReference(name) && Clean(files, x) && Clean(files, switches) && Clean(files, post)
    requires NoRun(x, true) && NoRun(switches, true)
    ensures Parsed(files, [name] + x, true, "", switches, post) == Unfolding([name] + switches + x + post, true)
    ensures f in files && Clean(files, Words(files[f])) ==>
      Parsed(files, [name] + x, true, "", ["@" + f], post) == Unfolding([name] + Words(files[f]) + x + post, true)
  {
    hide Unfold, Extended, Words;
    assert Clean(files, [name] + x) && Clean(files, [name] + switches + x + post);
    UnfoldClean(files, {}, [name] + x);
    ExtendedIs(name, x, [], switches, post, "-run");
    UnfoldClean(files, {}, [name] + switches + x + post);
    if f in files && Clean(files, Words(files[f])) {
      var ref := "@" + f;
      assert ref[1..] == f && ref[0] == '@';
      ExtendedIs(name, x, [], [ref], post, "-run");
      assert [name] + [ref] + x + post == [name] + [ref] + (x + post);
      UnfoldsInPlace(files, [name], f, x + post);
      assert [name] + Words(files[f]) + (x + post) == [name] + Words(files[f]) + x + post;
    }
  }
}
