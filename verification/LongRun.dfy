/** The spelling --run, which LDC accepts and LDMD does not know. */
module LongRun {
  import opened Arguments
  import opened Translate
  import opened PassThrough
  import opened Expansion
  import opened CommandLine
  import OptionTable
  import Sequences

  lemma LongRunAction()
    ensures ActionOf("--run") == Push(["--run"])
  {
    var o := "--run"[1..];
    assert o == "-run" && o[0] == '-' && |o| == 4;
    assert CodeOption(o, "--run") == MiscOption(o, "--run") by { hide MiscOption; }
    assert MiscOption(o, "--run") == LateOption(o, "--run") by { hide LateOption; }
    hide CodeOption, MiscOption;
  }

  lemma PlainAction()
    ensures ActionOf("a.d") == Push(["a.d"])
  {
    hide CodeOption, CheckAction, ColorAction;
  }

  lemma PushedAlone(p: string, out: seq<string>)
    requires ActionOf(p) == Push(out)
    ensures Quiet([p]) && Pieces([p]) == out
  {
    hide ActionOf, Quiet, Pieces;
    OnlyRunIsRest(p);
    QuietNone();
    QuietSnoc([], p);
    PiecesLast([p]);
    assert [] + [p] == [p] && [p][..0] == [] && [] + out == out;
  }

  /** No argument before a first -run ends LDMD. */
  lemma {:induction false} NoStops(args: seq<string>)
    ensures FirstStop(args) == [] <==> forall p :: p in args ==> !Stops(p)
    decreases |args|
  {
    hide Stops;
    if args != [] {
      NoStops(args[1..]);
      assert args == [args[0]] + args[1..];
    }
  }

  lemma {:induction false} NoRunBefore(args: seq<string>)
    ensures "-run" !in BeforeRun(args) && BeforeRun(args) + FromRun(args) == args
    decreases |args|
  {
    if args != [] && args[0] != "-run" {
      NoRunBefore(args[1..]);
    }
  }

  /** The whole translation of a list with --run in it. */
  lemma LongRunTranslation(ldc: string, a: seq<string>, b: seq<string>)
    requires "-run" !in a
    ensures var x, c := a + ["--run"], BeforeRun(b);
      if FirstStop(a) == FirstStop(c) == []
      then Translation(ldc, x + b) == Ok([ldc, "-ldmd"] + (Pieces(a) + ["--run"]) + PiecesAfter(x, c) + FromRun(b))
      else !Translation(ldc, x + b).Ok?
  {
    hide *;
    var x, c := a + ["--run"], BeforeRun(b);
    LongRunAction();
    PushedAlone("--run", ["--run"]);
    LongRunQuiet();
    NoStopPrefix(a, ["--run"]);
    NoStopPrefix(x, c);
    BeforeRunAppend(x, b);
    FromRunAppend(x, b);
    PiecesAppend(a, ["--run"]);
    PiecesSplit(x, c);
    Sequences.Assoc([ldc, "-ldmd"], Pieces(a) + ["--run"], PiecesAfter(x, c));
    TranslationOf(ldc, x + b);
  }

  lemma LongRunQuiet()
    ensures FirstStop(["--run"]) == []
  {
    hide ActionOf;
    LongRunAction();
    var one: seq<string> := ["--run"];
    assert one[1..] == [];
  }

  lemma TranslationOf(ldc: string, args: seq<string>)
    ensures FirstStop(BeforeRun(args)) == [] ==>
      Translation(ldc, args) == Ok([ldc, "-ldmd"] + Pieces(BeforeRun(args)) + FromRun(args))
    ensures FirstStop(BeforeRun(args)) != [] ==> !Translation(ldc, args).Ok?
  {
    hide FirstStop, BeforeRun, FromRun, Pieces, ActionOf;
  }

  lemma StopsAreNotFixed(p: string)
    requires Stops(p)
    ensures !Fixed(p)
  {
    hide ActionOf;
  }

  lemma SameTail(a: seq<string>, x: seq<string>, y: seq<string>, z: seq<string>)
    ensures a + x + z == a + (y + z) <==> x == y
  {
    if a + x + z == a + (y + z) {
      assert (a + x + z)[|a|..|a + x|] == x;
      assert (a + (y + z))[|a|..|a + y|] == y;
    } else if x == y {
      Sequences.Assoc(a, x, z);
    }
  }

  /** LDC takes everything after --run verbatim; LDMD leaves it as it is if and only if
      nothing before it ends LDMD and each argument up to a -run is one LDMD hands on. */
  lemma LongRunArrivesExactly(ldc: string, a: seq<string>, b: seq<string>)
    requires "-run" !in a
    ensures Translation(ldc, a + ["--run"] + b) == Ok([ldc, "-ldmd"] + (Pieces(a) + ["--run"]) + b) <==>
      FirstStop(a) == [] && forall p :: p in BeforeRun(b) ==> Fixed(p)
  {
    hide *;
    var x, c, h := a + ["--run"], BeforeRun(b), [ldc, "-ldmd"] + (Pieces(a) + ["--run"]);
    LongRunTranslation(ldc, a, b);
    NoStops(c);
    NoRunBefore(b);
    if FirstStop(c) == [] {
      forall p | p in c ensures Goes(p) { GoesOn(p); }
      UnchangedExactly(x, c);
      SameTail(h, PiecesAfter(x, c), c, FromRun(b));
    } else {
      var p :| p in c && Stops(p);
      StopsAreNotFixed(p);
    }
  }

  lemma GoesOn(p: string)
    requires p != "-run" && !Stops(p)
    ensures Goes(p)
  {
    hide Stops;
  }

  /** End to end: if all of them are arguments that LDMD hands on and that LDC neither
      expands nor drops, --run and the program's arguments end LDC's final list. */
  lemma LongRunArrives(ldc: string, a: seq<string>, b: seq<string>, files: Texts, fits: bool, path: string,
                       switches: seq<string>, post: seq<string>)
    requires "-run" !in a && FirstStop(a) == [] && (forall p :: p in BeforeRun(b) ==> Fixed(p)) && !IsReference(ldc)
    ensures var t := Translation(ldc, a + ["--run"] + b); var tail := ["--run"] + b;
      && t.Ok? && t.args != []
      && var p := Parsed(files, t.args, fits, path, switches, post);
         var intact := Clean(Disk(files, t.args, fits, path), tail) && (fits || "" !in tail);
         (intact ==> EndsWith(p.args, tail)) && (p.ok ==> (EndsWith(p.args, tail) <==> intact))
  {
    hide Pieces, Fixed, FirstStop, Translation, Parsed, Disk;
    LongRunArrivesExactly(ldc, a, b);
    var t := Translation(ldc, a + ["--run"] + b).args;
    var tail := ["--run"] + b;
    assert t == [ldc, "-ldmd"] + Pieces(a) + tail;
    EndsWithAppend([ldc, "-ldmd"] + Pieces(a), tail);
    SuffixArrives(files, t, fits, path, tail, switches, post);
  }

  /** A program argument that LDMD changes. */
  lemma LongRunChangesArguments(ldc: string)
    ensures Translation(ldc, ["--run", "a.d", "-version=X"])
      == Ok([ldc, "-ldmd", "--run", "a.d", "-d-version=X"])
  {
    hide *;
    LongRunAction();
    PlainAction();
    OptionTable.ConditionalAction("X");
    assert "-version=" + "X" == "-version=X" && "-d-version=" + "X" == "-d-version=X";
    PushedAlone("--run", ["--run"]);
    PushedAlone("a.d", ["a.d"]);
    PushedAlone("-version=X", ["-d-version=X"]);
    PiecesAppend(["--run"], ["a.d"]);
    QuietAppend(["--run"], ["a.d"]);
    PiecesAppend(["--run"] + ["a.d"], ["-version=X"]);
    QuietAppend(["--run"] + ["a.d"], ["-version=X"]);
    QuietTranslation(ldc, ["--run"] + ["a.d"] + ["-version=X"]);
    assert ["--run"] + ["a.d"] + ["-version=X"] == ["--run", "a.d", "-version=X"];
    assert [ldc, "-ldmd"] + (["--run"] + ["a.d"] + ["-d-version=X"]) == [ldc, "-ldmd", "--run", "a.d", "-d-version=X"];
  }
}
