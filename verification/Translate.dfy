/** LDMD's translation of a DMD command line into an LDC one. */
module Translate {
  import opened Arguments
  import Sequences

  /** What one argument leads to. */
  datatype Action =
    | Push(out: seq<string>)  // these arguments are handed to LDC
    | Pic                     // -fPIC: only its first occurrence counts
    | Rest                    // -run: everything from here on is handed over as is
    | Success                 // help, version or manual: LDMD exits
    | Failure                 // an error message: LDMD exits
    | Undefined               // a bare -verrors is read past its end

  predicate Digit(c: char) { '0' <= c <= '9' }

  function Lower(c: char): char { if 'A' <= c <= 'Z' then c - 'A' + 'a' else c }

  predicate HasExeExtension(p: string) {
    var n := |p|;
    n >= 4 && p[n - 4] == '.' && Lower(p[n - 3]) == 'e' && Lower(p[n - 2]) == 'x' && Lower(p[n - 1]) == 'e'
  }

  function Toggle(enabled: bool): string { if enabled then "-enable-" else "-disable-" }

  /** One kind of check, by its DMD name; an unknown kind is left to LDC. */
  function KindAction(kind: string, enabled: bool, p: string): (a: Action)
    ensures a.Push?
  {
    if kind == "bounds" then Push([if enabled then "-boundscheck=on" else "-boundscheck=off"])
    else if kind == "assert" then Push([Toggle(enabled) + "asserts"])
    else if kind == "in" then Push([Toggle(enabled) + "preconditions"])
    else if kind == "invariant" then Push([Toggle(enabled) + "invariants"])
    else if kind == "out" then Push([Toggle(enabled) + "postconditions"])
    else if kind == "switch" then Push([Toggle(enabled) + "switch-errors"])
    else Push([p])
  }

  function EachCheck(on: bool): seq<string> {
    [if on then "-boundscheck=on" else "-boundscheck=off",
     Toggle(on) + "asserts", Toggle(on) + "preconditions", Toggle(on) + "invariants",
     Toggle(on) + "postconditions", Toggle(on) + "switch-errors"]
  }

  /** The value of -check=...; a kind without =on or =off is switched on. */
  function CheckAction(arg: string, p: string): (a: Action)
    ensures a.Push?
  {
    var n := |arg|;
    if arg == "on" then Push(EachCheck(true))
    else if arg == "off" then Push(EachCheck(false))
    else if n > 3 && arg[n - 3..] == "=on" then KindAction(arg[..n - 3], true, p)
    else if n > 4 && arg[n - 4..] == "=off" then KindAction(arg[..n - 4], false, p)
    else KindAction(arg, true, p)
  }

  function ColorAction(o: string, p: string): (a: Action)
    requires "color" <= o
    ensures a.Push?
  {
    if CharAt(o, 5) == '=' then
      if o[6..] == "on" then Push(["-enable-color"])
      else if o[6..] == "off" then Push(["-disable-color"])
      else if o[6..] == "auto" then Push([])
      else Push([p])
    else if |o| > 5 then Push([p]) else Push(["-enable-color"])
  }

  function ErrorsAction(o: string, p: string): (a: Action)
    requires "verrors" <= o
    ensures a.Push? || a.Undefined?
  {
    if |o| == 7 then Undefined
    else if o[7] == '=' && Digit(CharAt(o, 8)) then Push([p])
    else if o[8..] == "spec" then Push(["-verrors-spec"])
    else if o[8..] == "simple" then Push(["-verrors-context=false"])
    else if o[8..] == "context" then Push(["-verrors-context"])
    else Push([p])
  }

  function CpuAction(c: string, p: string): (a: Action)
    ensures a.Push?
  {
    if c == "?" || c == "h" || c == "help" then Push(["-mcpu=help"])
    else if c == "baseline" then Push([])
    else if c == "avx" then Push(["-mattr=+avx"])
    else if c == "avx2" then Push(["-mattr=+avx2"])
    else Push([p])
  }

  /** Code generation and debug options. */
  function CodeOption(o: string, p: string): (a: Action)
    ensures a.Rest? <==> o == "run"
    ensures a.Pic? <==> o == "fPIC"
  {
    if "visibility=" <= o then Push(["-fvisibility=" + o[11..]])
    else if o == "edition" then Push(["-edition="])
    else if o == "dylib" then Push(["-shared"])
    else if o == "fIBT" then Push(["-fcf-protection=branch"])
    else if o == "fPIC" then Pic
    else if o == "fPIE" || o == "map" || o == "multiobj" then Push([])
    else if "gdwarf=" <= o then Push(["-gdwarf", "-dwarf-version", o[7..]])
    else if o == "gf" then Push(["-g"])
    else if o == "gs" then Push(["-frame-pointer=all"])
    else if o == "gx" then Push([])
    else if o == "gt" then Failure
    else if o == "arm" then Push(["-march=aarch64"])
    else if o == "m32mscoff" then Push(["-m32"])
    else if "profile" <= o then
      if |o| == 7 then Push(["-fdmd-trace-functions"])
      else if o[7..] == "=gc" then Push([])
      else Push([p])
    else MiscOption(o, p)
  }

  function MiscOption(o: string, p: string): (a: Action)
    ensures a.Rest? <==> o == "run"
    ensures !a.Pic?
  {
    assert o == "run" ==> o[0] == 'r';
    if o == "vasm" then Push(["--output-s", "--output-o", "--x86-asm-syntax=intel"])
    else if o == "vtls" then Push(["-transition=tls"])
    else if "verrors" <= o then ErrorsAction(o, p)
    else if "target=" <= o then Push(["-mtriple=" + o[7..]])
    else if "mcpu=" <= o then CpuAction(o[5..], p)
    else if "os=" <= o || o == "o" then Failure
    else if o == "inline" then Push(["-enable-inlining", "-Hkeep-all-bodies"])
    else if o == "lib" then Push([p, "-oq", "-cleanup-obj"])
    else if o == "nofloat" || o == "quiet" then Push([])
    else if o == "noboundscheck" then Push(["-boundscheck=off"])
    else if o == "nothrow" then Push(["-fno-exceptions"])
    else LateOption(o, p)
  }

  function LateOption(o: string, p: string): (a: Action)
    ensures a.Rest? <==> o == "run"
    ensures !a.Pic?
  {
    assert o == "run" ==> o[0] == 'r';
    if "debug" <= o && CharAt(o, 5) != 'l' then
      if CharAt(o, 5) == '=' then Push(["-d-debug=" + o[6..]])
      else if |o| > 5 then Push([p])
      else Push(["-d-debug"])
    else if "version" <= o then
      if CharAt(o, 7) == '=' then Push(["-d-version=" + o[8..]]) else Push([p])
    else if o in {"-b", "-c", "-f", "-r", "-x", "-y"} then Push(["-hidden-debug-" + o[1..]])
    else if o == "-help" || o == "h" || o == "-version" || "man" <= o then Success
    else if o == "run" then Rest
    else if o == "" then Push(["-"])
    else if o[0] == 'C' then Push(["-" + o[1..]])
    else Push([p])
  }

  /** The whole decision for one argument, in the source's order of tests. */
  function ActionOf(p: string): Action {
    if p == "" || p[0] != '-' then
      if HasExeExtension(p) then Push(["-of=" + p]) else Push([p])
    else
      var o := p[1..];
      if o == "vdmd" then Push([])
      else if "check=" <= o then CheckAction(o[6..], p)
      else if "color" <= o then ColorAction(o, p)
      else CodeOption(o, p)
  }

  // ----- specification of the list translation

  function PicPiece(before: seq<string>): seq<string> {
    if "-fPIC" in before then [] else ["-relocation-model=pic"]
  }

  /** What an argument contributes: nothing but the argument itself decides, except
      that -fPIC contributes only where it occurs first. */
  function Piece(before: seq<string>, p: string): seq<string> {
    match ActionOf(p)
    case Push(out) => out
    case Pic => PicPiece(before)
    case _ => []
  }

  function Pieces(args: seq<string>): seq<string> {
    if args == [] then []
    else Pieces(args[..|args| - 1]) + Piece(args[..|args| - 1], args[|args| - 1])
  }

  datatype Outcome = Ok(args: seq<string>) | Exits(success: bool) | Stuck

  predicate Stops(p: string) {
    var a := ActionOf(p);
    a.Success? || a.Failure? || a.Undefined?
  }

  function StopOutcome(p: string): Outcome {
    match ActionOf(p)
    case Success => Exits(true)
    case Failure => Exits(false)
    case _ => Stuck
  }

  function FirstStop(args: seq<string>): (r: seq<string>)
    ensures r != [] ==> Stops(r[0])
  {
    if args == [] then [] else if Stops(args[0]) then args else FirstStop(args[1..])
  }

  /** The first argument before -run that ends LDMD decides; otherwise the list is
      the LDC path, -ldmd, the translations, and everything from -run on as it was. */
  function Translation(ldc: string, args: seq<string>): Outcome {
    var b := BeforeRun(args);
    if FirstStop(b) != [] then StopOutcome(FirstStop(b)[0])
    else Ok([ldc, "-ldmd"] + Pieces(b) + FromRun(args))
  }

  // ----- facts about single arguments

  lemma OnlyRunIsRest(p: string)
    ensures ActionOf(p).Rest? <==> p == "-run"
  {
    hide CodeOption, CheckAction, ColorAction;
    if p != "" && p[0] == '-' {
      assert p == "-" + p[1..];
      assert p[1..] == "run" ==> p[1..][0] == 'r';
    }
  }

  lemma OnlyPicIsPic(p: string)
    ensures ActionOf(p).Pic? <==> p == "-fPIC"
  {
    hide CodeOption, CheckAction, ColorAction;
    if p != "" && p[0] == '-' {
      assert p == "-" + p[1..];
      assert p[1..] == "fPIC" ==> p[1..][0] == 'f';
    }
  }

  // ----- the loop

  lemma {:induction false} NoStopPrefix(a: seq<string>, b: seq<string>)
    ensures FirstStop(a + b) == if FirstStop(a) != [] then FirstStop(a) + b else FirstStop(b)
    decreases |a|
  {
    hide Stops;
    if a == [] {
      assert a + b == b;
    } else {
      assert (a + b)[1..] == a[1..] + b;
      NoStopPrefix(a[1..], b);
    }
  }

  /** The arguments seen so far hold no -run and none that ends LDMD. */
  ghost predicate Quiet(args: seq<string>) { "-run" !in args && FirstStop(args) == [] }

  lemma QuietNone()
    ensures Quiet([]) && Pieces([]) == []
  {
  }

  lemma QuietSnoc(a: seq<string>, p: string)
    requires Quiet(a) && p != "-run" && !Stops(p)
    ensures Quiet(a + [p])
  {
    hide Stops;
    NoStopPrefix(a, [p]);
    assert [p][1..] == [];
  }

  /** What the translation is once a quiet prefix has been read: at -run, at an
      argument that ends LDMD, and at the end. */
  lemma Decided(ldc: string, args: seq<string>, i: nat)
    requires i <= |args| && Quiet(args[..i])
    ensures i < |args| && args[i] == "-run" ==>
      Translation(ldc, args) == Ok([ldc, "-ldmd"] + Pieces(args[..i]) + args[i..])
    ensures i < |args| && args[i] != "-run" && Stops(args[i]) ==> Translation(ldc, args) == StopOutcome(args[i])
    ensures i == |args| ==> Translation(ldc, args) == Ok([ldc, "-ldmd"] + Pieces(args[..i]))
  {
    hide Stops, Pieces, StopOutcome;
    PrefixBeforeRun(args, i);
    NoStopPrefix(args[..i], BeforeRun(args[i..]));
    if i < |args| {
      assert args[i..][0] == args[i];
      assert args[..i] + [] == args[..i];
    } else {
      assert args[i..] == [] && args[..i] + [] == args[..i];
      assert [ldc, "-ldmd"] + Pieces(args[..i]) + [] == [ldc, "-ldmd"] + Pieces(args[..i]);
    }
  }

  lemma QuietAppend(a: seq<string>, b: seq<string>)
    requires Quiet(a) && Quiet(b)
    ensures Quiet(a + b)
  {
    hide FirstStop;
    NoStopPrefix(a, b);
  }

  lemma QuietTranslation(ldc: string, args: seq<string>)
    requires Quiet(args)
    ensures Translation(ldc, args) == Ok([ldc, "-ldmd"] + Pieces(args))
  {
    hide *;
    assert args[..|args|] == args;
    Decided(ldc, args, |args|);
  }

  /** translateArgs after the DFLAGS insertion; `args` are the arguments after argv[0]. */
  method TranslateArgs(ldc: string, args: seq<string>) returns (r: Outcome)
    ensures r == Translation(ldc, args)
  {
    hide ActionOf, Pieces, Quiet, Translation;
    var ldcArgs := [ldc, "-ldmd"];
    var pic := false;
    QuietNone();
    assert args[..0] == [] && [ldc, "-ldmd"] + [] == [ldc, "-ldmd"];
    for i := 0 to |args|
      invariant Quiet(args[..i])
      invariant ldcArgs == [ldc, "-ldmd"] + Pieces(args[..i])
      invariant pic <==> "-fPIC" in args[..i]
    {
      var p := args[i];
      OnlyRunIsRest(p);
      OnlyPicIsPic(p);
      Decided(ldc, args, i);
      var action := ActionOf(p);
      if action.Rest? {
        ldcArgs := ldcArgs + args[i..];
        return Ok(ldcArgs);
      }
      if action.Success? { return Exits(true); }
      if action.Failure? { return Exits(false); }
      if action.Undefined? { return Stuck; }
      Sequences.PrefixSnoc(args, i);
      QuietSnoc(args[..i], p);
      PiecesLast(args[..i + 1]);
      Sequences.Assoc([ldc, "-ldmd"], Pieces(args[..i]), Piece(args[..i], p));
      if action.Pic? {
        if !pic {
          ldcArgs := ldcArgs + ["-relocation-model=pic"];
          pic := true;
        }
      } else {
        ldcArgs := ldcArgs + action.out;
      }
    }
    assert args[..|args|] == args;
    Decided(ldc, args, |args|);
    r := Ok(ldcArgs);
  }

  // ----- independence of the translations

  lemma {:induction false} PiecesLast(args: seq<string>)
    requires args != []
    ensures Pieces(args) == Pieces(args[..|args| - 1]) + Piece(args[..|args| - 1], args[|args| - 1])
  {
    hide Piece;
  }

  lemma PieceSame(a: seq<string>, b: seq<string>, p: string)
    requires p == "-fPIC" ==> ("-fPIC" in a <==> "-fPIC" in b)
    ensures Piece(a, p) == Piece(b, p)
  {
    hide ActionOf;
    OnlyPicIsPic(p);
  }

  /** Parts of a command line are translated independently, unless -fPIC occurs in
      both of them. */
  lemma {:induction false} PiecesAppend(a: seq<string>, b: seq<string>)
    requires "-fPIC" !in a || "-fPIC" !in b
    ensures Pieces(a + b) == Pieces(a) + Pieces(b)
    decreases |b|
  {
    if b == [] {
      assert a + b == a && Pieces(a) + [] == Pieces(a);
    } else {
      hide Pieces, Piece;
      var init, p := b[..|b| - 1], b[|b| - 1];
      Sequences.AppendInit(a, b);
      PiecesLast(a + b);
      PiecesLast(b);
      PiecesAppend(a, init);
      PieceSame(a + init, init, p);
      Sequences.Assoc(Pieces(a), Pieces(init), Piece(init, p));
    }
  }

  function Drop(args: seq<string>, x: string): seq<string> {
    if args == [] then []
    else Drop(args[..|args| - 1], x) + (if args[|args| - 1] == x then [] else [args[|args| - 1]])
  }

  /** Repeating -fPIC changes nothing: only the first occurrence counts. */
  lemma {:induction false} RepeatedPic(a: seq<string>, b: seq<string>)
    requires "-fPIC" in a
    ensures Pieces(a + b) == Pieces(a + Drop(b, "-fPIC"))
    decreases |b|
  {
    if b != [] {
      hide Pieces, Piece;
      var init, p := b[..|b| - 1], b[|b| - 1];
      var d := Drop(init, "-fPIC");
      Sequences.AppendInit(a, b);
      PiecesLast(a + b);
      RepeatedPic(a, init);
      if p == "-fPIC" {
        assert Drop(b, "-fPIC") == d;
        PicContributesOnce(a + init);
        assert Pieces(a + init) + [] == Pieces(a + init);
      } else {
        Sequences.Assoc(a, d, [p]);
        Sequences.SnocInit(a + d, p);
        PiecesLast(a + d + [p]);
        PieceSame(a + init, a + d, p);
      }
    }
  }

  lemma PicContributesOnce(before: seq<string>)
    requires "-fPIC" in before
    ensures Piece(before, "-fPIC") == []
  {
    hide ActionOf;
    OnlyPicIsPic("-fPIC");
  }
}
