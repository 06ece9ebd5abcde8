/** Which arguments LDMD hands on as they are, and what becomes of the others. */
module PassThrough {
  import opened Arguments
  import opened Translate
  import Sequences

  /** LDMD hands the argument on as it is. */
  predicate Fixed(p: string) { ActionOf(p) == Push([p]) }

  /** The first three characters of options that LDMD may change. */
  predicate Listed(a: char, b: char, c: char) {
    match a
    case 'C' => true
    case 'v' => b in {'d', 'i', 'a', 't', 'e'}
    case 'c' => b in {'h', 'o'}
    case 'd' => b in {'y', 'e'}
    case 'e' => b == 'd'
    case 'f' => b in {'I', 'P'}
    case 'm' => b in {'u', '3', 'c'} || (b == 'a' && c in {'p', 'n'})
    case 'g' => b == 'd'
    case 'a' => b == 'r'
    case 'p' => b == 'r'
    case 't' => b == 'a'
    case 'o' => b == 's'
    case 'i' => b == 'n'
    case 'l' => b == 'i'
    case 'n' => b == 'o'
    case 'q' => b == 'u'
    case '-' => b in {'h', 'v'}
    case 'r' => b == 'u'
    case _ => false
  }

  predicate Unlisted(o: string) { |o| >= 3 && !Listed(o[0], o[1], o[2]) }

  lemma UnlistedLate(o: string, p: string)
    requires Unlisted(o)
    ensures LateOption(o, p) == Push([p])
  {
  }

  lemma UnlistedMisc(o: string, p: string)
    requires Unlisted(o)
    ensures MiscOption(o, p) == LateOption(o, p)
  {
    hide LateOption, ErrorsAction, CpuAction;
  }

  lemma UnlistedCode(o: string, p: string)
    requires Unlisted(o)
    ensures CodeOption(o, p) == MiscOption(o, p)
  {
    hide MiscOption;
  }

  lemma UnlistedFirst(p: string)
    requires p != "" && p[0] == '-' && Unlisted(p[1..])
    ensures ActionOf(p) == CodeOption(p[1..], p)
  {
    hide CodeOption, CheckAction, ColorAction;
  }

  lemma UnlistedFixed(p: string)
    requires p != "" && p[0] == '-' && Unlisted(p[1..])
    ensures Fixed(p)
  {
    hide *;
    UnlistedFirst(p);
    UnlistedCode(p[1..], p);
    UnlistedMisc(p[1..], p);
    UnlistedLate(p[1..], p);
    FixedBy(p);
  }

  lemma FixedBy(p: string)
    requires ActionOf(p) == Push([p])
    ensures Fixed(p)
  {
    hide ActionOf;
  }

  // ----- translations are fixed, or shorter than what they come from

  /** What an argument is turned into. Only -lib turns into itself and more. */
  predicate Ends(x: string, p: string) { Fixed(x) || |x| < |p| || x == p == "-lib" }

  predicate AllEnd(a: Action, p: string) {
    a.Push? ==> forall x :: x in a.out ==> Ends(x, p)
  }

  /** A fixed argument, by the three characters behind its dash. */
  lemma FixedAs(x: string, a: char, b: char, c: char)
    requires |x| >= 4 && x[0] == '-' && x[1] == a && x[2] == b && x[3] == c && !Listed(a, b, c)
    ensures Fixed(x)
  {
    hide Fixed, Listed;
    assert x[1..][0] == a && x[1..][1] == b && x[1..][2] == c;
    UnlistedFixed(x);
  }

  /** -enable-... and -disable-... */
  lemma FixedToggle(on: bool, x: string)
    ensures Fixed(Toggle(on) + x)
  {
    hide Fixed;
    if on { FixedAs("-enable-" + x, 'e', 'n', 'a'); } else { FixedAs("-disable-" + x, 'd', 'i', 's'); }
  }

  lemma FixedBounds()
    ensures Fixed("-boundscheck=on") && Fixed("-boundscheck=off")
  {
    hide Fixed;
    FixedAs("-boundscheck=on", 'b', 'o', 'u');
    FixedAs("-boundscheck=off", 'b', 'o', 'u');
  }

  /** The step says that `p` is changed, or it is not. */
  predicate Decides(a: Action, p: string) { Fixed(p) || a != Push([p]) }

  lemma KindEnds(kind: string, on: bool, p: string)
    requires Decides(KindAction(kind, on, p), p)
    ensures AllEnd(KindAction(kind, on, p), p)
  {
    hide Fixed;
    FixedBounds();
    FixedToggle(on, "asserts");
    FixedToggle(on, "preconditions");
    FixedToggle(on, "invariants");
    FixedToggle(on, "postconditions");
    FixedToggle(on, "switch-errors");
  }

  lemma EachEnds(on: bool, p: string)
    ensures AllEnd(Push(EachCheck(on)), p)
  {
    hide Fixed;
    FixedBounds();
    FixedToggle(on, "asserts");
    FixedToggle(on, "preconditions");
    FixedToggle(on, "invariants");
    FixedToggle(on, "postconditions");
    FixedToggle(on, "switch-errors");
  }

  lemma CheckEnds(arg: string, p: string)
    requires Decides(CheckAction(arg, p), p)
    ensures AllEnd(CheckAction(arg, p), p)
  {
    hide Fixed, KindAction, EachCheck, AllEnd;
    var n := |arg|;
    if arg == "on" || arg == "off" { EachEnds(arg == "on", p); }
    else if n > 3 && arg[n - 3..] == "=on" { KindEnds(arg[..n - 3], true, p); }
    else if n > 4 && arg[n - 4..] == "=off" { KindEnds(arg[..n - 4], false, p); }
    else { KindEnds(arg, true, p); }
  }

  lemma ColorEnds(o: string, p: string)
    requires "color" <= o && Decides(ColorAction(o, p), p)
    ensures AllEnd(ColorAction(o, p), p)
  {
    hide Fixed;
    FixedToggle(true, "color");
    FixedToggle(false, "color");
    assert Toggle(true) + "color" == "-enable-color" && Toggle(false) + "color" == "-disable-color";
  }

  lemma ErrorsLevels(o: string, x: string)
    requires "verrors" <= o && x == "-" + o
    ensures ActionOf(x) == ErrorsAction(o, x)
  {
    assert x[1..] == o && o[0] == 'v' && o[1] == 'e' && o[2] == 'r' && |o| >= 7;
    assert ActionOf(x) == CodeOption(o, x) by { hide CodeOption, CheckAction, ColorAction; }
    assert CodeOption(o, x) == MiscOption(o, x) by { hide MiscOption; }
    assert MiscOption(o, x) == ErrorsAction(o, x) by { hide ErrorsAction, LateOption, CpuAction; }
    hide CodeOption, MiscOption, ActionOf;
  }

  lemma FixedErrors(r: string)
    requires r == "spec" || r == "context" || r == "context=false"
    ensures Fixed("-verrors-" + r)
  {
    hide ActionOf;
    var o, x := "verrors-" + r, "-verrors-" + r;
    assert x == "-" + o && o[..7] == "verrors" && o[7] == '-' && o[8..] == r;
    ErrorsLevels(o, x);
    assert "-verrors-" + "spec" == "-verrors-spec" && "-verrors-" + "context" == "-verrors-context";
    assert |"spec"| == 4 && |"context"| == 7 && |"simple"| == 6 && |"context=false"| == 13;
  }

  lemma ErrorsEnds(o: string, p: string)
    requires "verrors" <= o && Decides(ErrorsAction(o, p), p)
    ensures AllEnd(ErrorsAction(o, p), p)
  {
    hide Fixed;
    FixedErrors("spec");
    FixedErrors("context");
    FixedErrors("context=false");
    assert "-verrors-" + "spec" == "-verrors-spec" && "-verrors-" + "context" == "-verrors-context"
           && "-verrors-" + "context=false" == "-verrors-context=false";
  }

  lemma FixedCpu()
    ensures Fixed("-mcpu=help")
  {
    var x: string := "-mcpu=help";
    var o := x[1..];
    assert o[0] == 'm' && o[1] == 'c' && o[2] == 'p' && |o| == 9 && o[5..] == "help" && "mcpu=" == o[..5];
    assert ActionOf(x) == CodeOption(o, x) by { hide CodeOption, CheckAction, ColorAction; }
    assert CodeOption(o, x) == MiscOption(o, x) by { hide MiscOption; }
    assert MiscOption(o, x) == CpuAction("help", x) by { hide ErrorsAction, LateOption, CpuAction; }
    hide CodeOption, MiscOption, ActionOf;
  }

  lemma CpuEnds(c: string, p: string)
    requires Decides(CpuAction(c, p), p)
    ensures AllEnd(CpuAction(c, p), p)
  {
    hide Fixed;
    FixedCpu();
    FixedAs("-mattr=+avx", 'm', 'a', 't');
    FixedAs("-mattr=+avx2", 'm', 'a', 't');
  }

  lemma FixedOq()
    ensures Fixed("-oq")
  {
    var x, o: string := "-oq", "oq";
    assert x[1..] == o && o[0] == 'o' && o[1] == 'q' && |o| == 2;
    assert ActionOf(x) == CodeOption(o, x) by { hide CodeOption, CheckAction, ColorAction; }
    assert CodeOption(o, x) == MiscOption(o, x) by { hide MiscOption; }
    assert MiscOption(o, x) == LateOption(o, x) by { hide ErrorsAction, LateOption, CpuAction; }
    hide CodeOption, MiscOption, ActionOf;
  }

  lemma MiscWithE(o: string, p: string)
    requires o != "" && o[0] == 'e'
    ensures MiscOption(o, p) == Push([p])
  {
    hide ErrorsAction, CpuAction;
  }

  lemma CodeWithE(o: string, p: string)
    requires o != "" && o[0] == 'e' && o != "edition"
    ensures CodeOption(o, p) == MiscOption(o, p)
  {
    hide MiscOption;
  }

  lemma FirstWithE(o: string, p: string)
    requires o != "" && o[0] == 'e' && p == "-" + o
    ensures ActionOf(p) == CodeOption(o, p)
  {
    hide CodeOption, CheckAction, ColorAction;
    assert p[1..] == o;
  }

  lemma FixedEdition()
    ensures Fixed("-edition=")
  {
    hide *;
    var o, x: string := "edition=", "-edition=";
    assert "-" + o == x && o[0] == 'e' && |o| == 8;
    MiscWithE(o, x);
    CodeWithE(o, x);
    FirstWithE(o, x);
    FixedBy(x);
  }

  lemma LateEnds(o: string, p: string)
    requires p == "-" + o && Decides(LateOption(o, p), p)
    ensures AllEnd(LateOption(o, p), p)
  {
    hide Fixed;
    assert o == "" ==> p == "-";
    if |o| > 5 { FixedAs("-d-debug=" + o[6..], 'd', '-', 'd'); }
    FixedAs("-d-debug", 'd', '-', 'd');
    if |o| > 7 { FixedAs("-d-version=" + o[8..], 'd', '-', 'v'); }
    if o != "" { FixedAs("-hidden-debug-" + o[1..], 'h', 'i', 'd'); }
  }

  lemma FixedMisc(rest: string)
    ensures Fixed("--output-s") && Fixed("--output-o") && Fixed("--x86-asm-syntax=intel")
    ensures Fixed("-transition=tls") && Fixed("-mtriple=" + rest) && Fixed("-enable-inlining")
    ensures Fixed("-Hkeep-all-bodies") && Fixed("-cleanup-obj") && Fixed("-fno-exceptions")
  {
    hide Fixed;
    FixedAs("--output-s", '-', 'o', 'u');
    FixedAs("--output-o", '-', 'o', 'u');
    FixedAs("--x86-asm-syntax=intel", '-', 'x', '8');
    FixedAs("-transition=tls", 't', 'r', 'a');
    FixedAs("-mtriple=" + rest, 'm', 't', 'r');
    FixedAs("-enable-inlining", 'e', 'n', 'a');
    FixedAs("-Hkeep-all-bodies", 'H', 'k', 'e');
    FixedAs("-cleanup-obj", 'c', 'l', 'e');
    FixedAs("-fno-exceptions", 'f', 'n', 'o');
  }

  lemma MiscEnds(o: string, p: string)
    requires p == "-" + o && Decides(MiscOption(o, p), p)
    ensures AllEnd(MiscOption(o, p), p)
  {
    hide Fixed, LateOption, ErrorsAction, CpuAction;
    FixedMisc(if "target=" <= o then o[7..] else "");
    FixedOq();
    FixedBounds();
    assert o == "lib" ==> p == "-lib";
    if "verrors" <= o && MiscOption(o, p) == ErrorsAction(o, p) { ErrorsEnds(o, p); }
    else if "mcpu=" <= o && MiscOption(o, p) == CpuAction(o[5..], p) { CpuEnds(o[5..], p); }
    else if MiscOption(o, p) == LateOption(o, p) { LateEnds(o, p); }
  }

  lemma FixedCode(rest: string)
    ensures Fixed("-fvisibility=" + rest) && Fixed("-shared") && Fixed("-fcf-protection=branch")
    ensures Fixed("-dwarf-version") && Fixed("-frame-pointer=all") && Fixed("-march=aarch64")
    ensures Fixed("-fdmd-trace-functions") && Fixed("-edition=")
  {
    hide Fixed;
    FixedAs("-fvisibility=" + rest, 'f', 'v', 'i');
    FixedAs("-shared", 's', 'h', 'a');
    FixedAs("-fcf-protection=branch", 'f', 'c', 'f');
    FixedAs("-dwarf-version", 'd', 'w', 'a');
    FixedAs("-frame-pointer=all", 'f', 'r', 'a');
    FixedAs("-march=aarch64", 'm', 'a', 'r');
    FixedAs("-fdmd-trace-functions", 'f', 'd', 'm');
    FixedEdition();
  }

  lemma CodeEnds(o: string, p: string)
    requires p == "-" + o && Decides(CodeOption(o, p), p)
    ensures AllEnd(CodeOption(o, p), p)
  {
    hide Fixed, MiscOption;
    FixedCode(if "visibility=" <= o then o[11..] else "");
    if CodeOption(o, p) == MiscOption(o, p) { MiscEnds(o, p); }
  }

  /** Every argument that the translation of `p` puts in its place is fixed, or shorter
      than `p`, or `p` is -lib. */
  lemma ActionEnds(p: string)
    ensures AllEnd(ActionOf(p), p)
  {
    hide CodeOption, CheckAction, ColorAction;
    if !Fixed(p) {
      if p == "" || p[0] != '-' {
        FixedAs("-of=" + p, 'o', 'f', '=');
      } else {
        var o := p[1..];
        assert p == "-" + o;
        if o == "vdmd" { assert ActionOf(p) == Push([]); }
        else if "check=" <= o { CheckEnds(o[6..], p); }
        else if "color" <= o { ColorEnds(o, p); }
        else { CodeEnds(o, p); }
      }
    }
  }

  // ----- a list arrives unchanged only if each of its arguments does

  /** What LDMD makes of `b` behind the arguments `before`. */
  function PiecesAfter(before: seq<string>, b: seq<string>): seq<string> {
    if b == [] then []
    else PiecesAfter(before, b[..|b| - 1]) + Piece(before + b[..|b| - 1], b[|b| - 1])
  }

  lemma {:induction false} PiecesSplit(a: seq<string>, b: seq<string>)
    ensures Pieces(a + b) == Pieces(a) + PiecesAfter(a, b)
    decreases |b|
  {
    if b == [] {
      assert a + b == a && Pieces(a) + [] == Pieces(a);
    } else {
      hide Pieces, Piece;
      var init, p := b[..|b| - 1], b[|b| - 1];
      Sequences.AppendInit(a, b);
      PiecesLast(a + b);
      PiecesSplit(a, init);
      Sequences.Assoc(Pieces(a), PiecesAfter(a, init), Piece(a + init, p));
    }
  }

  /** The argument ends neither LDMD nor its translation. */
  predicate Goes(p: string) { p != "-run" && !Stops(p) }

  lemma PieceEnds(before: seq<string>, q: string, x: string)
    requires Goes(q) && x in Piece(before, q)
    ensures Ends(x, q) && (Fixed(q) ==> x == q) && (q == "-lib" ==> x == q || Fixed(x))
  {
    hide ActionOf, Listed;
    OnlyRunIsRest(q);
    OnlyPicIsPic(q);
    ActionEnds(q);
    FixedPic();
    LibPieces();
  }

  lemma FixedPic()
    ensures Fixed("-relocation-model=pic")
  {
    hide Fixed;
    FixedAs("-relocation-model=pic", 'r', 'e', 'l');
  }

  lemma LibMisc(o: string, p: string)
    requires o == "lib"
    ensures MiscOption(o, p) == Push([p, "-oq", "-cleanup-obj"])
  {
    hide LateOption, ErrorsAction, CpuAction;
    assert o[0] == 'l';
  }

  lemma LibCode(o: string, p: string)
    requires o == "lib"
    ensures CodeOption(o, p) == MiscOption(o, p)
  {
    hide MiscOption;
    assert o[0] == 'l';
  }

  lemma LibFirst(p: string)
    requires p == "-lib"
    ensures ActionOf(p) == CodeOption("lib", p)
  {
    hide CodeOption, CheckAction, ColorAction;
    assert p[1..] == "lib" && p[1..][0] == 'l';
  }

  lemma LibPieces()
    ensures ActionOf("-lib") == Push(["-lib", "-oq", "-cleanup-obj"]) && Fixed("-oq") && Fixed("-cleanup-obj")
  {
    hide Fixed, ActionOf, CodeOption, MiscOption;
    FixedOq();
    FixedAs("-cleanup-obj", 'c', 'l', 'e');
    LibMisc("lib", "-lib");
    LibCode("lib", "-lib");
    LibFirst("-lib");
  }

  /** An argument that LDMD changes, -lib apart. */
  predicate Changed(p: string) { !Fixed(p) && p != "-lib" }

  /** What changes can only come from something longer that changes. */
  lemma ChangedComesFrom(before: seq<string>, q: string, x: string)
    requires Goes(q) && x in Piece(before, q)
    ensures Changed(x) ==> Changed(q) && |q| > |x|
  {
    hide ActionOf, Piece, Fixed;
    PieceEnds(before, q, x);
  }

  lemma {:induction false} InPieces(before: seq<string>, b: seq<string>, x: string) returns (i: nat)
    requires x in PiecesAfter(before, b)
    ensures i < |b| && x in Piece(before + b[..i], b[i])
    decreases |b|
  {
    hide Piece;
    var last := |b| - 1;
    if x in PiecesAfter(before, b[..last]) {
      i := InPieces(before, b[..last], x);
      assert b[..last][..i] == b[..i];
    } else {
      i := last;
    }
  }

  lemma {:induction false} LongestChanged(b: seq<string>) returns (p: string)
    requires exists q :: q in b && Changed(q)
    ensures p in b && Changed(p) && forall q :: q in b && Changed(q) ==> |q| <= |p|
    decreases |b|
  {
    hide Changed;
    var init, last := b[..|b| - 1], b[|b| - 1];
    assert b == init + [last];
    if exists q :: q in init && Changed(q) {
      p := LongestChanged(init);
      if Changed(last) && |last| > |p| {
        p := last;
      }
    } else {
      p := last;
    }
  }

  lemma NothingChanged(before: seq<string>, b: seq<string>)
    requires PiecesAfter(before, b) == b && forall p :: p in b ==> Goes(p)
    ensures forall p :: p in b ==> !Changed(p)
  {
    hide Changed, Goes, PiecesAfter, Piece;
    if exists q :: q in b && Changed(q) {
      var p := LongestChanged(b);
      var i := InPieces(before, b, p);
      ChangedComesFrom(before + b[..i], b[i], p);
      assert false;
    }
  }

  lemma PieceLength(before: seq<string>, p: string)
    requires !Changed(p)
    ensures Fixed(p) ==> Piece(before, p) == [p]
    ensures !Fixed(p) ==> p == "-lib" && |Piece(before, p)| == 3
  {
    LibPieces();
    hide ActionOf;
  }

  lemma {:induction false} PiecesLength(before: seq<string>, b: seq<string>)
    requires forall p :: p in b ==> !Changed(p)
    ensures |PiecesAfter(before, b)| >= |b|
    ensures (forall p :: p in b ==> Fixed(p)) ==> PiecesAfter(before, b) == b
    ensures (exists p :: p in b && !Fixed(p)) ==> |PiecesAfter(before, b)| > |b|
    decreases |b|
  {
    hide Piece, Fixed, Changed;
    if b != [] {
      var init, last := b[..|b| - 1], b[|b| - 1];
      assert b == init + [last];
      PiecesLength(before, init);
      PieceLength(before + init, last);
    }
  }

  /** A list of arguments is handed on unchanged, behind whatever came before it, if
      and only if each of its arguments is. */
  lemma UnchangedExactly(before: seq<string>, b: seq<string>)
    requires forall p :: p in b ==> Goes(p)
    ensures PiecesAfter(before, b) == b <==> forall p :: p in b ==> Fixed(p)
  {
    hide PiecesAfter, Fixed, Goes;
    if PiecesAfter(before, b) == b {
      NothingChanged(before, b);
      PiecesLength(before, b);
    } else if forall p :: p in b ==> Fixed(p) {
      PiecesLength(before, b);
    }
  }
}
