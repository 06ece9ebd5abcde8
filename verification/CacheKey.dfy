/** The command-line part of the cache key. */
module CacheKey {
  import opened Arguments

  predicate ValidArg(arg: string) { '\0' !in arg }

  /** Arguments that cannot influence the object code and are left out of the key. */
  predicate Ignored(arg: string) {
    || arg == ""
    || (arg[0] == '-' && IgnoredOption(arg[1..]))
  }

  predicate IgnoredOption(o: string) {
    || "O" <= o || o == "c"
    || "D" <= o || "H" <= o || "I" <= o || "J" <= o || "L" <= o || "X" <= o
    || (("d" <= o || "v" <= o || "w" <= o) && |o| < 10)
    || "of" <= o || "od" <= o || "cache" <= o || o == "lib" || "d-version" <= o || o == "unittest"
  }

  // ----- specification: filter, then concatenate, up to -run

  function Relevant(args: seq<string>): seq<string> {
    if args == [] then []
    else (if Ignored(args[0]) then [] else [args[0]]) + Relevant(args[1..])
  }

  function Concat(args: seq<string>): string {
    if args == [] then "" else args[0] + Concat(args[1..])
  }

  /** What the arguments of a command line contribute, its executable excluded. */
  function KeyText(args: seq<string>): string
    requires args != []
  {
    Concat(Relevant(BeforeRun(args[1..])))
  }

  // ----- the loop

  /** The scan that tells options too short to be an LLVM option. */
  method IsShort(arg: string) returns (short: bool)
    requires ValidArg(arg) && |arg| >= 2
    ensures short <==> |arg| < 11
  {
    var len := 2;
    while len < 11 && CharAt(arg, len) != '\0'
      invariant 2 <= len <= 11 && len <= |arg|
    {
      len := len + 1;
    }
    short := len < 11;
  }

  /** The tests of one argument, in the source's order, character by character. */
  method Skips(arg: string) returns (skip: bool)
    requires ValidArg(arg)
    ensures skip <==> Ignored(arg)
  {
    if arg == "" { return true; }
    if arg[0] != '-' { return false; }
    ghost var o := arg[1..];
    var a1, a2 := CharAt(arg, 1), CharAt(arg, 2);
    assert |o| > 0 ==> o[0] == a1;
    assert |o| > 1 ==> o[1] == a2;
    if a1 == 'O' { return true; }
    if a1 == 'c' && a2 == '\0' { assert |o| == 1 && o == "c"; return true; }
    if a1 == 'D' || a1 == 'H' || a1 == 'I' || a1 == 'J' || a1 == 'L' || a1 == 'X' { return true; }
    if a1 == 'd' || a1 == 'v' || a1 == 'w' {
      var short := IsShort(arg);
      if short { return true; }
    }
    if a1 == 'o' && a2 == 'f' { return true; }
    if a1 == 'o' && a2 == 'd' { return true; }
    if "cache" <= arg[1..] { return true; }
    if a1 == 'l' && a2 == 'i' && CharAt(arg, 3) == 'b' && CharAt(arg, 4) == '\0' {
      assert o == "lib";
      return true;
    }
    if "d-version" <= arg[1..] { return true; }
    if arg[1..] == "unittest" { return true; }
    return false;
  }

  /** outputIR2ObjRelevantCmdlineArgs, as far as the arguments go. */
  method OutputRelevantArgs(args: seq<string>) returns (stream: string)
    requires args != [] && forall i :: 0 <= i < |args| ==> ValidArg(args[i])
    ensures stream == KeyText(args)
  {
    hide Ignored;
    stream := "";
    var it := 1;
    while it < |args|
      invariant 1 <= it <= |args|
      invariant stream + Concat(Relevant(BeforeRun(args[it..]))) == KeyText(args)
    {
      var arg := args[it];
      assert args[it..][1..] == args[it + 1..];
      ghost var rest := BeforeRun(args[it + 1..]);
      var skip := Skips(arg);
      if skip {
        RunIsRelevant();
        assert ([arg] + rest)[1..] == rest && [] + Relevant(rest) == Relevant(rest);
        it := it + 1;
        continue;
      }
      if arg == "-run" {
        assert stream + "" == stream;
        return;
      }
      assert ([arg] + rest)[1..] == rest && ([arg] + Relevant(rest))[1..] == Relevant(rest);
      assert stream + (arg + Concat(Relevant(rest))) == stream + arg + Concat(Relevant(rest));
      stream := stream + arg;
      it := it + 1;
    }
  }

  lemma RunIsRelevant()
    ensures !Ignored("-run")
  {
    var o := "-run"[1..];
    assert o == "run" && o[0] == 'r';
  }

  // ----- what the key does not depend on

  lemma {:induction false} RelevantAppend(a: seq<string>, b: seq<string>)
    ensures Relevant(a + b) == Relevant(a) + Relevant(b)
    decreases |a|
  {
    hide Ignored;
    if a == [] {
      assert a + b == b;
    } else {
      assert (a + b)[1..] == a[1..] + b;
      RelevantAppend(a[1..], b);
    }
  }

  lemma {:induction false} ConcatAppend(a: seq<string>, b: seq<string>)
    ensures Concat(a + b) == Concat(a) + Concat(b)
    decreases |a|
  {
    if a == [] {
      assert a + b == b;
    } else {
      assert (a + b)[1..] == a[1..] + b;
      ConcatAppend(a[1..], b);
    }
  }

  lemma RelevantOne(x: string)
    ensures Relevant([x]) == if Ignored(x) then [] else [x]
  {
    hide Ignored;
  }

  /** Inserting, or deleting, an ignored argument anywhere after the executable, and
      renaming the executable, leave the key as it is. */
  lemma KeyIgnores(exe: string, exe': string, a: seq<string>, x: string, b: seq<string>)
    requires Ignored(x)
    ensures KeyText([exe] + a + [x] + b) == KeyText([exe'] + a + b)
  {
    RunIsRelevant();
    hide Ignored, BeforeRun, Relevant, Concat;
    assert ([exe] + a + [x] + b)[1..] == a + ([x] + b) && ([exe'] + a + b)[1..] == a + b;
    BeforeRunAppend(a, [x] + b);
    BeforeRunAppend(a, b);
    BeforeRunAppend([x], b);
    RelevantAppend(a, [x] + BeforeRun(b));
    RelevantAppend(a, BeforeRun(b));
    RelevantAppend([x], BeforeRun(b));
    RelevantOne(x);
    assert [] + Relevant(BeforeRun(b)) == Relevant(BeforeRun(b));
  }

  /** Nothing from -run on reaches the key. */
  lemma KeyStopsAtRun(exe: string, a: seq<string>, b: seq<string>, b': seq<string>)
    ensures KeyText([exe] + a + ["-run"] + b) == KeyText([exe] + a + ["-run"] + b')
  {
    assert ([exe] + a + ["-run"] + b)[1..] == (a + ["-run"]) + b;
    assert ([exe] + a + ["-run"] + b')[1..] == (a + ["-run"]) + b';
    BeforeRunAppend(a + ["-run"], b);
    BeforeRunAppend(a + ["-run"], b');
  }

  /** Arguments are written without a separator: splitting one relevant argument
      into two relevant ones is not seen by the key. */
  lemma KeyJoins(exe: string, a: seq<string>, x: string, y: string, b: seq<string>)
    requires !Ignored(x) && !Ignored(y) && !Ignored(x + y)
    requires x != "-run" && y != "-run" && x + y != "-run"
    ensures KeyText([exe] + a + [x, y] + b) == KeyText([exe] + a + [x + y] + b)
  {
    hide Ignored, BeforeRun, Relevant, Concat;
    assert ([exe] + a + [x, y] + b)[1..] == a + ([x, y] + b);
    assert ([exe] + a + [x + y] + b)[1..] == a + ([x + y] + b);
    BeforeRunAppend(a, [x, y] + b);
    BeforeRunAppend(a, [x + y] + b);
    if "-run" !in a {
      BeforeRunAppend([x, y], b);
      BeforeRunAppend([x + y], b);
      var r := BeforeRun(b);
      RelevantAppend(a, [x, y] + r);
      RelevantAppend(a, [x + y] + r);
      RelevantAppend([x, y], r);
      RelevantAppend([x + y], r);
      RelevantAppend([x], [y]);
      assert [x] + [y] == [x, y];
      RelevantOne(x);
      RelevantOne(y);
      RelevantOne(x + y);
      ConcatAppend(Relevant(a), [x, y] + Relevant(r));
      ConcatAppend(Relevant(a), [x + y] + Relevant(r));
      ConcatAppend([x, y], Relevant(r));
      ConcatAppend([x + y], Relevant(r));
      ConcatSplit(x, y);
    }
  }

  lemma ConcatSplit(x: string, y: string)
    ensures Concat([x, y]) == x + y == Concat([x + y])
  {
    assert [x, y][1..] == [y];
    assert Concat([y]) == y + Concat([y][1..]) == y;
    assert Concat([x + y]) == x + y + Concat([x + y][1..]) == x + y;
  }

  /** So the key does not determine the argument list. */
  lemma KeyNotInjective() returns (a: seq<string>, b: seq<string>)
    ensures a != [] && b != [] && a[1..] != b[1..] && |a| != |b| && KeyText(a) == KeyText(b)
  {
    KeyJoins("ldc2", [], "a.d", "b.d", []);
    a, b := ["ldc2", "a.d", "b.d"], ["ldc2", "a.db.d"];
    assert "a.d" + "b.d" == "a.db.d";
    assert ["ldc2"] + [] + ["a.d", "b.d"] + [] == a;
    assert ["ldc2"] + [] + ["a.d" + "b.d"] + [] == b;
  }

  // ----- the ignored arguments written out

  /** What one argument adds to the key. */
  function Adds(arg: string): string { KeyText(["ldc2", arg]) }

  lemma AddsIs(arg: string)
    requires arg != "-run"
    ensures Adds(arg) == if Ignored(arg) then "" else arg
  {
    hide Ignored;
    var args: seq<string> := ["ldc2", arg];
    var one := [arg];
    assert args[1..] == one && one[1..] == [] && one + [] == one;
    assert BeforeRun(one) == one;
    RelevantOne(arg);
    assert Concat(one) == arg + Concat([]) && arg + "" == arg;
  }

  lemma AddsNone(o: string)
    requires IgnoredOption(o) && o != "run"
    ensures Adds("-" + o) == ""
  {
    hide IgnoredOption, Adds;
    var p := "-" + o;
    assert p[1..] == o && "-run"[1..] == "run";
    AddsIs(p);
  }

  /** Optimisation levels, outputs, the cache's own options, -c, -lib, -unittest, version
      identifiers and short options starting with d, v or w add nothing. */
  lemma AddsNothing(x: string)
    ensures Adds("") == "" && Adds("-c") == "" && Adds("-lib") == "" && Adds("-unittest") == ""
    ensures Adds("-O" + x) == "" && Adds("-of" + x) == "" && Adds("-od" + x) == "" && Adds("-cache" + x) == ""
    ensures Adds("-d-version" + x) == ""
    ensures |x| <= 8 ==> Adds("-d" + x) == "" && Adds("-v" + x) == "" && Adds("-w" + x) == ""
  {
    hide Adds;
    AddsIs("");
    AddsNone("c"); AddsNone("lib"); AddsNone("unittest");
    assert "-" + "c" == "-c" && "-" + "lib" == "-lib" && "-" + "unittest" == "-unittest";
    AddsWith("O", x); AddsWith("of", x); AddsWith("od", x); AddsWith("cache", x); AddsWith("d-version", x);
    assert "-" + "O" == "-O" && "-" + "of" == "-of" && "-" + "od" == "-od" && "-" + "cache" == "-cache"
           && "-" + "d-version" == "-d-version";
    if |x| <= 8 {
      AddsShort('d', x);
      AddsShort('v', x);
      AddsShort('w', x);
      assert "-" + ['d'] == "-d" && "-" + ['v'] == "-v" && "-" + ['w'] == "-w";
    }
  }

  lemma AddsWith(n: string, x: string)
    requires n in {"O", "of", "od", "cache", "d-version", "D", "H", "I", "J", "L", "X"}
    ensures Adds("-" + n + x) == ""
  {
    hide Adds;
    var o := n + x;
    assert o[..|n|] == n && "-" + o == "-" + n + x;
    assert o != "run" by { assert o[0] == n[0] && "run"[0] == 'r'; }
    AddsNone(o);
  }

  lemma AddsShort(c: char, x: string)
    requires c in {'d', 'v', 'w'} && |x| <= 8
    ensures Adds("-" + [c] + x) == ""
  {
    hide Adds;
    var o := [c] + x;
    assert "-" + o == "-" + [c] + x && o[0] == c && o[..1] == [c];
    assert o != "run" by { assert "run"[0] == 'r'; }
    AddsNone(o);
  }

  /** Options starting with these capitals add nothing either. */
  lemma CapitalsAddNothing(x: string)
    ensures Adds("-D" + x) == "" && Adds("-H" + x) == "" && Adds("-I" + x) == "" && Adds("-J" + x) == ""
    ensures Adds("-L" + x) == "" && Adds("-X" + x) == ""
  {
    hide Adds;
    AddsWith("D", x); AddsWith("H", x); AddsWith("I", x); AddsWith("J", x); AddsWith("L", x); AddsWith("X", x);
    assert "-" + "D" == "-D" && "-" + "H" == "-H" && "-" + "I" == "-I" && "-" + "J" == "-J" && "-" + "L" == "-L"
           && "-" + "X" == "-X";
  }

  lemma OtherLetters(o: string)
    requires o == "" || o[0] !in {'O', 'c', 'D', 'H', 'I', 'J', 'L', 'X', 'd', 'v', 'w', 'o', 'l', 'u'}
    ensures !IgnoredOption(o)
  {
  }

  lemma LongOptions(o: string)
    requires |o| > 9 && o[0] in {'d', 'v', 'w'} && o[..9] != "d-version"
    ensures !IgnoredOption(o)
  {
  }

  lemma AlmostIgnored(o: string)
    requires o != ""
    requires
      || (o[0] == 'o' && (|o| == 1 || o[1] !in {'f', 'd'}))
      || (o[0] == 'c' && |o| > 1 && (|o| < 5 || o[..5] != "cache"))
      || (o[0] == 'l' && o != "lib") || (o[0] == 'u' && o != "unittest")
    ensures !IgnoredOption(o)
  {
  }

  /** Everything else is added as it is: what does not start with a dash, options with
      other first letters, long ones starting with d, v or w, and those that only begin
      like an ignored one. */
  lemma AddsItself(p: string)
    requires p != "" && p != "-run"
    requires
      var o := p[1..];
      || p[0] != '-' || o == "" || o[0] !in {'O', 'c', 'D', 'H', 'I', 'J', 'L', 'X', 'd', 'v', 'w', 'o', 'l', 'u'}
      || (o[0] in {'d', 'v', 'w'} && |o| > 9 && o[..9] != "d-version")
      || (o[0] == 'o' && (|o| == 1 || o[1] !in {'f', 'd'}))
      || (o[0] == 'c' && |o| > 1 && (|o| < 5 || o[..5] != "cache"))
      || (o[0] == 'l' && o != "lib") || (o[0] == 'u' && o != "unittest")
    ensures Adds(p) == p
  {
    hide Adds, IgnoredOption;
    AddsIs(p);
    var o := p[1..];
    if p[0] == '-' {
      if o == "" || o[0] !in {'O', 'c', 'D', 'H', 'I', 'J', 'L', 'X', 'd', 'v', 'w', 'o', 'l', 'u'} {
        OtherLetters(o);
      } else if o[0] in {'d', 'v', 'w'} {
        LongOptions(o);
      } else {
        AlmostIgnored(o);
      }
    }
  }
}
