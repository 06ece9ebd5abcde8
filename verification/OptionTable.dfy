/** LDMD's option table, row by row: what each DMD option becomes on an LDC command
    line, in the options' own spelling. */
module OptionTable {
  import opened Arguments
  import opened Translate
  import CheckFlags

  /** A command line of this one argument hands LDC `out`. */
  ghost predicate Becomes(p: string, out: seq<string>) {
    forall ldc :: Translation(ldc, [p]) == Ok([ldc, "-ldmd"] + out)
  }

  /** A command line of this one argument ends LDMD. */
  ghost predicate Ends(p: string, success: bool) {
    forall ldc :: Translation(ldc, [p]) == Exits(success)
  }

  lemma AloneBecomes(p: string, out: seq<string>)
    requires ActionOf(p) == Push(out)
    ensures Becomes(p, out)
  {
    hide ActionOf, Quiet, Pieces, Translation;
    forall ldc ensures Translation(ldc, [p]) == Ok([ldc, "-ldmd"] + out) {
      OnlyRunIsRest(p);
      QuietNone();
      QuietSnoc([], p);
      PiecesLast([p]);
      assert [] + [p] == [p] && [p][..0] == [] && [] + out == out;
      QuietTranslation(ldc, [p]);
    }
  }

  lemma AloneEnds(p: string, success: bool)
    requires ActionOf(p) == if success then Success else Failure
    ensures Ends(p, success)
  {
    hide ActionOf, Translation;
    forall ldc ensures Translation(ldc, [p]) == Exits(success) {
      OnlyRunIsRest(p);
      QuietNone();
      assert [p][..0] == [];
      Decided(ldc, [p], 0);
    }
  }

  // ----- past the tests that come first

  lemma Past(o: string, p: string)
    requires p == "-" + o && o != "vdmd" && !("check=" <= o) && !("color" <= o)
    ensures ActionOf(p) == CodeOption(o, p)
  {
    hide CodeOption, CheckAction, ColorAction;
    assert p[1..] == o;
  }

  // ----- files, -vdmd and -color

  /** A file name ending in .exe, in any case, names the output; others stay. */
  lemma Files(p: string, e: string)
    requires |e| == 4 && e[0] == '.' && e[1] in {'e', 'E'} && e[2] in {'x', 'X'} && e[3] in {'e', 'E'}
    ensures p == "" || p[0] != '-' ==> Becomes(p + e, ["-of=" + (p + e)])
  {
    hide Becomes;
    if p == "" || p[0] != '-' {
      var f := p + e;
      assert f[0] != '-' && |f| >= 4 && f[|f| - 4] == e[0] && f[|f| - 3] == e[1] && f[|f| - 2] == e[2] && f[|f| - 1] == e[3];
      AloneBecomes(f, ["-of=" + f]);
    }
  }

  lemma OtherFiles(p: string)
    requires p == "" || p[0] != '-'
    requires var n := |p|;
      n < 4 || p[n - 4] != '.' || p[n - 3] !in {'e', 'E'} || p[n - 2] !in {'x', 'X'} || p[n - 1] !in {'e', 'E'}
    ensures Becomes(p, [p])
  {
    hide Becomes;
    AloneBecomes(p, [p]);
  }

  lemma Vdmd()
    ensures Becomes("-vdmd", [])
  {
    hide Becomes;
    assert "-vdmd"[1..] == "vdmd";
    AloneBecomes("-vdmd", []);
  }

  lemma ColorText(x: string)
    ensures ActionOf("-color" + x) == ColorAction("color" + x, "-color" + x)
  {
    var p, o := "-color" + x, "color" + x;
    assert p[1..] == o && "color" == o[..5] && o[0] == 'c' && o[1] == 'o';
    hide CodeOption, ColorAction, CheckAction;
  }

  lemma Color(x: string)
    ensures Becomes("-color", ["-enable-color"]) && Becomes("-color=on", ["-enable-color"])
    ensures Becomes("-color=off", ["-disable-color"]) && Becomes("-color=auto", [])
    ensures x !in {"on", "off", "auto"} ==> Becomes("-color=" + x, ["-color=" + x])
    ensures x != "" && x[0] != '=' ==> Becomes("-color" + x, ["-color" + x])
  {
    hide Becomes, ActionOf;
    ColorValue("on");
    ColorValue("off");
    ColorValue("auto");
    ColorValue(x);
    assert "-color=" + "on" == "-color=on" && "-color=" + "off" == "-color=off" && "-color=" + "auto" == "-color=auto";
    ColorText("");
    assert "-color" + "" == "-color" && "color" + "" == "color";
    AloneBecomes("-color", ["-enable-color"]);
    if x != "" && x[0] != '=' {
      ColorText(x);
      assert ("color" + x)[5] == x[0];
      AloneBecomes("-color" + x, ["-color" + x]);
    }
  }

  lemma ColorValue(x: string)
    ensures Becomes("-color=" + x, if x == "on" then ["-enable-color"] else if x == "off" then ["-disable-color"]
                                   else if x == "auto" then [] else ["-color=" + x])
  {
    hide Becomes, ActionOf;
    ColorText("=" + x);
    var o := "color" + ("=" + x);
    assert "-color" + ("=" + x) == "-color=" + x && o[5] == '=' && o[6..] == x;
    AloneBecomes("-color=" + x, if x == "on" then ["-enable-color"] else if x == "off" then ["-disable-color"]
                                else if x == "auto" then [] else ["-color=" + x]);
  }

  // ----- code generation and debug options

  lemma CodeRows(p: string)
    ensures CodeOption("edition", p) == Push(["-edition="])
    ensures CodeOption("dylib", p) == Push(["-shared"])
    ensures CodeOption("fIBT", p) == Push(["-fcf-protection=branch"])
    ensures CodeOption("fPIE", p) == Push([]) && CodeOption("map", p) == Push([])
    ensures CodeOption("multiobj", p) == Push([])
  {
    hide MiscOption;
    var a, b, c, d, e, f: string := "edition", "dylib", "fIBT", "fPIE", "map", "multiobj";
    assert a[0] == 'e' && b[0] == 'd' && c[0] == 'f' && d[0] == 'f' && e[0] == 'm' && f[0] == 'm';
  }

  lemma DebugRows(p: string)
    ensures CodeOption("gf", p) == Push(["-g"]) && CodeOption("gs", p) == Push(["-frame-pointer=all"])
    ensures CodeOption("gx", p) == Push([]) && CodeOption("gt", p) == Failure
  {
    hide MiscOption;
    var a, b, c, d: string := "gf", "gs", "gx", "gt";
    assert a[0] == b[0] == c[0] == d[0] == 'g' && a[1] == 'f' && b[1] == 's' && c[1] == 'x' && d[1] == 't';
  }

  lemma TargetRows(p: string)
    ensures CodeOption("arm", p) == Push(["-march=aarch64"]) && CodeOption("m32mscoff", p) == Push(["-m32"])
  {
    hide MiscOption;
    var e, f: string := "arm", "m32mscoff";
    assert e[0] == 'a' && f[0] == 'm';
  }

  lemma ProfileRows(p: string)
    ensures CodeOption("profile", p) == Push(["-fdmd-trace-functions"])
    ensures CodeOption("profile=gc", p) == Push([])
  {
    hide MiscOption;
    var g, h: string := "profile", "profile=gc";
    assert g[0] == h[0] == 'p' && h[7..] == "=gc" && h[..7] == g;
  }

  lemma CodePayloads(x: string, p: string)
    ensures CodeOption("visibility=" + x, p) == Push(["-fvisibility=" + x])
    ensures CodeOption("gdwarf=" + x, p) == Push(["-gdwarf", "-dwarf-version", x])
    ensures x != "" && x != "=gc" ==> CodeOption("profile" + x, p) == Push([p])
  {
    hide MiscOption;
    var a, b, c := "visibility=" + x, "gdwarf=" + x, "profile" + x;
    assert a[..11] == "visibility=" && a[11..] == x;
    assert b[..7] == "gdwarf=" && b[7..] == x && b[0] == 'g' && |b| >= 7;
    assert c[..7] == "profile" && c[7..] == x && c[0] == 'p';
  }

  /** Code generation options. */
  lemma CodeGeneration(x: string)
    ensures Becomes("-visibility=" + x, ["-fvisibility=" + x]) && Becomes("-edition", ["-edition="])
    ensures Becomes("-dylib", ["-shared"]) && Becomes("-fIBT", ["-fcf-protection=branch"])
    ensures Becomes("-arm", ["-march=aarch64"]) && Becomes("-m32mscoff", ["-m32"])
    ensures Becomes("-profile", ["-fdmd-trace-functions"])
    ensures x != "" && x != "=gc" ==> Becomes("-profile" + x, ["-profile" + x])
  {
    hide *;
    CodeRows("-edition"); CodeRows("-dylib"); CodeRows("-fIBT");
    TargetRows("-arm"); TargetRows("-m32mscoff"); ProfileRows("-profile");
    Row("edition", "-edition", ["-edition="]);
    Row("dylib", "-dylib", ["-shared"]);
    Row("fIBT", "-fIBT", ["-fcf-protection=branch"]);
    Row("arm", "-arm", ["-march=aarch64"]);
    Row("m32mscoff", "-m32mscoff", ["-m32"]);
    Row("profile", "-profile", ["-fdmd-trace-functions"]);
    CodePayloads(x, "-visibility=" + x);
    assert "-" + ("visibility=" + x) == "-visibility=" + x;
    Row("visibility=" + x, "-visibility=" + x, ["-fvisibility=" + x]);
    if x != "" && x != "=gc" {
      CodePayloads(x, "-profile" + x);
      assert "-" + ("profile" + x) == "-profile" + x;
      Row("profile" + x, "-profile" + x, ["-profile" + x]);
    }
  }

  lemma Row(o: string, p: string, out: seq<string>)
    requires p == "-" + o && o != "" && o[0] != 'c' && o != "vdmd" && CodeOption(o, p) == Push(out)
    ensures Becomes(p, out)
  {
    hide CodeOption, Becomes, ActionOf;
    Past(o, p);
    AloneBecomes(p, out);
  }

  /** Debug information. */
  lemma DebugInformation(x: string)
    ensures Becomes("-gdwarf=" + x, ["-gdwarf", "-dwarf-version", x])
    ensures Becomes("-gf", ["-g"]) && Becomes("-gs", ["-frame-pointer=all"]) && Ends("-gt", false)
  {
    hide *;
    DebugRows("-gf"); DebugRows("-gs"); DebugRows("-gt");
    Row("gf", "-gf", ["-g"]);
    Row("gs", "-gs", ["-frame-pointer=all"]);
    RowEnds("gt", "-gt", false);
    CodePayloads(x, "-gdwarf=" + x);
    assert "-" + ("gdwarf=" + x) == "-gdwarf=" + x;
    Row("gdwarf=" + x, "-gdwarf=" + x, ["-gdwarf", "-dwarf-version", x]);
  }

  lemma RowEnds(o: string, p: string, success: bool)
    requires p == "-" + o && o != "" && o[0] != 'c' && o != "vdmd"
    requires CodeOption(o, p) == if success then Success else Failure
    ensures Ends(p, success)
  {
    hide CodeOption, Ends, ActionOf;
    Past(o, p);
    AloneEnds(p, success);
  }

  // ----- messages, targets and other options

  lemma MiscRows(p: string)
    ensures MiscOption("vasm", p) == Push(["--output-s", "--output-o", "--x86-asm-syntax=intel"])
    ensures MiscOption("vtls", p) == Push(["-transition=tls"])
    ensures MiscOption("o", p) == Failure
    ensures MiscOption("inline", p) == Push(["-enable-inlining", "-Hkeep-all-bodies"])
  {
    hide LateOption, ErrorsAction, CpuAction;
    var a, b, c, d: string := "vasm", "vtls", "o", "inline";
    assert a[0] == b[0] == 'v' && a[1] == 'a' && b[1] == 't' && |c| == 1 && c[0] == 'o' && d[0] == 'i';
  }

  lemma LibraryRows(p: string)
    ensures MiscOption("lib", p) == Push([p, "-oq", "-cleanup-obj"])
    ensures MiscOption("nofloat", p) == Push([]) && MiscOption("quiet", p) == Push([])
    ensures MiscOption("noboundscheck", p) == Push(["-boundscheck=off"])
    ensures MiscOption("nothrow", p) == Push(["-fno-exceptions"])
  {
    hide LateOption, ErrorsAction, CpuAction;
    var a, b, c, d, e: string := "lib", "nofloat", "quiet", "noboundscheck", "nothrow";
    assert a[0] == 'l' && b[0] == d[0] == e[0] == 'n' && c[0] == 'q';
  }

  lemma MiscPayloads(x: string, p: string)
    ensures MiscOption("target=" + x, p) == Push(["-mtriple=" + x])
    ensures MiscOption("os=" + x, p) == Failure
    ensures MiscOption("mcpu=" + x, p) == CpuAction(x, p)
    ensures MiscOption("verrors=" + x, p) == ErrorsAction("verrors=" + x, p)
  {
    hide LateOption, ErrorsAction, CpuAction;
    var a, b, c, d := "target=" + x, "os=" + x, "mcpu=" + x, "verrors=" + x;
    assert a[..7] == "target=" && a[7..] == x && a[0] == 't';
    assert b[..3] == "os=" && b[0] == 'o';
    assert c[..5] == "mcpu=" && c[5..] == x && c[0] == 'm';
    assert d[..7] == "verrors" && d[0] == 'v' && d[1] == 'e';
  }

  /** First letters of options that the first part of the table does not know. */
  predicate Later(o: string) {
    o != "" && (LaterLetter(o[0]) || (|o| > 2 && LaterPair(o[0], o[1], o[2])))
  }

  predicate LaterLetter(a: char) { a in {'t', 'o', 'i', 'l', 'n', 'q', 'r', 'h', '-', 'C'} }

  predicate LaterPair(a: char, b: char, c: char) {
    || (a == 'v' && (b == 'a' || b == 't' || b == 'e'))
    || (a == 'm' && (b == 'c' || (b == 'a' && c == 'n')))
    || (a == 'd' && b == 'e')
  }

  lemma PastLetter(o: string, p: string)
    requires o != "" && LaterLetter(o[0])
    ensures CodeOption(o, p) == MiscOption(o, p)
  {
    hide MiscOption;
  }

  lemma PastPair(o: string, p: string)
    requires |o| > 2 && LaterPair(o[0], o[1], o[2])
    ensures CodeOption(o, p) == MiscOption(o, p)
  {
    hide MiscOption;
  }

  lemma LaterPast(o: string, p: string)
    requires p == "-" + o && Later(o)
    ensures ActionOf(p) == MiscOption(o, p)
  {
    hide MiscOption, CodeOption, CheckAction, ColorAction;
    if LaterLetter(o[0]) { PastLetter(o, p); } else { PastPair(o, p); }
    assert p[1..] == o;
  }

  /** A row of the second part of the table. */
  lemma MiscRow(o: string, p: string, out: seq<string>)
    requires p == "-" + o && Later(o) && MiscOption(o, p) == Push(out)
    ensures Becomes(p, out)
  {
    hide MiscOption, Becomes, ActionOf;
    LaterPast(o, p);
    AloneBecomes(p, out);
  }

  lemma MiscEnds(o: string, p: string, success: bool)
    requires p == "-" + o && Later(o) && MiscOption(o, p) == if success then Success else Failure
    ensures Ends(p, success)
  {
    hide MiscOption, Ends, ActionOf;
    LaterPast(o, p);
    AloneEnds(p, success);
  }

  lemma LaterLiterals()
    ensures Later("vasm") && Later("vtls") && Later("o") && Later("inline") && Later("lib") && Later("nofloat")
    ensures Later("quiet") && Later("noboundscheck") && Later("nothrow")
  {
    var a, b, c, d, e: string := "vasm", "vtls", "o", "inline", "lib";
    assert a[0] == b[0] == 'v' && a[1] == 'a' && b[1] == 't' && c[0] == 'o' && d[0] == 'i' && e[0] == 'l';
    var f, g, h, i: string := "nofloat", "quiet", "noboundscheck", "nothrow";
    assert f[0] == h[0] == i[0] == 'n' && g[0] == 'q';
  }

  lemma LaterPayloads(x: string)
    ensures Later("target=" + x) && Later("os=" + x) && Later("mcpu=" + x) && Later("verrors=" + x)
  {
    var a, b, c, d := "target=" + x, "os=" + x, "mcpu=" + x, "verrors=" + x;
    assert a[0] == 't' && b[0] == 'o' && c[0] == 'm' && c[1] == 'c' && d[0] == 'v' && d[1] == 'e';
  }

  /** Output, inlining, libraries and checks. */
  lemma OutputOptions(x: string)
    ensures Becomes("-vasm", ["--output-s", "--output-o", "--x86-asm-syntax=intel"])
    ensures Becomes("-inline", ["-enable-inlining", "-Hkeep-all-bodies"])
    ensures Becomes("-lib", ["-lib", "-oq", "-cleanup-obj"]) && Becomes("-noboundscheck", ["-boundscheck=off"])
    ensures Becomes("-nothrow", ["-fno-exceptions"]) && Becomes("-vtls", ["-transition=tls"])
  {
    hide *;
    LaterLiterals();
    MiscRows("-vasm"); MiscRows("-inline"); MiscRows("-vtls");
    LibraryRows("-lib"); LibraryRows("-noboundscheck"); LibraryRows("-nothrow");
    MiscRow("vasm", "-vasm", ["--output-s", "--output-o", "--x86-asm-syntax=intel"]);
    MiscRow("vtls", "-vtls", ["-transition=tls"]);
    MiscRow("inline", "-inline", ["-enable-inlining", "-Hkeep-all-bodies"]);
    MiscRow("lib", "-lib", ["-lib", "-oq", "-cleanup-obj"]);
    MiscRow("noboundscheck", "-noboundscheck", ["-boundscheck=off"]);
    MiscRow("nothrow", "-nothrow", ["-fno-exceptions"]);
  }

  /** The target triple; an operating system alone is an error, and so is -o. */
  lemma Targets(x: string)
    ensures Becomes("-target=" + x, ["-mtriple=" + x]) && Ends("-os=" + x, false) && Ends("-o", false)
  {
    hide *;
    LaterLiterals();
    LaterPayloads(x);
    MiscRows("-o");
    MiscEnds("o", "-o", false);
    MiscPayloads(x, "-target=" + x);
    MiscPayloads(x, "-os=" + x);
    assert "-" + ("target=" + x) == "-target=" + x && "-" + ("os=" + x) == "-os=" + x;
    MiscRow("target=" + x, "-target=" + x, ["-mtriple=" + x]);
    MiscEnds("os=" + x, "-os=" + x, false);
  }

  lemma CpuRow(x: string, out: seq<string>)
    requires CpuAction(x, "-mcpu=" + x) == Push(out)
    ensures Becomes("-mcpu=" + x, out)
  {
    hide *;
    LaterPayloads(x);
    MiscPayloads(x, "-mcpu=" + x);
    assert "-" + ("mcpu=" + x) == "-mcpu=" + x;
    MiscRow("mcpu=" + x, "-mcpu=" + x, out);
  }

  lemma Cpus(x: string)
    ensures x in {"?", "h", "help"} ==> Becomes("-mcpu=" + x, ["-mcpu=help"])
    ensures x == "baseline" ==> Becomes("-mcpu=" + x, [])
    ensures x == "avx" ==> Becomes("-mcpu=" + x, ["-mattr=+avx"])
    ensures x == "avx2" ==> Becomes("-mcpu=" + x, ["-mattr=+avx2"])
    ensures x !in {"?", "h", "help", "baseline", "avx", "avx2"} ==> Becomes("-mcpu=" + x, ["-mcpu=" + x])
  {
    hide Becomes;
    CpuRow(x, CpuAction(x, "-mcpu=" + x).out);
  }

  lemma ErrorsRow(x: string, out: seq<string>)
    requires ErrorsAction("verrors=" + x, "-verrors=" + x) == Push(out)
    ensures Becomes("-verrors=" + x, out)
  {
    hide *;
    LaterPayloads(x);
    MiscPayloads(x, "-verrors=" + x);
    assert "-" + ("verrors=" + x) == "-verrors=" + x;
    MiscRow("verrors=" + x, "-verrors=" + x, out);
  }

  lemma Errors(x: string)
    ensures x == "spec" ==> Becomes("-verrors=" + x, ["-verrors-spec"])
    ensures x == "simple" ==> Becomes("-verrors=" + x, ["-verrors-context=false"])
    ensures x == "context" ==> Becomes("-verrors=" + x, ["-verrors-context"])
    ensures x !in {"spec", "simple", "context"} ==> Becomes("-verrors=" + x, ["-verrors=" + x])
  {
    hide Becomes;
    var o := "verrors=" + x;
    assert o[..7] == "verrors" && |o| >= 8 && o[7] == '=' && o[8..] == x;
    assert CharAt(o, 8) == CharAt(x, 0);
    assert |"spec"| == 4 && "spec"[0] == 's' && "simple"[0] == 's' && "context"[0] == 'c';
    ErrorsRow(x, ErrorsAction(o, "-verrors=" + x).out);
  }

  /** What LDC has no counterpart for, or does anyway, is dropped. */
  lemma Dropped()
    ensures Becomes("-fPIE", []) && Becomes("-map", []) && Becomes("-multiobj", []) && Becomes("-gx", [])
    ensures Becomes("-profile=gc", []) && Becomes("-nofloat", []) && Becomes("-quiet", [])
  {
    hide *;
    LaterLiterals();
    CodeRows("-fPIE"); CodeRows("-map"); CodeRows("-multiobj");
    DebugRows("-gx"); ProfileRows("-profile=gc"); LibraryRows("-nofloat"); LibraryRows("-quiet");
    Row("fPIE", "-fPIE", []);
    Row("map", "-map", []);
    Row("multiobj", "-multiobj", []);
    Row("gx", "-gx", []);
    Row("profile=gc", "-profile=gc", []);
    MiscRow("nofloat", "-nofloat", []);
    MiscRow("quiet", "-quiet", []);
  }

  // ----- conditional compilation, hidden debug switches, help, and -C

  /** Past the second part of the table. */
  lemma LateBy(o: string, p: string)
    requires o != "" && (o[0] in {'d', 'h', '-', 'C'} || ("version" <= o) || ("man" <= o))
    ensures MiscOption(o, p) == LateOption(o, p)
  {
    hide LateOption, ErrorsAction, CpuAction;
    if "version" <= o { assert o[0] == 'v' && o[1] == 'e' && o[2] == 'r' && o[3] == 's'; }
    if "man" <= o { assert o[0] == 'm' && o[1] == 'a'; }
  }

  lemma LateRow(o: string, p: string, out: seq<string>)
    requires p == "-" + o && Later(o) && MiscOption(o, p) == LateOption(o, p) == Push(out)
    ensures Becomes(p, out)
  {
    hide *;
    MiscRow(o, p, out);
  }

  lemma ConditionalTexts(x: string, p: string)
    ensures LateOption("debug=" + x, p) == Push(["-d-debug=" + x]) && LateOption("debug", p) == Push(["-d-debug"])
    ensures LateOption("version=" + x, p) == Push(["-d-version=" + x])
    ensures x == "" || x[0] != '=' ==> LateOption("version" + x, p) == Push([p])
    ensures x != "" && x[0] != '=' ==> LateOption("debug" + x, p) == Push([p])
  {
    var a, b, c, d := "debug=" + x, "version=" + x, "version" + x, "debug" + x;
    assert a[..5] == "debug" && a[5] == '=' && a[6..] == x;
    assert b[..7] == "version" && b[7] == '=' && b[8..] == x && b[0] == 'v';
    assert c[..7] == "version" && CharAt(c, 7) == CharAt(x, 0) && c[0] == 'v';
    assert d[..5] == "debug" && CharAt(d, 5) == CharAt(x, 0) && d[0] == 'd';
    var e: string := "debug";
    assert e[..5] == e && |e| == 5;
  }

  lemma LaterConditional(x: string, p: string)
    ensures Later("debug=" + x) && Later("debug") && Later("version=" + x) && Later("version" + x) && Later("debug" + x)
    ensures MiscOption("debug=" + x, p) == LateOption("debug=" + x, p)
    ensures MiscOption("debug", p) == LateOption("debug", p)
    ensures MiscOption("version=" + x, p) == LateOption("version=" + x, p)
    ensures MiscOption("version" + x, p) == LateOption("version" + x, p)
    ensures MiscOption("debug" + x, p) == LateOption("debug" + x, p)
  {
    hide MiscOption, LateOption;
    var a, b, c, d, e := "debug=" + x, "version=" + x, "version" + x, "debug" + x, "debug";
    assert a[0] == d[0] == e[0] == 'd' && a[1] == d[1] == e[1] == 'e';
    assert b[0] == c[0] == 'v' && b[1] == c[1] == 'e' && b[..7] == "version" && c[..7] == "version";
    LateBy(a, p);
    LateBy(b, p);
    LateBy(c, p);
    LateBy(d, p);
    LateBy(e, p);
  }

  /** Debug and version identifiers. */
  lemma Conditional(x: string)
    ensures Becomes("-debug=" + x, ["-d-debug=" + x]) && Becomes("-debug", ["-d-debug"])
    ensures Becomes("-version=" + x, ["-d-version=" + x])
    ensures x == "" || x[0] != '=' ==> Becomes("-version" + x, ["-version" + x])
    ensures x != "" && x[0] != '=' ==> Becomes("-debug" + x, ["-debug" + x])
  {
    hide *;
    ConditionalAction(x);
    AloneBecomes("-debug=" + x, ["-d-debug=" + x]);
    AloneBecomes("-debug", ["-d-debug"]);
    AloneBecomes("-version=" + x, ["-d-version=" + x]);
    MalformedConditional(x);
  }

  /** The same for one argument wherever it stands. */
  lemma ConditionalAction(x: string)
    ensures ActionOf("-debug=" + x) == Push(["-d-debug=" + x]) && ActionOf("-debug") == Push(["-d-debug"])
    ensures ActionOf("-version=" + x) == Push(["-d-version=" + x])
  {
    hide *;
    LaterConditional(x, "-debug=" + x);
    ConditionalTexts(x, "-debug=" + x);
    assert "-" + ("debug=" + x) == "-debug=" + x;
    LaterPast("debug=" + x, "-debug=" + x);
    LaterConditional(x, "-debug");
    ConditionalTexts(x, "-debug");
    LaterPast("debug", "-debug");
    LaterConditional(x, "-version=" + x);
    ConditionalTexts(x, "-version=" + x);
    assert "-" + ("version=" + x) == "-version=" + x;
    LaterPast("version=" + x, "-version=" + x);
  }

  lemma MalformedConditional(x: string)
    ensures x == "" || x[0] != '=' ==> Becomes("-version" + x, ["-version" + x])
    ensures x != "" && x[0] != '=' ==> Becomes("-debug" + x, ["-debug" + x])
  {
    hide *;
    if x == "" || x[0] != '=' {
      LaterConditional(x, "-version" + x);
      ConditionalTexts(x, "-version" + x);
      assert "-" + ("version" + x) == "-version" + x;
      LateRow("version" + x, "-version" + x, ["-version" + x]);
    }
    if x != "" && x[0] != '=' {
      LaterConditional(x, "-debug" + x);
      ConditionalTexts(x, "-debug" + x);
      assert "-" + ("debug" + x) == "-debug" + x;
      LateRow("debug" + x, "-debug" + x, ["-debug" + x]);
    }
  }

  lemma HiddenText(c: char, p: string)
    requires c in {'b', 'c', 'f', 'r', 'x', 'y'}
    ensures Later("-" + [c]) && MiscOption("-" + [c], p) == LateOption("-" + [c], p)
    ensures LateOption("-" + [c], p) == Push(["-hidden-debug-" + [c]])
  {
    var o := "-" + [c];
    assert o[0] == '-' && o[1..] == [c] && |o| == 2;
    assert o in {"-b", "-c", "-f", "-r", "-x", "-y"} by {
      assert o == "-b" || o == "-c" || o == "-f" || o == "-r" || o == "-x" || o == "-y";
    }
    assert MiscOption(o, p) == LateOption(o, p) by { hide LateOption; LateBy(o, p); }
    hide MiscOption;
  }

  lemma Hidden(c: char)
    requires c in {'b', 'c', 'f', 'r', 'x', 'y'}
    ensures Becomes("--" + [c], ["-hidden-debug-" + [c]])
  {
    hide *;
    HiddenText(c, "--" + [c]);
    assert "-" + ("-" + [c]) == "--" + [c];
    LateRow("-" + [c], "--" + [c], ["-hidden-debug-" + [c]]);
  }

  lemma HelpTexts(x: string, p: string)
    ensures LateOption("-help", p) == Success && LateOption("h", p) == Success && LateOption("-version", p) == Success
    ensures LateOption("man" + x, p) == Success
  {
    var a, b, c, d := "-help", "h", "-version", "man" + x;
    assert a[0] == c[0] == '-' && |a| == 5 && |c| == 8 && |b| == 1 && b[0] == 'h' && d[0] == 'm' && d[..3] == "man";
    assert a[1] == 'h' && c[1] == 'v';
  }

  lemma HelpPast(x: string, p: string)
    ensures Later("-help") && MiscOption("-help", p) == LateOption("-help", p)
    ensures Later("h") && MiscOption("h", p) == LateOption("h", p)
    ensures Later("-version") && MiscOption("-version", p) == LateOption("-version", p)
    ensures Later("man" + x) && MiscOption("man" + x, p) == LateOption("man" + x, p)
  {
    hide MiscOption, LateOption;
    var a, b, c, d := "-help", "h", "-version", "man" + x;
    assert a[0] == c[0] == '-' && b[0] == 'h' && d[0] == 'm' && d[1] == 'a' && d[2] == 'n' && d[..3] == "man";
    LateBy(a, p);
    LateBy(b, p);
    LateBy(c, p);
    LateBy(d, p);
  }

  /** Help, the version and the manual. */
  lemma Help(x: string)
    ensures Ends("--help", true) && Ends("-h", true) && Ends("--version", true) && Ends("-man" + x, true)
  {
    hide *;
    HelpPast(x, "--help"); HelpTexts(x, "--help");
    MiscEnds("-help", "--help", true);
    HelpPast(x, "-h"); HelpTexts(x, "-h");
    MiscEnds("h", "-h", true);
    HelpPast(x, "--version"); HelpTexts(x, "--version");
    MiscEnds("-version", "--version", true);
    HelpPast(x, "-man" + x); HelpTexts(x, "-man" + x);
    assert "-" + ("man" + x) == "-man" + x;
    MiscEnds("man" + x, "-man" + x, true);
  }

  lemma CText(x: string, p: string)
    ensures Later("C" + x) && MiscOption("C" + x, p) == LateOption("C" + x, p) == Push(["-" + x])
  {
    var o := "C" + x;
    assert o[0] == 'C' && o[1..] == x;
    assert MiscOption(o, p) == LateOption(o, p) by { hide LateOption; LateBy(o, p); }
    hide MiscOption;
  }

  /** -C hands its rest to LDC as an option; a dash alone stays. */
  lemma Verbatim(x: string)
    ensures Becomes("-C" + x, ["-" + x]) && Becomes("-", ["-"])
  {
    hide *;
    CText(x, "-C" + x);
    assert "-" + ("C" + x) == "-C" + x;
    LateRow("C" + x, "-C" + x, ["-" + x]);
    DashAlone();
    AloneBecomes("-", ["-"]);
  }

  lemma DashAlone()
    ensures ActionOf("-") == Push(["-"])
  {
    var p: string := "-";
    assert p[1..] == "" && |p[1..]| == 0;
  }

  // ----- -fPIC and -check

  lemma PositionIndependent(ldc: string)
    ensures Translation(ldc, ["-fPIC"]) == Ok([ldc, "-ldmd"] + ["-relocation-model=pic"])
    ensures Translation(ldc, ["-fPIC", "-fPIC"]) == Ok([ldc, "-ldmd"] + ["-relocation-model=pic"])
  {
    hide ActionOf, Quiet, Pieces, Translation;
    OnlyPicIsPic("-fPIC");
    QuietNone();
    QuietSnoc([], "-fPIC");
    var one, two: seq<string> := ["-fPIC"], ["-fPIC", "-fPIC"];
    assert [] + ["-fPIC"] == one && one[..0] == [] && one + ["-fPIC"] == two && two[..1] == one;
    QuietSnoc(one, "-fPIC");
    PiecesLast(one);
    PiecesLast(two);
    var pic: seq<string> := ["-relocation-model=pic"];
    assert [] + pic == pic && pic + [] == pic;
    QuietTranslation(ldc, one);
    QuietTranslation(ldc, two);
  }

  /** One kind of check: bare, =on and =off. */
  lemma CheckRow(n: string, on: seq<string>, off: seq<string>)
    requires n != "" && '=' !in n && n != "on" && n != "off"
    requires forall p :: KindAction(n, true, p) == Push(on) && KindAction(n, false, p) == Push(off)
    ensures Becomes("-check=" + n, on) && Becomes("-check=" + n + "=on", on) && Becomes("-check=" + n + "=off", off)
  {
    hide ActionOf, CheckAction, KindAction, Becomes;
    var p, q, r := "-check=" + n, "-check=" + n + "=on", "-check=" + n + "=off";
    assert q == "-check=" + (n + "=on") && r == "-check=" + (n + "=off");
    CheckFlags.CheckText(n);
    CheckFlags.CheckText(n + "=on");
    CheckFlags.CheckText(n + "=off");
    CheckFlags.CheckBare(n, p);
    CheckFlags.CheckOn(n, q);
    CheckFlags.CheckOff(n, r);
    AloneBecomes(p, on);
    AloneBecomes(q, on);
    AloneBecomes(r, off);
  }

  ghost predicate ChecksAs(n: string, on: seq<string>, off: seq<string>) {
    Becomes("-check=" + n, on) && Becomes("-check=" + n + "=on", on) && Becomes("-check=" + n + "=off", off)
  }

  lemma KindRows()
    ensures forall p :: KindAction("bounds", true, p) == Push(["-boundscheck=on"])
    ensures forall p :: KindAction("bounds", false, p) == Push(["-boundscheck=off"])
    ensures forall p :: KindAction("assert", true, p) == Push(["-enable-asserts"])
    ensures forall p :: KindAction("assert", false, p) == Push(["-disable-asserts"])
    ensures forall p :: KindAction("in", true, p) == Push(["-enable-preconditions"])
    ensures forall p :: KindAction("in", false, p) == Push(["-disable-preconditions"])
    ensures forall p :: KindAction("invariant", true, p) == Push(["-enable-invariants"])
    ensures forall p :: KindAction("invariant", false, p) == Push(["-disable-invariants"])
    ensures forall p :: KindAction("out", true, p) == Push(["-enable-postconditions"])
    ensures forall p :: KindAction("out", false, p) == Push(["-disable-postconditions"])
    ensures forall p :: KindAction("switch", true, p) == Push(["-enable-switch-errors"])
    ensures forall p :: KindAction("switch", false, p) == Push(["-disable-switch-errors"])
  {
    assert "bounds"[0] == 'b' && "assert"[0] == 'a' && "in"[0] == 'i' && "invariant"[0] == 'i' && "out"[0] == 'o'
           && "switch"[0] == 's' && |"in"| == 2 && |"invariant"| == 9;
    ToggleTexts();
  }

  lemma ToggleText(x: string)
    ensures Toggle(true) + x == "-enable-" + x && Toggle(false) + x == "-disable-" + x
  {
  }

  lemma ToggleTexts()
    ensures Toggle(true) + "asserts" == "-enable-asserts" && Toggle(false) + "asserts" == "-disable-asserts"
    ensures Toggle(true) + "preconditions" == "-enable-preconditions"
    ensures Toggle(false) + "preconditions" == "-disable-preconditions"
    ensures Toggle(true) + "invariants" == "-enable-invariants" && Toggle(false) + "invariants" == "-disable-invariants"
    ensures Toggle(true) + "postconditions" == "-enable-postconditions"
    ensures Toggle(false) + "postconditions" == "-disable-postconditions"
    ensures Toggle(true) + "switch-errors" == "-enable-switch-errors"
    ensures Toggle(false) + "switch-errors" == "-disable-switch-errors"
  {
    EnableTexts();
    DisableTexts();
    hide Toggle;
    ToggleText("asserts");
    ToggleText("preconditions");
    ToggleText("invariants");
    ToggleText("postconditions");
    ToggleText("switch-errors");
  }

  lemma EnableTexts()
    ensures "-enable-" + "asserts" == "-enable-asserts" && "-enable-" + "preconditions" == "-enable-preconditions"
    ensures "-enable-" + "invariants" == "-enable-invariants"
    ensures "-enable-" + "postconditions" == "-enable-postconditions"
    ensures "-enable-" + "switch-errors" == "-enable-switch-errors"
  {
  }

  lemma DisableTexts()
    ensures "-disable-" + "asserts" == "-disable-asserts" && "-disable-" + "preconditions" == "-disable-preconditions"
    ensures "-disable-" + "invariants" == "-disable-invariants"
    ensures "-disable-" + "postconditions" == "-disable-postconditions"
    ensures "-disable-" + "switch-errors" == "-disable-switch-errors"
  {
  }

  /** The six checks by their names in DMD and in LDC. */
  lemma Checks()
    ensures ChecksAs("bounds", ["-boundscheck=on"], ["-boundscheck=off"])
    ensures ChecksAs("assert", ["-enable-asserts"], ["-disable-asserts"])
    ensures ChecksAs("in", ["-enable-preconditions"], ["-disable-preconditions"])
    ensures ChecksAs("invariant", ["-enable-invariants"], ["-disable-invariants"])
    ensures ChecksAs("out", ["-enable-postconditions"], ["-disable-postconditions"])
    ensures ChecksAs("switch", ["-enable-switch-errors"], ["-disable-switch-errors"])
  {
    hide KindAction, Becomes;
    KindRows();
    CheckRow("bounds", ["-boundscheck=on"], ["-boundscheck=off"]);
    CheckRow("assert", ["-enable-asserts"], ["-disable-asserts"]);
    CheckRow("in", ["-enable-preconditions"], ["-disable-preconditions"]);
    CheckRow("invariant", ["-enable-invariants"], ["-disable-invariants"]);
    CheckRow("out", ["-enable-postconditions"], ["-disable-postconditions"]);
    CheckRow("switch", ["-enable-switch-errors"], ["-disable-switch-errors"]);
  }

  lemma AllChecks()
    ensures Becomes("-check=on", ["-boundscheck=on", "-enable-asserts", "-enable-preconditions",
                                  "-enable-invariants", "-enable-postconditions", "-enable-switch-errors"])
    ensures Becomes("-check=off", ["-boundscheck=off", "-disable-asserts", "-disable-preconditions",
                                   "-disable-invariants", "-disable-postconditions", "-disable-switch-errors"])
  {
    hide ActionOf, Becomes;
    ToggleTexts();
    CheckFlags.CheckText("on");
    CheckFlags.CheckText("off");
    assert "-check=" + "on" == "-check=on" && "-check=" + "off" == "-check=off";
    AloneBecomes("-check=on", EachCheck(true));
    AloneBecomes("-check=off", EachCheck(false));
  }

  /** A bare -verrors is read past its end. */
  lemma BareErrors(ldc: string)
    ensures Translation(ldc, ["-verrors"]) == Stuck
  {
    var p, o: string := "-verrors", "verrors";
    assert "-" + o == p && o[..7] == o && o[0] == 'v' && o[1] == 'e' && |o| == 7;
    LaterPast(o, p);
    assert MiscOption(o, p) == ErrorsAction(o, p) by { hide LateOption, CpuAction, ErrorsAction; }
    hide ActionOf, MiscOption, Translation;
    OnlyRunIsRest(p);
    QuietNone();
    var one: seq<string> := [p];
    assert one[..0] == [];
    Decided(ldc, one, 0);
  }
}
