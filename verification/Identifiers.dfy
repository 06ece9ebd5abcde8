/** Debug and version identifiers: what DMD makes of -debug and -version, and what LDC
    makes of LDMD's translation of them. */
module Identifiers {
  import opened Translate
  import opened CheckFlags
  import OptionTable

  /** Conditional compilation: -debug itself, and the identifiers in order. */
  datatype Conditions = Conditions(debugOn: bool, debugIds: seq<string>, versionIds: seq<string>)

  datatype Switch = Debug | DebugId(id: string) | VersionId(id: string)

  function SwitchText(sw: Switch): string {
    match sw
    case Debug => "-debug"
    case DebugId(x) => "-debug=" + x
    case VersionId(x) => "-version=" + x
  }

  /** `valid` is Identifier.isValidIdentifier, left open but for this. */
  ghost predicate Sane(valid: string -> bool) {
    forall x :: valid(x) ==> x != "" && ',' !in x
  }

  // ----- DMD

  function DmdSwitch(valid: string -> bool, c: Conditions, sw: Switch): Result<Conditions> {
    match sw
    case Debug => Valid(c.(debugOn := true))
    case DebugId(x) => if valid(x) then Valid(c.(debugIds := c.debugIds + [x])) else Invalid
    case VersionId(x) => if valid(x) then Valid(c.(versionIds := c.versionIds + [x])) else Invalid
  }

  // ----- LDC: a list option whose values are split at commas

  function Commas(s: string): (r: seq<string>)
    ensures r != []
  {
    if s == "" then [""]
    else
      var r := Commas(s[1..]);
      if s[0] == ',' then [""] + r else [[s[0]] + r[0]] + r[1..]
  }

  function AddDebug(valid: string -> bool, c: Conditions, ids: seq<string>): Result<Conditions>
    decreases |ids|
  {
    if ids == [] then Valid(c)
    else if ids[0] == "" then AddDebug(valid, c.(debugOn := true), ids[1..])
    else if valid(ids[0]) then AddDebug(valid, c.(debugIds := c.debugIds + [ids[0]]), ids[1..])
    else Invalid
  }

  function AddVersions(valid: string -> bool, c: Conditions, ids: seq<string>): Result<Conditions>
    decreases |ids|
  {
    if ids == [] then Valid(c)
    else if valid(ids[0]) then AddVersions(valid, c.(versionIds := c.versionIds + [ids[0]]), ids[1..])
    else Invalid
  }

  /** The effect of one LDC argument; other options have none. */
  function LdcArg(valid: string -> bool, c: Conditions, arg: string): Result<Conditions> {
    var n, v := OptionName(arg), OptionValue(arg);
    if n == "d-debug" then AddDebug(valid, c, Commas(v))
    else if n == "d-version" then AddVersions(valid, c, Commas(v))
    else Valid(c)
  }

  function LdcArgs(valid: string -> bool, c: Conditions, args: seq<string>): Result<Conditions> {
    if args == [] then Valid(c)
    else match LdcArgs(valid, c, args[..|args| - 1])
      case Invalid => Invalid
      case Valid(d) => LdcArg(valid, d, args[|args| - 1])
  }

  // ----- one switch

  /** LDC rejects a piece of the value. */
  predicate LdcRejects(valid: string -> bool, sw: Switch) {
    match sw
    case Debug => false
    case DebugId(x) => exists y :: y in Commas(x) && y != "" && !valid(y)
    case VersionId(x) => exists y :: y in Commas(x) && !valid(y)
  }

  predicate DmdRejects(valid: string -> bool, sw: Switch) {
    !sw.Debug? && !valid(sw.id)
  }

  lemma {:induction false} NoCommas(s: string)
    requires ',' !in s
    ensures Commas(s) == [s]
    decreases |s|
  {
    if s != "" {
      NoCommas(s[1..]);
      assert [s[0]] + s[1..] == s;
    }
  }

  lemma {:induction false} DebugRejected(valid: string -> bool, c: Conditions, ids: seq<string>)
    ensures AddDebug(valid, c, ids).Invalid? <==> exists y :: y in ids && y != "" && !valid(y)
    decreases |ids|
  {
    if ids != [] {
      assert ids == [ids[0]] + ids[1..];
      DebugRejected(valid, c.(debugOn := true), ids[1..]);
      DebugRejected(valid, c.(debugIds := c.debugIds + [ids[0]]), ids[1..]);
    }
  }

  lemma {:induction false} VersionRejected(valid: string -> bool, c: Conditions, ids: seq<string>)
    ensures AddVersions(valid, c, ids).Invalid? <==> exists y :: y in ids && !valid(y)
    decreases |ids|
  {
    if ids != [] {
      assert ids == [ids[0]] + ids[1..];
      VersionRejected(valid, c.(versionIds := c.versionIds + [ids[0]]), ids[1..]);
    }
  }

  /** What LDMD hands over for a switch. */
  function Handed(sw: Switch): string {
    match sw
    case Debug => "-d-debug"
    case DebugId(x) => "-d-debug=" + x
    case VersionId(x) => "-d-version=" + x
  }

  lemma HandedReads(sw: Switch)
    ensures OptionName(Handed(sw)) == if sw.VersionId? then "d-version" else "d-debug"
    ensures OptionValue(Handed(sw)) == if sw.Debug? then "" else sw.id
  {
    hide OptionName, OptionValue;
    var x := if sw.Debug? then "" else sw.id;
    var a, b: string := "d-debug", "d-version";
    assert a[0] == b[0] == 'd' && '=' !in a && '=' !in b;
    ReadsOption(a, x);
    ReadsOption(b, x);
    assert "-" + a == "-d-debug" && "-" + a + "=" + x == "-d-debug=" + x && "-" + b + "=" + x == "-d-version=" + x;
  }

  lemma AddOne(valid: string -> bool, c: Conditions, x: string)
    ensures AddDebug(valid, c, [x]) ==
      if x == "" then Valid(c.(debugOn := true))
      else if valid(x) then Valid(c.(debugIds := c.debugIds + [x])) else Invalid
    ensures AddVersions(valid, c, [x]) ==
      if valid(x) then Valid(c.(versionIds := c.versionIds + [x])) else Invalid
  {
    assert [x][1..] == [];
  }

  /** LDC's reading of a switch: rejected by its own rule, and DMD's where DMD accepts. */
  lemma SwitchRead(valid: string -> bool, c: Conditions, sw: Switch)
    requires Sane(valid)
    ensures var r := LdcArg(valid, c, Handed(sw));
      && (r.Invalid? <==> LdcRejects(valid, sw))
      && (!DmdRejects(valid, sw) ==> r == DmdSwitch(valid, c, sw))
  {
    hide OptionName, OptionValue, Handed;
    HandedReads(sw);
    NoCommas("");
    var a, b: string := "d-debug", "d-version";
    assert a != b by { assert |a| == 7 && |b| == 9; }
    if sw.Debug? {
      AddOne(valid, c, "");
    } else {
      DebugRejected(valid, c, Commas(sw.id));
      VersionRejected(valid, c, Commas(sw.id));
      if valid(sw.id) {
        NoCommas(sw.id);
        AddOne(valid, c, sw.id);
      }
    }
  }

  lemma SwitchHanded(sw: Switch, before: seq<string>)
    ensures Piece(before, SwitchText(sw)) == [Handed(sw)]
  {
    hide ActionOf;
    OptionTable.ConditionalAction(if sw.Debug? then "" else sw.id);
  }

  // ----- command lines

  datatype Word = Cond(sw: Switch) | Plain(arg: string)

  function WordText(w: Word): string {
    match w case Cond(sw) => SwitchText(sw) case Plain(p) => p
  }

  function WordTexts(ws: seq<Word>): (ts: seq<string>)
    ensures |ts| == |ws|
  {
    seq(|ws|, i requires 0 <= i < |ws| => WordText(ws[i]))
  }

  /** A plain word whose translation LDC reads without touching a condition. */
  ghost predicate Harmless(valid: string -> bool, p: string) {
    forall c, before :: LdcArgs(valid, c, Piece(before, p)) == Valid(c)
  }

  ghost predicate Sound(valid: string -> bool, ws: seq<Word>) {
    forall i :: 0 <= i < |ws| && ws[i].Plain? ==> Harmless(valid, ws[i].arg)
  }

  function DmdWords(valid: string -> bool, c: Conditions, ws: seq<Word>): Result<Conditions> {
    if ws == [] then Valid(c)
    else match DmdWords(valid, c, ws[..|ws| - 1])
      case Invalid => Invalid
      case Valid(d) => (match ws[|ws| - 1] case Cond(sw) => DmdSwitch(valid, d, sw) case Plain(_) => Valid(d))
  }

  predicate SomeDmdRejects(valid: string -> bool, ws: seq<Word>) {
    exists i :: 0 <= i < |ws| && ws[i].Cond? && DmdRejects(valid, ws[i].sw)
  }

  predicate SomeLdcRejects(valid: string -> bool, ws: seq<Word>) {
    exists i :: 0 <= i < |ws| && ws[i].Cond? && LdcRejects(valid, ws[i].sw)
  }

  lemma {:induction false} LdcAppend(valid: string -> bool, c: Conditions, a: seq<string>, b: seq<string>)
    ensures LdcArgs(valid, c, a + b) ==
      match LdcArgs(valid, c, a) case Invalid => Invalid case Valid(d) => LdcArgs(valid, d, b)
    decreases |b|
  {
    hide LdcArg;
    if b == [] {
      assert a + b == a;
    } else {
      assert (a + b)[..|a + b| - 1] == a + b[..|b| - 1];
      LdcAppend(valid, c, a, b[..|b| - 1]);
    }
  }

  lemma LdcOne(valid: string -> bool, c: Conditions, arg: string)
    ensures LdcArgs(valid, c, [arg]) == LdcArg(valid, c, arg)
  {
    hide LdcArg;
    assert [arg][..0] == [];
  }

  lemma SnocRejects(valid: string -> bool, ws: seq<Word>)
    requires ws != []
    ensures var init, w := ws[..|ws| - 1], ws[|ws| - 1];
      && (SomeDmdRejects(valid, ws) <==> SomeDmdRejects(valid, init) || (w.Cond? && DmdRejects(valid, w.sw)))
      && (SomeLdcRejects(valid, ws) <==> SomeLdcRejects(valid, init) || (w.Cond? && LdcRejects(valid, w.sw)))
  {
    hide DmdRejects, LdcRejects;
    var init := ws[..|ws| - 1];
    if SomeDmdRejects(valid, init) {
      var i :| 0 <= i < |init| && init[i].Cond? && DmdRejects(valid, init[i].sw);
      assert ws[i] == init[i];
    }
    if SomeLdcRejects(valid, init) {
      var i :| 0 <= i < |init| && init[i].Cond? && LdcRejects(valid, init[i].sw);
      assert ws[i] == init[i];
    }
  }

  lemma {:induction false} DmdJudges(valid: string -> bool, c: Conditions, ws: seq<Word>)
    ensures DmdWords(valid, c, ws).Invalid? <==> SomeDmdRejects(valid, ws)
    decreases |ws|
  {
    if ws != [] {
      DmdJudges(valid, c, ws[..|ws| - 1]);
      SnocRejects(valid, ws);
      hide SomeDmdRejects, SomeLdcRejects;
    }
  }

  /** What LDC makes of the translated words, beside what DMD makes of them. */
  lemma {:induction false} WordsRead(valid: string -> bool, c: Conditions, ws: seq<Word>)
    requires Sane(valid) && Sound(valid, ws)
    ensures var r := LdcArgs(valid, c, Pieces(WordTexts(ws)));
      && (r.Invalid? <==> SomeLdcRejects(valid, ws))
      && (!SomeDmdRejects(valid, ws) ==> r == DmdWords(valid, c, ws))
    decreases |ws|
  {
    if ws == [] {
      assert WordTexts(ws) == [];
    } else {
      var init, w := ws[..|ws| - 1], ws[|ws| - 1];
      WordsRead(valid, c, init);
      SnocRejects(valid, ws);
      hide SomeDmdRejects, SomeLdcRejects, LdcArg, Piece, Pieces, LdcRejects, DmdRejects;
      var before := WordTexts(init);
      assert WordTexts(ws)[..|ws| - 1] == before;
      PiecesLast(WordTexts(ws));
      LdcAppend(valid, c, Pieces(before), Piece(before, WordText(w)));
      var mid := LdcArgs(valid, c, Pieces(before));
      if mid.Valid? {
        WordRead(valid, mid.value, w, before);
      }
    }
  }

  lemma WordRead(valid: string -> bool, c: Conditions, w: Word, before: seq<string>)
    requires Sane(valid) && (w.Plain? ==> Harmless(valid, w.arg))
    ensures var r := LdcArgs(valid, c, Piece(before, WordText(w)));
      && (w.Plain? ==> r == Valid(c))
      && (w.Cond? ==> (r.Invalid? <==> LdcRejects(valid, w.sw))
                      && (!DmdRejects(valid, w.sw) ==> r == DmdSwitch(valid, c, w.sw)))
  {
    hide LdcArg, Piece, LdcArgs, LdcRejects;
    if w.Cond? {
      SwitchHanded(w.sw, before);
      LdcOne(valid, c, Handed(w.sw));
      SwitchRead(valid, c, w.sw);
    }
  }

  /** Any sequence of debug and version switches among harmless arguments: LDC ends with
      DMD's conditions if DMD accepts the switches. If DMD does not, the two agree if
      and only if LDC rejects one too, which it judges piece by piece between commas. */
  lemma IdentifiersPreserved(valid: string -> bool, c: Conditions, ws: seq<Word>)
    requires Sane(valid) && Sound(valid, ws)
    ensures LdcArgs(valid, c, Pieces(WordTexts(ws))) == DmdWords(valid, c, ws)
      <==> !SomeDmdRejects(valid, ws) || SomeLdcRejects(valid, ws)
  {
    hide LdcArgs, Pieces, WordTexts, DmdWords, SomeDmdRejects, SomeLdcRejects;
    WordsRead(valid, c, ws);
    DmdJudges(valid, c, ws);
  }

  /** -version=a,b: no identifier to DMD, two to LDC. */
  lemma CommaDiffers(valid: string -> bool, c: Conditions)
    requires Sane(valid) && valid("a") && valid("b")
    ensures var sw := VersionId("a,b");
      && DmdSwitch(valid, c, sw).Invalid? && SwitchText(sw) == "-version=a,b"
      && LdcArg(valid, c, Handed(sw)) == Valid(c.(versionIds := c.versionIds + ["a"] + ["b"]))
  {
    var sw := VersionId("a,b");
    HandedReads(sw);
    hide OptionName, OptionValue;
    var s, t, b: string := "a,b", ",b", "b";
    assert s[1..] == t && t[1..] == b && b[1..] == "" && s[0] == 'a' && s[1] == ',';
    assert ',' in s;
    NoCommas("b");
    assert Commas(t) == ["", "b"];
    assert ['a'] + "" == "a";
    assert Commas(s) == ["a", "b"];
    var ids: seq<string> := ["a", "b"];
    assert ids[1..] == ["b"];
    AddOne(valid, c.(versionIds := c.versionIds + ["a"]), "b");
    assert "-version=" + s == "-version=a,b";
    assert "d-debug" != "d-version" by { assert |"d-debug"| == 7 && |"d-version"| == 9; }
  }

  /** -debug= without an identifier: an error to DMD, a plain -debug to LDC. */
  lemma EmptyDiffers(valid: string -> bool, c: Conditions)
    requires Sane(valid)
    ensures var sw := DebugId("");
      DmdSwitch(valid, c, sw).Invalid? && LdcArg(valid, c, Handed(sw)) == Valid(c.(debugOn := true))
  {
    HandedReads(DebugId(""));
    hide OptionName, OptionValue;
    NoCommas("");
    AddOne(valid, c, "");
  }

  /** LDC's options in their own spelling. */
  lemma LdcReads(valid: string -> bool, c: Conditions, x: string)
    requires Sane(valid) && valid(x)
    ensures LdcArg(valid, c, "-d-debug") == Valid(c.(debugOn := true))
    ensures LdcArg(valid, c, "-d-debug=" + x) == Valid(c.(debugIds := c.debugIds + [x]))
    ensures LdcArg(valid, c, "-d-version=" + x) == Valid(c.(versionIds := c.versionIds + [x]))
  {
    hide LdcArg;
    SwitchRead(valid, c, Debug);
    SwitchRead(valid, c, DebugId(x));
    SwitchRead(valid, c, VersionId(x));
  }
}
