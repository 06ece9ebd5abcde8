/** The meaning of check switches: DMD's own, and LDC's for what LDMD makes of them. */
module CheckFlags {
  import opened Translate

  datatype Check = Default | Off | On | SafeOnly

  datatype Settings = Settings(
    asserts: Check, bounds: Check, preconditions: Check,
    invariants: Check, postconditions: Check, switchErrors: Check)

  datatype Result<T> = Valid(value: T) | Invalid

  // ----- FlagParser

  predicate Truthy(v: string) { v in {"", "true", "TRUE", "True", "1"} }

  predicate Falsy(v: string) { v in {"false", "FALSE", "False", "0"} }

  function Boolean(b: bool): Check { if b then On else Off }

  /** Whether a registered switch answers to this option name. */
  predicate Answers(name: string, argName: string) {
    name == argName || (name < argName && argName[|name|] == '=')
  }

  /** The value parser shared by all flags: true on error. */
  method ParseValue(arg: string, val: Check) returns (err: bool, val': Check)
    ensures arg in {"", "true", "TRUE", "True", "1"} ==> !err && val' == On
    ensures arg in {"false", "FALSE", "False", "0"} ==> !err && val' == Off
    ensures arg !in {"", "true", "TRUE", "True", "1", "false", "FALSE", "False", "0"} ==> err && val' == val
  {
    if arg == "" || arg == "true" || arg == "TRUE" || arg == "True" || arg == "1" {
      return false, On;
    }
    if arg == "false" || arg == "FALSE" || arg == "False" || arg == "0" {
      return false, Off;
    }
    return true, val;
  }

  /** FlagParser::parse for the flag `x`: -enable-x and -disable-x, each with an
      optional boolean; a false value turns either into its opposite. */
  method ParseFlag(x: string, argName: string, arg: string, val: Check) returns (err: bool, val': Check)
    ensures var on, off := Answers("enable-" + x, argName), Answers("disable-" + x, argName);
      && (err <==> !(on || off) || !(Truthy(arg) || Falsy(arg)))
      && (!err ==> !(on && off) && val' == Boolean(on == Truthy(arg)))
    ensures Flag(x, argName, arg) == if err then Invalid else Valid(val')
  {
    OneAnswer(x, argName);
    var switches := [("enable-" + x, On), ("disable-" + x, Off)];
    val' := val;
    for i := 0 to |switches|
      invariant forall j :: 0 <= j < i ==> !Answers(switches[j].0, argName)
    {
      if Answers(switches[i].0, argName) {
        err, val' := ParseValue(arg, val');
        if !err {
          val' := if val' == switches[i].1 then On else Off;
          return false, val';
        }
        break;
      }
    }
    assert switches[0].0 == "enable-" + x && switches[1].0 == "disable-" + x;
    return true, val';
  }

  lemma OneAnswer(x: string, argName: string)
    ensures !(Answers("enable-" + x, argName) && Answers("disable-" + x, argName))
  {
    var e, d := "enable-" + x, "disable-" + x;
    assert e[0] == 'e' && d[0] == 'd';
    if Answers(e, argName) { assert argName[0] == 'e'; }
    if Answers(d, argName) { assert argName[0] == 'd'; }
  }

  /** What ParseFlag computes, as a function. */
  function Flag(x: string, name: string, value: string): Result<Check> {
    if !(Answers("enable-" + x, name) || Answers("disable-" + x, name)) then Invalid
    else if !(Truthy(value) || Falsy(value)) then Invalid
    else Valid(Boolean(Answers("enable-" + x, name) == Truthy(value)))
  }

  // ----- LDC's reading of an argument

  /** The position of the first equals sign, or the length. */
  function Equals(s: string): (i: nat)
    ensures i <= |s| && (forall j :: 0 <= j < i ==> s[j] != '=') && (i < |s| ==> s[i] == '=')
  {
    if s == "" || s[0] == '=' then 0
    else
      var i := Equals(s[1..]);
      assert forall j :: 0 < j <= i ==> s[j] == s[1..][j - 1];
      i + 1
  }

  function OptionName(arg: string): string {
    if "--" <= arg then arg[2..][..Equals(arg[2..])]
    else if "-" <= arg then arg[1..][..Equals(arg[1..])] else ""
  }

  function OptionValue(arg: string): string {
    var o := if "--" <= arg then arg[2..] else if "-" <= arg then arg[1..] else "";
    if Equals(o) < |o| then o[Equals(o) + 1..] else ""
  }

  predicate IsFlag(name: string, x: string) { name == "enable-" + x || name == "disable-" + x }

  /** The effect of one LDC argument on the six settings; other options have none. */
  function Apply(s: Settings, arg: string): Result<Settings> {
    var n, v := OptionName(arg), OptionValue(arg);
    if n == "boundscheck" then
      if v == "off" then Valid(s.(bounds := Off))
      else if v == "safeonly" then Valid(s.(bounds := SafeOnly))
      else if v == "on" then Valid(s.(bounds := On))
      else Invalid
    else if IsFlag(n, "asserts") then Map(Flag("asserts", n, v), (c: Check) => s.(asserts := c))
    else if IsFlag(n, "preconditions") then Map(Flag("preconditions", n, v), (c: Check) => s.(preconditions := c))
    else if IsFlag(n, "invariants") then Map(Flag("invariants", n, v), (c: Check) => s.(invariants := c))
    else if IsFlag(n, "postconditions") then Map(Flag("postconditions", n, v), (c: Check) => s.(postconditions := c))
    else if IsFlag(n, "switch-errors") then Map(Flag("switch-errors", n, v), (c: Check) => s.(switchErrors := c))
    else if IsFlag(n, "contracts") then
      Map(Flag("contracts", n, v), (c: Check) => s.(preconditions := c, postconditions := c))
    else Valid(s)
  }

  function Map<A, B>(r: Result<A>, f: A -> B): Result<B> {
    match r case Valid(a) => Valid(f(a)) case Invalid => Invalid
  }

  /** A list of LDC arguments, the last word on each setting winning. */
  function ApplyAll(s: Settings, args: seq<string>): Result<Settings> {
    if args == [] then Valid(s)
    else match ApplyAll(s, args[..|args| - 1])
      case Invalid => Invalid
      case Valid(t) => Apply(t, args[|args| - 1])
  }

  // ----- DMD's switches and their own meaning

  datatype Kind = Bounds | Assert | In | Invariant | Out | SwitchKind

  datatype Form = Bare | WithOn | WithOff

  datatype Switch =
    | CheckAll(on: bool)               // -check=on, -check=off
    | CheckKind(kind: Kind, form: Form)  // -check=<kind>, -check=<kind>=on, -check=<kind>=off
    | BoundsCheck(level: Check)        // -boundscheck=...
    | NoBoundsCheck                    // -noboundscheck

  predicate WellFormed(sw: Switch) { sw.BoundsCheck? ==> sw.level != Default }

  function KindName(k: Kind): string {
    match k
    case Bounds => "bounds" case Assert => "assert" case In => "in"
    case Invariant => "invariant" case Out => "out" case SwitchKind => "switch"
  }

  function Text(sw: Switch): string {
    match sw
    case CheckAll(on) => if on then "-check=on" else "-check=off"
    case CheckKind(k, f) =>
      "-check=" + KindName(k) + (match f case Bare => "" case WithOn => "=on" case WithOff => "=off")
    case BoundsCheck(l) =>
      (match l case On => "-boundscheck=on" case SafeOnly => "-boundscheck=safeonly" case _ => "-boundscheck=off")
    case NoBoundsCheck => "-noboundscheck"
  }

  function SetKind(s: Settings, k: Kind, c: Check): Settings {
    match k
    case Bounds => s.(bounds := c)
    case Assert => s.(asserts := c)
    case In => s.(preconditions := c)
    case Invariant => s.(invariants := c)
    case Out => s.(postconditions := c)
    case SwitchKind => s.(switchErrors := c)
  }

  /** DMD's parameters: the six settings and, apart from them, what -boundscheck said. */
  datatype Parameters = Parameters(settings: Settings, boundscheck: Check)

  /** What DMD makes of a switch: -check writes the settings themselves,
      -boundscheck and -noboundscheck only a parameter of their own. */
  function Mean(d: Parameters, sw: Switch): Parameters {
    match sw
    case CheckAll(on) =>
      var c := Boolean(on); d.(settings := Settings(c, c, c, c, c, c))
    case CheckKind(k, f) => d.(settings := SetKind(d.settings, k, Boolean(f != WithOff)))
    case BoundsCheck(l) => d.(boundscheck := l)
    case NoBoundsCheck => d.(boundscheck := Off)
  }

  /** After the command line: -boundscheck counts only where no -check set bounds. */
  function Settled(d: Parameters): Settings {
    if d.boundscheck != Default && d.settings.bounds == Default
    then d.settings.(bounds := d.boundscheck) else d.settings
  }

  /** What LDC makes of the translation of a switch: the last one wins. */
  function Effect(s: Settings, sw: Switch): Settings {
    match sw
    case CheckAll(on) =>
      var c := Boolean(on); Settings(c, c, c, c, c, c)
    case CheckKind(k, f) => SetKind(s, k, Boolean(f != WithOff))
    case BoundsCheck(l) => s.(bounds := l)
    case NoBoundsCheck => s.(bounds := Off)
  }

  // ----- LDC reads what LDMD wrote

  lemma {:induction false} EqualsAt(n: string, rest: string)
    requires '=' !in n && (rest == "" || rest[0] == '=')
    ensures Equals(n + rest) == |n|
  {
    hide Equals;
    assert forall j :: 0 <= j < |n| ==> (n + rest)[j] == n[j];
    assert rest != "" ==> (n + rest)[|n|] == '=';
  }

  lemma ReadsOption(n: string, v: string)
    requires n != "" && n[0] != '-' && '=' !in n
    ensures OptionName("-" + n) == n && OptionValue("-" + n) == ""
    ensures OptionName("-" + n + "=" + v) == n && OptionValue("-" + n + "=" + v) == v
  {
    hide Equals;
    var a, b := "-" + n, "-" + n + "=" + v;
    assert a[1] == b[1] == n[0];
    assert a[1..] == n + "" && b[1..] == n + ("=" + v);
    EqualsAt(n, "");
    EqualsAt(n, "=" + v);
    assert (n + ("=" + v))[|n| + 1..] == v;
  }

  function FlagName(k: Kind): string {
    match k
    case Bounds => "" case Assert => "asserts" case In => "preconditions"
    case Invariant => "invariants" case Out => "postconditions" case SwitchKind => "switch-errors"
  }

  lemma FlagReads(x: string, enabled: bool)
    requires '=' !in x
    ensures var n := (if enabled then "enable-" else "disable-") + x;
      && OptionName(Toggle(enabled) + x) == n && OptionValue(Toggle(enabled) + x) == ""
      && Flag(x, n, "") == Valid(Boolean(enabled))
  {
    hide OptionName, OptionValue;
    var n := (if enabled then "enable-" else "disable-") + x;
    assert n[0] == (if enabled then 'e' else 'd');
    assert Toggle(enabled) + x == "-" + n;
    ReadsOption(n, "");
    OneAnswer(x, n);
  }

  lemma NotBounds(x: string, enabled: bool)
    ensures (if enabled then "enable-" else "disable-") + x != "boundscheck"
  {
    assert ((if enabled then "enable-" else "disable-") + x)[0] == if enabled then 'e' else 'd';
    assert "boundscheck"[0] == 'b';
  }

  lemma FlagNamesDiffer(x: string, y: string, enabled: bool)
    requires x != y
    ensures !IsFlag((if enabled then "enable-" else "disable-") + x, y)
  {
    var n := (if enabled then "enable-" else "disable-") + x;
    assert n[0] == if enabled then 'e' else 'd';
    assert ("enable-" + y)[0] == 'e' && ("disable-" + y)[0] == 'd';
    assert n[if enabled then 7 else 8..] == x;
    assert ("enable-" + y)[7..] == y && ("disable-" + y)[8..] == y;
  }

  lemma ApplyFlag(s: Settings, k: Kind, enabled: bool)
    requires k != Bounds
    ensures Apply(s, Toggle(enabled) + FlagName(k)) == Valid(SetKind(s, k, Boolean(enabled)))
  {
    hide OptionName, OptionValue, Flag;
    FlagReads(FlagName(k), enabled);
    NotBounds(FlagName(k), enabled);
    assert "preconditions"[0] != "switch-errors"[0];
    forall j: Kind | j != k && j != Bounds
      ensures !IsFlag((if enabled then "enable-" else "disable-") + FlagName(k), FlagName(j))
    {
      FlagNamesDiffer(FlagName(k), FlagName(j), enabled);
    }
    assert FlagName(Assert) == "asserts" && FlagName(In) == "preconditions" && FlagName(Invariant) == "invariants"
           && FlagName(Out) == "postconditions" && FlagName(SwitchKind) == "switch-errors";
  }

  /** The contracts flag sets two settings at once. */
  lemma ContractsSetBoth(s: Settings, enabled: bool)
    ensures var c := Boolean(enabled);
      Apply(s, Toggle(enabled) + "contracts") == Valid(s.(preconditions := c, postconditions := c))
  {
    hide OptionName, OptionValue, Flag;
    FlagReads("contracts", enabled);
    NotBounds("contracts", enabled);
    assert |"contracts"| == 9 && |"asserts"| == 7 && |"preconditions"| == 13 && |"invariants"| == 10
           && |"postconditions"| == 14 && |"switch-errors"| == 13;
    FlagNamesDiffer("contracts", "asserts", enabled);
    FlagNamesDiffer("contracts", "preconditions", enabled);
    FlagNamesDiffer("contracts", "invariants", enabled);
    FlagNamesDiffer("contracts", "postconditions", enabled);
    FlagNamesDiffer("contracts", "switch-errors", enabled);
  }

  lemma BoundsText(c: Check)
    requires c != Default
    ensures Text(BoundsCheck(c)) == "-" + "boundscheck" + "=" + LevelName(c)
  {
  }

  function LevelName(c: Check): string {
    match c case On => "on" case SafeOnly => "safeonly" case _ => "off"
  }

  lemma ApplyBounds(s: Settings, c: Check)
    requires c != Default
    ensures Apply(s, Text(BoundsCheck(c))) == Valid(s.(bounds := c))
  {
    hide OptionName, OptionValue, Text, Flag, IsFlag;
    BoundsText(c);
    ReadsOption("boundscheck", LevelName(c));
  }

  // ----- LDMD's translation of a switch

  lemma CheckText(rest: string)
    ensures ActionOf("-check=" + rest) == CheckAction(rest, "-check=" + rest)
  {
    var p := "-check=" + rest;
    assert p[1..] == "check=" + rest && p[1..][6..] == rest;
    assert p[1..][0] == 'c';
  }

  lemma CheckOn(n: string, p: string)
    requires n != ""
    ensures CheckAction(n + "=on", p) == KindAction(n, true, p)
  {
    hide KindAction, EachCheck;
    var arg := n + "=on";
    assert arg[|arg| - 3..] == "=on" && arg[..|arg| - 3] == n;
  }

  lemma CheckOff(n: string, p: string)
    requires n != ""
    ensures CheckAction(n + "=off", p) == KindAction(n, false, p)
  {
    hide KindAction, EachCheck;
    var arg := n + "=off";
    assert arg[|arg| - 4..] == "=off" && arg[..|arg| - 4] == n;
    assert arg[|arg| - 3..][0] == 'o' && "=on"[0] == '=';
  }

  lemma CheckBare(n: string, p: string)
    requires '=' !in n && n != "on" && n != "off"
    ensures CheckAction(n, p) == KindAction(n, true, p)
  {
    hide KindAction, EachCheck;
    assert |n| > 3 ==> n[|n| - 3..][0] == n[|n| - 3];
    assert |n| > 4 ==> n[|n| - 4..][0] == n[|n| - 4];
    assert "=on"[0] == '=' && "=off"[0] == '=';
  }

  lemma KindNamePlain(k: Kind)
    ensures KindName(k) != "" && '=' !in KindName(k) && KindName(k) != "on" && KindName(k) != "off"
  {
  }

  lemma KindTranslates(k: Kind, f: Form)
    ensures ActionOf(Text(CheckKind(k, f))) == KindAction(KindName(k), f != WithOff, Text(CheckKind(k, f)))
  {
    hide ActionOf, KindAction, CheckAction, KindName;
    var n, p := KindName(k), Text(CheckKind(k, f));
    KindNamePlain(k);
    match f
    case WithOn =>
      assert p == "-check=" + (n + "=on");
      CheckText(n + "=on");
      CheckOn(n, p);
    case WithOff =>
      assert p == "-check=" + (n + "=off");
      CheckText(n + "=off");
      CheckOff(n, p);
    case Bare =>
      assert p == "-check=" + n;
      CheckText(n);
      CheckBare(n, p);
  }

  lemma SkipsCodeOptions(o: string, p: string)
    requires o != "" && (o[0] == 'b' || o[0] == 'n')
    ensures CodeOption(o, p) == MiscOption(o, p)
  {
    hide MiscOption;
  }

  lemma SkipsMiscOptions(o: string, p: string)
    requires o != "" && o[0] == 'b'
    ensures MiscOption(o, p) == LateOption(o, p) == Push([p])
  {
  }

  lemma SkipsChecks(p: string)
    requires |p| > 1 && p[0] == '-' && (p[1] == 'b' || p[1] == 'n')
    ensures ActionOf(p) == CodeOption(p[1..], p)
  {
    hide CodeOption, CheckAction, ColorAction;
    assert p[1..][0] == p[1];
    assert "vdmd"[0] == 'v';
  }

  /** Options starting with b are LDC's own and are handed over as they are. */
  lemma StartsWithB(p: string)
    requires |p| > 1 && p[0] == '-' && p[1] == 'b'
    ensures ActionOf(p) == Push([p])
  {
    hide CodeOption, MiscOption, LateOption;
    SkipsChecks(p);
    SkipsCodeOptions(p[1..], p);
    SkipsMiscOptions(p[1..], p);
  }

  lemma NoBoundsTranslates()
    ensures ActionOf("-noboundscheck") == Push(["-boundscheck=off"])
  {
    hide CodeOption, LateOption;
    var p := "-noboundscheck";
    SkipsChecks(p);
    assert p[1..] == "noboundscheck" && p[1..][0] == 'n';
    SkipsCodeOptions(p[1..], p);
  }

  // ----- meaning is preserved

  lemma ApplyOne(s: Settings, arg: string)
    ensures ApplyAll(s, [arg]) == Apply(s, arg)
  {
    hide Apply;
    assert [arg][..0] == [];
  }

  lemma {:induction false} ApplyAppend(s: Settings, a: seq<string>, b: seq<string>)
    requires ApplyAll(s, a).Valid?
    ensures ApplyAll(s, a + b) == ApplyAll(ApplyAll(s, a).value, b)
    decreases |b|
  {
    hide Apply;
    if b == [] {
      assert a + b == a;
    } else {
      assert (a + b)[..|a + b| - 1] == a + b[..|b| - 1];
      ApplyAppend(s, a, b[..|b| - 1]);
    }
  }

  lemma ApplyKind(s: Settings, k: Kind, enabled: bool, p: string)
    ensures var a := KindAction(KindName(k), enabled, p);
      a.Push? && |a.out| == 1 && Apply(s, a.out[0]) == Valid(SetKind(s, k, Boolean(enabled)))
  {
    hide Apply;
    if k == Bounds {
      ApplyBounds(s, Boolean(enabled));
    } else {
      ApplyFlag(s, k, enabled);
    }
  }

  lemma ApplyEach(s: Settings, on: bool)
    ensures var c := Boolean(on);
      ApplyAll(s, EachCheck(on)) == Valid(Settings(c, c, c, c, c, c))
  {
    hide Apply, ApplyAll;
    var c := Boolean(on);
    ApplyBounds(s, c);
    var args := [Text(BoundsCheck(c))];
    ApplyOne(s, args[0]);
    var t := s.(bounds := c);
    args, t := ThenFlag(s, args, t, Assert, on);
    args, t := ThenFlag(s, args, t, In, on);
    args, t := ThenFlag(s, args, t, Invariant, on);
    args, t := ThenFlag(s, args, t, Out, on);
    args, t := ThenFlag(s, args, t, SwitchKind, on);
    assert args == EachCheck(on);
  }

  lemma ThenFlag(s: Settings, args: seq<string>, t: Settings, k: Kind, on: bool)
      returns (args': seq<string>, t': Settings)
    requires ApplyAll(s, args) == Valid(t) && k != Bounds
    ensures args' == args + [Toggle(on) + FlagName(k)] && t' == SetKind(t, k, Boolean(on))
    ensures ApplyAll(s, args') == Valid(t')
  {
    hide Apply, ApplyAll;
    args', t' := args + [Toggle(on) + FlagName(k)], SetKind(t, k, Boolean(on));
    ApplyAppend(s, args, [Toggle(on) + FlagName(k)]);
    ApplyOne(t, Toggle(on) + FlagName(k));
    ApplyFlag(t, k, on);
  }

  lemma CheckAllTranslates(on: bool)
    ensures ActionOf(Text(CheckAll(on))) == Push(EachCheck(on))
  {
    hide ActionOf, EachCheck;
    CheckText(if on then "on" else "off");
    assert "-check=" + (if on then "on" else "off") == Text(CheckAll(on));
  }

  /** One switch, translated by LDMD and read by LDC. */
  lemma SwitchTranslates(s: Settings, sw: Switch, before: seq<string>)
    requires WellFormed(sw)
    ensures ActionOf(Text(sw)).Push?
    ensures ApplyAll(s, Piece(before, Text(sw))) == Valid(Effect(s, sw))
  {
    hide ActionOf, Apply, ApplyAll, CheckAction, KindAction;
    match sw
    case CheckAll(on) =>
      CheckAllTranslates(on);
      ApplyEach(s, on);
    case CheckKind(k, f) =>
      KindTranslates(k, f);
      ApplyKind(s, k, f != WithOff, Text(sw));
      var a := KindAction(KindName(k), f != WithOff, Text(sw));
      assert a.out == [a.out[0]];
      ApplyOne(s, a.out[0]);
    case BoundsCheck(l) =>
      StartsWithB(Text(sw));
      ApplyOne(s, Text(sw));
      ApplyBounds(s, l);
    case NoBoundsCheck =>
      NoBoundsTranslates();
      ApplyOne(s, Text(BoundsCheck(Off)));
      ApplyBounds(s, Off);
  }

  predicate RunsProgram(arg: string) { arg == "-run" || arg == "--run" }

  /** An argument whose translation LDC reads without touching a check setting and
      without taking what follows as the arguments of a program. */
  ghost predicate Harmless(p: string) {
    forall s, before :: Neutral(s, Piece(before, p))
  }

  ghost predicate Neutral(s: Settings, args: seq<string>) {
    ApplyAll(s, args) == Valid(s) && forall q :: q in args ==> !RunsProgram(q)
  }

  /** A word of a command line: a check switch, or anything harmless. */
  datatype Word = Check(sw: Switch) | Plain(arg: string)

  ghost predicate Sound(w: Word) {
    match w case Check(sw) => WellFormed(sw) case Plain(p) => Harmless(p)
  }

  function WordText(w: Word): string {
    match w case Check(sw) => Text(sw) case Plain(p) => p
  }

  function WordTexts(ws: seq<Word>): (ts: seq<string>)
    ensures |ts| == |ws|
  {
    seq(|ws|, i requires 0 <= i < |ws| => WordText(ws[i]))
  }

  function MeanWords(d: Parameters, ws: seq<Word>): Parameters {
    if ws == [] then d
    else
      var e := MeanWords(d, ws[..|ws| - 1]);
      match ws[|ws| - 1] case Check(sw) => Mean(e, sw) case Plain(_) => e
  }

  function EffectWords(s: Settings, ws: seq<Word>): Settings {
    if ws == [] then s
    else
      var t := EffectWords(s, ws[..|ws| - 1]);
      match ws[|ws| - 1] case Check(sw) => Effect(t, sw) case Plain(_) => t
  }

  /** LDC's flag semantics on the translated list. */
  lemma {:induction false} WordsTranslate(s: Settings, ws: seq<Word>)
    requires forall i :: 0 <= i < |ws| ==> Sound(ws[i])
    ensures ApplyAll(s, Pieces(WordTexts(ws))) == Valid(EffectWords(s, ws))
    decreases |ws|
  {
    hide ActionOf, Apply, Text, Effect, Piece;
    if ws != [] {
      var init, last := ws[..|ws| - 1], ws[|ws| - 1];
      WordsTranslate(s, init);
      assert WordTexts(ws)[..|ws| - 1] == WordTexts(init);
      ApplyAppend(s, Pieces(WordTexts(init)), Piece(WordTexts(init), WordText(last)));
      if last.Check? {
        SwitchTranslates(EffectWords(s, init), last.sw, WordTexts(init));
      } else {
        assert Neutral(EffectWords(s, init), Piece(WordTexts(init), last.arg));
      }
    } else {
      assert WordTexts(ws) == [];
    }
  }

  // ----- where the two meanings agree

  /** The same, bounds checks apart. */
  predicate SameButBounds(s: Settings, t: Settings) { s.(bounds := t.bounds) == t }

  lemma {:induction false} OthersAgree(s: Settings, ws: seq<Word>)
    ensures SameButBounds(EffectWords(s, ws), MeanWords(Parameters(s, Default), ws).settings)
    decreases |ws|
  {
    if ws != [] {
      OthersAgree(s, ws[..|ws| - 1]);
    }
  }

  /** What a -check switch says about bounds, or Default. */
  function CheckLevel(w: Word): Check {
    match w
    case Check(CheckAll(on)) => Boolean(on)
    case Check(CheckKind(Bounds, f)) => Boolean(f != WithOff)
    case _ => Default
  }

  /** What a -boundscheck or -noboundscheck says, or Default. */
  function BoundsLevel(w: Word): Check {
    match w
    case Check(BoundsCheck(l)) => l
    case Check(NoBoundsCheck) => Off
    case _ => Default
  }

  /** The position of the last -check switch that sets bounds, or -1. */
  function LastCheck(ws: seq<Word>): (i: int)
    ensures -1 <= i < |ws| && (i >= 0 ==> CheckLevel(ws[i]) != Default)
    ensures forall k :: i < k < |ws| ==> CheckLevel(ws[k]) == Default
  {
    if ws == [] then -1
    else if CheckLevel(ws[|ws| - 1]) != Default then |ws| - 1
    else LastCheck(ws[..|ws| - 1])
  }

  /** The position of the last -boundscheck or -noboundscheck, or -1. */
  function LastBounds(ws: seq<Word>): (i: int)
    ensures -1 <= i < |ws| && (i >= 0 ==> BoundsLevel(ws[i]) != Default)
    ensures forall k :: i < k < |ws| ==> BoundsLevel(ws[k]) == Default
  {
    if ws == [] then -1
    else if BoundsLevel(ws[|ws| - 1]) != Default then |ws| - 1
    else LastBounds(ws[..|ws| - 1])
  }

  /** A -boundscheck or -noboundscheck follows the last -check of bounds, and the last
      one that does says something else. */
  predicate Contradicted(ws: seq<Word>) {
    var n, m := LastCheck(ws), LastBounds(ws);
    n >= 0 && m > n && BoundsLevel(ws[m]) != CheckLevel(ws[n])
  }

  function Level(w: Word): Check { if CheckLevel(w) != Default then CheckLevel(w) else BoundsLevel(w) }

  function LevelAt(ws: seq<Word>, i: int): Check
    requires i < |ws|
  {
    if i < 0 then Default else Level(ws[i])
  }

  lemma SwitchBounds(s: Settings, d: Parameters, sw: Switch)
    requires WellFormed(sw)
    ensures var w := Check(sw);
      && Effect(s, sw).bounds == (if Level(w) != Default then Level(w) else s.bounds)
      && Mean(d, sw).settings.bounds == (if CheckLevel(w) != Default then CheckLevel(w) else d.settings.bounds)
      && Mean(d, sw).boundscheck == (if BoundsLevel(w) != Default then BoundsLevel(w) else d.boundscheck)
      && (CheckLevel(w) == Default || BoundsLevel(w) == Default)
  {
  }

  /** DMD's two parameters hold the last word of either kind, LDC's one setting the
      last word of both. */
  lemma {:induction false} BoundsOf(s: Settings, ws: seq<Word>)
    requires s.bounds == Default && forall i :: 0 <= i < |ws| ==> ws[i].Check? ==> WellFormed(ws[i].sw)
    ensures var d := MeanWords(Parameters(s, Default), ws); var n, m := LastCheck(ws), LastBounds(ws);
      && d.settings.bounds == LevelAt(ws, n) && d.boundscheck == LevelAt(ws, m)
      && EffectWords(s, ws).bounds == LevelAt(ws, if n < m then m else n)
    decreases |ws|
  {
    if ws != [] {
      var init := ws[..|ws| - 1];
      BoundsOf(s, init);
      if ws[|ws| - 1].Check? {
        SwitchBounds(EffectWords(s, init), MeanWords(Parameters(s, Default), init), ws[|ws| - 1].sw);
      }
      hide Effect, Mean;
    }
  }

  /** Any sequence of check switches, among any harmless arguments, from the initial
      settings. LDC's flag semantics on LDMD's translation always gives DMD's
      settings but for bounds checks, and those too if and only if the last -check of
      bounds is not contradicted by a later -boundscheck: DMD lets -check win. */
  lemma ChecksPreserved(s: Settings, ws: seq<Word>)
    requires s.bounds == Default && forall i :: 0 <= i < |ws| ==> Sound(ws[i])
    ensures var r, d := ApplyAll(s, Pieces(WordTexts(ws))), Settled(MeanWords(Parameters(s, Default), ws));
      r.Valid? && SameButBounds(r.value, d) && (r.value == d <==> !Contradicted(ws))
  {
    hide ApplyAll, Pieces, MeanWords, EffectWords, WordTexts, Harmless;
    WordsTranslate(s, ws);
    OthersAgree(s, ws);
    BoundsOf(s, ws);
  }

  const OVERRIDDEN := [Check(CheckKind(Bounds, WithOn)), Check(BoundsCheck(Off))]

  lemma OverriddenText()
    ensures WordTexts(OVERRIDDEN) == ["-check=bounds=on", "-boundscheck=off"]
  {
    assert "-check=" + "bounds" + "=on" == "-check=bounds=on";
  }

  lemma OverriddenMeaning(s: Settings)
    requires s.bounds == Default
    ensures EffectWords(s, OVERRIDDEN) == s.(bounds := Off)
    ensures Settled(MeanWords(Parameters(s, Default), OVERRIDDEN)) == s.(bounds := On)
  {
    var init := [Check(CheckKind(Bounds, WithOn))];
    assert OVERRIDDEN[..1] == init && init[..0] == [];
    assert EffectWords(s, init) == s.(bounds := On);
    assert MeanWords(Parameters(s, Default), init) == Parameters(s.(bounds := On), Default);
  }

  /** -check=bounds=on -boundscheck=off: DMD checks bounds, LDC does not. */
  lemma BoundsDiffer(s: Settings)
    requires s.bounds == Default
    ensures ApplyAll(s, Pieces(["-check=bounds=on", "-boundscheck=off"])) == Valid(s.(bounds := Off))
    ensures Settled(MeanWords(Parameters(s, Default), OVERRIDDEN)) == s.(bounds := On)
    ensures WordTexts(OVERRIDDEN) == ["-check=bounds=on", "-boundscheck=off"]
  {
    hide ApplyAll, Pieces, WordTexts, EffectWords, MeanWords, Settled;
    OverriddenText();
    OverriddenMeaning(s);
    WordsTranslate(s, OVERRIDDEN);
  }

  /** Source files and other arguments without a dash are harmless. */
  lemma FilesAreHarmless(p: string)
    requires (p == "" || p[0] != '-') && !HasExeExtension(p)
    ensures Harmless(p)
  {
    forall s, before ensures Neutral(s, Piece(before, p)) {
      assert Piece(before, p) == [p];
      ApplyOne(s, p);
      NoOption(s, p);
    }
  }

  lemma NoOption(s: Settings, p: string)
    requires p == "" || p[0] != '-'
    ensures Apply(s, p) == Valid(s)
  {
    assert OptionName(p) == "";
    assert "boundscheck" != "";
  }

  /** The words end neither LDMD nor its translation. */
  ghost predicate QuietWords(ws: seq<Word>) {
    forall i :: 0 <= i < |ws| && ws[i].Plain? ==> ws[i].arg != "-run" && !Stops(ws[i].arg)
  }

  lemma {:induction false} WordsQuiet(ws: seq<Word>)
    requires QuietWords(ws) && forall i :: 0 <= i < |ws| ==> Sound(ws[i])
    ensures Quiet(WordTexts(ws))
    decreases |ws|
  {
    hide ActionOf, Text, Quiet, Harmless;
    if ws == [] {
      assert WordTexts(ws) == [];
      QuietNone();
    } else {
      var init, last := ws[..|ws| - 1], ws[|ws| - 1];
      WordsQuiet(init);
      if last.Check? {
        SwitchTranslates(Settings(On, On, On, On, On, On), last.sw, []);
        OnlyRunIsRest(Text(last.sw));
      }
      QuietSnoc(WordTexts(init), WordText(last));
      assert WordTexts(ws) == WordTexts(init) + [WordText(last)];
    }
  }

  lemma LdmdIsNeutral(s: Settings)
    ensures ApplyAll(s, ["-ldmd"]) == Valid(s)
  {
    hide OptionName, OptionValue;
    ReadsOption("ldmd", "");
    assert "-" + "ldmd" == "-ldmd";
    ApplyOne(s, "-ldmd");
    assert "ldmd"[0] == 'l' && |"ldmd"| == 4;
  }

  /** The same over whole command lines, source files and other harmless arguments
      included: from LDMD's arguments to LDC's settings. */
  lemma CommandLinesAgree(ldc: string, s: Settings, ws: seq<Word>)
    requires s.bounds == Default && QuietWords(ws) && forall i :: 0 <= i < |ws| ==> Sound(ws[i])
    ensures var t, d := Translation(ldc, WordTexts(ws)), Settled(MeanWords(Parameters(s, Default), ws));
      t.Ok? && t.args[0] == ldc &&
      var r := ApplyAll(s, t.args[1..]);
      r.Valid? && SameButBounds(r.value, d) && (r.value == d <==> !Contradicted(ws))
  {
    hide ApplyAll, Pieces, WordTexts, MeanWords, Quiet, Translation, Contradicted, Settled, Harmless, QuietWords;
    WordsQuiet(ws);
    QuietTranslation(ldc, WordTexts(ws));
    var ps := Pieces(WordTexts(ws));
    assert ([ldc, "-ldmd"] + ps)[1..] == ["-ldmd"] + ps;
    LdmdIsNeutral(s);
    ApplyAppend(s, ["-ldmd"], ps);
    ChecksPreserved(s, ws);
  }
}
