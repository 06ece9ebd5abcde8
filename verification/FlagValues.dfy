/** LDC's flags in their own spelling: which setting each one sets, and what its value
    may be. */
module FlagValues {
  import opened Translate
  import opened CheckFlags

  const FLAGS := {"asserts", "preconditions", "invariants", "postconditions", "switch-errors", "contracts"}

  /** The setting or settings behind a flag. */
  function Set(s: Settings, x: string, c: Check): Settings {
    match x
    case "asserts" => s.(asserts := c)
    case "preconditions" => s.(preconditions := c)
    case "invariants" => s.(invariants := c)
    case "postconditions" => s.(postconditions := c)
    case "switch-errors" => s.(switchErrors := c)
    case "contracts" => s.(preconditions := c, postconditions := c)
    case _ => s
  }

  lemma NoEquals(x: string)
    requires x in FLAGS
    ensures '=' !in x && x != ""
  {
  }

  /** An argument that has the flag's name does what the flag parser says to its
      settings and nothing to others. */
  lemma ApplyNamed(s: Settings, x: string, on: bool, arg: string)
    requires x in FLAGS && OptionName(arg) == (if on then "enable-" else "disable-") + x
    ensures Apply(s, arg) == match Flag(x, OptionName(arg), OptionValue(arg))
      case Invalid => Invalid
      case Valid(c) => Valid(Set(s, x, c))
  {
    hide OptionName, OptionValue, Flag;
    NotBounds(x, on);
    forall y | y in FLAGS && y != x ensures !IsFlag(OptionName(arg), y) {
      FlagNamesDiffer(x, y, on);
    }
    assert "asserts" in FLAGS && "preconditions" in FLAGS && "invariants" in FLAGS && "postconditions" in FLAGS
           && "switch-errors" in FLAGS;
    hide IsFlag;
    assert IsFlag(OptionName(arg), x) by { FlagNamed(x, on); }
  }

  lemma FlagNamed(x: string, on: bool)
    ensures IsFlag((if on then "enable-" else "disable-") + x, x)
  {
  }

  lemma FlagOf(x: string, on: bool, v: string)
    ensures var n := (if on then "enable-" else "disable-") + x;
      Flag(x, n, v) ==
        if v in {"", "true", "TRUE", "True", "1"} then Valid(Boolean(on))
        else if v in {"false", "FALSE", "False", "0"} then Valid(Boolean(!on))
        else Invalid
  {
    var n := (if on then "enable-" else "disable-") + x;
    OneAnswer(x, n);
    assert ("enable-" + x)[0] == 'e' && ("disable-" + x)[0] == 'd';
  }

  lemma ReadsFlag(x: string, on: bool, v: string)
    requires '=' !in x
    ensures var n := (if on then "enable-" else "disable-") + x;
      && OptionName("-" + n) == n && OptionValue("-" + n) == ""
      && OptionName("-" + n + "=" + v) == n && OptionValue("-" + n + "=" + v) == v
  {
    hide OptionName, OptionValue;
    var n := (if on then "enable-" else "disable-") + x;
    assert n[0] == if on then 'e' else 'd';
    ReadsOption(n, v);
  }

  /** With and without a value: -enable-x and -disable-x, a true value changing nothing
      and a false one turning each into the other; any other value is an error. */
  lemma Values(s: Settings, x: string, v: string)
    requires x in FLAGS
    ensures Apply(s, "-enable-" + x) == Valid(Set(s, x, On)) && Apply(s, "-disable-" + x) == Valid(Set(s, x, Off))
    ensures v in {"true", "TRUE", "True", "1"} ==>
      && Apply(s, "-enable-" + x + "=" + v) == Apply(s, "-enable-" + x)
      && Apply(s, "-disable-" + x + "=" + v) == Apply(s, "-disable-" + x)
    ensures v in {"false", "FALSE", "False", "0"} ==>
      && Apply(s, "-enable-" + x + "=" + v) == Apply(s, "-disable-" + x)
      && Apply(s, "-disable-" + x + "=" + v) == Apply(s, "-enable-" + x)
    ensures v !in {"", "true", "TRUE", "True", "1", "false", "FALSE", "False", "0"} ==>
      Apply(s, "-enable-" + x + "=" + v) == Apply(s, "-disable-" + x + "=" + v) == Invalid
  {
    hide OptionName, OptionValue, Flag, Apply;
    Value(s, x, true, v);
    Value(s, x, false, v);
  }

  lemma Value(s: Settings, x: string, on: bool, v: string)
    requires x in FLAGS
    ensures var p := (if on then "-enable-" else "-disable-") + x;
      && Apply(s, p) == Valid(Set(s, x, Boolean(on)))
      && Apply(s, p + "=" + v) ==
           if v in {"", "true", "TRUE", "True", "1"} then Valid(Set(s, x, Boolean(on)))
           else if v in {"false", "FALSE", "False", "0"} then Valid(Set(s, x, Boolean(!on)))
           else Invalid
  {
    hide OptionName, OptionValue, Flag, Apply, Set;
    NoEquals(x);
    var n, p := (if on then "enable-" else "disable-") + x, (if on then "-enable-" else "-disable-") + x;
    assert "-" + n == p;
    ReadsFlag(x, on, v);
    FlagOf(x, on, "");
    FlagOf(x, on, v);
    ApplyNamed(s, x, on, p);
    ApplyNamed(s, x, on, p + "=" + v);
  }

  /** Bounds checks have three levels and no other. */
  lemma Levels(s: Settings, v: string)
    ensures Apply(s, "-boundscheck=" + v) ==
      match v
      case "off" => Valid(s.(bounds := Off))
      case "safeonly" => Valid(s.(bounds := SafeOnly))
      case "on" => Valid(s.(bounds := On))
      case _ => Invalid
  {
    hide OptionName, OptionValue;
    ReadsOption("boundscheck", v);
    assert "-" + "boundscheck" + "=" + v == "-boundscheck=" + v;
  }

  lemma SameReading(r: string)
    requires r != "" && r[0] != '-'
    ensures OptionName("--" + r) == OptionName("-" + r) && OptionValue("--" + r) == OptionValue("-" + r)
  {
    var a, b := "--" + r, "-" + r;
    assert a[..2] == "--" && a[2..] == r && b[..1] == "-" && b[1..] == r && b[1] == r[0];
    hide Equals;
  }

  /** Two dashes are as good as one. */
  lemma TwoDashes(s: Settings, r: string)
    requires r != "" && r[0] != '-'
    ensures Apply(s, "--" + r) == Apply(s, "-" + r)
  {
    hide OptionName, OptionValue, Flag, IsFlag;
    SameReading(r);
  }
}
