/** Quoting that LDMD's tokenizer undoes: every argument list can be passed
    through the environment variable. */
module TokenizerRoundTrip {
  import opened Tokenizer

  /** The inside of a quoted argument and its closing quote: backslashes are doubled
      where a quote follows them, and a quote of the argument is escaped. */
  function Escape(a: string): string
    decreases |a|
  {
    var n := Slashes(a);
    if n == |a| then Backslashes(2 * n) + "\""
    else if a[n] == '"' then Backslashes(2 * n + 1) + "\"" + Escape(a[n + 1..])
    else a[..n] + [a[n]] + Escape(a[n + 1..])
  }

  function Quote(a: string): string { "\"" + Escape(a) }

  function Join(args: seq<string>, sep: string): string {
    if args == [] then ""
    else if |args| == 1 then Quote(args[0])
    else Quote(args[0]) + sep + Join(args[1..], sep)
  }

  /** Spaces and tabs only. */
  predicate AllBlank(s: string) { forall i :: 0 <= i < |s| ==> s[i] == ' ' || s[i] == '\t' }

  /** What follows an argument: nothing, or a blank. */
  predicate Separated(rest: string) { rest != "" ==> Blank(rest[0]) }

  function AfterBlank(rest: string): string { if rest == "" then "" else rest[1..] }

  lemma SlashesThen(n: nat, c: char, rest: string)
    requires c != '\\'
    ensures var s := Backslashes(n) + [c] + rest;
      Slashes(s) == n && s[n] == c && s[n + 1..] == rest && s[..n] == Backslashes(n) && s[n..] == [c] + rest
  {
    var s := Backslashes(n) + [c] + rest;
    assert s[..n] == Backslashes(n);
    SlashRun(s, n);
  }

  lemma SlashPrefix(a: string)
    ensures a[..Slashes(a)] == Backslashes(Slashes(a))
  {
  }

  // one unfolding of each definition

  lemma ScanBreak(rest: string)
    requires Separated(rest)
    ensures Scan(rest, false) == Token("", AfterBlank(rest))
  {
  }

  lemma ScanToggle(n: nat, rest: string, quoted: bool)
    requires n % 2 == 0
    ensures var t := Scan(rest, !quoted);
      Scan(Backslashes(n) + ['"'] + rest, quoted) == Token(Backslashes(n / 2) + t.text, t.rest)
  {
    SlashesThen(n, '"', rest);
    hide Slashes, Backslashes;
    assert Backslashes(n / 2) + "" == Backslashes(n / 2);
  }

  lemma ScanLiteral(n: nat, rest: string, quoted: bool)
    requires n % 2 == 1
    ensures var t := Scan(rest, quoted);
      Scan(Backslashes(n) + ['"'] + rest, quoted) == Token(Backslashes(n / 2) + ['"'] + t.text, t.rest)
  {
    SlashesThen(n, '"', rest);
    hide Slashes, Backslashes;
  }

  lemma ScanRun(n: nat, c: char, rest: string)
    requires c != '\\' && c != '"'
    ensures var t := Scan(rest, true);
      Scan(Backslashes(n) + [c] + rest, true) == Token(Backslashes(n) + [c] + t.text, t.rest)
  {
    SlashesThen(n, c, rest);
    SlashesThen(0, c, rest);
    assert Backslashes(0) + [c] + rest == [c] + rest;
    hide Slashes, Backslashes;
    var t := Scan(rest, true);
    assert Scan([c] + rest, true) == Token([c] + t.text, t.rest);
    assert Backslashes(n) + ([c] + t.text) == Backslashes(n) + [c] + t.text;
    if n == 0 {
      assert Backslashes(0) + [c] == [c] by { EmptyRun(); }
    }
  }

  lemma EmptyRun()
    ensures Backslashes(0) == ""
  {
  }

  lemma {:induction false} EscapeEnd(a: string)
    requires Slashes(a) == |a|
    ensures Escape(a) == Backslashes(2 * |a|) + ['"'] && a == Backslashes(|a|)
  {
    SlashPrefix(a);
    assert a[..|a|] == a;
  }

  lemma {:induction false} EscapeQuote(a: string)
    requires Slashes(a) < |a| && a[Slashes(a)] == '"'
    ensures var n := Slashes(a); Escape(a) == Backslashes(2 * n + 1) + ['"'] + Escape(a[n + 1..])
  {
    hide Slashes, Backslashes;
  }

  lemma {:induction false} EscapeOther(a: string)
    requires Slashes(a) < |a| && a[Slashes(a)] != '"'
    ensures var n := Slashes(a); Escape(a) == Backslashes(n) + [a[n]] + Escape(a[n + 1..])
  {
    SlashPrefix(a);
    hide Slashes, Backslashes;
  }

  lemma ScanEscapedEnd(a: string, rest: string)
    requires Slashes(a) == |a| && Separated(rest)
    ensures Scan(Escape(a) + rest, true) == Token(a, AfterBlank(rest))
  {
    hide *;
    EscapeEnd(a);
    ScanToggle(2 * |a|, rest, true);
    ScanBreak(rest);
    assert 2 * |a| / 2 == |a| && a + "" == a;
  }

  lemma ScanEscapedQuote(a: string, rest: string, tail: Token)
    requires Slashes(a) < |a| && a[Slashes(a)] == '"' && tail == Scan(Escape(a[Slashes(a) + 1..]) + rest, true)
    ensures Scan(Escape(a) + rest, true) == Token(a[..Slashes(a) + 1] + tail.text, tail.rest)
  {
    hide *;
    var n := Slashes(a);
    var more := Escape(a[n + 1..]) + rest;
    EscapeQuote(a);
    assert Escape(a) + rest == Backslashes(2 * n + 1) + ['"'] + more;
    ScanLiteral(2 * n + 1, more, true);
    SlashPrefix(a);
    assert (2 * n + 1) / 2 == n;
    assert a[..n + 1] == a[..n] + ['"'];
  }

  lemma ScanEscapedOther(a: string, rest: string, tail: Token)
    requires Slashes(a) < |a| && a[Slashes(a)] != '"' && tail == Scan(Escape(a[Slashes(a) + 1..]) + rest, true)
    ensures Scan(Escape(a) + rest, true) == Token(a[..Slashes(a) + 1] + tail.text, tail.rest)
  {
    hide *;
    var n := Slashes(a);
    var more := Escape(a[n + 1..]) + rest;
    EscapeOther(a);
    assert Escape(a) + rest == Backslashes(n) + [a[n]] + more;
    ScanRun(n, a[n], more);
    SlashPrefix(a);
    assert a[..n + 1] == a[..n] + [a[n]];
  }

  lemma {:induction false} ScanEscaped(a: string, rest: string)
    requires Separated(rest)
    ensures Scan(Escape(a) + rest, true) == Token(a, AfterBlank(rest))
    decreases |a|
  {
    hide Scan, Escape;
    var n := Slashes(a);
    if n == |a| {
      ScanEscapedEnd(a, rest);
    } else {
      ScanEscaped(a[n + 1..], rest);
      var tail := Token(a[n + 1..], AfterBlank(rest));
      if a[n] == '"' {
        ScanEscapedQuote(a, rest, tail);
      } else {
        ScanEscapedOther(a, rest, tail);
      }
      assert a[..n + 1] + a[n + 1..] == a;
    }
  }

  lemma ScanQuoted(a: string, rest: string)
    requires Separated(rest)
    ensures Scan(Quote(a) + rest, false) == Token(a, AfterBlank(rest))
  {
    hide Scan, Slashes, Escape, Backslashes;
    EmptyRun();
    assert Quote(a) + rest == Backslashes(0) + ['"'] + (Escape(a) + rest);
    ScanToggle(0, Escape(a) + rest, false);
    ScanEscaped(a, rest);
    assert Backslashes(0 / 2) + a == a;
  }

  lemma {:induction false} TokenizeSkips(blanks: string, s: string)
    requires AllBlank(blanks)
    ensures Tokenize(blanks + s) == Tokenize(s)
    decreases |blanks|
  {
    if blanks == "" {
      assert blanks + s == s;
    } else {
      assert (blanks + s)[1..] == blanks[1..] + s;
      TokenizeSkips(blanks[1..], s);
    }
  }

  lemma TokenizeQuoted(a: string, rest: string)
    requires Separated(rest)
    ensures Tokenize(Quote(a) + rest) == [a] + Tokenize(AfterBlank(rest))
  {
    ScanQuoted(a, rest);
    assert (Quote(a) + rest)[0] == '"';
  }

  /** Round trip: quoting and joining with any non-empty run of spaces and tabs, then
      tokenizing, gives back every argument list, empty arguments included. */
  lemma {:induction false} TokenizeJoin(args: seq<string>, sep: string)
    requires sep != "" && AllBlank(sep)
    ensures Tokenize(Join(args, sep)) == args
    decreases |args|
  {
    if |args| == 1 {
      TokenizeQuoted(args[0], "");
      assert Quote(args[0]) + "" == Quote(args[0]);
    } else if |args| > 1 {
      var rest := Join(args[1..], sep);
      TokenizeQuoted(args[0], sep + rest);
      assert Quote(args[0]) + sep + rest == Quote(args[0]) + (sep + rest);
      assert (sep + rest)[1..] == sep[1..] + rest;
      TokenizeSkips(sep[1..], rest);
      TokenizeJoin(args[1..], sep);
      assert [args[0]] + args[1..] == args;
    }
  }

  lemma {:induction false} EscapeNulFree(a: string)
    requires NulFree(a)
    ensures NulFree(Escape(a))
    decreases |a|
  {
    var n := Slashes(a);
    if n < |a| {
      EscapeNulFree(a[n + 1..]);
    }
  }

  lemma {:induction false} JoinNulFree(args: seq<string>, sep: string)
    requires AllBlank(sep) && forall i :: 0 <= i < |args| ==> NulFree(args[i])
    ensures NulFree(Join(args, sep))
    decreases |args|
  {
    if args != [] {
      EscapeNulFree(args[0]);
      JoinNulFree(args[1..], sep);
    }
  }

  /** The same round trip through the in-place algorithm. */
  method PassThroughEnvironment(args: seq<string>, sep: string) returns (buf: array<char>, starts: seq<nat>)
    requires sep != "" && AllBlank(sep) && forall i :: 0 <= i < |args| ==> NulFree(args[i])
    ensures fresh(buf) && CStrings(buf[..], starts, args)
  {
    var s := Join(args, sep);
    JoinNulFree(args, sep);
    TokenizeJoin(args, sep);
    var text := s + "\0";
    buf := new char[|text|](i requires 0 <= i < |text| => text[i]);
    assert buf[..] == text;
    starts := AppendEnvVar(buf, s);
  }
}
