/** What DFLAGS text means, written out in its own characters: words between spaces and
    tabs, and backslashes before quotes. */
module TokenizerWords {
  import opened Tokenizer
  import opened TokenizerRoundTrip
  import Sequences

  /** Text that means itself: no quote and, outside quotes, no space or tab. */
  predicate Bare(w: string, quoted: bool) {
    forall i :: 0 <= i < |w| ==> w[i] != '"' && (quoted || (w[i] != ' ' && w[i] != '\t'))
  }

  /** No run of backslashes that began in `w` goes on into `rest` or up to a quote. */
  predicate Breaks(w: string, rest: string) {
    w == "" || w[|w| - 1] != '\\' || rest == "" || (rest[0] != '\\' && rest[0] != '"')
  }

  lemma ScanChar(c: char, rest: string, quoted: bool)
    requires c != '\\' && c != '"' && (quoted || (c != ' ' && c != '\t'))
    ensures var t := Scan(rest, quoted); Scan([c] + rest, quoted) == Token([c] + t.text, t.rest)
  {
    var s := [c] + rest;
    assert s[0] == c && s[1..] == rest && Slashes(s) == 0;
  }

  lemma ScanSlashes(n: nat, rest: string, quoted: bool)
    requires n > 0 && (rest == "" || (rest[0] != '\\' && rest[0] != '"'))
    ensures var t := Scan(rest, quoted);
      Scan(Backslashes(n) + rest, quoted) == Token(Backslashes(n) + t.text, t.rest)
  {
    var s := Backslashes(n) + rest;
    assert s[..n] == Backslashes(n) && s[n..] == rest && (n < |s| ==> s[n] == rest[0]);
    SlashRun(s, n);
    hide Slashes, Backslashes;
  }

  lemma Cut(w: string, k: nat, rest: string)
    requires k <= |w|
    ensures w == w[..k] + w[k..] && w + rest == w[..k] + (w[k..] + rest)
  {
    assert w == w[..k] + w[k..];
    Sequences.Assoc(w[..k], w[k..], rest);
  }

  lemma BareRest(w: string, k: nat, rest: string, quoted: bool)
    requires k < |w| && Bare(w, quoted) && Breaks(w, rest)
    ensures Bare(w[k..], quoted) && Breaks(w[k..], rest)
    ensures w[k..] + rest != "" && (w[k..] + rest)[0] == w[k] && w[k] != '"'
  {
    assert w[k..][|w| - k - 1] == w[|w| - 1];
  }

  /** Bare text is copied, backslashes included. */
  lemma {:induction false} ScanBare(w: string, rest: string, quoted: bool)
    requires Bare(w, quoted) && Breaks(w, rest)
    ensures var t := Scan(rest, quoted); Scan(w + rest, quoted) == Token(w + t.text, t.rest)
    decreases |w|
  {
    hide Scan, Backslashes;
    var n, t := Slashes(w), Scan(rest, quoted);
    SlashPrefix(w);
    if w == "" {
      assert w + rest == rest && "" + t.text == t.text;
    } else if n == |w| {
      assert w[..n] == w;
      ScanSlashes(n, rest, quoted);
    } else {
      var k := if n > 0 then n else 1;
      Cut(w, k, rest);
      Cut(w, k, t.text);
      if k < |w| { BareRest(w, k, rest, quoted); }
      hide Bare, Breaks, Slashes;
      ScanBare(w[k..], rest, quoted);
      if n > 0 {
        ScanSlashes(n, w[k..] + rest, quoted);
      } else {
        assert w[..1] == [w[0]];
        ScanChar(w[0], w[k..] + rest, quoted);
      }
    }
  }

  // ----- words between spaces and tabs

  predicate Word(w: string) { w != "" && Bare(w, false) }

  /** Each word with what follows it. */
  function Spaced(words: seq<string>, gaps: seq<string>): string
    requires |words| == |gaps|
  {
    if words == [] then "" else words[0] + (gaps[0] + Spaced(words[1..], gaps[1..]))
  }

  predicate Gaps(gaps: seq<string>) {
    forall i :: 0 <= i < |gaps| ==> AllBlank(gaps[i]) && (i < |gaps| - 1 ==> gaps[i] != "")
  }

  lemma TokenizeWord(w: string, rest: string)
    requires Word(w) && (rest == "" || rest[0] == ' ' || rest[0] == '\t')
    ensures Tokenize(w + rest) == [w] + Tokenize(if rest == "" then "" else rest[1..])
  {
    ScanBare(w, rest, false);
    ScanBreak(rest);
    assert w + "" == w && (w + rest)[0] == w[0];
  }

  /** Unquoted text: words without space, tab or quote, any other character in them,
      come out as they are, whatever spaces and tabs stand around them. */
  lemma {:induction false} TokenizeWords(lead: string, words: seq<string>, gaps: seq<string>)
    requires AllBlank(lead) && |words| == |gaps| && Gaps(gaps) && forall i :: 0 <= i < |words| ==> Word(words[i])
    ensures Tokenize(lead + Spaced(words, gaps)) == words
    decreases |words|
  {
    TokenizeSkips(lead, Spaced(words, gaps));
    hide Word, Tokenize;
    if words == [] {
      NoTokens();
    } else {
      var gap, more := gaps[0], Spaced(words[1..], gaps[1..]);
      var rest := gap + more;
      if gap == "" {
        assert words[1..] == [] && rest == "";
      } else {
        assert rest[0] == gap[0] && rest[1..] == gap[1..] + more;
      }
      TokenizeWord(words[0], rest);
      TokenizeWords(if gap == "" then "" else gap[1..], words[1..], gaps[1..]);
      assert [words[0]] + words[1..] == words;
      assert "" + more == more;
    }
  }

  lemma NoTokens()
    ensures Tokenize("") == []
  {
  }

  // ----- backslashes before a quote

  /** Backslashes only. */
  predicate AllSlashes(r: string) { forall i :: 0 <= i < |r| ==> r[i] == '\\' }

  lemma SlashesOnly(r: string, n: nat)
    requires AllSlashes(r) && n <= |r|
    ensures r[..n] == Backslashes(n)
  {
  }

  /** 2n backslashes before a quote are n backslashes, and the quote opens or closes
      quoting; 2n + 1 are n backslashes and a literal quote. */
  lemma BackslashRule(r: string, rest: string, quoted: bool)
    requires AllSlashes(r)
    ensures |r| % 2 == 0 ==>
      var t := Scan(rest, !quoted); Scan(r + "\"" + rest, quoted) == Token(r[..|r| / 2] + t.text, t.rest)
    ensures |r| % 2 == 1 ==>
      var t := Scan(rest, quoted); Scan(r + "\"" + rest, quoted) == Token(r[..|r| / 2] + "\"" + t.text, t.rest)
  {
    hide Scan;
    SlashesOnly(r, |r|);
    SlashesOnly(r, |r| / 2);
    assert r[..|r|] == r;
    if |r| % 2 == 0 { ScanToggle(|r|, rest, quoted); } else { ScanLiteral(|r|, rest, quoted); }
  }

  /** A word, an even number of backslashes and a quoted part: one token, in which
      spaces, tabs and single backslashes of the quoted part stay. */
  lemma QuotedPart(w: string, r: string, x: string)
    requires Bare(w, false) && (w == "" || w[|w| - 1] != '\\') && AllSlashes(r) && |r| % 2 == 0
    requires Bare(x, true) && (x == "" || x[|x| - 1] != '\\')
    ensures Tokenize(w + (r + "\"" + (x + "\""))) == [w + (r[..|r| / 2] + x)]
  {
    var part := x + "\"";
    var s := w + (r + "\"" + part);
    hide Scan;
    ScanBare(w, r + "\"" + part, false);
    BackslashRule(r, part, false);
    ScanBare(x, "\"", true);
    BackslashRule("", "", true);
    ScanBreak("");
    assert "" + "\"" + "" == "\"" && ""[..0] == "" && x + "" == x && ""[..0] + "" == "";
    assert Scan(s, false) == Token(w + (r[..|r| / 2] + x), "");
    FirstToken(s);
    NoTokens();
    assert s[0] == if w != "" then w[0] else if r != "" then '\\' else '"';
  }

  /** A word and an odd number of backslashes before a quote: the quote is literal. */
  lemma LiteralQuote(w: string, r: string)
    requires Bare(w, false) && (w == "" || w[|w| - 1] != '\\') && AllSlashes(r) && |r| % 2 == 1
    ensures Tokenize(w + (r + "\"")) == [w + (r[..|r| / 2] + "\"")]
  {
    var s := w + (r + "\"");
    hide Scan;
    ScanBare(w, r + "\"", false);
    BackslashRule(r, "", false);
    ScanBreak("");
    assert r + "\"" + "" == r + "\"" && r[..|r| / 2] + "\"" + "" == r[..|r| / 2] + "\"";
    assert Scan(s, false) == Token(w + (r[..|r| / 2] + "\""), "");
    FirstToken(s);
    NoTokens();
    assert s[0] == if w != "" then w[0] else '\\';
  }

  lemma FirstToken(s: string)
    requires s != ""
    ensures !Blank(s[0]) ==> Tokenize(s) == [Scan(s, false).text] + Tokenize(Scan(s, false).rest)
  {
    hide Scan;
  }
}
