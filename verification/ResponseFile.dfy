/** Response files: the POSIX quoting of the driver and the readers of its children. */
module ResponseFile {
  import Sequences

  // ----- writing

  function EscapeChar(c: char): string {
    if c == '\\' || c == '"' then ['\\', c] else [c]
  }

  function EscapeArg(arg: string): string {
    if arg == "" then "" else EscapeArg(arg[..|arg| - 1]) + EscapeChar(arg[|arg| - 1])
  }

  function Line(arg: string): string { "\"" + EscapeArg(arg) + "\"\n" }

  function Content(args: seq<string>): string {
    if args == [] then "" else Content(args[..|args| - 1]) + Line(args[|args| - 1])
  }

  /** The inner loop of setup: appends one argument's characters. */
  method AppendEscaped(arg: string, content0: string) returns (content: string)
    ensures content == content0 + EscapeArg(arg)
  {
    content := content0;
    assert arg[..0] == "" && content0 + "" == content0;
    for j := 0 to |arg|
      invariant content == content0 + EscapeArg(arg[..j])
    {
      ghost var before := content;
      assert arg[..j + 1][..j] == arg[..j];
      var c := arg[j];
      if c == '\\' || c == '"' {
        content := content + "\\";
      }
      content := content + [c];
      assert content == before + EscapeChar(c);
    }
    assert arg[..|arg|] == arg;
  }

  /** ResponseFile::setup on POSIX: the text written for the arguments. */
  method Setup(args: seq<string>) returns (content: string)
    ensures content == Content(args)
  {
    hide EscapeArg;
    content := "";
    for i := 0 to |args|
      invariant content == Content(args[..i])
    {
      ghost var before := content;
      content := content + "\"";
      content := AppendEscaped(args[i], content);
      content := content + "\"\n";
      assert content == before + Line(args[i]);
      assert args[..i + 1][..i] == args[..i];
    }
    assert args[..|args|] == args;
  }

  // ----- reading

  predicate White(c: char) { c == ' ' || c == '\t' || c == '\r' || c == '\n' }

  /** The text of a quoted section up to its closing quote, with a backslash taking
      the next character literally; what follows the quote; and whether it closed. */
  datatype Section = Section(text: string, rest: string, closed: bool)

  function ReadSection(s: string, quote: char): (r: Section)
    ensures |r.rest| <= |s|
    ensures r.closed ==> |r.rest| < |s|
  {
    if s == "" then Section("", "", false)
    else if s[0] == quote then Section("", s[1..], true)
    else if s[0] == '\\' && |s| > 1 then
      var r := ReadSection(s[2..], quote);
      Section([s[1]] + r.text, r.rest, r.closed)
    else
      var r := ReadSection(s[1..], quote);
      Section([s[0]] + r.text, r.rest, r.closed)
  }

  /** A GNU-style tokenizer of response files: `tok` is the token read so far and
      `open` says whether one has begun. With `keepEmpty` a quoted empty token is an
      argument, as for GCC; without it such a token is dropped, as the LLVM reader
      that LDC itself uses does. */
  function Read(s: string, tok: string, open: bool, keepEmpty: bool): seq<string>
    decreases |s|
  {
    if s == "" then Flush(tok, open, keepEmpty)
    else if s[0] == '\\' && |s| > 1 then Read(s[2..], tok + [s[1]], true, keepEmpty)
    else if s[0] == '"' || s[0] == '\'' then
      var r := ReadSection(s[1..], s[0]);
      Read(r.rest, tok + r.text, true, keepEmpty)
    else if White(s[0]) then Flush(tok, open, keepEmpty) + Read(s[1..], "", false, keepEmpty)
    else Read(s[1..], tok + [s[0]], true, keepEmpty)
  }

  function Flush(tok: string, open: bool, keepEmpty: bool): seq<string> {
    if tok != "" || (open && keepEmpty) then [tok] else []
  }

  function NonEmpty(args: seq<string>): seq<string> {
    if args == [] then []
    else (if args[0] == "" then [] else [args[0]]) + NonEmpty(args[1..])
  }

  // ----- the reader undoes the writer

  lemma {:induction false} SectionCons(c: char, s: string)
    ensures var r := ReadSection(s, '"');
      ReadSection(EscapeChar(c) + s, '"') == Section([c] + r.text, r.rest, r.closed)
  {
    if c == '\\' || c == '"' {
      assert (EscapeChar(c) + s)[2..] == s;
    } else {
      assert (EscapeChar(c) + s)[1..] == s;
    }
  }

  lemma {:induction false} SectionEscaped(arg: string, s: string)
    ensures var r := ReadSection(s, '"');
      ReadSection(EscapeArg(arg) + s, '"') == Section(arg + r.text, r.rest, r.closed)
    decreases |arg|
  {
    hide ReadSection, EscapeChar;
    if arg == "" {
      assert EscapeArg(arg) + s == s;
      assert "" + ReadSection(s, '"').text == ReadSection(s, '"').text;
    } else {
      var init, c := arg[..|arg| - 1], arg[|arg| - 1];
      assert EscapeArg(arg) + s == EscapeArg(init) + (EscapeChar(c) + s);
      SectionEscaped(init, EscapeChar(c) + s);
      SectionCons(c, s);
      assert init + ([c] + ReadSection(s, '"').text) == arg + ReadSection(s, '"').text;
    }
  }

  lemma {:induction false} ReadLine(arg: string, rest: string, keep: bool)
    ensures Read(Line(arg) + rest, "", false, keep) == Flush(arg, true, keep) + Read(rest, "", false, keep)
  {
    var s := Line(arg) + rest;
    var tail := "\"\n" + rest;
    assert s[1..] == EscapeArg(arg) + tail;
    SectionEscaped(arg, tail);
    assert tail[1..] == "\n" + rest;
    assert ReadSection(tail, '"') == Section("", "\n" + rest, true);
    assert arg + "" == arg && "" + arg == arg;
    assert ("\n" + rest)[1..] == rest;
  }

  function Kept(args: seq<string>, keep: bool): seq<string> { if keep then args else NonEmpty(args) }

  lemma KeptSnoc(init: seq<string>, last: string, keep: bool)
    ensures Kept(init + [last], keep) == Kept(init, keep) + Flush(last, true, keep)
  {
    NonEmptyAppend(init, [last]);
    assert [last][1..] == [];
  }

  lemma {:induction false} ContentLast(args: seq<string>)
    requires args != []
    ensures Content(args) == Content(args[..|args| - 1]) + Line(args[|args| - 1])
  {
    hide Line;
  }

  lemma {:induction false} ReadContent(args: seq<string>, rest: string, keep: bool)
    ensures Read(Content(args) + rest, "", false, keep) == Kept(args, keep) + Read(rest, "", false, keep)
    decreases |args|
  {
    if args == [] {
      assert Content(args) + rest == rest;
    } else {
      hide Read, Content, Line, Kept, Flush;
      var init, last := args[..|args| - 1], args[|args| - 1];
      ContentLast(args);
      Sequences.Assoc(Content(init), Line(last), rest);
      ReadContent(init, Line(last) + rest, keep);
      ReadLine(last, rest, keep);
      assert init + [last] == args;
      KeptSnoc(init, last, keep);
      Sequences.Assoc(Kept(init, keep), Flush(last, true, keep), Read(rest, "", false, keep));
    }
  }

  lemma {:induction false} NonEmptyAppend(a: seq<string>, b: seq<string>)
    ensures NonEmpty(a + b) == NonEmpty(a) + NonEmpty(b)
    decreases |a|
  {
    if a == [] {
      assert a + b == b;
    } else {
      assert (a + b)[1..] == a[1..] + b;
      NonEmptyAppend(a[1..], b);
    }
  }

  lemma {:induction false} NonEmptySame(args: seq<string>)
    ensures |NonEmpty(args)| <= |args|
    ensures NonEmpty(args) == args <==> "" !in args
    decreases |args|
  {
    if args != [] {
      NonEmptySame(args[1..]);
      assert args == [args[0]] + args[1..];
    }
  }

  /** A child that keeps empty arguments sees exactly the original list; one that
      drops them sees it if and only if no argument is empty. */
  lemma ReadBack(args: seq<string>, keep: bool)
    ensures Read(Content(args), "", false, keep) == if keep then args else NonEmpty(args)
    ensures Read(Content(args), "", false, keep) == args <==> keep || "" !in args
  {
    ReadContent(args, "", keep);
    assert Content(args) + "" == Content(args);
    NonEmptySame(args);
    assert Read("", "", false, keep) == [];
  }

  /** Distinct argument lists never give the same response file. */
  lemma ContentInjective(a: seq<string>, b: seq<string>)
    ensures Content(a) == Content(b) <==> a == b
  {
    ReadBack(a, true);
    ReadBack(b, true);
  }

  // ----- executeAndWait

  /** What the child sees after expanding a response file given as `@path`. */
  function Expand(argv: seq<string>, path: string, content: string, keep: bool): seq<string> {
    if |argv| == 2 && argv[1] == "@" + path then [argv[0]] + Read(content, "", false, keep) else argv
  }

  /** A child process started with these arguments, beside the response file it may
      find at `path`; or no start because that file could not be written. */
  datatype Launch = Launched(argv: seq<string>, content: string) | NotLaunched

  /** executeAndWait: the command line is moved to a response file at `path`
      whenever it does not fit, which a child then undoes. */
  method ExecuteAndWait(fullArgs: seq<string>, fits: bool, writable: bool, path: string) returns (r: Launch)
    requires fullArgs != []
    ensures r.NotLaunched? <==> !fits && !writable
    ensures fits ==> r.Launched? && r.argv == fullArgs
    ensures !fits && writable ==>
      && r == Launched([fullArgs[0], "@" + path], Content(fullArgs[1..]))
      && Expand(r.argv, path, r.content, true) == fullArgs
      && (Expand(r.argv, path, r.content, false) == fullArgs <==> "" !in fullArgs[1..])
  {
    if fits {
      return Launched(fullArgs, "");
    }
    if !writable {
      return NotLaunched;
    }
    var content := Setup(fullArgs[1..]);
    var argv := fullArgs[..1];
    argv := argv + ["@" + path];
    ReadBack(fullArgs[1..], true);
    ReadBack(fullArgs[1..], false);
    assert [fullArgs[0]] + fullArgs[1..] == fullArgs;
    var seen := Read(content, "", false, false);
    assert ([fullArgs[0]] + seen)[1..] == seen;
    return Launched(argv, content);
  }

  // ----- the text in its own characters

  /** An argument without backslash or quote stands between quotes as it is; those two
      are preceded by a backslash. */
  lemma {:induction false} PlainText(arg: string)
    requires forall i :: 0 <= i < |arg| ==> arg[i] != '\\' && arg[i] != '"'
    ensures EscapeArg(arg) == arg
    decreases |arg|
  {
    if arg != "" {
      PlainText(arg[..|arg| - 1]);
      assert arg == arg[..|arg| - 1] + [arg[|arg| - 1]];
    }
  }

  lemma {:induction false} EscapeAppend(a: string, b: string)
    ensures EscapeArg(a + b) == EscapeArg(a) + EscapeArg(b)
    decreases |b|
  {
    hide EscapeChar;
    if b == "" {
      assert a + b == a && EscapeArg(a) + "" == EscapeArg(a);
    } else {
      Sequences.AppendInit(a, b);
      EscapeAppend(a, b[..|b| - 1]);
      Sequences.Assoc(EscapeArg(a), EscapeArg(b[..|b| - 1]), EscapeChar(b[|b| - 1]));
    }
  }

  predicate PlainArg(x: string) { forall i :: 0 <= i < |x| ==> x[i] != '\\' && x[i] != '"' }

  lemma Written(x: string, y: string)
    requires PlainArg(x) && PlainArg(y)
    ensures Content([x]) == "\"" + x + "\"\n"
    ensures Content([x + "\"" + y]) == "\"" + (x + "\\\"" + y) + "\"\n"
    ensures Content([x + "\\" + y]) == "\"" + (x + "\\\\" + y) + "\"\n"
  {
    PlainText(x);
    PlainText(y);
    EscapeAppend(x + "\"", y);
    EscapeAppend(x, "\"");
    EscapeAppend(x + "\\", y);
    EscapeAppend(x, "\\");
    OneEscaped('"');
    OneEscaped('\\');
    hide EscapeArg;
    OneLine(x);
    OneLine(x + "\"" + y);
    OneLine(x + "\\" + y);
  }

  lemma OneEscaped(c: char)
    requires c == '"' || c == '\\'
    ensures EscapeArg([c]) == ['\\', c]
  {
    assert [c][..0] == "" && EscapeArg("") == "" && "" + ['\\', c] == ['\\', c];
  }

  lemma OneLine(arg: string)
    ensures Content([arg]) == "\"" + EscapeArg(arg) + "\"\n"
  {
    hide EscapeArg;
    var one := [arg];
    assert one[..0] == [] && Content([]) == "" && "" + Line(arg) == Line(arg);
  }

  /** Unquoted words of a response file, any of space, tab, carriage return and newline
      between them. */
  predicate FileWord(x: string) {
    forall i :: 0 <= i < |x| ==> x[i] !in {' ', '\t', '\r', '\n', '"', '\'', '\\'}
  }

  lemma {:induction false} ReadWord(x: string, rest: string, tok: string, open: bool, keep: bool)
    requires FileWord(x)
    ensures Read(x + rest, tok, open, keep) == Read(rest, tok + x, open || x != "", keep)
    decreases |x|
  {
    if x == "" {
      assert x + rest == rest && tok + "" == tok;
    } else {
      assert (x + rest)[1..] == x[1..] + rest && (x + rest)[0] == x[0];
      ReadWord(x[1..], rest, tok + [x[0]], true, keep);
      assert tok + [x[0]] + x[1..] == tok + x;
    }
  }

  function Listed(words: seq<string>, seps: seq<char>): string
    requires |words| == |seps|
  {
    if words == [] then "" else words[0] + ([seps[0]] + Listed(words[1..], seps[1..]))
  }

  lemma {:induction false} ReadWords(words: seq<string>, seps: seq<char>, keep: bool)
    requires |words| == |seps| && forall i :: 0 <= i < |words| ==>
      words[i] != "" && FileWord(words[i]) && seps[i] in {' ', '\t', '\r', '\n'}
    ensures Read(Listed(words, seps), "", false, keep) == words
    decreases |words|
  {
    if words != [] {
      var more := Listed(words[1..], seps[1..]);
      var rest := [seps[0]] + more;
      ReadWord(words[0], rest, "", false, keep);
      assert "" + words[0] == words[0] && rest[1..] == more;
      ReadWords(words[1..], seps[1..], keep);
      assert [words[0]] + words[1..] == words;
    }
  }

  /** Quoted text, with either quote, keeps what stands in it; outside quotes a
      backslash takes the next character literally. */
  lemma {:induction false} SectionOf(x: string, q: char, rest: string)
    requires forall i :: 0 <= i < |x| ==> x[i] != q && x[i] != '\\'
    ensures ReadSection(x + [q] + rest, q) == Section(x, rest, true)
    decreases |x|
  {
    var s := x + [q] + rest;
    if x == "" {
      assert s[0] == q && s[1..] == rest;
    } else {
      assert s[0] == x[0] && s[1..] == x[1..] + [q] + rest;
      SectionOf(x[1..], q, rest);
      assert [x[0]] + x[1..] == x;
    }
  }

  lemma ReadQuoted(x: string, q: char, keep: bool)
    requires x != "" && (q == '"' || q == '\'') && forall i :: 0 <= i < |x| ==> x[i] != q && x[i] != '\\'
    ensures Read([q] + x + [q], "", false, keep) == [x]
  {
    var s := [q] + x + [q];
    assert s[0] == q && s[1..] == x + [q] + "";
    SectionOf(x, q, "");
    assert "" + x == x;
  }

  lemma ReadLiteral(x: string, c: char, y: string, keep: bool)
    requires FileWord(x) && FileWord(y)
    ensures Read(x + (['\\', c] + y), "", false, keep) == [x + [c] + y]
  {
    var rest := ['\\', c] + y;
    ReadWord(x, rest, "", false, keep);
    assert rest[0] == '\\' && rest[1] == c && rest[2..] == y && "" + x == x;
    ReadWord(y, "", x + [c], true, keep);
    assert y + "" == y;
  }
}
