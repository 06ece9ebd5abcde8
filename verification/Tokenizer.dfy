/** LDMD's tokenizer for the DFLAGS environment variable: a pure specification
    and the in-place algorithm over a NUL-terminated buffer. */
module Tokenizer {
  import Sequences

  predicate Blank(c: char) { c == ' ' || c == '\t' }

  predicate NulFree(s: string) { '\0' !in s }

  // ----- specification

  /** The number of backslashes `s` starts with. */
  function Slashes(s: string): (n: nat)
    ensures n <= |s| && (forall i :: 0 <= i < n ==> s[i] == '\\')
    ensures n < |s| ==> s[n] != '\\'
  {
    if s != "" && s[0] == '\\' then
      var n := Slashes(s[1..]);
      assert forall i :: 1 <= i <= n ==> s[i] == s[1..][i - 1];
      n + 1
    else 0
  }

  function Backslashes(n: nat): (r: string)
    ensures |r| == n
  {
    seq(n, _ => '\\')
  }

  datatype Token = Token(text: string, rest: string)

  /** The token `s` starts with, and what follows it. A run of n backslashes before
      a quote stands for n/2 backslashes; the quote is literal if n is odd and
      otherwise opens or closes quoting. Other backslashes stand for themselves. A
      blank outside quotes, or the end, ends the token; the blank is consumed. */
  function Scan(s: string, quoted: bool): (t: Token)
    ensures |t.rest| <= |s|
    ensures !quoted && s != "" && !Blank(s[0]) ==> |t.rest| < |s|
    decreases |s|
  {
    var n := Slashes(s);
    if n < |s| && s[n] == '"' then
      var t := Scan(s[n + 1..], if n % 2 == 1 then quoted else !quoted);
      Token(Backslashes(n / 2) + (if n % 2 == 1 then "\"" else "") + t.text, t.rest)
    else if n > 0 then
      var t := Scan(s[n..], quoted);
      Token(s[..n] + t.text, t.rest)
    else if s == "" then Token("", "")
    else if Blank(s[0]) && !quoted then Token("", s[1..])
    else
      var t := Scan(s[1..], quoted);
      Token([s[0]] + t.text, t.rest)
  }

  function Tokenize(s: string): seq<string>
    decreases |s|
  {
    if s == "" then []
    else if Blank(s[0]) then Tokenize(s[1..])
    else
      var t := Scan(s, false);
      [t.text] + Tokenize(t.rest)
  }

  lemma {:induction false} ScanNulFree(s: string, quoted: bool)
    requires NulFree(s)
    ensures NulFree(Scan(s, quoted).text)
    decreases |s|
  {
    var n := Slashes(s);
    if n < |s| && s[n] == '"' {
      ScanNulFree(s[n + 1..], if n % 2 == 1 then quoted else !quoted);
    } else if n > 0 {
      ScanNulFree(s[n..], quoted);
    } else if s != "" && !(Blank(s[0]) && !quoted) {
      ScanNulFree(s[1..], quoted);
    }
  }

  // ----- buffers

  /** The C string at offset `i` of the buffer `b` is `t`. */
  predicate CStringAt(b: seq<char>, i: nat, t: string) {
    i + |t| < |b| && b[i..i + |t|] == t && b[i + |t|] == '\0' && NulFree(t)
  }

  predicate CStrings(b: seq<char>, starts: seq<nat>, ts: seq<string>) {
    |starts| == |ts| && forall k :: 0 <= k < |ts| ==> CStringAt(b, starts[k], ts[k])
  }

  // ----- the scanner's view of a half-read token

  /** With `slash` backslashes read and copied but not yet judged, the token read so
      far is `done` without them, and the scan continues at the start of that run. */
  predicate Pending(s: string, whole: Token, done: string, env: nat, slash: nat, quoted: bool) {
    && slash <= env <= |s|
    && s[env - slash..env] == Backslashes(slash)
    && var t := Scan(s[env - slash..], quoted);
       whole == Token(done + t.text, t.rest)
  }

  lemma {:induction false} PendingStart(s: string, start: nat)
    requires start <= |s|
    ensures Pending(s, Scan(s[start..], false), "", start, 0, false)
  {
    assert s[start..start] == Backslashes(0);
    var t := Scan(s[start..], false);
    assert "" + t.text == t.text;
  }

  lemma SlashRun(s: string, k: nat)
    requires k <= |s| && s[..k] == Backslashes(k) && (k < |s| ==> s[k] != '\\')
    ensures Slashes(s) == k
  {
    assert forall i :: 0 <= i < k ==> s[i] == s[..k][i];
  }

  lemma {:induction false} PendingSlash(s: string, whole: Token, done: string, env: nat, slash: nat, quoted: bool)
    requires Pending(s, whole, done, env, slash, quoted) && env < |s| && s[env] == '\\'
    ensures Pending(s, whole, done, env + 1, slash + 1, quoted)
  {
    assert s[env - slash..env + 1] == s[env - slash..env] + [s[env]];
    assert s[env + 1 - (slash + 1)..] == s[env - slash..];
  }

  lemma {:induction false} PendingRun(s: string, whole: Token, done: string, env: nat, slash: nat, quoted: bool)
    requires Pending(s, whole, done, env, slash, quoted) && (env < |s| ==> s[env] != '\\')
    ensures Slashes(s[env - slash..]) == slash
    ensures env < |s| ==> s[env - slash..][slash] == s[env]
  {
    var r := s[env - slash..];
    assert r[..slash] == s[env - slash..env];
    SlashRun(r, slash);
  }

  lemma {:induction false} PendingLiteralQuote(s: string, whole: Token, done: string, env: nat, slash: nat, quoted: bool)
    requires Pending(s, whole, done, env, slash, quoted) && env < |s| && s[env] == '"' && slash % 2 == 1
    ensures Pending(s, whole, done + Backslashes(slash / 2) + "\"", env + 1, 0, quoted)
  {
    PendingRun(s, whole, done, env, slash, quoted);
    assert s[env - slash..][slash + 1..] == s[env + 1..];
    assert s[env + 1..env + 1] == Backslashes(0);
    hide Slashes, Backslashes;
    var half, t := Backslashes(slash / 2), Scan(s[env + 1..], quoted);
    Sequences.Assoc(done, half + "\"", t.text);
    Sequences.Assoc(done, half, "\"");
  }

  lemma {:induction false} PendingToggle(s: string, whole: Token, done: string, env: nat, slash: nat, quoted: bool)
    requires Pending(s, whole, done, env, slash, quoted) && env < |s| && s[env] == '"' && slash % 2 == 0
    ensures Pending(s, whole, done + Backslashes(slash / 2), env + 1, 0, !quoted)
  {
    PendingRun(s, whole, done, env, slash, quoted);
    assert s[env - slash..][slash + 1..] == s[env + 1..];
    assert s[env + 1..env + 1] == Backslashes(0);
    hide Slashes, Backslashes;
    var half, t := Backslashes(slash / 2), Scan(s[env + 1..], !quoted);
    assert half + "" == half;
    Sequences.Assoc(done, half, t.text);
  }

  /** A run of backslashes that no quote follows stands for itself. */
  lemma {:induction false} PendingFlush(s: string, whole: Token, done: string, env: nat, slash: nat, quoted: bool)
    requires Pending(s, whole, done, env, slash, quoted)
    requires env < |s| ==> s[env] != '\\' && s[env] != '"'
    ensures Pending(s, whole, done + Backslashes(slash), env, 0, quoted)
  {
    PendingRun(s, whole, done, env, slash, quoted);
    var r := s[env - slash..];
    assert s[env..env] == Backslashes(0);
    if slash > 0 {
      assert r[slash..] == s[env..];
      assert r[..slash] == Backslashes(slash);
      var t := Scan(s[env..], quoted);
      assert done + (Backslashes(slash) + t.text) == done + Backslashes(slash) + t.text;
    } else {
      assert done + Backslashes(0) == done;
    }
  }

  lemma {:induction false} PendingChar(s: string, whole: Token, done: string, env: nat, slash: nat, quoted: bool)
    requires Pending(s, whole, done, env, slash, quoted) && env < |s|
    requires s[env] != '\\' && s[env] != '"' && (Blank(s[env]) ==> quoted)
    ensures Pending(s, whole, done + Backslashes(slash) + [s[env]], env + 1, 0, quoted)
  {
    PendingFlush(s, whole, done, env, slash, quoted);
    var d := done + Backslashes(slash);
    var r := s[env..];
    assert Slashes(r) == 0;
    assert r[1..] == s[env + 1..];
    var t := Scan(s[env + 1..], quoted);
    assert d + ([s[env]] + t.text) == d + [s[env]] + t.text;
    assert s[env + 1..env + 1] == Backslashes(0);
  }

  lemma {:induction false} PendingEnd(s: string, whole: Token, done: string, env: nat, slash: nat, quoted: bool)
    requires Pending(s, whole, done, env, slash, quoted)
    requires env == |s| || (Blank(s[env]) && !quoted)
    ensures whole == Token(done + Backslashes(slash), if env == |s| then "" else s[env + 1..])
  {
    PendingFlush(s, whole, done, env, slash, quoted);
    var r := s[env..];
    assert Slashes(r) == 0;
    assert done + Backslashes(slash) + "" == done + Backslashes(slash);
  }

  // ----- the algorithm

  /** `b` holds `text` from `start` up to the write cursor, the unread input from
      `env` on, and is untouched before `start`. */
  predicate View(b: seq<char>, b0: seq<char>, s: string, start: nat, env: nat, text: string) {
    && |b| == |b0| == |s| + 1 && start + |text| <= env <= |s|
    && b[..start] == b0[..start]
    && b[start..start + |text|] == text
    && b[env..] == s[env..] + "\0"
  }

  lemma ViewRead(b: seq<char>, b0: seq<char>, s: string, start: nat, env: nat, text: string)
    requires View(b, b0, s, start, env, text)
    ensures start + |text| <= env <= |s| && |b| == |s| + 1
    ensures b[env] == if env < |s| then s[env] else '\0'
  {
    assert b[env..][0] == (s[env..] + "\0")[0];
  }

  /** Reading a character and stepping the write cursor back to `k` characters. */
  lemma ViewBack(b: seq<char>, b0: seq<char>, s: string, start: nat, env: nat, text: string, k: nat)
    requires View(b, b0, s, start, env, text) && env < |s| && k <= |text|
    ensures View(b, b0, s, start, env + 1, text[..k]) && b[env + 1..] == s[env + 1..] + "\0"
  {
    assert b[start..start + k] == b[start..start + |text|][..k];
    assert b[env + 1..] == b[env..][1..];
    assert (s[env..] + "\0")[1..] == s[env + 1..] + "\0";
  }

  /** Writing the character just read behind the text. */
  lemma ViewPut(b: seq<char>, b0: seq<char>, s: string, start: nat, env: nat, text: string, c: char)
    requires View(b, b0, s, start, env, text) && start + |text| < env
    ensures View(b[start + |text| := c], b0, s, start, env, text + [c])
  {
    var b' := b[start + |text| := c];
    assert b'[start..start + |text| + 1] == b[start..start + |text|] + [c];
    assert b'[..start] == b[..start] && b'[env..] == b[env..];
  }

  lemma ViewClose(b: seq<char>, b0: seq<char>, s: string, start: nat, env: nat, text: string)
    requires View(b, b0, s, start, env, text) && NulFree(text)
    ensures var b' := b[start + |text| := '\0'];
      CStringAt(b', start, text) && b'[..start] == b0[..start]
  {
    var b' := b[start + |text| := '\0'];
    assert b'[start..start + |text|] == b[start..start + |text|];
    assert b'[..start] == b[..start];
  }

  /** The whole state of the scanner: `p` is the write cursor, `env` the read cursor. */
  ghost predicate Reading(b: seq<char>, b0: seq<char>, s: string, whole: Token, start: nat,
                          p: nat, env: nat, slash: nat, instring: bool, done: string)
  {
    && p == start + |done| + slash
    && View(b, b0, s, start, env, done + Backslashes(slash))
    && Pending(s, whole, done, env, slash, instring)
  }

  lemma ReadingStart(b: seq<char>, s: string, start: nat)
    requires start <= |s| && |b| == |s| + 1 && b[start..] == s[start..] + "\0"
    ensures Reading(b, b, s, Scan(s[start..], false), start, start, start, 0, false, "")
  {
    PendingStart(s, start);
    assert "" + Backslashes(0) == "";
  }

  lemma ReadingChar(b: seq<char>, b0: seq<char>, s: string, whole: Token, start: nat,
                    p: nat, env: nat, slash: nat, instring: bool, done: string)
    requires Reading(b, b0, s, whole, start, p, env, slash, instring, done)
    ensures |b| == |s| + 1 && start + slash <= p <= env <= |s|
    ensures b[env] == if env < |s| then s[env] else '\0'
  {
    ViewRead(b, b0, s, start, env, done + Backslashes(slash));
  }

  lemma ReadingLiteralQuote(b: seq<char>, b0: seq<char>, s: string, whole: Token, start: nat,
                            p: nat, env: nat, slash: nat, instring: bool, done: string)
    requires Reading(b, b0, s, whole, start, p, env, slash, instring, done)
    requires env < |s| && s[env] == '"' && slash % 2 == 1
    ensures Reading(b[p - slash / 2 - 1 := '"'], b0, s, whole, start,
                    p - slash / 2, env + 1, 0, instring, done + Backslashes(slash / 2) + ['"'])
  {
    var kept := done + Backslashes(slash / 2);
    assert kept == (done + Backslashes(slash))[..|kept|];
    ViewBack(b, b0, s, start, env, done + Backslashes(slash), |kept|);
    ViewPut(b, b0, s, start, env + 1, kept, '"');
    PendingLiteralQuote(s, whole, done, env, slash, instring);
    assert kept + ['"'] + Backslashes(0) == kept + ['"'];
  }

  lemma ReadingToggle(b: seq<char>, b0: seq<char>, s: string, whole: Token, start: nat,
                      p: nat, env: nat, slash: nat, instring: bool, done: string)
    requires Reading(b, b0, s, whole, start, p, env, slash, instring, done)
    requires env < |s| && s[env] == '"' && slash % 2 == 0
    ensures Reading(b, b0, s, whole, start,
                    p - slash / 2, env + 1, 0, !instring, done + Backslashes(slash / 2))
  {
    var kept := done + Backslashes(slash / 2);
    assert kept == (done + Backslashes(slash))[..|kept|];
    ViewBack(b, b0, s, start, env, done + Backslashes(slash), |kept|);
    PendingToggle(s, whole, done, env, slash, instring);
    assert kept + Backslashes(0) == kept;
  }

  lemma ReadingSlash(b: seq<char>, b0: seq<char>, s: string, whole: Token, start: nat,
                     p: nat, env: nat, slash: nat, instring: bool, done: string)
    requires Reading(b, b0, s, whole, start, p, env, slash, instring, done)
    requires env < |s| && s[env] == '\\'
    ensures Reading(b[p := '\\'], b0, s, whole, start, p + 1, env + 1, slash + 1, instring, done)
  {
    var text := done + Backslashes(slash);
    PendingSlash(s, whole, done, env, slash, instring);
    ViewBack(b, b0, s, start, env, text, |text|);
    ViewPut(b, b0, s, start, env + 1, text, '\\');
    assert text + ['\\'] == done + Backslashes(slash + 1);
  }

  lemma ReadingOther(b: seq<char>, b0: seq<char>, s: string, whole: Token, start: nat,
                     p: nat, env: nat, slash: nat, instring: bool, done: string)
    requires Reading(b, b0, s, whole, start, p, env, slash, instring, done)
    requires env < |s| && s[env] != '\\' && s[env] != '"' && (Blank(s[env]) ==> instring)
    ensures Reading(b[p := s[env]], b0, s, whole, start, p + 1, env + 1, 0, instring,
                    done + Backslashes(slash) + [s[env]])
  {
    var text := done + Backslashes(slash);
    PendingChar(s, whole, done, env, slash, instring);
    ViewBack(b, b0, s, start, env, text, |text|);
    ViewPut(b, b0, s, start, env + 1, text, s[env]);
    assert text + [s[env]] + Backslashes(0) == text + [s[env]];
  }

  lemma ReadingEnd(b: seq<char>, b0: seq<char>, s: string, whole: Token, start: nat,
                   p: nat, env: nat, slash: nat, instring: bool, done: string)
    requires Reading(b, b0, s, whole, start, p, env, slash, instring, done) && NulFree(whole.text)
    requires env == |s| || (Blank(s[env]) && !instring)
    ensures var b' := b[p := '\0'];
      && p == start + |whole.text| && CStringAt(b', start, whole.text) && b'[..start] == b0[..start]
      && (env == |s| ==> whole.rest == "")
      && (env < |s| ==> whole.rest == s[env + 1..] && b'[env + 1..] == s[env + 1..] + "\0")
  {
    var text := done + Backslashes(slash);
    PendingEnd(s, whole, done, env, slash, instring);
    ViewClose(b, b0, s, start, env, text);
    if env < |s| {
      ViewBack(b, b0, s, start, env, text, |text|);
      assert b[p := '\0'][env + 1..] == b[env + 1..];
    }
  }

  /** Reads one token starting at `start`, unescaping it in place. The write cursor
      never passes the read cursor, and stepping back over backslashes never leaves
      the current token, so nothing before `start` is touched. */
  method ReadToken(buf: array<char>, start: nat, ghost s: string) returns (env: nat, last: bool)
    requires NulFree(s) && start < |s| && !Blank(s[start])
    requires buf.Length == |s| + 1 && buf[start..] == s[start..] + "\0"
    modifies buf
    ensures var t := Scan(s[start..], false);
      && start < env <= buf.Length == |s| + 1
      && buf[..start] == old(buf[..start])
      && start + |t.text| < env && CStringAt(buf[..], start, t.text)
      && (last ==> t.rest == "")
      && (!last ==> env <= |s| && t.rest == s[env..] && buf[env..] == s[env..] + "\0")
  {
    hide Reading, Scan, CStringAt;
    ghost var whole := Scan(s[start..], false);
    ghost var b0 := buf[..];
    ghost var done := "";
    ScanNulFree(s[start..], false);
    env := start;
    var p: nat := start;
    var slash: nat := 0;
    var instring := false;
    assert buf[start..] == b0[start..];
    ReadingStart(b0, s, start);
    while true
      invariant Reading(buf[..], b0, s, whole, start, p, env, slash, instring, done)
      invariant start <= env <= |s|
      decreases |s| - env
    {
      ghost var b := buf[..];
      ReadingChar(b, b0, s, whole, start, p, env, slash, instring, done);
      var c := buf[env];
      if c == '"' {
        if slash % 2 == 1 {
          ReadingLiteralQuote(b, b0, s, whole, start, p, env, slash, instring, done);
          p := p - slash / 2 - 1;
          buf[p] := c;
          assert buf[..] == b[p := c];
          p := p + 1;
          done := done + Backslashes(slash / 2) + [c];
        } else {
          ReadingToggle(b, b0, s, whole, start, p, env, slash, instring, done);
          p := p - slash / 2;
          done := done + Backslashes(slash / 2);
          instring := !instring;
        }
        slash := 0;
      } else if Blank(c) && !instring {
        ReadingEnd(b, b0, s, whole, start, p, env, slash, instring, done);
        buf[p] := '\0';
        assert buf[..] == b[p := '\0'];
        return env + 1, false;
      } else if c == '\\' {
        ReadingSlash(b, b0, s, whole, start, p, env, slash, instring, done);
        buf[p] := c;
        assert buf[..] == b[p := c];
        p, slash := p + 1, slash + 1;
      } else if c == '\0' {
        ReadingEnd(b, b0, s, whole, start, p, env, slash, instring, done);
        buf[p] := '\0';
        assert buf[..] == b[p := '\0'];
        return env + 1, true;
      } else {
        ReadingOther(b, b0, s, whole, start, p, env, slash, instring, done);
        buf[p] := c;
        assert buf[..] == b[p := c];
        done := done + Backslashes(slash) + [c];
        p, slash := p + 1, 0;
      }
      env := env + 1;
    }
  }

  /** appendEnvVar: splits the buffer in place and returns where the tokens start.
      Every token returned is intact in the final buffer. */
  method AppendEnvVar(buf: array<char>, ghost s: string) returns (starts: seq<nat>)
    requires NulFree(s) && buf[..] == s + "\0"
    modifies buf
    ensures CStrings(buf[..], starts, Tokenize(s))
  {
    hide Scan, CStringAt;
    starts := [];
    ghost var ts: seq<string> := [];
    var env := 0;
    assert s[0..] == s && buf[0..] == buf[..];
    while true
      invariant env <= |s| && buf.Length == |s| + 1 && buf[env..] == s[env..] + "\0"
      invariant |starts| == |ts| && CStrings(buf[..], starts, ts) && AllBefore(starts, ts, env)
      invariant Tokenize(s) == ts + Tokenize(s[env..])
      decreases |s| - env
    {
      ghost var b := buf[..];
      assert buf[env] == (s[env..] + "\0")[0];
      if Blank(buf[env]) {
        assert s[env..][1..] == s[env + 1..];
        assert buf[env + 1..] == buf[env..][1..] && (s[env..] + "\0")[1..] == s[env + 1..] + "\0";
        env := env + 1;
      } else if buf[env] == '\0' {
        assert s[env..] == "" && ts + [] == ts;
        return;
      } else {
        ghost var t := Scan(s[env..], false);
        assert Tokenize(s[env..]) == [t.text] + Tokenize(t.rest);
        starts := starts + [env];
        var next, last := ReadToken(buf, env, s);
        KeepCStrings(b, buf[..], env, starts[..|starts| - 1], ts);
        AddCString(buf[..], starts[..|starts| - 1], ts, env, t.text, next);
        assert starts[..|starts| - 1] + [env] == starts;
        assert ts + ([t.text] + Tokenize(t.rest)) == ts + [t.text] + Tokenize(t.rest);
        ts := ts + [t.text];
        if last {
          assert ts + [] == ts;
          return;
        }
        env := next;
      }
    }
  }

  predicate AllBefore(starts: seq<nat>, ts: seq<string>, env: nat)
    requires |starts| == |ts|
  {
    forall k :: 0 <= k < |ts| ==> starts[k] + |ts[k]| < env
  }

  lemma AddCString(b: seq<char>, starts: seq<nat>, ts: seq<string>, i: nat, t: string, env: nat)
    requires CStrings(b, starts, ts) && AllBefore(starts, ts, i) && CStringAt(b, i, t) && i + |t| < env
    ensures CStrings(b, starts + [i], ts + [t]) && AllBefore(starts + [i], ts + [t], env)
  {
  }

  lemma KeepCStrings(b: seq<char>, b': seq<char>, start: nat, starts: seq<nat>, ts: seq<string>)
    requires CStrings(b, starts, ts) && AllBefore(starts, ts, start)
    requires start <= |b| == |b'| && b[..start] == b'[..start]
    ensures CStrings(b', starts, ts)
  {
    forall k | 0 <= k < |ts| ensures CStringAt(b', starts[k], ts[k]) {
      KeepCString(b, b', start, starts[k], ts[k]);
    }
  }

  lemma KeepCString(b: seq<char>, b': seq<char>, start: nat, i: nat, t: string)
    requires CStringAt(b, i, t) && i + |t| < start <= |b| && |b| == |b'| && b[..start] == b'[..start]
    ensures CStringAt(b', i, t)
  {
    assert b'[i..i + |t|] == b'[..start][i..i + |t|] == b[i..i + |t|];
    assert b'[i + |t|] == b'[..start][i + |t|];
  }
}
