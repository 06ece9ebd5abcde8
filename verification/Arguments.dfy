/** Command-line arguments as C strings, and the split at a first -run. */
module Arguments {

  /** The character at an offset of a C string; its terminator past the end. */
  function CharAt(arg: string, i: nat): char {
    if i < |arg| then arg[i] else '\0'
  }

  /** The arguments before the first -run. */
  function BeforeRun(args: seq<string>): seq<string> {
    if args == [] || args[0] == "-run" then [] else [args[0]] + BeforeRun(args[1..])
  }

  /** The arguments from the first -run on. */
  function FromRun(args: seq<string>): seq<string> {
    if args == [] || args[0] == "-run" then args else FromRun(args[1..])
  }

  lemma {:induction false} BeforeRunAppend(a: seq<string>, b: seq<string>)
    ensures BeforeRun(a + b) == if "-run" in a then BeforeRun(a) else a + BeforeRun(b)
    decreases |a|
  {
    if a == [] {
      assert a + b == b;
    } else {
      assert (a + b)[1..] == a[1..] + b;
      BeforeRunAppend(a[1..], b);
      assert a == [a[0]] + a[1..];
    }
  }

  lemma {:induction false} FromRunAppend(a: seq<string>, b: seq<string>)
    ensures FromRun(a + b) == if "-run" in a then FromRun(a) + b else FromRun(b)
    decreases |a|
  {
    if a == [] {
      assert a + b == b;
    } else {
      assert (a + b)[1..] == a[1..] + b;
      FromRunAppend(a[1..], b);
      assert a == [a[0]] + a[1..];
    }
  }

  lemma {:induction false} PrefixBeforeRun(args: seq<string>, i: nat)
    requires i <= |args| && "-run" !in args[..i]
    ensures BeforeRun(args) == args[..i] + BeforeRun(args[i..]) && FromRun(args) == FromRun(args[i..])
    decreases i
  {
    if i > 0 {
      assert args[..i] == [args[0]] + args[1..][..i - 1] && args[1..][i - 1..] == args[i..];
      PrefixBeforeRun(args[1..], i - 1);
    } else {
      assert args[0..] == args;
    }
  }

  lemma FromRunStays(args: seq<string>)
    requires args != [] && args[0] == "-run"
    ensures FromRun(args) == args
  {
  }

  lemma {:induction false} FromRunHead(args: seq<string>)
    requires "-run" in args
    ensures FromRun(args) != [] && FromRun(args)[0] == "-run"
    decreases |args|
  {
    if args[0] != "-run" {
      assert args == [args[0]] + args[1..];
      FromRunHead(args[1..]);
    }
  }
}
