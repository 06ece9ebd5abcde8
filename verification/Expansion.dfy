/** How LDC replaces `@file` arguments: the expansion of response files in place that
    it runs on its whole argument list, -run or not. */
module Expansion {
  import opened ResponseFile
  import Sequences

  /** The files an argument can name, with their text. */
  type Texts = map<string, string>

  predicate IsReference(arg: string) { arg != "" && arg[0] == '@' }

  /** The argument names an existing file; one that names none stays as it is. */
  predicate Refers(files: Texts, arg: string) { IsReference(arg) && arg[1..] in files }

  predicate Clean(files: Texts, args: seq<string>) {
    forall p :: p in args ==> !Refers(files, p)
  }

  function Words(text: string): seq<string> { Read(text, "", false, false) }

  /** The list after expansion. At a file that is being expanded already the expansion
      stops with an error, and what is left of the list stays as it is. */
  datatype Unfolding = Unfolding(args: seq<string>, ok: bool)

  function Unfold(files: Texts, busy: set<string>, args: seq<string>): Unfolding
    decreases files.Keys - busy, |args| + 1
  {
    if args == [] then Unfolding([], true)
    else Join(UnfoldOne(files, busy, args[0]), args[1..], Unfold(files, busy, args[1..]))
  }

  function UnfoldOne(files: Texts, busy: set<string>, arg: string): Unfolding
    decreases files.Keys - busy, 0
  {
    if !Refers(files, arg) then Unfolding([arg], true)
    else if arg[1..] in busy then Unfolding([arg], false)
    else
      assert arg[1..] in files.Keys - busy;
      Unfold(files, busy + {arg[1..]}, Words(files[arg[1..]]))
  }

  /** An expansion and what is behind it: `next` expanded in turn, or `rest` untouched. */
  function Join(u: Unfolding, rest: seq<string>, next: Unfolding): Unfolding {
    if u.ok then Unfolding(u.args + next.args, next.ok) else Unfolding(u.args + rest, false)
  }

  // ----- what an expansion leaves alone, and what it does not

  lemma JoinAssoc(u: Unfolding, a: seq<string>, v: Unfolding, b: seq<string>, w: Unfolding)
    ensures Join(u, a + b, Join(v, b, w)) == Join(Join(u, a, v), b, w)
  {
    Sequences.Assoc(u.args, v.args, w.args);
    Sequences.Assoc(u.args, v.args, b);
    Sequences.Assoc(u.args, a, b);
  }

  /** The arguments behind an expansion: expanded in turn, or untouched after an error. */
  lemma {:induction false} UnfoldAppend(files: Texts, busy: set<string>, a: seq<string>, b: seq<string>)
    ensures Unfold(files, busy, a + b) == Join(Unfold(files, busy, a), b, Unfold(files, busy, b))
    decreases |a|
  {
    if a == [] {
      assert a + b == b;
    } else {
      hide UnfoldOne;
      Sequences.AppendTail(a, b);
      UnfoldAppend(files, busy, a[1..], b);
      JoinAssoc(UnfoldOne(files, busy, a[0]), a[1..], Unfold(files, busy, a[1..]), b, Unfold(files, busy, b));
    }
  }

  lemma {:induction false} UnfoldClean(files: Texts, busy: set<string>, args: seq<string>)
    requires Clean(files, args)
    ensures Unfold(files, busy, args) == Unfolding(args, true)
    decreases |args|
  {
    if args != [] {
      assert args[0] in args;
      UnfoldClean(files, busy, args[1..]);
      assert [args[0]] + args[1..] == args;
    }
  }

  /** Clean arguments at the end stay there, whatever is expanded before them. */
  lemma UnfoldKeepsTail(files: Texts, busy: set<string>, a: seq<string>, b: seq<string>)
    requires Clean(files, b)
    ensures Unfold(files, busy, a + b).args == Unfold(files, busy, a).args + b
  {
    UnfoldAppend(files, busy, a, b);
    UnfoldClean(files, busy, b);
  }

  /** An expansion without error leaves nothing to expand. */
  lemma {:induction false} UnfoldedIsClean(files: Texts, busy: set<string>, args: seq<string>)
    requires Unfold(files, busy, args).ok
    ensures Clean(files, Unfold(files, busy, args).args)
    decreases files.Keys - busy, |args|
  {
    if args != [] {
      UnfoldedIsClean(files, busy, args[1..]);
      if Refers(files, args[0]) {
        assert args[0][1..] in files.Keys - busy;
        UnfoldedIsClean(files, busy + {args[0][1..]}, Words(files[args[0][1..]]));
      }
    }
  }

  /** The files refer to no other files. */
  predicate Flat(files: Texts) {
    forall f :: f in files ==> Clean(files, Words(files[f]))
  }

  lemma {:induction false} FlatUnfolds(files: Texts, args: seq<string>)
    requires Flat(files)
    ensures Unfold(files, {}, args).ok
    decreases |args|
  {
    if args != [] {
      FlatUnfolds(files, args[1..]);
      if Refers(files, args[0]) {
        UnfoldClean(files, {args[0][1..]}, Words(files[args[0][1..]]));
        assert {} + {args[0][1..]} == {args[0][1..]};
      }
    }
  }

  /** A file that names no further file is replaced by its words, in its place. */
  lemma UnfoldsInPlace(files: Texts, a: seq<string>, f: string, b: seq<string>)
    requires Clean(files, a) && Clean(files, b) && f in files && Clean(files, Words(files[f]))
    ensures Unfold(files, {}, a + ["@" + f] + b) == Unfolding(a + Words(files[f]) + b, true)
  {
    var ref: string := "@" + f;
    var one := [ref];
    assert ref[1..] == f && one[1..] == [] && {} + {f} == {f};
    UnfoldClean(files, {f}, Words(files[f]));
    assert Words(files[f]) + [] == Words(files[f]);
    assert Unfold(files, {}, one) == Unfolding(Words(files[f]), true);
    hide Unfold, Words;
    UnfoldAppend(files, {}, a, one);
    UnfoldClean(files, {}, a);
    UnfoldAppend(files, {}, a + one, b);
    UnfoldClean(files, {}, b);
  }
}
