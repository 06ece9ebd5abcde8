/** LDMD's own expansion of `@name` arguments, from environment variables or files. */
module ResponseExpand {
  import opened ResponseFile
  import opened Expansion
  import Sequences

  const REEXPAND_LIMIT := 32

  /** What `@name` can stand for: the words of a variable or file of that name. */
  type Sources = map<string, seq<string>>

  datatype Expanded =
    | Args(args: seq<string>)
    | NoName        // a bare @
    | TooOften      // a name was expanded more often than the limit allows
    | NotFound

  /** An argument that the expansion hands on as it is. */
  predicate Settled(arg: string) { arg != "" && !IsReference(arg) }

  predicate AllSettled(args: seq<string>) { forall p :: p in args ==> Settled(p) }

  predicate NoReference(args: seq<string>) { forall p :: p in args ==> !IsReference(p) }

  /** How often each name may have been expanded bounds how often all were. */
  lemma {:induction false} Bounded(e: multiset<string>, names: set<string>)
    requires forall n :: n in e ==> n in names && e[n] <= REEXPAND_LIMIT
    ensures |e| <= REEXPAND_LIMIT * |names|
    decreases |names|
  {
    if names == {} {
      assert e == multiset{};
    } else {
      var n :| n in names;
      var e' := e[n := 0];
      assert e == e' + multiset{}[n := e[n]];
      Bounded(e', names - {n});
    }
  }

  // ----- specification: references replaced by their words, empty arguments dropped

  /** The expansions so far, by name, are within the limit. */
  ghost predicate Within(sources: Sources, e: multiset<string>) {
    forall n :: n in e ==> n in sources && e[n] <= REEXPAND_LIMIT
  }

  lemma WithinNext(sources: Sources, e: multiset<string>, n: string)
    requires Within(sources, e) && n in sources && e[n] < REEXPAND_LIMIT
    ensures Within(sources, e + multiset{n}) && |e + multiset{n}| <= REEXPAND_LIMIT * |sources.Keys|
  {
    Bounded(e + multiset{n}, sources.Keys);
  }

  function Prepend(args: seq<string>, r: Expanded): Expanded {
    match r case Args(rest) => Args(args + rest) case _ => r
  }

  /** The arguments with every reference replaced by its words, `e` being the
      expansions that came before. */
  ghost function Expansions(sources: Sources, e: multiset<string>, args: seq<string>): Expanded
    requires Within(sources, e)
    decreases REEXPAND_LIMIT * |sources.Keys| - |e|, |args|
  {
    if args == [] then Args([])
    else if IsReference(args[0]) then
      var name := args[0][1..];
      if name == "" then NoName
      else if e[name] == REEXPAND_LIMIT then TooOften
      else if name !in sources then NotFound
      else
        WithinNext(sources, e, name);
        Expansions(sources, e + multiset{name}, sources[name] + args[1..])
    else Prepend(if args[0] == "" then [] else [args[0]], Expansions(sources, e, args[1..]))
  }

  ghost function ExpandedArgs(sources: Sources, args: seq<string>): Expanded {
    Expansions(sources, multiset{}, args)
  }

  /** What comes out holds no reference and no empty argument. */
  lemma {:induction false} ExpandedSettled(sources: Sources, e: multiset<string>, args: seq<string>)
    requires Within(sources, e) && Expansions(sources, e, args).Args?
    ensures AllSettled(Expansions(sources, e, args).args)
    decreases REEXPAND_LIMIT * |sources.Keys| - |e|, |args|
  {
    if args != [] {
      if IsReference(args[0]) {
        var name := args[0][1..];
        WithinNext(sources, e, name);
        ExpandedSettled(sources, e + multiset{name}, sources[name] + args[1..]);
      } else {
        ExpandedSettled(sources, e, args[1..]);
      }
    }
  }

  /** Arguments without references are kept, empty ones apart. */
  lemma {:induction false} ExpandedPlain(sources: Sources, e: multiset<string>, args: seq<string>)
    requires Within(sources, e) && NoReference(args)
    ensures Expansions(sources, e, args) == Args(NonEmpty(args))
    decreases |args|
  {
    if args != [] {
      assert args[0] in args;
      ExpandedPlain(sources, e, args[1..]);
    }
  }

  /** They come last as they are, whatever stands before them is replaced by. */
  lemma {:induction false} ExpandedTail(sources: Sources, e: multiset<string>, a: seq<string>, b: seq<string>)
        returns (front: seq<string>)
    requires Within(sources, e) && NoReference(b) && Expansions(sources, e, a + b).Args?
    ensures Expansions(sources, e, a + b).args == front + NonEmpty(b)
    ensures a != [] && Settled(a[0]) ==> front != [] && front[0] == a[0]
    decreases REEXPAND_LIMIT * |sources.Keys| - |e|, |a|
  {
    front := [];
    if a == [] {
      assert a + b == b && [] + NonEmpty(b) == NonEmpty(b);
      ExpandedPlain(sources, e, b);
    } else {
      Sequences.AppendTail(a, b);
      if IsReference(a[0]) {
        var name := a[0][1..];
        WithinNext(sources, e, name);
        Sequences.Assoc(sources[name], a[1..], b);
        front := ExpandedTail(sources, e + multiset{name}, sources[name] + a[1..], b);
      } else {
        var rest := ExpandedTail(sources, e, a[1..], b);
        front := (if a[0] == "" then [] else [a[0]]) + rest;
        Sequences.Assoc(if a[0] == "" then [] else [a[0]], rest, NonEmpty(b));
      }
    }
  }

  // ----- response_expand

  lemma PrependOne(done: seq<string>, arg: string, r: Expanded)
    ensures Prepend(done, Prepend([arg], r)) == Prepend(done + [arg], r)
    ensures Prepend(done, Prepend([], r)) == Prepend(done, r)
    ensures Prepend([], r) == r
  {
    if r.Args? {
      Sequences.Assoc(done, [arg], r.args);
      assert [] + r.args == r.args;
    }
  }

  /** The loop's counters are the expansions so far. */
  ghost predicate Counted(expansions: map<string, nat>, e: multiset<string>) {
    forall n :: e[n] == if n in expansions then expansions[n] else 0
  }

  lemma CountedNext(expansions: map<string, nat>, e: multiset<string>, n: string)
    requires Counted(expansions, e)
    ensures Counted(expansions[n := (if n in expansions then expansions[n] else 0) + 1], e + multiset{n})
  {
  }

  /** response_expand, which gives up on a name after so many expansions. */
  method ResponseExpandArgs(args: seq<string>, sources: Sources) returns (r: Expanded)
    ensures r == ExpandedArgs(sources, args)
  {
    var processed, unprocessed := [], args;
    var expansions: map<string, nat> := map[];
    ghost var e: multiset<string> := multiset{};
    PrependOne([], "", ExpandedArgs(sources, args));
    while unprocessed != []
      invariant Within(sources, e) && Counted(expansions, e)
      invariant ExpandedArgs(sources, args) == Prepend(processed, Expansions(sources, e, unprocessed))
      decreases REEXPAND_LIMIT * |sources.Keys| - |e|, |unprocessed|
    {
      hide Within, ExpandedArgs;
      var arg := unprocessed[0];
      unprocessed := unprocessed[1..];
      PrependOne(processed, arg, Expansions(sources, e, unprocessed));
      if IsReference(arg) {
        var name := arg[1..];
        if name == "" {
          return NoName;
        }
        var count := (if name in expansions then expansions[name] else 0) + 1;
        WithinLimit(sources, e, name);
        if count > REEXPAND_LIMIT {
          return TooOften;
        }
        if name !in sources {
          return NotFound;
        }
        CountedNext(expansions, e, name);
        WithinNext(sources, e, name);
        expansions, e := expansions[name := count], e + multiset{name};
        unprocessed := sources[name] + unprocessed;
      } else if arg != "" {
        processed := processed + [arg];
      }
    }
    assert processed + [] == processed;
    return Args(processed);
  }

  lemma WithinLimit(sources: Sources, e: multiset<string>, n: string)
    requires Within(sources, e)
    ensures e[n] <= REEXPAND_LIMIT
  {
    assert n !in e ==> e[n] == 0;
  }

  // ----- references written out

  lemma {:induction false} ExpandedAppend(sources: Sources, e: multiset<string>, a: seq<string>, b: seq<string>)
    requires Within(sources, e) && NoReference(a)
    ensures Expansions(sources, e, a + b) == Prepend(NonEmpty(a), Expansions(sources, e, b))
    decreases |a|
  {
    if a == [] {
      assert a + b == b;
      PrependOne([], "", Expansions(sources, e, b));
    } else {
      Sequences.AppendTail(a, b);
      assert a[0] in a;
      ExpandedAppend(sources, e, a[1..], b);
      var r := Expansions(sources, e, b);
      var head := if a[0] == "" then [] else [a[0]];
      if r.Args? {
        Sequences.Assoc(head, NonEmpty(a[1..]), r.args);
      }
    }
  }

  /** The words of a variable or file come out in the place of its reference; a name
      that is empty or unknown is an error. */
  lemma ReplacedInPlace(sources: Sources, a: seq<string>, name: string, b: seq<string>)
    requires NoReference(a) && NoReference(b) && (name in sources ==> NoReference(sources[name]))
    ensures ExpandedArgs(sources, a + ["@" + name] + b) ==
      if name == "" then NoName
      else if name !in sources then NotFound
      else Args(NonEmpty(a) + NonEmpty(sources[name]) + NonEmpty(b))
  {
    var ref: string := "@" + name;
    var rest := [ref] + b;
    assert a + [ref] + b == a + rest && rest[0] == ref && rest[1..] == b && ref[1..] == name;
    ExpandedAppend(sources, multiset{}, a, rest);
    if name != "" && name in sources {
      var e := multiset{} + multiset{name};
      WithinNext(sources, multiset{}, name);
      ExpandedPlain(sources, e, sources[name] + b);
      NonEmptyAppend(sources[name], b);
      Sequences.Assoc(NonEmpty(a), NonEmpty(sources[name]), NonEmpty(b));
    }
  }

  lemma {:induction false} LoopsUpTo(sources: Sources, name: string, n: nat)
    requires name != "" && name in sources && sources[name] == ["@" + name] && n <= REEXPAND_LIMIT
    requires Within(sources, multiset{}[name := n])
    ensures Expansions(sources, multiset{}[name := n], ["@" + name]) == TooOften
    decreases REEXPAND_LIMIT - n
  {
    var ref: string := "@" + name;
    var one := [ref];
    assert ref[1..] == name && one[1..] == [] && one + [] == one;
    if n < REEXPAND_LIMIT {
      var e, e' := multiset{}[name := n], multiset{}[name := n + 1];
      assert e + multiset{name} == e';
      WithinNext(sources, e, name);
      LoopsUpTo(sources, name, n + 1);
    }
  }

  /** A file that only refers to itself is given up. */
  lemma SelfReference(sources: Sources, name: string)
    requires name != "" && name in sources && sources[name] == ["@" + name]
    ensures ExpandedArgs(sources, ["@" + name]) == TooOften
  {
    assert multiset{}[name := 0] == multiset{};
    LoopsUpTo(sources, name, 0);
  }

  /** One name may be expanded 32 times in all and no more. */
  lemma {:induction false} LimitFrom(sources: Sources, name: string, m: nat, args: seq<string>)
    requires name != "" && name in sources && sources[name] == [] && m <= 32
    requires forall i :: 0 <= i < |args| ==> args[i] == "@" + name
    requires Within(sources, multiset{}[name := m])
    ensures Expansions(sources, multiset{}[name := m], args) == if m + |args| <= 32 then Args([]) else TooOften
    decreases |args|
  {
    if args != [] {
      var ref: string := "@" + name;
      assert args[0] == ref && ref[1..] == name && [] + args[1..] == args[1..];
      if m < 32 {
        assert multiset{}[name := m] + multiset{name} == multiset{}[name := m + 1];
        WithinNext(sources, multiset{}[name := m], name);
        LimitFrom(sources, name, m + 1, args[1..]);
      }
    }
  }

  lemma Limit(sources: Sources, name: string, args: seq<string>)
    requires name != "" && name in sources && sources[name] == []
    requires forall i :: 0 <= i < |args| ==> args[i] == "@" + name
    ensures ExpandedArgs(sources, args) == if |args| <= 32 then Args([]) else TooOften
  {
    assert multiset{}[name := 0] == multiset{};
    LimitFrom(sources, name, 0, args);
  }
}
