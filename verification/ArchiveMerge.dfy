/** What updating a static library with new members means: a specification by
    occurrence counts, and the facts about the member list that is consumed. */
module ArchiveMerge {

  /** The member name of an object path: its last component. LLVM's notion of that is
      followed where a path starts with two slashes: `//name` is one component, a
      network root. A path that ends in a slash is `.`, or `/` if nothing but a root
      comes before. */
  function Basename(path: string): string {
    if path == "" then ""
    else if path[|path| - 1] == '/' then
      if Stripped(path) == "" || NetworkRoot(Stripped(path)) then "/" else "."
    else if NetworkRoot(path) then path
    else LastComponent(path)
  }

  predicate NetworkRoot(path: string) { |path| > 2 && path[..2] == "//" && '/' !in path[2..] }

  /** The path without the slashes at its end. */
  function Stripped(path: string): string {
    if path != "" && path[|path| - 1] == '/' then Stripped(path[..|path| - 1]) else path
  }

  function LastComponent(path: string): string {
    if path == "" || path[|path| - 1] == '/' then ""
    else LastComponent(path[..|path| - 1]) + [path[|path| - 1]]
  }

  function Bases(paths: seq<string>): (ns: seq<string>)
    ensures |ns| == |paths|
  {
    seq(|paths|, i requires 0 <= i < |paths| => Basename(paths[i]))
  }

  // ----- occurrences

  function Count(ns: seq<string>, n: string): nat {
    if ns == [] then 0
    else Count(ns[..|ns| - 1], n) + (if ns[|ns| - 1] == n then 1 else 0)
  }

  /** How many earlier positions hold the same name. */
  function Rank(ns: seq<string>, i: nat): nat
    requires i < |ns|
  {
    Count(ns[..i], ns[i])
  }

  /** The position of the k-th occurrence, counting from zero. */
  function Nth(ns: seq<string>, n: string, k: nat): (i: nat)
    requires k < Count(ns, n)
    ensures i < |ns| && ns[i] == n && Rank(ns, i) == k
  {
    var last := |ns| - 1;
    if ns[last] == n && Count(ns[..last], n) == k then last
    else
      var i := Nth(ns[..last], n, k);
      assert ns[..last][..i] == ns[..i];
      i
  }

  /** The paths left over once the entries named `o` took theirs: those whose rank
      among the paths of their name is not below the number of such entries. */
  function Unused(o: seq<string>, paths: seq<string>): seq<string> {
    if paths == [] then []
    else
      var init, p := paths[..|paths| - 1], paths[|paths| - 1];
      Unused(o, init) + (if Count(Bases(init), Basename(p)) >= Count(o, Basename(p)) then [p] else [])
  }

  /** An entry of the existing archive; reading its name or its body can fail. */
  datatype Child = Child(nameOk: bool, name: string, bodyOk: bool, data: string)

  datatype Member = Member(name: string, data: string)

  type Files = map<string, string>

  function Names(entries: seq<Child>): (ns: seq<string>)
    ensures |ns| == |entries|
  {
    seq(|entries|, i requires 0 <= i < |entries| => entries[i].name)
  }

  /** The i-th old entry is replaced: there is a new path of its name and rank. */
  predicate Replaced(entries: seq<Child>, paths: seq<string>, i: nat)
    requires i < |entries|
  {
    Rank(Names(entries), i) < Count(Bases(paths), entries[i].name)
  }

  function Load(files: Files, path: string): Member
    requires path in files
  {
    Member(Basename(path), files[path])
  }

  /** The new path that replaces the i-th entry: the one of its name and rank. */
  function PathAt(entries: seq<Child>, paths: seq<string>, i: nat): (p: string)
    requires i < |entries| && Replaced(entries, paths, i)
    ensures p in paths
  {
    paths[Nth(Bases(paths), entries[i].name, Rank(Names(entries), i))]
  }

  function SlotAt(files: Files, entries: seq<Child>, paths: seq<string>, i: nat): Member
    requires i < |entries| && (Replaced(entries, paths, i) ==> PathAt(entries, paths, i) in files)
  {
    if Replaced(entries, paths, i) then Load(files, PathAt(entries, paths, i))
    else Member(entries[i].name, entries[i].data)
  }

  function LoadAll(files: Files, paths: seq<string>): (ms: seq<Member>)
    requires forall p :: p in paths ==> p in files
    ensures |ms| == |paths|
  {
    seq(|paths|, i requires 0 <= i < |paths| => Load(files, paths[i]))
  }

  lemma UnusedFromPaths(o: seq<string>, paths: seq<string>)
    ensures forall p :: p in Unused(o, paths) ==> p in paths
  {
  }

  /** The updated archive: entries in place, replaced or kept, then the rest. */
  function Merged(files: Files, entries: seq<Child>, paths: seq<string>): seq<Member>
    requires forall p :: p in paths ==> p in files
  {
    UnusedFromPaths(Names(entries), paths);
    seq(|entries|, i requires 0 <= i < |entries| => SlotAt(files, entries, paths, i))
    + LoadAll(files, Unused(Names(entries), paths))
  }

  // ----- consuming the list of paths

  /** The first position of this name, or the length. */
  function FirstNamed(ns: seq<string>, n: string): (i: nat)
    ensures i <= |ns|
    ensures n !in ns[..i]
    ensures i < |ns| ==> ns[i] == n
  {
    if ns == [] then 0
    else
      var i := FirstNamed(ns[..|ns| - 1], n);
      assert ns[..|ns| - 1][..i] == ns[..i];
      if i < |ns| - 1 then i
      else if ns[|ns| - 1] == n then i
      else assert ns == ns[..i] + [ns[i]]; i + 1
  }

  function Without(paths: seq<string>, i: nat): seq<string>
    requires i < |paths|
  {
    paths[..i] + paths[i + 1..]
  }

  lemma CountSnoc(ns: seq<string>, x: string, n: string)
    ensures Count(ns + [x], n) == Count(ns, n) + (if x == n then 1 else 0)
  {
    assert (ns + [x])[..|ns|] == ns;
  }

  lemma BasesSnoc(paths: seq<string>)
    requires paths != []
    ensures Bases(paths) == Bases(paths[..|paths| - 1]) + [Basename(paths[|paths| - 1])]
    ensures Bases(paths)[..|paths| - 1] == Bases(paths[..|paths| - 1])
  {
  }

  lemma FirstNamedSnoc(ns: seq<string>, x: string, n: string)
    ensures FirstNamed(ns + [x], n) ==
      if FirstNamed(ns, n) < |ns| then FirstNamed(ns, n) else if x == n then |ns| else |ns| + 1
  {
    assert (ns + [x])[..|ns|] == ns;
  }

  lemma WithoutSnoc(paths: seq<string>, p: string, i: nat)
    requires i <= |paths|
    ensures Without(paths + [p], i) == if i < |paths| then Without(paths, i) + [p] else paths
  {
  }

  /** The heart of the merge: after entries named `o`, a further entry named `n`
      finds a path exactly when one of its rank exists, that path is the one of its
      rank, and erasing it leaves what is unused after `o` and `n`. */
  lemma {:induction false} TakeNext(o: seq<string>, paths: seq<string>, n: string)
    ensures var left := Unused(o, paths); var i := FirstNamed(Bases(left), n); var k := Count(o, n);
      && (i < |left| <==> k < Count(Bases(paths), n))
      && (i < |left| ==> left[i] == paths[Nth(Bases(paths), n, k)])
      && Unused(o + [n], paths) == if i < |left| then Without(left, i) else left
    decreases |paths|
  {
    hide Basename, FirstNamed, Bases, Without, Count, Unused, Nth;
    if paths == [] {
      TakeFromNone(o, n);
    } else {
      var init, p := paths[..|paths| - 1], paths[|paths| - 1];
      var left0, left := Unused(o, init), Unused(o, paths);
      TakeNext(o, init, n);
      BasesSnoc(paths);
      CountLast(Bases(paths), n);
      CountSnoc(o, n, Basename(p));
      UnusedLast(o, paths);
      UnusedLast(o + [n], paths);
      NthLast(Bases(paths), n, Count(o, n));
      if left != left0 {
        BasesSnoc(left);
        FirstNamedSnoc(Bases(left0), Basename(p), n);
        WithoutSnoc(left0, p, FirstNamed(Bases(left0), n));
      }
    }
  }

  // one unfolding of each definition

  lemma TakeFromNone(o: seq<string>, n: string)
    ensures Unused(o, []) == [] && Unused(o + [n], []) == [] && Bases([]) == []
    ensures Count([], n) == 0 && FirstNamed([], n) == 0
  {
  }

  lemma {:induction false} CountLast(ns: seq<string>, n: string)
    requires ns != []
    ensures Count(ns, n) == Count(ns[..|ns| - 1], n) + (if ns[|ns| - 1] == n then 1 else 0)
  {
  }

  lemma {:induction false} NthLast(ns: seq<string>, n: string, k: nat)
    requires ns != []
    ensures k < Count(ns, n) ==>
      var last := |ns| - 1;
      if ns[last] == n && Count(ns[..last], n) == k then Nth(ns, n, k) == last
      else k < Count(ns[..last], n) && Nth(ns, n, k) == Nth(ns[..last], n, k)
  {
  }

  lemma {:induction false} UnusedLast(o: seq<string>, paths: seq<string>)
    requires paths != []
    ensures var init, p := paths[..|paths| - 1], paths[|paths| - 1];
      if Count(Bases(init), Basename(p)) >= Count(o, Basename(p))
      then Unused(o, paths) == Unused(o, init) + [p] && Unused(o, paths)[..|Unused(o, paths)| - 1] == Unused(o, init)
      else Unused(o, paths) == Unused(o, init)
  {
    hide Basename, Bases, Count;
  }
}
