/** Which entry a path replaces, and under which name, said in paths and names. */
module ArchiveNames {
  import opened ArchiveMerge
  import opened ArchiveProperties

  /** A file name: not empty and without a slash. */
  predicate Plain(n: string) { n != "" && forall i :: 0 <= i < |n| ==> n[i] != '/' }

  lemma {:induction false} LastOf(dir: string, n: string)
    requires Plain(n)
    ensures LastComponent(n) == n && LastComponent(dir + "/" + n) == n
    decreases |n|
  {
    var init, c := n[..|n| - 1], n[|n| - 1];
    var p := dir + "/" + n;
    assert n == init + [c] && p[..|p| - 1] == dir + "/" + init && p[|p| - 1] == c;
    if init == "" {
      assert (dir + "/" + init)[|dir|] == '/';
    } else {
      LastOf(dir, init);
    }
  }

  lemma NotNetwork(dir: string, n: string)
    requires Plain(n)
    ensures !NetworkRoot(n) && (NetworkRoot(dir + "/" + n) <==> dir == "/")
  {
    var p := dir + "/" + n;
    assert p[|dir|] == '/' && p[|dir| + 1..] == n;
    assert n[..1] == [n[0]];
    if dir == "/" {
      assert p == "//" + n && p[..2] == "//" && p[2..] == n;
    } else if |dir| > 1 {
      assert p[2..][|dir| - 2] == '/';
    } else if |dir| == 0 {
      assert p[1] == n[0];
    } else {
      assert p[0] == dir[0];
    }
  }

  /** A member is called by the part of its path behind the last slash. The one
      exception is a path of two slashes and a name, which LLVM takes as a whole. */
  lemma MemberNames(dir: string, n: string)
    requires Plain(n)
    ensures Basename(n) == n
    ensures Basename(dir + "/" + n) == n <==> dir != "/"
    ensures dir == "/" ==> Basename(dir + "/" + n) == "//" + n
  {
    var p := dir + "/" + n;
    assert p[|p| - 1] == n[|n| - 1];
    LastOf(dir, n);
    NotNetwork(dir, n);
    if dir == "/" {
      assert p == "//" + n && |p| != |n|;
    }
  }

  /** A path that ends in a slash names no file of its own: it is `.`, or a root. */
  lemma Directories(n: string)
    requires Plain(n)
    ensures Basename("") == "" && Basename("/") == "/" && Basename(n + "/") == "."
    ensures Basename("//" + n + "/") == "/"
  {
    var a, b: string := n + "/", "//" + n + "/";
    assert a[..|n|] == n && b[..|n| + 2] == "//" + n && b[|b| - 1] == '/';
    assert Stripped(a) == Stripped(n) == n;
    assert ("//" + n)[|n| + 1] == n[|n| - 1];
    assert Stripped(b) == Stripped("//" + n) == "//" + n;
    NotNetwork("/", n);
    assert "/" + "/" + n == "//" + n;
    var r: string := "/";
    assert r[..0] == "" && Stripped(r) == Stripped("");
  }

  // ----- the merge, entry by entry

  function Olds(entries: seq<Child>): (ms: seq<Member>)
    ensures |ms| == |entries|
  {
    seq(|entries|, i requires 0 <= i < |entries| => Member(entries[i].name, entries[i].data))
  }

  lemma {:induction false} CountNone(ns: seq<string>, n: string)
    ensures Count(ns, n) == 0 <==> n !in ns
    decreases |ns|
  {
    if ns != [] {
      CountNone(ns[..|ns| - 1], n);
      assert ns == ns[..|ns| - 1] + [ns[|ns| - 1]];
    }
  }

  lemma {:induction false} AllUnused(o: seq<string>, paths: seq<string>)
    requires forall p :: p in paths ==> Basename(p) !in o
    ensures Unused(o, paths) == paths
    decreases |paths|
  {
    hide Basename, Bases, Count;
    if paths != [] {
      var init, p := paths[..|paths| - 1], paths[|paths| - 1];
      assert paths == init + [p] && p in paths;
      AllUnused(o, init);
      CountNone(o, Basename(p));
    }
  }

  lemma BaseIn(paths: seq<string>, n: string)
    requires n in Bases(paths)
    ensures exists p :: p in paths && Basename(p) == n
  {
    hide Basename;
    var i :| 0 <= i < |paths| && Bases(paths)[i] == n;
    assert paths[i] in paths;
  }

  /** New members with new names follow the old ones, in their order. */
  lemma NewNamesAppend(files: Files, entries: seq<Child>, paths: seq<string>)
    requires forall p :: p in paths ==> p in files
    requires forall p :: p in paths ==> forall i :: 0 <= i < |entries| ==> entries[i].name != Basename(p)
    ensures Merged(files, entries, paths) == Olds(entries) + LoadAll(files, paths)
  {
    hide Basename, Unused, Count, Load, Bases;
    forall p | p in paths ensures Basename(p) !in Names(entries) {
      assert forall i :: 0 <= i < |entries| ==> Names(entries)[i] == entries[i].name;
    }
    AllUnused(Names(entries), paths);
    forall i | 0 <= i < |entries| ensures !Replaced(entries, paths, i) {
      if entries[i].name in Bases(paths) {
        BaseIn(paths, entries[i].name);
      }
      CountNone(Bases(paths), entries[i].name);
    }
  }

  lemma OneBase(path: string, n: string)
    ensures Bases([path]) == [Basename(path)] && Count(Bases([path]), n) == if Basename(path) == n then 1 else 0
  {
    hide Basename;
    var one := [Basename(path)];
    assert Bases([path]) == one && one[..0] == [];
  }

  /** Where the one path's name first occurs among the entries it is replaced; all
      other entries are kept, later ones of that name included. */
  lemma SlotWith(files: Files, a: seq<Child>, c: Child, b: seq<Child>, path: string, i: nat)
    requires path in files && Basename(path) == c.name && i < |a + [c] + b|
    requires forall j :: 0 <= j < |a| ==> a[j].name != c.name
    ensures var es := a + [c] + b;
      SlotAt(files, es, [path], i) == if i == |a| then Load(files, path) else Member(es[i].name, es[i].data)
  {
    hide Basename, Bases, Count, Nth, Load;
    var es := a + [c] + b;
    var ns := Names(es);
    OneBase(path, es[i].name);
    CountNone(ns[..i], ns[i]);
    assert ns[i] == es[i].name;
    if i == |a| {
      assert forall j :: 0 <= j < i ==> ns[..i][j] == a[j].name;
    } else if i > |a| && es[i].name == c.name {
      assert ns[..i][|a|] == c.name;
    }
  }

  lemma ReplacesInPlace(files: Files, a: seq<Child>, c: Child, b: seq<Child>, path: string)
    requires path in files && Basename(path) == c.name
    requires forall j :: 0 <= j < |a| ==> a[j].name != c.name
    ensures Merged(files, a + [c] + b, [path]) == Olds(a) + [Load(files, path)] + Olds(b)
  {
    hide Basename, Load, SlotAt;
    var es := a + [c] + b;
    forall i | 0 <= i < |es|
      ensures SlotAt(files, es, [path], i) == if i == |a| then Load(files, path) else Member(es[i].name, es[i].data)
    {
      SlotWith(files, a, c, b, path, i);
    }
    NoneLeft(es, path, |a|);
  }

  lemma NoneLeft(es: seq<Child>, path: string, i: nat)
    requires i < |es| && es[i].name == Basename(path)
    ensures Unused(Names(es), [path]) == []
  {
    hide Basename, Bases;
    var one := [path];
    assert one[..0] == [] && |Bases([])| == 0;
    CountNone(Names(es), Basename(path));
    assert Names(es)[i] == Basename(path);
    assert Count(Bases([]), Basename(path)) == 0;
  }

  /** An object file in a directory replaces the member of its name, and is called by
      that name: the entry `n` updated with `dir/n` is the new `n`. */
  lemma UpdatesMember(files: Files, dir: string, n: string, c: Child)
    requires Plain(n) && dir != "/" && dir + "/" + n in files && c.name == n
    ensures Merged(files, [c], [dir + "/" + n]) == [Member(n, files[dir + "/" + n])]
  {
    MemberNames(dir, n);
    hide Basename;
    ReplacesInPlace(files, [], c, [], dir + "/" + n);
    assert [] + [c] + [] == [c];
  }

  /** In a new archive it is called by its name, without its directory. */
  lemma NamedInNewArchive(files: Files, dir: string, n: string)
    requires Plain(n) && dir != "/" && dir + "/" + n in files && n in files
    ensures Merged(files, [], [dir + "/" + n]) == [Member(n, files[dir + "/" + n])]
    ensures Merged(files, [], [n]) == [Member(n, files[n])]
  {
    MemberNames(dir, n);
    hide Basename;
    NewNamesAppend(files, [], [dir + "/" + n]);
    NewNamesAppend(files, [], [n]);
  }
}
