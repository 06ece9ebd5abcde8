/** Conservation and idempotence of the archive update. */
module ArchiveProperties {
  import opened ArchiveMerge

  // ----- conservation: every new member ends up in the archive exactly once

  /** The paths that replaced an entry, in entry order. */
  function Taken(entries: seq<Child>, paths: seq<string>): seq<string> {
    if entries == [] then []
    else
      var last := |entries| - 1;
      Taken(entries[..last], paths) +
      (if Replaced(entries, paths, last) then [PathAt(entries, paths, last)] else [])
  }

  lemma UnusedOfNone(paths: seq<string>)
    ensures Unused([], paths) == paths
  {
    if paths != [] {
      assert paths[..|paths| - 1] + [paths[|paths| - 1]] == paths;
    }
  }

  /** TakeNext for the i-th entry of an archive. */
  lemma NextEntry(entries: seq<Child>, paths: seq<string>, i: nat)
    requires i < |entries|
    ensures var left := Unused(Names(entries[..i]), paths); var k := FirstNamed(Bases(left), entries[i].name);
      && k <= |left| && (k < |left| <==> Replaced(entries, paths, i))
      && (k < |left| ==> left[k] == PathAt(entries, paths, i))
      && Unused(Names(entries[..i + 1]), paths) == if k < |left| then Without(left, k) else left
  {
    hide Basename, Bases, Unused, Count;
    var o := Names(entries[..i]);
    assert Names(entries)[..i] == o;
    assert Names(entries[..i + 1]) == o + [entries[i].name];
    TakeNext(o, paths, entries[i].name);
  }

  lemma {:induction false} TakenLast(entries: seq<Child>, paths: seq<string>)
    requires entries != []
    ensures
      var last := |entries| - 1;
      multiset(Taken(entries, paths)) == multiset(Taken(entries[..last], paths))
        + (if Replaced(entries, paths, last) then multiset{PathAt(entries, paths, last)} else multiset{})
  {
    hide Replaced, PathAt;
  }

  lemma NoEntries(paths: seq<string>)
    ensures Taken([], paths) == [] && Unused(Names([]), paths) == paths
  {
    UnusedOfNone(paths);
    assert Names([]) == [];
  }

  lemma {:induction false} EachPathOnce(entries: seq<Child>, paths: seq<string>)
    ensures multiset(Taken(entries, paths)) + multiset(Unused(Names(entries), paths)) == multiset(paths)
    decreases |entries|
  {
    hide *;
    if entries == [] {
      NoEntries(paths);
    } else {
      EachPathOnce(entries[..|entries| - 1], paths);
      TakenLast(entries, paths);
      UnusedEntry(entries, paths);
    }
  }

  /** What the last entry takes from the paths left over, as a bag. */
  lemma UnusedEntry(entries: seq<Child>, paths: seq<string>)
    requires entries != []
    ensures
      var last := |entries| - 1;
      multiset(Unused(Names(entries[..last]), paths)) == multiset(Unused(Names(entries), paths))
        + (if Replaced(entries, paths, last) then multiset{PathAt(entries, paths, last)} else multiset{})
  {
    hide *;
    var last := |entries| - 1;
    var left := Unused(Names(entries[..last]), paths);
    var i := FirstNamed(Bases(left), entries[last].name);
    NextEntry(entries, paths, last);
    assert entries[..last + 1] == entries;
    if i < |left| {
      WithoutOne(left, i);
    }
  }

  lemma WithoutOne(paths: seq<string>, i: nat)
    requires i < |paths|
    ensures multiset(paths) == multiset(Without(paths, i)) + multiset{paths[i]}
  {
    assert paths == paths[..i] + [paths[i]] + paths[i + 1..];
  }

  // the members themselves

  /** The old entries that are not replaced, in order. */
  function Kept(entries: seq<Child>, paths: seq<string>): seq<Member> {
    if entries == [] then []
    else
      var last := |entries| - 1;
      Kept(entries[..last], paths) +
      (if Replaced(entries, paths, last) then [] else [Member(entries[last].name, entries[last].data)])
  }

  /** The slots of the old entries. */
  function Slots(files: Files, entries: seq<Child>, paths: seq<string>): (ms: seq<Member>)
    requires forall p :: p in paths ==> p in files
    ensures |ms| == |entries|
  {
    seq(|entries|, i requires 0 <= i < |entries| => SlotAt(files, entries, paths, i))
  }

  lemma TakenFromPaths(entries: seq<Child>, paths: seq<string>)
    ensures forall p :: p in Taken(entries, paths) ==> p in paths
  {
    hide Replaced, PathAt;
  }

  lemma LoadSnoc(files: Files, paths: seq<string>, p: string)
    requires p in files && forall q :: q in paths ==> q in files
    ensures LoadAll(files, paths + [p]) == LoadAll(files, paths) + [Load(files, p)]
  {
    hide Load;
  }

  lemma LoadAppend(files: Files, a: seq<string>, b: seq<string>)
    requires (forall p :: p in a ==> p in files) && (forall p :: p in b ==> p in files)
    ensures LoadAll(files, a + b) == LoadAll(files, a) + LoadAll(files, b)
  {
    hide Load;
  }

  /** An entry's slot does not depend on the entries after it. */
  lemma SlotOfPrefix(files: Files, entries: seq<Child>, paths: seq<string>, k: nat, i: nat)
    requires i < k <= |entries| && forall p :: p in paths ==> p in files
    ensures SlotAt(files, entries[..k], paths, i) == SlotAt(files, entries, paths, i)
  {
    assert Names(entries[..k])[..i] == Names(entries)[..i];
    hide Basename, Bases, Nth;
  }

  lemma SlotsLast(files: Files, entries: seq<Child>, paths: seq<string>)
    requires entries != [] && forall p :: p in paths ==> p in files
    ensures var last := |entries| - 1;
      Slots(files, entries, paths) == Slots(files, entries[..last], paths) + [SlotAt(files, entries, paths, last)]
  {
    hide SlotAt;
    forall i | 0 <= i < |entries| - 1
      ensures SlotAt(files, entries[..|entries| - 1], paths, i) == SlotAt(files, entries, paths, i)
    {
      SlotOfPrefix(files, entries, paths, |entries| - 1, i);
    }
  }

  lemma {:induction false} TakenKeptLast(entries: seq<Child>, paths: seq<string>)
    requires entries != []
    ensures var init, last := entries[..|entries| - 1], |entries| - 1;
      if Replaced(entries, paths, last) then
        Taken(entries, paths) == Taken(init, paths) + [PathAt(entries, paths, last)]
        && Kept(entries, paths) == Kept(init, paths)
      else
        Taken(entries, paths) == Taken(init, paths)
        && Kept(entries, paths) == Kept(init, paths) + [Member(entries[last].name, entries[last].data)]
  {
    hide Replaced, PathAt;
  }

  lemma SnocBag(ms: seq<Member>, m: Member)
    ensures multiset(ms + [m]) == multiset(ms) + multiset{m}
  {
  }

  /** The slot of the last entry, as a bag: what was taken for it, or what was kept. */
  lemma LastSlot(files: Files, entries: seq<Child>, paths: seq<string>)
    requires entries != [] && (forall p :: p in paths ==> p in files)
    requires forall p :: p in Taken(entries, paths) ==> p in files
    requires forall p :: p in Taken(entries[..|entries| - 1], paths) ==> p in files
    ensures var init, last := entries[..|entries| - 1], |entries| - 1;
      multiset(LoadAll(files, Taken(entries, paths))) + multiset(Kept(entries, paths))
        == multiset(LoadAll(files, Taken(init, paths))) + multiset(Kept(init, paths))
           + multiset{SlotAt(files, entries, paths, last)}
  {
    hide Replaced, PathAt, Load, LoadAll, Taken, Kept;
    var init, last := entries[..|entries| - 1], |entries| - 1;
    TakenKeptLast(entries, paths);
    if Replaced(entries, paths, last) {
      LoadSnoc(files, Taken(init, paths), PathAt(entries, paths, last));
      SnocBag(LoadAll(files, Taken(init, paths)), Load(files, PathAt(entries, paths, last)));
    } else {
      SnocBag(Kept(init, paths), Member(entries[last].name, entries[last].data));
    }
  }

  /** Every slot holds a new member or an old one. */
  lemma {:induction false} SlotsHold(files: Files, entries: seq<Child>, paths: seq<string>)
    requires forall p :: p in paths ==> p in files
    ensures forall p :: p in Taken(entries, paths) ==> p in files
    ensures multiset(Slots(files, entries, paths))
      == multiset(LoadAll(files, Taken(entries, paths))) + multiset(Kept(entries, paths))
    decreases |entries|
  {
    TakenFromPaths(entries, paths);
    if entries != [] {
      hide *;
      var init, last := entries[..|entries| - 1], |entries| - 1;
      SlotsHold(files, init, paths);
      SlotsLast(files, entries, paths);
      LastSlot(files, entries, paths);
      SnocBag(Slots(files, init, paths), SlotAt(files, entries, paths, last));
    }
  }

  lemma LoadWithout(files: Files, paths: seq<string>, i: nat)
    requires i < |paths| && forall p :: p in paths ==> p in files
    ensures forall p :: p in Without(paths, i) ==> p in files
    ensures multiset(LoadAll(files, paths)) == multiset(LoadAll(files, Without(paths, i))) + multiset{Load(files, paths[i])}
  {
    var ms := LoadAll(files, paths);
    assert LoadAll(files, Without(paths, i)) == ms[..i] + ms[i + 1..];
    assert ms == ms[..i] + [ms[i]] + ms[i + 1..];
    hide Load;
  }

  /** Loading the same paths in another order gives the same members. */
  lemma {:induction false} LoadPermuted(files: Files, a: seq<string>, b: seq<string>)
    requires multiset(a) == multiset(b)
    requires (forall p :: p in a ==> p in files) && (forall p :: p in b ==> p in files)
    ensures multiset(LoadAll(files, a)) == multiset(LoadAll(files, b))
    decreases |a|
  {
    hide Load, LoadAll;
    if a == [] {
      assert |b| == |multiset(b)| == 0;
    } else {
      assert a[0] in multiset(b);
      var i :| 0 <= i < |b| && b[i] == a[0];
      WithoutOne(a, 0);
      WithoutOne(b, i);
      LoadWithout(files, a, 0);
      LoadWithout(files, b, i);
      assert multiset(Without(a, 0)) == multiset(a) - multiset{a[0]};
      assert multiset(Without(b, i)) == multiset(b) - multiset{a[0]};
      LoadPermuted(files, Without(a, 0), Without(b, i));
    }
  }

  /** No member is lost, duplicated or invented: the updated archive holds every new
      member once and, apart from those, exactly the old entries that were not
      replaced. Its size is that of the old one and of the paths left over. */
  lemma MergeConserves(files: Files, entries: seq<Child>, paths: seq<string>)
    requires forall p :: p in paths ==> p in files
    ensures multiset(Merged(files, entries, paths))
      == multiset(LoadAll(files, paths)) + multiset(Kept(entries, paths))
    ensures |Merged(files, entries, paths)| == |entries| + |Unused(Names(entries), paths)|
  {
    var taken, left := Taken(entries, paths), Unused(Names(entries), paths);
    EachPathOnce(entries, paths);
    SlotsHold(files, entries, paths);
    UnusedFromPaths(Names(entries), paths);
    assert Merged(files, entries, paths) == Slots(files, entries, paths) + LoadAll(files, left);
    hide LoadAll, Slots, Taken, Kept, Unused;
    LoadAppend(files, taken, left);
    LoadPermuted(files, taken + left, paths);
  }

  // ----- idempotence

  lemma {:induction false} CountAppend(a: seq<string>, b: seq<string>, n: string)
    ensures Count(a + b, n) == Count(a, n) + Count(b, n)
    decreases |b|
  {
    if b == [] {
      assert a + b == a;
    } else {
      assert (a + b)[..|a + b| - 1] == a + b[..|b| - 1];
      CountAppend(a, b[..|b| - 1], n);
    }
  }

  lemma {:induction false} UnusedCount(o: seq<string>, paths: seq<string>, n: string)
    ensures var have, want := Count(Bases(paths), n), Count(o, n);
      Count(Bases(Unused(o, paths)), n) == if have > want then have - want else 0
    decreases |paths|
  {
    hide Basename, Bases;
    if paths == [] {
      BasesEmpty();
    } else {
      var init := paths[..|paths| - 1];
      UnusedCount(o, init, n);
      BasesSnoc(paths);
      var left := Unused(o, paths);
      if left != Unused(o, init) {
        assert left[..|left| - 1] == Unused(o, init);
        BasesSnoc(left);
      }
    }
  }

  lemma BasesEmpty()
    ensures Bases([]) == []
  {
  }

  /** The m-th leftover path is the one whose rank follows the entries and the
      leftovers of its name before it. */
  lemma {:induction false} LeftoverRank(o: seq<string>, paths: seq<string>, m: nat)
    requires m < |Unused(o, paths)|
    ensures var left := Unused(o, paths); var n := Basename(left[m]);
      var k := Count(o, n) + Count(Bases(left)[..m], n);
      k < Count(Bases(paths), n) && left[m] == paths[Nth(Bases(paths), n, k)]
    decreases |paths|
  {
    hide Basename, Bases;
    var init, p := paths[..|paths| - 1], paths[|paths| - 1];
    var left0, left := Unused(o, init), Unused(o, paths);
    BasesSnoc(paths);
    if left == left0 {
      LeftoverRank(o, init, m);
    } else {
      assert left == left0 + [p] && left[..|left| - 1] == left0;
      BasesSnoc(left);
      if m < |left0| {
        LeftoverRank(o, init, m);
        assert Bases(left)[..m] == Bases(left0)[..m];
      } else {
        assert Bases(left)[..m] == Bases(left0);
        UnusedCount(o, init, Basename(p));
      }
    }
  }

  lemma {:induction false} NoneUnused(o: seq<string>, paths: seq<string>)
    requires forall n :: Count(o, n) >= Count(Bases(paths), n)
    ensures Unused(o, paths) == []
    decreases |paths|
  {
    hide Basename, Bases;
    if paths != [] {
      var init, p := paths[..|paths| - 1], paths[|paths| - 1];
      BasesSnoc(paths);
      forall n ensures Count(o, n) >= Count(Bases(init), n) {
        assert Count(o, n) >= Count(Bases(paths), n);
      }
      NoneUnused(o, init);
      assert Count(o, Basename(p)) >= Count(Bases(paths), Basename(p));
    }
  }

  /** The entries of an archive written with these members. */
  function AsEntries(ms: seq<Member>): (cs: seq<Child>)
    ensures |cs| == |ms|
  {
    seq(|ms|, i requires 0 <= i < |ms| => Child(true, ms[i].name, true, ms[i].data))
  }

  lemma MergedNames(files: Files, entries: seq<Child>, paths: seq<string>)
    requires forall p :: p in paths ==> p in files
    ensures var left := Unused(Names(entries), paths);
      Names(AsEntries(Merged(files, entries, paths))) == Names(entries) + Bases(left)
  {
    hide Basename;
  }

  lemma SlotAgain(files: Files, entries: seq<Child>, paths: seq<string>, i: nat)
    requires forall p :: p in paths ==> p in files
    requires i < |Merged(files, entries, paths)|
    ensures var ms := Merged(files, entries, paths); SlotAt(files, AsEntries(ms), paths, i) == ms[i]
  {
    hide Basename, Bases, Unused;
    var ms := Merged(files, entries, paths);
    var o, left := Names(entries), Unused(Names(entries), paths);
    var o' := Names(AsEntries(ms));
    MergedNames(files, entries, paths);
    if i < |entries| {
      assert o'[..i] == o[..i] && o'[i] == o[i];
    } else {
      var m := i - |entries|;
      UnusedFromPaths(o, paths);
      assert left[m] in left;
      assert ms[i] == Load(files, left[m]) && o'[i] == Bases(left)[m];
      assert o'[..i] == o + Bases(left)[..m];
      BasesAt(left, m);
      CountAppend(o, Bases(left)[..m], Basename(left[m]));
      LeftoverRank(o, paths, m);
    }
  }

  lemma BasesAt(paths: seq<string>, i: nat)
    requires i < |paths|
    ensures Bases(paths)[i] == Basename(paths[i])
  {
  }

  /** Updating the resulting archive with the same members changes nothing, however
      often a name is repeated among the entries or the new members. */
  lemma MergeIdempotent(files: Files, entries: seq<Child>, paths: seq<string>)
    requires forall p :: p in paths ==> p in files
    ensures var ms := Merged(files, entries, paths); Merged(files, AsEntries(ms), paths) == ms
  {
    hide Basename, Bases, Unused, Count, SlotAt;
    var ms := Merged(files, entries, paths);
    var o, left := Names(entries), Unused(Names(entries), paths);
    var o' := Names(AsEntries(ms));
    MergedNames(files, entries, paths);
    forall n ensures Count(o', n) >= Count(Bases(paths), n) {
      CountAppend(o, Bases(left), n);
      UnusedCount(o, paths, n);
    }
    NoneUnused(o', paths);
    forall i | 0 <= i < |ms| ensures SlotAt(files, AsEntries(ms), paths, i) == ms[i] {
      SlotAgain(files, entries, paths, i);
    }
  }
}
