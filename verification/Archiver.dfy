/** The internal archiver: `llvm-ar rcs <archive> <member> ...`. */
module Archiver {
  import opened ArchiveMerge
  import opened ArchiveProperties
  import ArchiveNames

  /** An element of the new member list; Blank is a default-constructed one. */
  datatype Slot = Blank | Filled(member: Member)

  datatype Kind = Gnu | Darwin | OtherKind

  /** An archive file on disk; iterating its entries can stop with an error. */
  datatype ArchiveFile =
    | Corrupt
    | Archive(entries: seq<Child>, walkOk: bool, kind: Kind)

  function AllFilled(ms: seq<Member>): (ss: seq<Slot>)
    ensures |ss| == |ms|
  {
    seq(|ms|, i requires 0 <= i < |ms| => Filled(ms[i]))
  }

  function Blanks(n: nat): (ss: seq<Slot>)
    ensures |ss| == n
  {
    seq(n, _ => Blank)
  }

  predicate EntryUsable(entries: seq<Child>, paths: seq<string>, i: nat)
    requires i < |entries|
  {
    entries[i].nameOk && (Replaced(entries, paths, i) || entries[i].bodyOk)
  }

  /** When an update succeeds: every entry has a readable name, every kept entry a
      readable body, the archive can be walked and every new member loads. */
  predicate Updatable(files: Files, entries: seq<Child>, walkOk: bool, paths: seq<string>) {
    && walkOk
    && (forall i :: 0 <= i < |entries| ==> EntryUsable(entries, paths, i))
    && (forall p :: p in paths ==> p in files)
  }

  method FindNamed(paths: seq<string>, n: string) returns (i: nat)
    ensures i == FirstNamed(Bases(paths), n)
  {
    hide Basename;
    i := 0;
    while i < |paths| && Basename(paths[i]) != n
      invariant i <= |paths|
      invariant n !in Bases(paths)[..i]
    {
      assert Bases(paths)[..i + 1] == Bases(paths)[..i] + [Basename(paths[i])];
      i := i + 1;
    }
    FirstUnique(Bases(paths), n, i);
  }

  lemma FirstUnique(ns: seq<string>, n: string, i: nat)
    requires i <= |ns| && n !in ns[..i] && (i < |ns| ==> ns[i] == n)
    ensures i == FirstNamed(ns, n)
  {
    assert forall j :: 0 <= j < i ==> ns[..i][j] == ns[j];
  }

  /** The paths that are no longer on the list have been loaded. */
  ghost predicate Consumed(files: Files, paths: seq<string>, left: seq<string>) {
    forall p :: p in paths ==> p in files || p in left
  }

  lemma NothingConsumed(files: Files, entries: seq<Child>, paths: seq<string>)
    ensures Unused(Names(entries[..0]), paths) == paths && Consumed(files, paths, paths)
  {
    UnusedOfNone(paths);
    assert Names(entries[..0]) == [];
  }

  lemma ConsumedMore(files: Files, paths: seq<string>, left: seq<string>, left': seq<string>)
    requires Consumed(files, paths, left) && Consumed(files, left, left')
    ensures Consumed(files, paths, left')
  {
  }

  lemma WithoutKeeps(files: Files, paths: seq<string>, i: nat)
    requires i < |paths| && paths[i] in files
    ensures Consumed(files, paths, Without(paths, i))
  {
    assert paths == paths[..i] + [paths[i]] + paths[i + 1..];
  }

  lemma NotUpdatable(files: Files, entries: seq<Child>, paths: seq<string>, i: nat)
    requires i < |entries|
    requires !EntryUsable(entries, paths, i) || exists p :: p in Unused(Names(entries[..i]), paths) && p !in files
    ensures !Updatable(files, entries, true, paths)
  {
    hide EntryUsable, Unused, Names;
    UnusedFromPaths(Names(entries[..i]), paths);
  }

  class Ar {
    var members: seq<string>
    var archives: map<string, ArchiveFile>
    const files: Files
    const kindOf: Member -> Kind

    constructor (files: Files, kindOf: Member -> Kind, archives: map<string, ArchiveFile>)
      ensures this.files == files && this.kindOf == kindOf && this.archives == archives && members == []
    {
      this.files, this.kindOf, this.archives, members := files, kindOf, archives, [];
    }

    /** One existing entry: replaced in place by the first path of its name, which
        is erased from the list, or kept. */
    method MergeEntry(entries: seq<Child>, ghost paths: seq<string>, i: nat) returns (ok: bool, slot: Slot)
      requires i < |entries| && members == Unused(Names(entries[..i]), paths)
      modifies `members
      ensures !ok ==> !EntryUsable(entries, paths, i) || exists p :: p in old(members) && p !in files
      ensures ok ==> Merges(entries, paths, slot, i) && members == Unused(Names(entries[..i + 1]), paths)
      ensures ok ==> Consumed(files, old(members), members)
    {
      hide Basename, Bases, FirstNamed, Unused, Count, Nth;
      var child := entries[i];
      NextEntry(entries, paths, i);
      if !child.nameOk {
        return false, Blank;
      }
      var k := FindNamed(members, child.name);
      if k == |members| {
        return child.bodyOk, Filled(Member(child.name, child.data));
      }
      var path := members[k];
      if path !in files {
        assert path in members;
        return false, Blank;
      }
      WithoutKeeps(files, members, k);
      members := Without(members, k);
      return true, Filled(Load(files, path));
    }

    /** The loop over the existing entries. */
    method MergeEntries(entries: seq<Child>) returns (ok: bool, ret: seq<Slot>)
      modifies `members
      ensures !ok ==> !Updatable(files, entries, true, old(members))
      ensures ok ==>
        && members == Unused(Names(entries), old(members)) && |ret| == |entries|
        && (forall j :: 0 <= j < |entries| ==> Merges(entries, old(members), ret[j], j))
        && Consumed(files, old(members), members)
    {
      ghost var paths := members;
      ret := [];
      hide *;
      NothingConsumed(files, entries, paths);
      for i := 0 to |entries|
        invariant members == Unused(Names(entries[..i]), paths) && |ret| == i
        invariant forall j :: 0 <= j < i ==> Merges(entries, paths, ret[j], j)
        invariant Consumed(files, paths, members)
      {
        ghost var left := members;
        var fine, slot := MergeEntry(entries, paths, i);
        if !fine {
          NotUpdatable(files, entries, paths, i);
          return false, ret;
        }
        ConsumedMore(files, paths, left, members);
        ret := ret + [slot];
      }
      assert entries[..|entries|] == entries;
      return true, ret;
    }

    ghost predicate Merges(entries: seq<Child>, paths: seq<string>, slot: Slot, j: nat)
      requires j < |entries|
    {
      && EntryUsable(entries, paths, j)
      && (Replaced(entries, paths, j) ==> PathAt(entries, paths, j) in files)
      && slot == Filled(SlotAt(files, entries, paths, j))
    }

    /** The remaining paths: as many blank slots are inserted, then overwritten. */
    method AppendRest(base: seq<Slot>) returns (ok: bool, ret: seq<Slot>)
      ensures ok <==> forall p :: p in members ==> p in files
      ensures ok ==> ret == base + AllFilled(LoadAll(files, members))
    {
      hide Basename;
      ret := base;
      var insertPos := |ret|;
      for i := 0 to |members|
        invariant ret == base + Blanks(i)
      {
        ret := ret[..insertPos] + [Blank] + ret[insertPos..];
      }
      var pos := insertPos;
      for i := 0 to |members|
        invariant pos == insertPos + i
        invariant forall j :: 0 <= j < i ==> members[j] in files
        invariant |ret| == insertPos + |members| && ret[..insertPos] == base
        invariant forall j :: 0 <= j < i ==> ret[insertPos + j] == Filled(Load(files, members[j]))
      {
        if members[i] !in files {
          assert members[i] in members;
          return false, ret;
        }
        ret := ret[pos := Filled(Load(files, members[i]))];
        pos := pos + 1;
      }
      assert ret[insertPos..] == AllFilled(LoadAll(files, members));
      return true, ret;
    }

    /** computeNewArchiveMembers: succeeds exactly on updatable inputs, and then the
        list is the merged one with no blank left in it. */
    method ComputeNewArchiveMembers(entries: seq<Child>, walkOk: bool) returns (status: int, ret: seq<Slot>)
      modifies `members
      ensures status == 0 <==> Updatable(files, entries, walkOk, old(members))
      ensures status == 0 ==> ret == AllFilled(Merged(files, entries, old(members)))
    {
      ghost var paths := members;
      var ok;
      ok, ret := MergeEntries(entries);
      if !ok || !walkOk {
        return 1, ret;
      }
      UnusedFromPaths(Names(entries), paths);
      ghost var kept := ret;
      ok, ret := AppendRest(ret);
      if !ok {
        return 1, ret;
      }
      FinishMerge(entries, paths, kept);
      return 0, ret;
    }

    lemma FinishMerge(entries: seq<Child>, paths: seq<string>, kept: seq<Slot>)
      requires |kept| == |entries| && forall j :: 0 <= j < |entries| ==> Merges(entries, paths, kept[j], j)
      requires forall p :: p in paths ==> p in files
      requires forall p :: p in Unused(Names(entries), paths) ==> p in files
      ensures forall j :: 0 <= j < |entries| ==> EntryUsable(entries, paths, j)
      ensures AllFilled(Merged(files, entries, paths)) ==
        kept + AllFilled(LoadAll(files, Unused(Names(entries), paths)))
    {
      hide Basename, Bases, Unused, Replaced, SlotAt;
      assert forall j :: 0 <= j < |entries| ==> Merges(entries, paths, kept[j], j) && EntryUsable(entries, paths, j);
    }

    /** What the update of an archive does: a corrupt one is left alone, an update
        that fails, be it only in writing, changes nothing, one that succeeds leaves
        the merged members. */
    ghost predicate Updates(was: map<string, ArchiveFile>, name: string, paths: seq<string>, writable: bool,
                            status: int, now: map<string, ArchiveFile>) {
      if name in was && was[name].Corrupt? then status != 0 && now == was
      else
        var a := if name in was then was[name] else Archive([], true, Gnu);
        && (status == 0 <==> Updatable(files, a.entries, a.walkOk, paths) && writable)
        && (status != 0 ==> now == was)
        && (status == 0 ==>
              var ms := Merged(files, a.entries, paths);
              && (name !in was ==> ms != [])
              && now == was[name := Archive(AsEntries(ms), true, if name in was then a.kind else kindOf(ms[0]))])
    }

    /** performWriteOperation. Without an existing archive the kind is taken from the
        first member, which is there and loaded. */
    method PerformWriteOperation(name: string, writable: bool) returns (status: int)
      requires name in archives ==> archives[name].Archive?
      requires name !in archives ==> members != []
      modifies this
      ensures Updates(old(archives), name, old(members), writable, status, archives)
    {
      hide Merged;
      ghost var paths := members;
      var entries, walkOk := [], true;
      if name in archives {
        entries, walkOk := archives[name].entries, archives[name].walkOk;
      }
      var ret;
      status, ret := ComputeNewArchiveMembers(entries, walkOk);
      if status != 0 {
        return;
      }
      if name !in archives {
        FrontExists(paths);
      }
      var kind := if name in archives then archives[name].kind else kindOf(ret[0].member);
      var written := seq(|ret|, i requires 0 <= i < |ret| && ret[i].Filled? => ret[i].member);
      assert written == Merged(files, entries, paths);
      if !writable {
        return 1;
      }
      archives := archives[name := Archive(AsEntries(written), true, kind)];
    }

    lemma FrontExists(paths: seq<string>)
      requires paths != [] && forall p :: p in paths ==> p in files
      ensures Merged(files, [], paths) != []
    {
      UnusedOfNone(paths);
      assert Names([]) == [];
    }

    /** internalAr. */
    method InternalAr(args: seq<string>, writable: bool) returns (status: int)
      requires |args| >= 4 && args[0] == "llvm-ar" && args[1] == "rcs"
      modifies this
      ensures Updates(old(archives), args[2], args[3..], writable, status, archives)
    {
      members := args[3..];
      if args[2] in archives && archives[args[2]].Corrupt? {
        return 1;
      }
      hide Updates;
      status := PerformWriteOperation(args[2], writable);
    }

    lemma UpdatesTwice(was: map<string, ArchiveFile>, name: string, paths: seq<string>,
                       mid: map<string, ArchiveFile>, writable: bool, status: int, now: map<string, ArchiveFile>)
      requires Updates(was, name, paths, true, 0, mid) && Updates(mid, name, paths, writable, status, now)
      ensures (status == 0 <==> writable) && now == mid && name in mid
    {
      MergeIdempotent(files, if name in was then was[name].entries else [], paths);
      hide Merged;
    }

    /** An existing archive keeps its kind; a new one has the kind of its first member,
        which is the first object file given. */
    lemma KindIs(was: map<string, ArchiveFile>, name: string, paths: seq<string>, writable: bool,
                 now: map<string, ArchiveFile>)
      requires Updates(was, name, paths, writable, 0, now)
      ensures name in now && now[name].Archive?
      ensures name in was ==> now[name].kind == was[name].kind
      ensures name !in was && paths != [] ==> paths[0] in files && now[name].kind == kindOf(Load(files, paths[0]))
    {
      if name !in was {
        ArchiveNames.NewNamesAppend(files, [], paths);
        assert paths != [] ==> paths[0] in paths;
      }
    }

    /** What makes an update fail, and that it then changes nothing: an archive that
        cannot be walked, an entry without a readable name, a new member that is not
        there, an entry that is kept and cannot be read, and a failing write. */
    lemma FailsOn(was: map<string, ArchiveFile>, name: string, paths: seq<string>, writable: bool,
                  status: int, now: map<string, ArchiveFile>, i: nat)
      requires Updates(was, name, paths, writable, status, now)
      requires
        || !writable || (exists p :: p in paths && p !in files)
        || (name in was && was[name].Corrupt?)
        || (name in was && was[name].Archive? && !was[name].walkOk)
        || (name in was && was[name].Archive? && i < |was[name].entries| && !was[name].entries[i].nameOk)
        || (name in was && was[name].Archive? && i < |was[name].entries| && !was[name].entries[i].bodyOk
            && forall p :: p in paths ==> Basename(p) != was[name].entries[i].name)
      ensures status != 0 && now == was
    {
      hide Merged, Basename;
      if name in was && was[name].Archive? && i < |was[name].entries| {
        var entries := was[name].entries;
        if entries[i].name in Bases(paths) {
          ArchiveNames.BaseIn(paths, entries[i].name);
        }
        ArchiveNames.CountNone(Bases(paths), entries[i].name);
        assert !entries[i].nameOk ==> !EntryUsable(entries, paths, i);
        assert !entries[i].bodyOk && !Replaced(entries, paths, i) ==> !EntryUsable(entries, paths, i);
      }
    }

    /** Running the same successful command again changes nothing, and fails only if the
        archive cannot be written the second time. */
    method RunTwice(args: seq<string>, writable: bool, again: bool)
        returns (first: int, second: int, ghost between: map<string, ArchiveFile>)
      requires |args| >= 4 && args[0] == "llvm-ar" && args[1] == "rcs"
      modifies this
      ensures Updates(old(archives), args[2], args[3..], writable, first, between)
      ensures first == 0 ==> (second == 0 <==> again) && archives == between && args[2] in between
    {
      ghost var was := archives;
      first := InternalAr(args, writable);
      between := archives;
      second := first;
      if first == 0 {
        assert writable;
        hide Updates;
        second := InternalAr(args, again);
        UpdatesTwice(was, args[2], args[3..], between, again, second, archives);
      }
    }
  }
}
