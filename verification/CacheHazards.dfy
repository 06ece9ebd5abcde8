/** Runs that show why the conditions on the cache protocol are needed: each is a
    run the code allows, from an idle and intact cache, that ends with an entry
    that is not a whole object. */
module CacheHazards {
  import opened CacheNames
  import opened CacheProtocol
  import opened CacheSafety
  import opened CacheRuns
  import opened CacheConditions

  const W := World((src: Source) => src, (src: Source) => src + "!")

  lemma WorldIsGood()
    ensures KeySound(W) && NonEmpty(W)
  {
  }

  /** An intact cache with one entry, for the module "a". */
  const ONE_ENTRY := State(map[Entry("a") := File(0)], map[0 := "a!"], map[], map[0 := "a"])

  lemma OneEntryIsIdle()
    ensures Idle(W, ONE_ENTRY)
  {
    assert W.key("a") == "a" && W.compile("a") == "a!";
  }

  lemma EmptiedEntry(s: State)
    requires Exists(s, Entry("a")) && Resolve(s, Entry("a")) in s.data && s.data[Resolve(s, Entry("a"))] == ""
    ensures !EntriesComplete(W, s)
  {
    EmptyIncomplete(W, "a");
  }

  // ----- an output linked into the cache

  /** The cache with the output "o" beside it as a hard link to the entry of "a". */
  const LINKED := ONE_ENTRY.(names := map[Entry("a") := File(0), Other("o") := File(0)])

  lemma HitAndUnlink() returns (run: seq<Step>)
    ensures Leads(W, ONE_ENTRY, run, ONE_ENTRY.(procs := map[1 := Proc("a", "o", HardLink, Cleared)]))
  {
    hide DoCopyOpen, DoCopyChunk, DoLink, DoGenOpen, DoGenChunk, DoMakeTemp, DoStoreOpen, DoStoreChunk, DoRename;
    var pr := Proc("a", "o", HardLink, Looking);
    run := Then(W, ONE_ENTRY, [], ONE_ENTRY, Start(1, "a", "o", HardLink), ONE_ENTRY.(procs := map[1 := pr]));
    run := Then(W, ONE_ENTRY, run, ONE_ENTRY.(procs := map[1 := pr]), Lookup(1),
                ONE_ENTRY.(procs := map[1 := pr.(pc := Hit)]));
    assert ONE_ENTRY.names - {Other("o")} == ONE_ENTRY.names;
    run := Then(W, ONE_ENTRY, run, ONE_ENTRY.(procs := map[1 := pr.(pc := Hit)]), Remove(1, true),
                ONE_ENTRY.(procs := map[1 := pr.(pc := Cleared)]));
  }

  lemma RecoverByLink() returns (run: seq<Step>)
    ensures Leads(W, ONE_ENTRY, run, LINKED)
  {
    hide DoCopyOpen, DoCopyChunk, DoGenOpen, DoGenChunk, DoMakeTemp, DoStoreOpen, DoStoreChunk, DoRename;
    run := HitAndUnlink();
    var pr := Proc("a", "o", HardLink, Cleared);
    assert ONE_ENTRY.names[Other("o") := File(0)] == LINKED.names;
    run := Then(W, ONE_ENTRY, run, ONE_ENTRY.(procs := map[1 := pr]), Link(1),
                LINKED.(procs := map[1 := pr.(pc := Placed)]));
    run := Then(W, ONE_ENTRY, run, LINKED.(procs := map[1 := pr.(pc := Placed)]), Touch(1),
                LINKED.(procs := map[1 := pr.(pc := Done)]));
    assert map[1 := pr.(pc := Done)] - {1} == map[];
    run := Then(W, ONE_ENTRY, run, LINKED.(procs := map[1 := pr.(pc := Done)]), Die(1), LINKED);
  }

  lemma MissOnLinked() returns (run: seq<Step>)
    ensures Leads(W, ONE_ENTRY, run, LINKED.(procs := map[2 := Proc("b", "o", Copy, Missed)]))
  {
    hide DoCopyOpen, DoCopyChunk, DoLink, DoGenOpen, DoGenChunk, DoMakeTemp, DoStoreOpen, DoStoreChunk, DoRename;
    run := RecoverByLink();
    var pr := Proc("b", "o", Copy, Looking);
    run := Then(W, ONE_ENTRY, run, LINKED, Start(2, "b", "o", Copy), LINKED.(procs := map[2 := pr]));
    run := Then(W, ONE_ENTRY, run, LINKED.(procs := map[2 := pr]), Lookup(2),
                LINKED.(procs := map[2 := pr.(pc := Missed)]));
  }

  /** Recover "a" onto "o" by hard link, then compile "b" onto "o": codegen's
      truncation empties the entry of "a". */
  lemma HardLinkThenCodegen() returns (run: seq<Step>, s: State)
    ensures Idle(W, ONE_ENTRY) && KeySound(W) && Leads(W, ONE_ENTRY, run, s)
    ensures Entry("a") in s.names && !EntriesComplete(W, s)
  {
    hide DoCopyOpen, DoCopyChunk, DoLink, DoGenChunk, DoMakeTemp, DoStoreOpen, DoStoreChunk, DoRename;
    OneEntryIsIdle();
    WorldIsGood();
    hide EntriesComplete, Idle, KeySound;
    run := MissOnLinked();
    s := LINKED.(data := map[0 := ""], procs := map[2 := Proc("b", "o", Copy, Generating(0, 0))]);
    run := Then(W, ONE_ENTRY, run, LINKED.(procs := map[2 := Proc("b", "o", Copy, Missed)]), GenOpen(2, 1), s);
    EmptiedEntry(s);
  }

  lemma HitAndKeep() returns (run: seq<Step>)
    ensures Leads(W, ONE_ENTRY, run, LINKED.(procs := map[2 := Proc("a", "o", Copy, Cleared)]))
  {
    hide DoCopyOpen, DoCopyChunk, DoLink, DoGenOpen, DoGenChunk, DoMakeTemp, DoStoreOpen, DoStoreChunk, DoRename;
    run := RecoverByLink();
    var pr := Proc("a", "o", Copy, Looking);
    run := Then(W, ONE_ENTRY, run, LINKED, Start(2, "a", "o", Copy), LINKED.(procs := map[2 := pr]));
    run := Then(W, ONE_ENTRY, run, LINKED.(procs := map[2 := pr]), Lookup(2),
                LINKED.(procs := map[2 := pr.(pc := Hit)]));
    run := Then(W, ONE_ENTRY, run, LINKED.(procs := map[2 := pr.(pc := Hit)]), Remove(2, false),
                LINKED.(procs := map[2 := pr.(pc := Cleared)]));
  }

  lemma TruncateByCopy() returns (run: seq<Step>)
    ensures Leads(W, ONE_ENTRY, run, LINKED.(data := map[0 := ""],
                                          procs := map[2 := Proc("a", "o", Copy, Copying(0, 0, 0))]))
  {
    hide DoCopyChunk, DoLink, DoGenOpen, DoGenChunk, DoMakeTemp, DoStoreOpen, DoStoreChunk, DoRename;
    run := HitAndKeep();
    var pr := Proc("a", "o", Copy, Cleared);
    run := Then(W, ONE_ENTRY, run, LINKED.(procs := map[2 := pr]), CopyOpen(2, 1),
                LINKED.(data := map[0 := ""], procs := map[2 := pr.(pc := Copying(0, 0, 0))]));
  }

  /** Recover "a" onto "o" by hard link, then recover it again by copy while the
      removal of "o" fails: the copy truncates the file it reads from. */
  lemma CopyWithoutUnlink() returns (run: seq<Step>, s: State)
    ensures Idle(W, ONE_ENTRY) && KeySound(W) && Leads(W, ONE_ENTRY, run, s)
    ensures Entry("a") in s.names && !EntriesComplete(W, s) && At(s, 2, Done)
  {
    hide DoCopyOpen, DoCopyChunk, DoLink, DoGenOpen, DoGenChunk, DoMakeTemp, DoStoreOpen, DoStoreChunk, DoRename;
    OneEntryIsIdle();
    WorldIsGood();
    hide EntriesComplete, Idle, KeySound;
    run := TruncateByCopy();
    var pr := Proc("a", "o", Copy, Placed);
    var cut := LINKED.(data := map[0 := ""]);
    run := Then(W, ONE_ENTRY, run, cut.(procs := map[2 := pr.(pc := Copying(0, 0, 0))]), CopyEnd(2),
                cut.(procs := map[2 := pr]));
    s := cut.(procs := map[2 := pr.(pc := Done)]);
    run := Then(W, ONE_ENTRY, run, cut.(procs := map[2 := pr]), Touch(2), s);
    EmptiedEntry(s);
  }

  // ----- a temporary name drawn twice

  const EMPTY := State(map[], map[], map[], map[])

  /** The state after process `p` compiled "a" onto the new file `i` named `out`. */
  function Compiled(s: State, p: Pid, out: string, i: Ino, c: Content, pc: Pc): State {
    s.(names := s.names[Other(out) := File(i)], data := s.data[i := c],
       procs := s.procs[p := Proc("a", out, Copy, pc)])
  }

  lemma OpenOutput(s0: State, run: seq<Step>, s: State, p: Pid, out: string, i: Ino) returns (run': seq<Step>)
    requires Leads(W, s0, run, s) && Enabled(W, s, Start(p, "a", out, Copy)) && i !in s.data
    requires Entry("a") !in s.names && Other(out) !in s.names
    ensures Leads(W, s0, run', Compiled(s, p, out, i, "", Generating(i, 0)))
  {
    hide DoCopyOpen, DoCopyChunk, DoLink, DoGenChunk, DoMakeTemp, DoStoreOpen, DoStoreChunk, DoRename;
    var pr := Proc("a", out, Copy, Looking);
    var s1 := s.(procs := s.procs[p := pr]);
    var s2 := s.(procs := s.procs[p := pr.(pc := Missed)]);
    run' := Then(W, s0, run, s, Start(p, "a", out, Copy), s1);
    run' := Then(W, s0, run', s1, Lookup(p), s2);
    run' := Then(W, s0, run', s2, GenOpen(p, i), Compiled(s, p, out, i, "", Generating(i, 0)));
  }

  lemma WholeChunk()
    ensures W.compile("a") == "a!" && Chunk("a!", 0, 2) == "a!" && WriteAt("", 0, "a!") == "a!"
  {
  }

  lemma WriteObject(s: State, p: Pid, out: string, i: Ino)
    ensures var s1 := Compiled(s, p, out, i, "", Generating(i, 0));
      && Enabled(W, s1, GenChunk(p, 2))
      && Apply(W, s1, GenChunk(p, 2)) == Compiled(s, p, out, i, "a!", Generating(i, 2))
  {
    hide DoCopyOpen, DoCopyChunk, DoLink, DoGenOpen, DoMakeTemp, DoStoreOpen, DoStoreChunk, DoRename;
    hide Chunk, WriteAt, Zeros;
    WholeChunk();
  }

  lemma Generate(s0: State, run: seq<Step>, s: State, p: Pid, out: string, i: Ino) returns (run': seq<Step>)
    requires Leads(W, s0, run, s) && Enabled(W, s, Start(p, "a", out, Copy)) && i !in s.data
    requires Entry("a") !in s.names && Other(out) !in s.names
    ensures Leads(W, s0, run', Compiled(s, p, out, i, "a!", Generated))
  {
    hide DoCopyOpen, DoCopyChunk, DoLink, DoGenOpen, DoGenChunk, DoMakeTemp, DoStoreOpen, DoStoreChunk, DoRename;
    run' := OpenOutput(s0, run, s, p, out, i);
    var s1 := Compiled(s, p, out, i, "a!", Generating(i, 2));
    WriteObject(s, p, out, i);
    run' := Then(W, s0, run', Compiled(s, p, out, i, "", Generating(i, 0)), GenChunk(p, 2), s1);
    run' := Then(W, s0, run', s1, GenEnd(p), Compiled(s, p, out, i, "a!", Generated));
  }

  const P := Proc("a", "o", Copy, TempMade("x"))
  const Q := Proc("a", "u", Copy, TempMade("x"))

  /** Process 1 holds the temporary name, but the pruner deleted the file. */
  const PRUNED := State(map[Other("o") := File(0)], map[0 := "a!", 1 := ""], map[1 := P], map[])

  /** Process 2 then drew the same temporary name, for its own file 3. */
  const SHARED := State(map[Other("o") := File(0), Other("u") := File(2), Temp("a", "x") := File(3)],
                        map[0 := "a!", 1 := "", 2 := "a!", 3 := ""], map[1 := P, 2 := Q], map[])

  lemma MakeAndPrune() returns (run: seq<Step>)
    ensures Leads(W, EMPTY, run, PRUNED)
  {
    hide DoCopyOpen, DoCopyChunk, DoLink, DoGenOpen, DoGenChunk, DoStoreOpen, DoStoreChunk, DoRename;
    run := Generate(EMPTY, [], EMPTY, 1, "o", 0);
    var s1 := Compiled(EMPTY, 1, "o", 0, "a!", Generated);
    var s2 := PRUNED.(names := PRUNED.names[Temp("a", "x") := File(1)]);
    run := Then(W, EMPTY, run, s1, MakeTemp(1, "x", 1), s2);
    assert s2.names - {Temp("a", "x")} == PRUNED.names;
    run := Then(W, EMPTY, run, s2, PruneTemp("a", "x"), PRUNED);
  }

  lemma DrawAgain() returns (run: seq<Step>)
    ensures Leads(W, EMPTY, run, SHARED)
  {
    hide DoCopyOpen, DoCopyChunk, DoLink, DoGenOpen, DoGenChunk, DoStoreOpen, DoStoreChunk, DoRename;
    run := MakeAndPrune();
    run := Generate(EMPTY, run, PRUNED, 2, "u", 2);
    var s := Compiled(PRUNED, 2, "u", 2, "a!", Generated);
    assert s.names[Temp("a", "x") := File(3)] == SHARED.names;
    assert s.procs[2 := Q] == SHARED.procs;
    assert s.data[3 := ""] == SHARED.data;
    run := Then(W, EMPTY, run, s, MakeTemp(2, "x", 3), SHARED);
  }

  /** Process 1 writing its copy into the file both names lead to. */
  function Racing(c: Content, p: Pc, q: Pc): State {
    SHARED.(data := map[0 := "a!", 1 := "", 2 := "a!", 3 := c],
            procs := map[1 := P.(pc := p), 2 := Q.(pc := q)])
  }

  lemma OpenShared() returns (run: seq<Step>)
    ensures Leads(W, EMPTY, run, Racing("", Storing("x", 0, 3, 0), TempMade("x")))
  {
    hide DoCopyOpen, DoCopyChunk, DoLink, DoGenOpen, DoGenChunk, DoMakeTemp, DoStoreChunk, DoRename;
    run := DrawAgain();
    assert SHARED.data[3 := ""] == SHARED.data;
    run := Then(W, EMPTY, run, SHARED, StoreOpen(1, 4), Racing("", Storing("x", 0, 3, 0), TempMade("x")));
  }

  lemma CopyShared() returns (run: seq<Step>)
    ensures Leads(W, EMPTY, run, Racing("a!", Storing("x", 0, 3, 2), TempMade("x")))
  {
    hide DoCopyOpen, DoCopyChunk, DoLink, DoGenOpen, DoGenChunk, DoMakeTemp, DoStoreOpen, DoRename;
    run := OpenShared();
    hide Chunk, WriteAt, Zeros;
    WholeChunk();
    run := Then(W, EMPTY, run, Racing("", Storing("x", 0, 3, 0), TempMade("x")), StoreChunk(1, 2),
                Racing("a!", Storing("x", 0, 3, 2), TempMade("x")));
  }

  lemma StoreShared() returns (run: seq<Step>)
    ensures Leads(W, EMPTY, run, Racing("a!", Stored("x"), TempMade("x")))
  {
    hide DoCopyOpen, DoCopyChunk, DoLink, DoGenOpen, DoGenChunk, DoMakeTemp, DoStoreOpen, DoStoreChunk, DoRename;
    run := CopyShared();
    run := Then(W, EMPTY, run, Racing("a!", Storing("x", 0, 3, 2), TempMade("x")), StoreEnd(1),
                Racing("a!", Stored("x"), TempMade("x")));
  }

  lemma TruncateShared() returns (run: seq<Step>)
    ensures Leads(W, EMPTY, run, Racing("", Stored("x"), Storing("x", 2, 3, 0)))
  {
    hide DoCopyOpen, DoCopyChunk, DoLink, DoGenOpen, DoGenChunk, DoMakeTemp, DoStoreChunk, DoRename;
    run := StoreShared();
    run := Then(W, EMPTY, run, Racing("a!", Stored("x"), TempMade("x")), StoreOpen(2, 4),
                Racing("", Stored("x"), Storing("x", 2, 3, 0)));
  }

  lemma EmptyIsIdle()
    ensures Idle(W, EMPTY) && OutputsPrivate(EMPTY)
  {
  }

  /** Two compilers of the same module whose temporary names coincide, the pruner
      having deleted the first one's file: the second truncates what the first is
      about to rename, and the entry appears empty. */
  lemma TempNameReused() returns (run: seq<Step>, s: State)
    ensures Idle(W, EMPTY) && OutputsPrivate(EMPTY) && KeySound(W) && Leads(W, EMPTY, run, s)
    ensures Entry("a") in s.names && !EntriesComplete(W, s) && At(s, 1, Done)
  {
    hide DoCopyOpen, DoCopyChunk, DoLink, DoGenOpen, DoGenChunk, DoMakeTemp, DoStoreOpen, DoStoreChunk;
    EmptyIsIdle();
    WorldIsGood();
    hide EntriesComplete, Idle, KeySound, OutputsPrivate;
    run := TruncateShared();
    var s1 := Racing("", Stored("x"), Storing("x", 2, 3, 0));
    s := Apply(W, s1, Rename(1));
    run := Then(W, EMPTY, run, s1, Rename(1), s);
    EmptiedEntry(s);
  }
}
