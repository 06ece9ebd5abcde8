/** The conditions under which the cache is safe: what provides them, and that they
    cannot be weakened. */
module CacheConditions {
  import opened CacheNames
  import opened CacheProtocol
  import opened CacheSafety
  import opened CacheRuns

  // ----- temporary names

  /** No live process works with this name. */
  ghost predicate Unheld(w: World, s: State, n: Name) {
    forall q :: q in s.procs ==> n !in Held(w, s.procs[q])
  }

  /** Two ways to keep temporary names apart: a sparing pruner leaves those in use
      alone; whatever another pruner does, nobody may draw a name that is in use. */
  ghost predicate TempsApart(w: World, s: State, st: Step, sparing: bool)
    requires Enabled(w, s, st)
  {
    if sparing then st.PruneTemp? ==> Unheld(w, s, Temp(st.h, st.t))
    else st.MakeTemp? ==> FreshTemp(w, s, st.p, st.t)
  }

  /** Every temporary name in use exists. */
  ghost predicate HeldExist(w: World, s: State) {
    forall q :: q in s.procs ==> Held(w, s.procs[q]) <= s.names.Keys
  }

  predicate By(st: Step, q: Pid) { !st.PruneEntry? && !st.PruneTemp? && st.p == q }

  lemma OthersStay(w: World, s: State, st: Step, q: Pid)
    requires Enabled(w, s, st) && !By(st, q)
    ensures q in Apply(w, s, st).procs <==> q in s.procs
    ensures q in s.procs ==> Apply(w, s, st).procs[q] == s.procs[q]
  {
    hide DoCopyOpen, DoCopyChunk, DoLink, DoGenOpen, DoGenChunk, DoMakeTemp, DoStoreOpen, DoStoreChunk, DoRename;
  }

  /** A process takes up a temporary name only by making it. */
  lemma HeldMoves(w: World, s: State, st: Step, q: Pid)
    requires Enabled(w, s, st) && q in Apply(w, s, st).procs
    ensures var s' := Apply(w, s, st);
      if st.MakeTemp? && q == st.p then Held(w, s'.procs[q]) <= s'.names.Keys
      else if q in s.procs then Held(w, s'.procs[q]) <= Held(w, s.procs[q])
      else Held(w, s'.procs[q]) == {}
  {
    hide OpenWrite, WriteAt, Chunk;
    if !By(st, q) {
      hide Apply, Enabled;
      OthersStay(w, s, st, q);
    }
  }

  /** A temporary name disappears only by being pruned or renamed. */
  lemma TempNamesStay(w: World, s: State, st: Step, n: Name)
    requires Enabled(w, s, st) && n.Temp? && n in s.names
    requires st.PruneTemp? ==> n != Temp(st.h, st.t)
    requires st.Rename? ==> n !in Held(w, s.procs[st.p])
    ensures n in Apply(w, s, st).names
  {
    hide WriteAt, Chunk;
  }

  lemma HeldExistKept(w: World, s: State, st: Step)
    requires ProcsInv(w, s) && HeldExist(w, s) && Enabled(w, s, st)
    requires st.PruneTemp? ==> Unheld(w, s, Temp(st.h, st.t))
    ensures HeldExist(w, Apply(w, s, st))
  {
    var s' := Apply(w, s, st);
    forall q, n | q in s'.procs && n in Held(w, s'.procs[q]) ensures n in s'.names {
      hide Apply, Enabled, ProcInv;
      HeldMoves(w, s, st, q);
      if !(st.MakeTemp? && q == st.p) {
        assert n in Held(w, s.procs[q]) && n in s.names;
        if st.Rename? && q != st.p {
          assert Apart(w, s.procs[st.p], s.procs[q]);
        }
        RenamerLetsGo(w, s, st);
        TempNamesStay(w, s, st, n);
      }
    }
  }

  lemma RenamerLetsGo(w: World, s: State, st: Step)
    requires Enabled(w, s, st)
    ensures st.Rename? ==> Held(w, Apply(w, s, st).procs[st.p]) == {}
  {
  }

  /** Either way, whoever makes a temporary name has it to himself. */
  lemma TempsStayApart(w: World, s: State, st: Step, sparing: bool)
    requires Inv(w, s) && (sparing ==> HeldExist(w, s)) && Enabled(w, s, st) && TempsApart(w, s, st, sparing)
    ensures st.MakeTemp? ==> FreshTemp(w, s, st.p, st.t)
    ensures sparing ==> HeldExist(w, Apply(w, s, st))
  {
    if sparing {
      HeldExistKept(w, s, st);
    }
  }

  // ----- unlinking first is enough

  /** A process past its unlink has no output. */
  ghost predicate ClearedOutputs(s: State) {
    forall p :: p in s.procs && s.procs[p].pc == Cleared ==> Other(s.procs[p].out) !in s.names
  }

  predicate Opens(st: Step) { st.GenOpen? || st.CopyOpen? || st.Link? }

  /** Only a process that opens or links its output makes a name outside the cache. */
  lemma NoNewOutput(w: World, s: State, st: Step, o: string)
    requires NamesInv(s) && Enabled(w, s, st) && Other(o) !in s.names
    requires Opens(st) ==> o != s.procs[st.p].out
    ensures Other(o) !in Apply(w, s, st).names
  {
    hide WriteAt, Chunk;
  }

  lemma ClearedBefore(w: World, s: State, st: Step, q: Pid)
    requires Enabled(w, s, st) && q in Apply(w, s, st).procs && Apply(w, s, st).procs[q].pc == Cleared
    ensures q in s.procs && Apply(w, s, st).procs[q].out == s.procs[q].out
    ensures s.procs[q].pc == Cleared || (st.Remove? && st.p == q)
    ensures Opens(st) ==> q != st.p
  {
    hide OpenWrite, WriteAt, Chunk;
    if !By(st, q) {
      hide Apply, Enabled;
      OthersStay(w, s, st, q);
    }
  }

  /** Every removal succeeds; apart from that only codegen is held to its guard. */
  ghost predicate UnlinkStep(w: World, s: State, st: Step, sparing: bool)
    requires Enabled(w, s, st)
  {
    && (st.Remove? ==> st.ok)
    && (st.GenOpen? ==> SafeTarget(s, Other(s.procs[st.p].out)))
    && TempsApart(w, s, st, sparing)
  }

  lemma StepClears(w: World, s: State, st: Step)
    requires NamesInv(s) && ProcsInv(w, s) && ClearedOutputs(s) && Enabled(w, s, st) && (st.Remove? ==> st.ok)
    ensures ClearedOutputs(Apply(w, s, st))
  {
    var s' := Apply(w, s, st);
    forall q | q in s'.procs && s'.procs[q].pc == Cleared ensures Other(s'.procs[q].out) !in s'.names {
      ClearedBefore(w, s, st, q);
      var o := s.procs[q].out;
      if st.Remove? && st.p == q {
        assert s'.names == s.names - {Other(o)};
      } else {
        hide Apply, ProcInv;
        assert Opens(st) ==> Apart(w, s.procs[q], s.procs[st.p]);
        NoNewOutput(w, s, st, o);
      }
    }
  }

  ghost predicate UnlinkRun(w: World, s: State, run: seq<Step>, sparing: bool)
    decreases |run|
  {
    run == [] ||
    (&& Enabled(w, s, run[0]) && UnlinkStep(w, s, run[0], sparing)
     && UnlinkRun(w, Apply(w, s, run[0]), run[1..], sparing))
  }

  lemma UnlinkStepGuarded(w: World, s: State, st: Step, sparing: bool)
    requires Inv(w, s) && ClearedOutputs(s) && (sparing ==> HeldExist(w, s))
    requires Enabled(w, s, st) && UnlinkStep(w, s, st, sparing)
    ensures Guarded(w, s, st)
    ensures ClearedOutputs(Apply(w, s, st)) && (sparing ==> HeldExist(w, Apply(w, s, st)))
  {
    TempsStayApart(w, s, st, sparing);
    StepClears(w, s, st);
    hide Apply, ProcsInv, FsInv, HeldExist;
  }

  lemma {:induction false} UnlinkRunGuarded(w: World, s: State, run: seq<Step>, sparing: bool)
    requires Inv(w, s) && ClearedOutputs(s) && (sparing ==> HeldExist(w, s)) && UnlinkRun(w, s, run, sparing)
    ensures GuardedRun(w, s, run)
    decreases |run|
  {
    if run != [] {
      hide Apply, Enabled, Guarded, UnlinkStep, ClearedOutputs, HeldExist, Inv;
      UnlinkStepGuarded(w, s, run[0], sparing);
      StepKeeps(w, s, run[0]);
      UnlinkRunGuarded(w, Apply(w, s, run[0]), run[1..], sparing);
    }
  }

  /** Any history of recoveries, in any mix of modes, onto the same or different
      outputs, interleaved with all else: because each unlinks its output before it
      writes, no cache inode ever changes and every entry stays whole. */
  lemma RecoveriesFreeze(w: World, s: State, run: seq<Step>, sparing: bool)
    requires Idle(w, s) && UnlinkRun(w, s, run, sparing)
    ensures CanRun(w, s, run) && Frozen(s, Exec(w, s, run)) && EntriesComplete(w, Exec(w, s, run))
  {
    UnlinkRunGuarded(w, s, run, sparing);
    RunFreezes(w, s, run);
    EntriesAlwaysComplete(w, s, run);
  }

  // ----- compilers that only copy need no guard on their outputs

  /** No output is linked into the cache. */
  ghost predicate OutputsUnlinked(s: State) {
    forall o :: Other(o) in s.names ==> s.names[Other(o)].File? && s.names[Other(o)].ino !in s.published
  }

  ghost predicate OutputsPrivate(s: State) {
    (forall p :: p in s.procs ==> s.procs[p].mode.Copy?) && OutputsUnlinked(s)
  }

  /** Copy mode throughout, and no two live processes share a temporary name. */
  ghost predicate CopyRun(w: World, s: State, run: seq<Step>, sparing: bool)
    decreases |run|
  {
    run == [] ||
    (&& Enabled(w, s, run[0])
     && (run[0].Start? ==> run[0].mode.Copy?)
     && TempsApart(w, s, run[0], sparing)
     && CopyRun(w, Apply(w, s, run[0]), run[1..], sparing))
  }

  /** The step neither names an output nor publishes an inode. */
  predicate LeavesOutputs(s: State, s': State) {
    && s'.published == s.published
    && (forall n :: n in s'.names && n.Other? ==> n in s.names && s'.names[n] == s.names[n])
  }

  lemma CopyStepLeaves(w: World, s: State, st: Step)
    requires Enabled(w, s, st) && !st.GenOpen? && !st.CopyOpen? && !st.Rename? && !st.Link? && !st.StoreOpen?
    ensures LeavesOutputs(s, Apply(w, s, st))
  {
  }

  lemma ModeKept(w: World, s: State, st: Step, q: Pid)
    requires Enabled(w, s, st) && q in Apply(w, s, st).procs
    ensures if st.Start? && q == st.p then Apply(w, s, st).procs[q].mode == st.mode
            else q in s.procs && Apply(w, s, st).procs[q].mode == s.procs[q].mode
  {
    hide DoCopyOpen, DoCopyChunk, DoLink, DoGenOpen, DoGenChunk, DoMakeTemp, DoStoreOpen, DoStoreChunk, DoRename;
  }

  lemma CopyStepModes(w: World, s: State, st: Step)
    requires Enabled(w, s, st) && (st.Start? ==> st.mode.Copy?)
    requires forall p :: p in s.procs ==> s.procs[p].mode.Copy?
    ensures forall p :: p in Apply(w, s, st).procs ==> Apply(w, s, st).procs[p].mode.Copy?
  {
    hide Apply, Enabled;
    forall q | q in Apply(w, s, st).procs ensures Apply(w, s, st).procs[q].mode.Copy? {
      ModeKept(w, s, st, q);
    }
  }

  lemma CopyStepOpen(w: World, s: State, st: Step)
    requires FsInv(w, s) && OutputsUnlinked(s) && Enabled(w, s, st) && (st.GenOpen? || st.CopyOpen?)
    ensures OutputsUnlinked(Apply(w, s, st))
  {
    OpenShape(w, s, Other(s.procs[st.p].out), st.novel);
    hide FsInv;
  }

  lemma CopyStepRename(w: World, s: State, p: Pid)
    requires FsInv(w, s) && OutputsUnlinked(s) && Enabled(w, s, Rename(p))
    ensures OutputsUnlinked(Apply(w, s, Rename(p)))
  {
    RenameShape(w, s, p);
    hide PublishedInv, Apply;
  }

  lemma CopyStepStoreOpen(w: World, s: State, p: Pid, novel: Ino)
    requires FsInv(w, s) && OutputsUnlinked(s) && Enabled(w, s, StoreOpen(p, novel))
    ensures OutputsUnlinked(Apply(w, s, StoreOpen(p, novel)))
  {
    if Exists(s, Other(s.procs[p].out)) {
      StoreOpenShape(w, s, p, novel);
    }
    hide FsInv;
  }

  lemma CopyStep(w: World, s: State, st: Step)
    requires FsInv(w, s) && OutputsPrivate(s) && Enabled(w, s, st)
    requires st.Start? ==> st.mode.Copy?
    ensures OutputsPrivate(Apply(w, s, st))
  {
    CopyStepModes(w, s, st);
    if st.GenOpen? || st.CopyOpen? { CopyStepOpen(w, s, st); }
    else if st.Rename? { CopyStepRename(w, s, st.p); }
    else if st.StoreOpen? { CopyStepStoreOpen(w, s, st.p, st.novel); }
    else { hide FsInv; CopyStepLeaves(w, s, st); }
  }

  lemma {:induction false} CopyRunGuarded(w: World, s: State, run: seq<Step>, sparing: bool)
    requires Inv(w, s) && OutputsPrivate(s) && (sparing ==> HeldExist(w, s)) && CopyRun(w, s, run, sparing)
    ensures GuardedRun(w, s, run)
    decreases |run|
  {
    if run != [] {
      hide Apply, Enabled, ProcsInv, HeldExist;
      TempsStayApart(w, s, run[0], sparing);
      assert Guarded(w, s, run[0]) by { hide TempsApart; }
      StepKeeps(w, s, run[0]);
      CopyStep(w, s, run[0]);
      CopyRunGuarded(w, Apply(w, s, run[0]), run[1..], sparing);
    }
  }

  /** With copying retrieval the cache is safe although codegen and copies
      truncate their outputs in place and removals may fail. */
  lemma CopyModeSafe(w: World, s: State, run: seq<Step>, sparing: bool)
    requires Idle(w, s) && OutputsPrivate(s) && CopyRun(w, s, run, sparing)
    ensures CanRun(w, s, run) && EntriesComplete(w, Exec(w, s, run))
  {
    CopyRunGuarded(w, s, run, sparing);
    EntriesAlwaysComplete(w, s, run);
  }

  // ----- the guard on outputs is exact

  /** No module compiles to an empty file. */
  ghost predicate NonEmpty(w: World) {
    forall src :: w.compile(src) != ""
  }

  /** Writing through `n` would reach the file of a present entry, or create one. */
  ghost predicate ReachesEntry(s: State, n: Name) {
    n in s.names && ((s.names[n].Sym? && s.names[n].target.Entry?)
                     || exists h :: Entry(h) in s.names && s.names[Entry(h)] == s.names[n])
  }

  lemma EmptyIncomplete(w: World, h: string)
    requires NonEmpty(w)
    ensures !Complete(w, h, "")
  {
  }

  /** Opening an output for writing, as codegen does and as a copying recovery
      does, leaves every entry whole if and only if the output is not linked into
      the cache. Nothing needs to be written: the truncation is enough. */
  lemma OpenBreaksExactly(w: World, s: State, out: string, novel: Ino)
    requires NonEmpty(w) && FsInv(w, s) && novel !in s.data
    ensures EntriesComplete(w, OpenWrite(s, Other(out), novel)) <==> !ReachesEntry(s, Other(out))
  {
    var n := Other(out);
    InvEntries(w, s);
    if ReachesEntry(s, n) {
      OpenBreaks(w, s, out, novel);
    } else {
      OpenSpares(w, s, out, novel);
    }
  }

  lemma OpenBreaks(w: World, s: State, out: string, novel: Ino)
    requires NonEmpty(w) && NamesInv(s) && ReachesEntry(s, Other(out))
    ensures !EntriesComplete(w, OpenWrite(s, Other(out), novel))
  {
    var n := Other(out);
    var s' := OpenWrite(s, n, novel);
    var h :| (s.names[n].Sym? && s.names[n].target == Entry(h))
             || (Entry(h) in s.names && s.names[Entry(h)] == s.names[n]);
    assert Exists(s', Entry(h)) && s'.data[Resolve(s', Entry(h))] == "";
    EmptyIncomplete(w, h);
  }

  lemma OpenSpares(w: World, s: State, out: string, novel: Ino)
    requires EntriesComplete(w, s) && NamesInv(s) && novel !in s.data && !ReachesEntry(s, Other(out))
    ensures EntriesComplete(w, OpenWrite(s, Other(out), novel))
  {
    var s' := OpenWrite(s, Other(out), novel);
    forall h | Exists(s', Entry(h))
      ensures Resolve(s', Entry(h)) in s'.data && Complete(w, h, s'.data[Resolve(s', Entry(h))])
    {
      assert Exists(s, Entry(h)) && Resolve(s', Entry(h)) == Resolve(s, Entry(h));
    }
  }

  /** The guard of guarded runs is exact for the invariant: it also protects the
      inodes of pruned entries that outputs or readers still share. */
  lemma OpenKeepsInvExactly(w: World, s: State, out: string, novel: Ino)
    requires NonEmpty(w) && FsInv(w, s) && novel !in s.data
    ensures FsInv(w, OpenWrite(s, Other(out), novel)) <==> SafeTarget(s, Other(out))
  {
    var n := Other(out);
    var s' := OpenWrite(s, n, novel);
    if SafeTarget(s, n) {
      OpenFs(w, s, n, novel);
    } else if Exists(s, n) {
      var i := Resolve(s, n);
      assert i in s'.published && s'.data[i] == "";
      EmptyIncomplete(w, s.published[i]);
    } else {
      assert s'.names[s.names[n].target] == File(novel) && novel !in s'.published;
    }
  }

  lemma SharedTempBreaks(w: World, s: State, p: Pid, t: string, novel: Ino)
    requires Enabled(w, s, MakeTemp(p, t, novel)) && !FreshTemp(w, s, p, t)
    ensures !Inv(w, Apply(w, s, MakeTemp(p, t, novel)))
  {
    var s' := Apply(w, s, MakeTemp(p, t, novel));
    var q :| q in s.procs && q != p && Temp(Hash(w, s.procs[p]), t) in Held(w, s.procs[q]);
    assert Temp(Hash(w, s.procs[p]), t) in Held(w, s'.procs[p]) * Held(w, s'.procs[q]);
    assert !Apart(w, s'.procs[p], s'.procs[q]);
  }

  /** The guards are exact: a step keeps the invariant if and only if it is guarded.
      Only opening an output linked into the cache, and drawing a temporary name that
      a live process holds, can break it. */
  lemma GuardsExact(w: World, s: State, st: Step)
    requires NonEmpty(w) && Inv(w, s) && Enabled(w, s, st)
    ensures Inv(w, Apply(w, s, st)) <==> Guarded(w, s, st)
  {
    hide ProcsInv;
    if Guarded(w, s, st) {
      StepKeeps(w, s, st);
    } else if st.MakeTemp? {
      SharedTempBreaks(w, s, st.p, st.t, st.novel);
    } else {
      var out := s.procs[st.p].out;
      OpenKeepsInvExactly(w, s, out, st.novel);
      assert SameFiles(OpenWrite(s, Other(out), st.novel), Apply(w, s, st));
      SameFilesFs(w, OpenWrite(s, Other(out), st.novel), Apply(w, s, st));
    }
  }

  // ----- the guard on temporary names is exact for the entries themselves

  predicate NeedsNoGuard(st: Step) { !st.GenOpen? && !st.CopyOpen? && !st.MakeTemp? }

  lemma {:induction false} GuardlessRun(w: World, s: State, run: seq<Step>)
    requires CanRun(w, s, run) && forall i :: 0 <= i < |run| ==> NeedsNoGuard(run[i])
    ensures GuardedRun(w, s, run)
    decreases |run|
  {
    if run != [] {
      hide Apply, Enabled;
      GuardlessRun(w, Apply(w, s, run[0]), run[1..]);
    }
  }

  /** `q` is about to rename a temporary file that is empty. */
  ghost predicate Baited(w: World, s: State, q: Pid, t: string) {
    q in s.procs && s.procs[q].pc == Stored(t) &&
    var n := Temp(Hash(w, s.procs[q]), t);
    n in s.names && s.names[n].File? && s.names[n].ino in s.data && s.data[s.names[n].ino] == ""
  }

  lemma BaitedBreaks(w: World, s: State, q: Pid, t: string)
    requires NonEmpty(w) && Baited(w, s, q, t)
    ensures Enabled(w, s, Rename(q)) && !EntriesComplete(w, Apply(w, s, Rename(q)))
  {
    var s' := Apply(w, s, Rename(q));
    var h := Hash(w, s.procs[q]);
    assert Exists(s', Entry(h)) && s'.data[Resolve(s', Entry(h))] == "";
    EmptyIncomplete(w, h);
  }

  /** A process in the middle of its copy can bring it to an end, which changes the
      file it writes to and nothing else. */
  lemma FinishCopy(w: World, s: State, q: Pid) returns (run: seq<Step>, s': State)
    requires q in s.procs && s.procs[q].pc.Storing?
    requires var pc := s.procs[q].pc;
      pc.r in s.data && pc.w in s.data && pc.r != pc.w && pc.done <= |s.data[pc.r]|
    ensures Leads(w, s, run, s') && forall i :: 0 <= i < |run| ==> NeedsNoGuard(run[i])
    ensures var pc := s.procs[q].pc;
      && s'.names == s.names && s'.procs == s.procs[q := s.procs[q].(pc := Stored(pc.t))]
      && s'.data == s.data[pc.w := if pc.w in s'.data then s'.data[pc.w] else ""]
  {
    hide WriteAt;
    var pc := s.procs[q].pc;
    run := [];
    s' := s;
    if pc.done < |s.data[pc.r]| {
      var k := |s.data[pc.r]| - pc.done;
      s' := Apply(w, s, StoreChunk(q, k));
      assert s'.procs[q].pc == Storing(pc.t, pc.r, pc.w, |s.data[pc.r]|) && s'.data[pc.r] == s.data[pc.r];
      run := Then(w, s, run, s, StoreChunk(q, k), s');
    }
    assert s.data == s.data[pc.w := s.data[pc.w]];
    assert Enabled(w, s', StoreEnd(q));
    run := Then(w, s, run, s', StoreEnd(q), Apply(w, s', StoreEnd(q)));
    s' := Apply(w, s', StoreEnd(q));
  }

  lemma FreshIno(data: map<Ino, Content>) returns (i: Ino)
    ensures i !in data
  {
    i := Above(data.Keys);
  }

  lemma Above(ks: set<Ino>) returns (b: Ino)
    ensures forall k :: k in ks ==> k < b
    decreases |ks|
  {
    b := 0;
    if ks != {} {
      var k :| k in ks;
      var c := Above(ks - {k});
      b := if k < c then c else k + 1;
      assert forall j :: j in ks ==> j == k || j in ks - {k};
    }
  }

  /** What MakeTemp(p, t, novel) leaves behind if another process `q` holds the name:
      the name leads to p's empty file, whatever q has written so far. */
  ghost predicate Shared(w: World, s: State, p: Pid, q: Pid, t: string, i: Ino) {
    && p in s.procs && q in s.procs && p != q && s.procs[p].pc == TempMade(t)
    && Hash(w, s.procs[p]) == Hash(w, s.procs[q])
    && Temp(Hash(w, s.procs[q]), t) in s.names && s.names[Temp(Hash(w, s.procs[q]), t)] == File(i)
    && i in s.data && s.data[i] == ""
    && (forall r :: r in {p, q} ==> OutIntact(s, s.procs[r], i))
  }

  /** The output is a file other than `i`. */
  predicate OutIntact(s: State, pr: Proc, i: Ino) {
    var o := Other(pr.out);
    o in s.names && s.names[o].File? && s.names[o].ino in s.data && s.names[o].ino != i
  }

  /** A process that holds a temporary name has its own output, and what it copies
      from and to are different files. */
  lemma HolderFacts(w: World, s: State, pr: Proc)
    requires ProcInv(w, s, pr) && (pr.pc == Generated || Held(w, pr) != {})
    ensures OutHolds(s, pr, w.compile(pr.src))
    ensures pr.pc.Storing? ==>
      pr.pc.r in s.data && pr.pc.w in s.data && pr.pc.r != pr.pc.w && pr.pc.done <= |s.data[pr.pc.r]|
  {
    if pr.pc.Storing? {
      assert Other(pr.out) != Temp(Hash(w, pr), pr.pc.t);
    }
  }

  /** `q` holds the name that leads to the empty file `i`, and is not done with it. */
  ghost predicate Trapped(w: World, s: State, p: Pid, q: Pid, t: string, i: Ino) {
    Shared(w, s, p, q, t, i) &&
    match s.procs[q].pc
    case TempMade(u) => u == t
    case Storing(u, r, wi, done) =>
      u == t && r in s.data && wi in s.data && r != wi && wi != i && done <= |s.data[r]|
    case Stored(u) => u == t
    case _ => false
  }

  lemma MakeTempTraps(w: World, s: State, p: Pid, q: Pid, t: string, novel: Ino)
    requires p in s.procs && q in s.procs && p != q && novel !in s.data
    requires Temp(Hash(w, s.procs[p]), t) in Held(w, s.procs[q])
    requires OutHolds(s, s.procs[p], w.compile(s.procs[p].src)) && OutHolds(s, s.procs[q], w.compile(s.procs[q].src))
    requires var pc := s.procs[q].pc;
      pc.Storing? ==> pc.r in s.data && pc.w in s.data && pc.r != pc.w && pc.done <= |s.data[pc.r]|
    ensures Trapped(w, DoMakeTemp(w, s, p, t, novel), p, q, t, novel)
  {
  }

  /** The other process had stored its copy, or can finish storing it: the name it
      will rename is the empty file. */
  lemma StoringTrap(w: World, s: State, p: Pid, q: Pid, t: string, i: Ino) returns (run: seq<Step>, s': State)
    requires Trapped(w, s, p, q, t, i) && s.procs[q].pc.Storing?
    ensures Leads(w, s, run, s') && (forall j :: 0 <= j < |run| ==> NeedsNoGuard(run[j])) && Baited(w, s', q, t)
  {
    run, s' := FinishCopy(w, s, q);
  }

  lemma OpenTempShape(w: World, s: State, p: Pid, t: string, i: Ino, novel: Ino)
    requires p in s.procs && s.procs[p].pc == TempMade(t) && novel !in s.data && OutIntact(s, s.procs[p], i)
    requires var n := Temp(Hash(w, s.procs[p]), t); n in s.names && s.names[n] == File(i)
    ensures Enabled(w, s, StoreOpen(p, novel))
    ensures Apply(w, s, StoreOpen(p, novel)) ==
      SetPc(s.(data := s.data[i := ""]), p, Storing(t, s.names[Other(s.procs[p].out)].ino, i, 0))
  {
  }

  /** The other process had only made its file: it copies into the shared file, and
      then `p` truncates it again. */
  lemma MadeTrap(w: World, s: State, p: Pid, q: Pid, t: string, i: Ino) returns (run: seq<Step>, s': State)
    requires Trapped(w, s, p, q, t, i) && s.procs[q].pc.TempMade?
    ensures Leads(w, s, run, s') && (forall j :: 0 <= j < |run| ==> NeedsNoGuard(run[j])) && Baited(w, s', q, t)
  {
    var f := FreshIno(s.data);
    OpenTempShape(w, s, q, t, i, f);
    var s1 := Apply(w, s, StoreOpen(q, f));
    var run1 := Then(w, s, [], s, StoreOpen(q, f), s1);
    var run2, s2 := FinishCopy(w, s1, q);
    LeadsOn(w, s, run1, s1, run2, s2);
    f := FreshIno(s2.data);
    OpenTempShape(w, s2, p, t, i, f);
    s' := Apply(w, s2, StoreOpen(p, f));
    run := Then(w, s, run1 + run2, s2, StoreOpen(p, f), s');
  }

  lemma Spring(w: World, s: State, p: Pid, q: Pid, t: string, i: Ino) returns (run: seq<Step>, s': State)
    requires Trapped(w, s, p, q, t, i)
    ensures Leads(w, s, run, s') && (forall j :: 0 <= j < |run| ==> NeedsNoGuard(run[j])) && Baited(w, s', q, t)
  {
    if s.procs[q].pc.Storing? { run, s' := StoringTrap(w, s, p, q, t, i); }
    else if s.procs[q].pc.TempMade? { run, s' := MadeTrap(w, s, p, q, t, i); }
    else { run, s' := [], s; }
  }

  lemma Harm(w: World, s: State, p: Pid, q: Pid, t: string, i: Ino) returns (run: seq<Step>)
    requires NonEmpty(w) && Trapped(w, s, p, q, t, i)
    ensures GuardedRun(w, s, run) && CanRun(w, s, run) && !EntriesComplete(w, Exec(w, s, run))
  {
    hide Trapped, Baited, NonEmpty, EntriesComplete, Enabled, Apply, CanRun, Exec, GuardedRun;
    var s';
    run, s' := Spring(w, s, p, q, t, i);
    BaitedBreaks(w, s', q, t);
    run := Then(w, s, run, s', Rename(q), Apply(w, s', Rename(q)));
    GuardlessRun(w, s, run);
  }

  /** However far the holder of a temporary name is, once another process draws the
      name too, steps that need no guard lead to an entry that is not whole. */
  lemma SharedTempHarms(w: World, s: State, p: Pid, t: string, novel: Ino) returns (run: seq<Step>)
    requires NonEmpty(w) && Inv(w, s) && Enabled(w, s, MakeTemp(p, t, novel)) && !FreshTemp(w, s, p, t)
    ensures var s1 := Apply(w, s, MakeTemp(p, t, novel));
      GuardedRun(w, s1, run) && CanRun(w, s1, run) && !EntriesComplete(w, Exec(w, s1, run))
  {
    hide FsInv, ProcInv, NonEmpty, EntriesComplete, CanRun, Exec, GuardedRun, DoMakeTemp, Trapped;
    var q :| q in s.procs && q != p && Temp(Hash(w, s.procs[p]), t) in Held(w, s.procs[q]);
    HolderFacts(w, s, s.procs[p]);
    HolderFacts(w, s, s.procs[q]);
    MakeTempTraps(w, s, p, q, t, novel);
    run := Harm(w, DoMakeTemp(w, s, p, t, novel), p, q, t, novel);
  }

  /** The guard on temporary names is exactly what the entries need: a name may be
      drawn if and only if no guarded run from there can spoil an entry. */
  lemma TempGuardExact(w: World, s: State, p: Pid, t: string, novel: Ino)
    requires NonEmpty(w) && Inv(w, s) && Enabled(w, s, MakeTemp(p, t, novel))
    ensures var s1 := Apply(w, s, MakeTemp(p, t, novel));
      FreshTemp(w, s, p, t) <==>
        forall run :: GuardedRun(w, s1, run) ==> CanRun(w, s1, run) && EntriesComplete(w, Exec(w, s1, run))
  {
    var s1 := Apply(w, s, MakeTemp(p, t, novel));
    if FreshTemp(w, s, p, t) {
      StepKeeps(w, s, MakeTemp(p, t, novel));
      forall run | GuardedRun(w, s1, run) ensures CanRun(w, s1, run) && EntriesComplete(w, Exec(w, s1, run)) {
        RunKeeps(w, s1, run);
        InvEntries(w, Exec(w, s1, run));
      }
    } else {
      var run := SharedTempHarms(w, s, p, t, novel);
    }
  }
}
