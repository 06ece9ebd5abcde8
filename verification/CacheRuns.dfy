/** Guarantees of the cache over whole runs. */
module CacheRuns {
  import opened CacheNames
  import opened CacheProtocol
  import opened CacheSafety

  /** No compiler is running and the cache on disk is intact. */
  ghost predicate Idle(w: World, s: State) {
    s.procs == map[] && FsInv(w, s)
  }

  ghost predicate GuardedRun(w: World, s: State, run: seq<Step>)
    decreases |run|
  {
    run == [] ||
    (Enabled(w, s, run[0]) && Guarded(w, s, run[0]) && GuardedRun(w, Apply(w, s, run[0]), run[1..]))
  }

  // ----- entries are whole in every reachable state

  lemma InvEntries(w: World, s: State)
    requires NamesInv(s) && PublishedInv(w, s)
    ensures EntriesComplete(w, s)
  {
    forall h | Exists(s, Entry(h))
      ensures Resolve(s, Entry(h)) in s.data && Complete(w, h, s.data[Resolve(s, Entry(h))])
    {
      assert Entry(h) in s.names;
    }
  }

  lemma {:induction false} RunKeeps(w: World, s: State, run: seq<Step>)
    requires Inv(w, s) && GuardedRun(w, s, run)
    ensures CanRun(w, s, run) && Inv(w, Exec(w, s, run))
    decreases |run|
  {
    if run != [] {
      StepKeeps(w, s, run[0]);
      RunKeeps(w, Apply(w, s, run[0]), run[1..]);
    }
  }

  /** No partial or foreign copy is ever visible under an entry name. */
  lemma EntriesAlwaysComplete(w: World, s: State, run: seq<Step>)
    requires Idle(w, s) && GuardedRun(w, s, run)
    ensures CanRun(w, s, run) && EntriesComplete(w, Exec(w, s, run))
  {
    RunKeeps(w, s, run);
    InvEntries(w, Exec(w, s, run));
  }

  // ----- cache inodes are frozen

  ghost predicate Frozen(s: State, s': State) {
    forall i :: i in s.published && i in s.data ==>
      && i in s'.published && s'.published[i] == s.published[i]
      && i in s'.data && s'.data[i] == s.data[i]
  }

  lemma ChunkFreezes(w: World, s: State, st: Step)
    requires FsInv(w, s) && Enabled(w, s, st) && Chunky(st) && ProcInv(w, s, s.procs[st.p])
    ensures Frozen(s, Apply(w, s, st))
  {
    ChunkOwn(w, s, st);
    ChunkShape(w, s, st);
  }

  lemma OpenFreezes(w: World, s: State, st: Step)
    requires FsInv(w, s) && Enabled(w, s, st) && (st.GenOpen? || st.CopyOpen?) && Guarded(w, s, st)
    ensures Frozen(s, Apply(w, s, st))
  {
    var n := Other(s.procs[st.p].out);
    if SafeTarget(s, n) {
      OpenShape(w, s, n, st.novel);
    }
  }

  lemma StoreOpenFreezes(w: World, s: State, p: Pid, novel: Ino)
    requires FsInv(w, s) && Enabled(w, s, StoreOpen(p, novel))
    ensures Frozen(s, Apply(w, s, StoreOpen(p, novel)))
  {
    if Exists(s, Other(s.procs[p].out)) {
      StoreOpenShape(w, s, p, novel);
    }
  }

  lemma StepFreezes(w: World, s: State, st: Step)
    requires Inv(w, s) && Enabled(w, s, st) && Guarded(w, s, st)
    ensures Frozen(s, Apply(w, s, st))
  {
    if Chunky(st) { ChunkFreezes(w, s, st); }
    else if st.GenOpen? || st.CopyOpen? { OpenFreezes(w, s, st); }
    else if st.StoreOpen? { StoreOpenFreezes(w, s, st.p, st.novel); }
    else if st.Rename? { RenameShape(w, s, st.p); }
    else { OtherFreezes(w, s, st); }
  }

  lemma OtherFreezes(w: World, s: State, st: Step)
    requires Enabled(w, s, st)
    requires !Chunky(st) && !st.GenOpen? && !st.CopyOpen? && !st.StoreOpen? && !st.Rename?
    ensures Frozen(s, Apply(w, s, st))
  {
  }

  /** An inode that is or was an entry never changes again, whatever mix of
      stores, recoveries in any mode, prunes and crashes follows. */
  lemma {:induction false} RunFreezes(w: World, s: State, run: seq<Step>)
    requires Inv(w, s) && GuardedRun(w, s, run)
    ensures CanRun(w, s, run) && Frozen(s, Exec(w, s, run))
    decreases |run|
  {
    RunKeeps(w, s, run);
    if run != [] {
      StepKeeps(w, s, run[0]);
      StepFreezes(w, s, run[0]);
      RunFreezes(w, Apply(w, s, run[0]), run[1..]);
    }
  }

  // ----- a recovered output is what codegen would have produced

  /** Modules with equal keys compile to equal object code. */
  ghost predicate KeySound(w: World) {
    forall a, b :: w.key(a) == w.key(b) ==> w.compile(a) == w.compile(b)
  }

  /** Along every run: a process that completed, by recovery or by codegen, left
      an output that reads as its own object code. Only a symbolic link can have
      lost its entry to the pruner since, and then it reads as nothing at all. */
  lemma CompletedOutputsAgree(w: World, s: State, run: seq<Step>, p: Pid)
    requires KeySound(w) && Idle(w, s) && GuardedRun(w, s, run)
    ensures CanRun(w, s, run)
    ensures var e := Exec(w, s, run);
      At(e, p, Done) ==>
        var pr := e.procs[p]; var o := Other(pr.out);
        && (pr.mode.Copy? || pr.mode.HardLink? ==> Exists(e, o))
        && (Exists(e, o) ==> Resolve(e, o) in e.data && e.data[Resolve(e, o)] == w.compile(pr.src))
        && o in e.names
        && (!Exists(e, o) ==> e.names[o] == Sym(Entry(w.key(pr.src))) && Entry(w.key(pr.src)) !in e.names)
  {
    RunKeeps(w, s, run);
    var e := Exec(w, s, run);
    if At(e, p, Done) {
      assert ProcInv(w, e, e.procs[p]);
    }
  }

  /** A lookup that hits has found exactly the object code of the module. */
  lemma HitsAgree(w: World, s: State, run: seq<Step>, p: Pid)
    requires KeySound(w) && Idle(w, s) && GuardedRun(w, s, run)
    ensures CanRun(w, s, run)
    ensures var e := Exec(w, s, run);
      At(e, p, Looking) && Apply(w, e, Lookup(p)).procs[p].pc == Hit ==>
        var n := Entry(w.key(e.procs[p].src));
        Exists(e, n) && Resolve(e, n) in e.data && e.data[Resolve(e, n)] == w.compile(e.procs[p].src)
  {
    EntriesAlwaysComplete(w, s, run);
  }

  /** If the pruner took the entry meanwhile, the copy, the hard link and the final
      touch all end in a fatal error that leaves every file as it is. */
  lemma LostEntryIsFatal(w: World, s: State, st: Step)
    requires NamesInv(s) && Enabled(w, s, st)
    requires st.CopyOpen? || st.Touch? || (st.Link? && s.procs[st.p].mode.HardLink?)
    requires Entry(Hash(w, s.procs[st.p])) !in s.names
    ensures At(Apply(w, s, st), st.p, Fatal) && SameFiles(s, Apply(w, s, st))
  {
  }

  // ----- putting runs together

  lemma {:induction false} ExecSnoc(w: World, s: State, run: seq<Step>, st: Step)
    requires CanRun(w, s, run) && Enabled(w, Exec(w, s, run), st)
    ensures CanRun(w, s, run + [st])
    ensures Exec(w, s, run + [st]) == Apply(w, Exec(w, s, run), st)
    decreases |run|
  {
    if run == [] {
      assert run + [st] == [st];
      assert [st][1..] == [];
    } else {
      assert (run + [st])[1..] == run[1..] + [st];
      ExecSnoc(w, Apply(w, s, run[0]), run[1..], st);
    }
  }

  ghost predicate Leads(w: World, s0: State, run: seq<Step>, s: State) {
    CanRun(w, s0, run) && Exec(w, s0, run) == s
  }

  lemma Then(w: World, s0: State, run: seq<Step>, s: State, st: Step, s': State) returns (run': seq<Step>)
    requires Leads(w, s0, run, s) && Enabled(w, s, st) && Apply(w, s, st) == s'
    ensures Leads(w, s0, run', s') && run' == run + [st]
  {
    ExecSnoc(w, s0, run, st);
    run' := run + [st];
  }

  lemma {:induction false} LeadsOn(w: World, s0: State, run: seq<Step>, s: State, run': seq<Step>, s': State)
    requires Leads(w, s0, run, s) && Leads(w, s, run', s')
    ensures Leads(w, s0, run + run', s')
    decreases |run|
  {
    hide Apply, Enabled;
    if run == [] {
      assert run + run' == run';
    } else {
      assert (run + run')[1..] == run[1..] + run';
      LeadsOn(w, Apply(w, s0, run[0]), run[1..], s, run', s');
    }
  }
}
