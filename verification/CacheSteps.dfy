/** What single steps of the cache protocol do, said of the files they touch, and what
    a prune means for the runs that follow it. */
module CacheSteps {
  import opened CacheNames
  import opened CacheProtocol
  import opened CacheSafety
  import opened CacheRuns
  import opened CacheConditions

  /** Of all names, only `n` may differ; nothing else differs. */
  ghost predicate OnlyName(s: State, s': State, n: Name) {
    && s'.data == s.data && s'.procs == s.procs && s'.published == s.published
    && (forall m :: m != n ==> (m in s'.names <==> m in s.names) && (m in s.names ==> s'.names[m] == s.names[m]))
  }

  // ----- the pruner

  /** At any time the pruner can delete an entry: it is gone and nothing else is. */
  lemma PruneDeletesEntry(w: World, s: State, h: string)
    ensures Enabled(w, s, PruneEntry(h))
    ensures var s' := Apply(w, s, PruneEntry(h));
      Entry(h) !in s'.names && !Exists(s', Entry(h)) && OnlyName(s, s', Entry(h))
  {
  }

  lemma PruneDeletesTemp(w: World, s: State, h: string, t: string)
    ensures Enabled(w, s, PruneTemp(h, t))
    ensures var s' := Apply(w, s, PruneTemp(h, t));
      Temp(h, t) !in s'.names && !Exists(s', Temp(h, t)) && OnlyName(s, s', Temp(h, t))
  {
  }

  /** No process of this key renames along the run. */
  ghost predicate NoRename(w: World, s: State, run: seq<Step>, h: string)
    requires CanRun(w, s, run)
    decreases |run|
  {
    run != [] ==>
      && (run[0].Rename? ==> Hash(w, s.procs[run[0].p]) != h)
      && NoRename(w, Apply(w, s, run[0]), run[1..], h)
  }

  /** Only a rename brings an entry back. */
  lemma StepLeavesGone(w: World, s: State, st: Step, h: string)
    requires NamesInv(s) && Enabled(w, s, st) && Guarded(w, s, st) && Entry(h) !in s.names
    requires st.Rename? ==> Hash(w, s.procs[st.p]) != h
    ensures Entry(h) !in Apply(w, s, st).names
  {
    hide WriteAt, Chunk;
  }

  lemma {:induction false} StaysGone(w: World, s: State, run: seq<Step>, h: string)
    requires Inv(w, s) && GuardedRun(w, s, run) && Entry(h) !in s.names && CanRun(w, s, run) && NoRename(w, s, run, h)
    ensures Entry(h) !in Exec(w, s, run).names && Inv(w, Exec(w, s, run))
    decreases |run|
  {
    if run != [] {
      hide Apply, Enabled, Guarded, FsInv, ProcsInv;
      StepKeeps(w, s, run[0]);
      StepLeaves(w, s, run[0], h);
      StaysGone(w, Apply(w, s, run[0]), run[1..], h);
    }
  }

  lemma StepLeaves(w: World, s: State, st: Step, h: string)
    requires Inv(w, s) && Enabled(w, s, st) && Guarded(w, s, st) && Entry(h) !in s.names
    requires st.Rename? ==> Hash(w, s.procs[st.p]) != h
    ensures Entry(h) !in Apply(w, s, st).names
  {
    StepLeavesGone(w, s, st, h);
  }

  /** A prune in between: after the pruner took the entry of a key, until a process of
      that key renames, every lookup of the key misses, and whoever had found the entry
      before stops with a fatal error that leaves all files as they are. */
  lemma PruneInBetween(w: World, s: State, run: seq<Step>, h: string, st: Step)
    requires Inv(w, s) && GuardedRun(w, Apply(w, s, PruneEntry(h)), run)
    requires CanRun(w, Apply(w, s, PruneEntry(h)), run) && NoRename(w, Apply(w, s, PruneEntry(h)), run, h)
    ensures var e := Exec(w, Apply(w, s, PruneEntry(h)), run);
      !Exists(e, Entry(h)) &&
      (Enabled(w, e, st) && !st.Start? && !st.PruneEntry? && !st.PruneTemp? && Hash(w, e.procs[st.p]) == h ==>
         && (st.Lookup? ==> At(Apply(w, e, st), st.p, Missed) && SameFiles(e, Apply(w, e, st)))
         && (st.CopyOpen? || st.Touch? || (st.Link? && e.procs[st.p].mode.HardLink?) ==>
               At(Apply(w, e, st), st.p, Fatal) && SameFiles(e, Apply(w, e, st))))
  {
    StepKeeps(w, s, PruneEntry(h));
    PruneDeletesEntry(w, s, h);
    var e := Exec(w, Apply(w, s, PruneEntry(h)), run);
    StaysGone(w, Apply(w, s, PruneEntry(h)), run, h);
    hide GuardedRun, CanRun, Exec, NoRename, ProcsInv, PublishedInv, PrivateInv;
    if Enabled(w, e, st) && (st.CopyOpen? || st.Touch? || (st.Link? && e.procs[st.p].mode.HardLink?)) {
      if Hash(w, e.procs[st.p]) == h {
        LostEntryIsFatal(w, e, st);
      }
    }
  }

  // ----- recovering

  /** A hit's removal of its output, if it works. */
  lemma RemoveDeletes(w: World, s: State, p: Pid)
    requires Enabled(w, s, Remove(p, true))
    ensures var n := Other(s.procs[p].out); var s' := Apply(w, s, Remove(p, true));
      n !in s'.names && At(s', p, Cleared) && OnlyName(s, s'.(procs := s.procs), n)
  {
  }

  /** A hard link shares the entry's file; the other links name the entry, and reading
      through them reads whatever the entry is. An output that is in the way is fatal. */
  lemma LinkLeads(w: World, s: State, p: Pid)
    requires NamesInv(s) && Enabled(w, s, Link(p))
    ensures var pr := s.procs[p]; var o, e := Other(pr.out), Entry(Hash(w, pr)); var s' := Apply(w, s, Link(p));
      if o in s.names || (pr.mode.HardLink? && e !in s.names) then At(s', p, Fatal) && SameFiles(s, s')
      else
        && At(s', p, Placed) && o in s'.names && OnlyName(s, s'.(procs := s.procs), o)
        && (pr.mode.HardLink? ==> s'.names[o] == s.names[e] && s'.names[o].File?)
        && (!pr.mode.HardLink? ==> s'.names[o] == Sym(e) && (Exists(s', o) <==> e in s.names))
        && (e in s.names ==> Exists(s', o) && Exists(s', e) && Resolve(s', o) == Resolve(s', e))
  {
  }

  // ----- failing, dying and going on

  /** A failure is fatal and a death final; neither touches a file. */
  lemma FailAndDie(w: World, s: State, p: Pid)
    requires p in s.procs
    ensures Enabled(w, s, Fail(p)) && At(Apply(w, s, Fail(p)), p, Fatal) && SameFiles(s, Apply(w, s, Fail(p)))
    ensures Enabled(w, s, Die(p)) && p !in Apply(w, s, Die(p)).procs && SameFiles(s, Apply(w, s, Die(p)))
  {
  }

  /** A process that stopped takes no further step. */
  lemma StoppedStays(w: World, s: State, st: Step, p: Pid)
    requires p in s.procs && (s.procs[p].pc == Done || s.procs[p].pc == Fatal) && Enabled(w, s, st) && By(st, p)
    ensures st.Fail? || st.Die?
  {
  }

  predicate GoesOn(st: Step, p: Pid) { By(st, p) && !st.Fail? && !st.Die? }

  lemma DescriptorsOpen(w: World, s: State, pr: Proc)
    requires ProcInv(w, s, pr)
    ensures pr.pc.Copying? || pr.pc.Storing? ==> pr.pc.r in s.data && pr.pc.w in s.data
    ensures pr.pc.Generating? ==> pr.pc.w in s.data
  {
  }

  /** What a process does next; `t` is a temporary name and `i` an inode not in use. */
  function Next(w: World, s: State, p: Pid, t: string, i: Ino): Step
    requires p in s.procs
    requires s.procs[p].pc.Copying? || s.procs[p].pc.Storing? ==> s.procs[p].pc.r in s.data
  {
    var pr := s.procs[p];
    match pr.pc
    case Looking => Lookup(p)
    case Hit => Remove(p, true)
    case Cleared => if pr.mode.Copy? then CopyOpen(p, i) else Link(p)
    case Copying(r, _, done) => if done < |s.data[r]| then CopyChunk(p, 1) else CopyEnd(p)
    case Placed => Touch(p)
    case Missed => GenOpen(p, i)
    case Generating(_, done) => if done < |w.compile(pr.src)| then GenChunk(p, 1) else GenEnd(p)
    case Generated => MakeTemp(p, t, i)
    case TempMade(_) => StoreOpen(p, i)
    case Storing(_, r, _, done) => if done < |s.data[r]| then StoreChunk(p, 1) else StoreEnd(p)
    case Stored(_) => Rename(p)
    case _ => Die(p)
  }

  lemma NextEnabled(w: World, s: State, p: Pid, t: string, i: Ino)
    requires p in s.procs && s.procs[p].pc != Done && s.procs[p].pc != Fatal && i !in s.data
    requires s.procs[p].pc.Copying? || s.procs[p].pc.Storing? ==> s.procs[p].pc.r in s.data && s.procs[p].pc.w in s.data
    requires s.procs[p].pc.Generating? ==> s.procs[p].pc.w in s.data
    requires s.procs[p].pc == Generated ==> Temp(Hash(w, s.procs[p]), t) !in s.names
    ensures Enabled(w, s, Next(w, s, p, t, i)) && GoesOn(Next(w, s, p, t, i), p)
  {
  }

  /** A process that has not stopped can always go on; storing takes a temporary name
      that is free. */
  lemma NeverStuck(w: World, s: State, p: Pid, t: string) returns (st: Step)
    requires Inv(w, s) && p in s.procs && s.procs[p].pc != Done && s.procs[p].pc != Fatal
    requires s.procs[p].pc == Generated ==> Temp(Hash(w, s.procs[p]), t) !in s.names
    ensures Enabled(w, s, st) && GoesOn(st, p)
  {
    DescriptorsOpen(w, s, s.procs[p]);
    hide *;
    var i := FreshIno(s.data);
    NextEnabled(w, s, p, t, i);
    st := Next(w, s, p, t, i);
  }
}
