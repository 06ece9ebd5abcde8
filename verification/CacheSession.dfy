/** writeModule's use of the cache, as the sequential code that one process runs:
    when no other process interferes, it completes. */
module CacheSession {
  import opened CacheNames
  import opened CacheProtocol
  import opened CacheSafety
  import opened CacheRuns

  const CHUNK := 4096  // the buffer of a file copy

  /** An inode number no file uses is at hand. */
  ghost predicate Fresh(s: State, next: Ino) { forall i :: i in s.data ==> i < next }

  predicate Uses(st: Step, novel: Ino) {
    match st
    case CopyOpen(_, i) => i == novel
    case GenOpen(_, i) => i == novel
    case MakeTemp(_, _, i) => i == novel
    case StoreOpen(_, i) => i == novel
    case _ => true
  }

  lemma StaysFresh(w: World, s: State, st: Step, next: Ino)
    requires NamesInv(s) && Fresh(s, next) && Enabled(w, s, st) && Uses(st, next)
    ensures Fresh(Apply(w, s, st), next + 1)
  {
  }

  /** The process is at this point of its code. */
  predicate On(s: State, p: Pid, pr: Proc) { p in s.procs && s.procs[p] == pr }

  predicate HasEntry(s: State, h: string) { Exists(s, Entry(h)) }

  /** No file and no other process uses this temporary name. */
  ghost predicate Free(w: World, s: State, p: Pid, tn: Name) {
    tn.Temp? && tn !in s.names && forall q :: q in s.procs && q != p ==> tn !in Held(w, s.procs[q])
  }

  // ----- what each system call leads to when nothing interferes

  lemma AfterRemove(w: World, s: State, p: Pid, pr: Proc)
    requires Inv(w, s) && On(s, p, pr) && pr.pc == Hit && HasEntry(s, Hash(w, pr))
    ensures var st := Remove(p, true);
      && Enabled(w, s, st) && Guarded(w, s, st)
      && var s' := Apply(w, s, st);
         On(s', p, pr.(pc := Cleared)) && HasEntry(s', Hash(w, pr)) && Other(pr.out) !in s'.names
  {
  }

  lemma AfterLink(w: World, s: State, p: Pid, pr: Proc)
    requires Inv(w, s) && On(s, p, pr) && pr.pc == Cleared && HasEntry(s, Hash(w, pr))
    requires Other(pr.out) !in s.names && !pr.mode.Copy?
    ensures var st := Link(p);
      && Enabled(w, s, st) && Guarded(w, s, st)
      && var s' := Apply(w, s, st); On(s', p, pr.(pc := Placed)) && HasEntry(s', Hash(w, pr))
  {
  }

  lemma AfterCopyOpen(w: World, s: State, p: Pid, pr: Proc, novel: Ino)
    requires Inv(w, s) && On(s, p, pr) && pr.pc == Cleared && HasEntry(s, Hash(w, pr))
    requires Other(pr.out) !in s.names && pr.mode.Copy? && novel !in s.data
    ensures var st := CopyOpen(p, novel);
      && Enabled(w, s, st) && Guarded(w, s, st)
      && var s' := Apply(w, s, st);
         p in s'.procs && s'.procs[p].pc.Copying? && On(s', p, pr.(pc := s'.procs[p].pc)) && HasEntry(s', Hash(w, pr))
  {
  }

  /** A copy that is under way can go on, and gets on. */
  lemma CopyGoesOn(w: World, s: State, p: Pid, pr: Proc)
    requires Inv(w, s) && On(s, p, pr) && pr.pc.Copying? && HasEntry(s, Hash(w, pr))
    ensures pr.pc.r in s.data
    ensures pr.pc.done < |s.data[pr.pc.r]| ==>
      var st := CopyChunk(p, CHUNK);
      && Enabled(w, s, st) && Guarded(w, s, st)
      && var s' := Apply(w, s, st);
         && p in s'.procs && On(s', p, pr.(pc := s'.procs[p].pc)) && HasEntry(s', Hash(w, pr))
         && s'.procs[p].pc.Copying? && s'.procs[p].pc.r == pr.pc.r && s'.procs[p].pc.done > pr.pc.done
         && pr.pc.r in s'.data && s'.data[pr.pc.r] == s.data[pr.pc.r]
    ensures pr.pc.done >= |s.data[pr.pc.r]| ==>
      var st := CopyEnd(p);
      && Enabled(w, s, st) && Guarded(w, s, st)
      && var s' := Apply(w, s, st); On(s', p, pr.(pc := Placed)) && HasEntry(s', Hash(w, pr))
  {
    assert ProcInv(w, s, pr);
  }

  lemma AfterTouch(w: World, s: State, p: Pid, pr: Proc)
    requires Inv(w, s) && On(s, p, pr) && pr.pc == Placed && HasEntry(s, Hash(w, pr))
    ensures var st := Touch(p);
      && Enabled(w, s, st) && Guarded(w, s, st)
      && var s' := Apply(w, s, st); On(s', p, pr.(pc := Done)) && HasEntry(s', Hash(w, pr))
  {
  }

  lemma AfterLookup(w: World, s: State, p: Pid, pr: Proc, tn: Name)
    requires Inv(w, s) && On(s, p, pr) && pr.pc == Looking && Free(w, s, p, tn)
    ensures var st, hit := Lookup(p), HasEntry(s, Hash(w, pr));
      && Enabled(w, s, st) && Guarded(w, s, st)
      && var s' := Apply(w, s, st);
         && On(s', p, pr.(pc := if hit then Hit else Missed)) && HasEntry(s', Hash(w, pr)) == hit
         && (SafeTarget(s, Other(pr.out)) ==> SafeTarget(s', Other(pr.out))) && Free(w, s', p, tn)
  {
  }

  lemma AfterStart(w: World, s: State, p: Pid, pr: Proc, tn: Name)
    requires Inv(w, s) && pr.pc == Looking && Enabled(w, s, Start(p, pr.src, pr.out, pr.mode)) && Free(w, s, p, tn)
    ensures var st := Start(p, pr.src, pr.out, pr.mode); var s' := Apply(w, s, st);
      && Guarded(w, s, st) && On(s', p, pr) && HasEntry(s', Hash(w, pr)) == HasEntry(s, Hash(w, pr))
      && (SafeTarget(s, Other(pr.out)) ==> SafeTarget(s', Other(pr.out))) && Free(w, s', p, tn)
  {
  }

  lemma AfterGenOpen(w: World, s: State, p: Pid, pr: Proc, novel: Ino, tn: Name)
    requires Inv(w, s) && On(s, p, pr) && pr.pc == Missed && novel !in s.data
    requires SafeTarget(s, Other(pr.out)) && Free(w, s, p, tn)
    ensures var st := GenOpen(p, novel);
      && Enabled(w, s, st) && Guarded(w, s, st)
      && var s' := Apply(w, s, st);
         && p in s'.procs && s'.procs[p].pc.Generating? && On(s', p, pr.(pc := s'.procs[p].pc))
         && Free(w, s', p, tn)
  {
  }

  lemma GenGoesOn(w: World, s: State, p: Pid, pr: Proc, tn: Name)
    requires Inv(w, s) && On(s, p, pr) && pr.pc.Generating? && Free(w, s, p, tn)
    ensures pr.pc.done < |w.compile(pr.src)| ==>
      var st := GenChunk(p, CHUNK);
      && Enabled(w, s, st) && Guarded(w, s, st)
      && var s' := Apply(w, s, st);
         && p in s'.procs && On(s', p, pr.(pc := s'.procs[p].pc))
         && s'.procs[p].pc.Generating? && s'.procs[p].pc.done > pr.pc.done && Free(w, s', p, tn)
    ensures pr.pc.done >= |w.compile(pr.src)| ==>
      var st := GenEnd(p);
      && Enabled(w, s, st) && Guarded(w, s, st)
      && On(Apply(w, s, st), p, pr.(pc := Generated)) && Free(w, Apply(w, s, st), p, tn)
  {
    assert ProcInv(w, s, pr);
  }

  lemma AfterMakeTemp(w: World, s: State, p: Pid, pr: Proc, t: string, novel: Ino)
    requires Inv(w, s) && On(s, p, pr) && pr.pc == Generated && novel !in s.data
    requires Free(w, s, p, Temp(Hash(w, pr), t))
    ensures var st := MakeTemp(p, t, novel);
      && Enabled(w, s, st) && Guarded(w, s, st)
      && var s' := Apply(w, s, st); On(s', p, pr.(pc := TempMade(t))) && Temp(Hash(w, pr), t) in s'.names
  {
  }

  lemma AfterStoreOpen(w: World, s: State, p: Pid, pr: Proc, novel: Ino)
    requires Inv(w, s) && On(s, p, pr) && pr.pc.TempMade? && novel !in s.data
    ensures var st := StoreOpen(p, novel);
      && Enabled(w, s, st) && Guarded(w, s, st)
      && var s' := Apply(w, s, st);
         && p in s'.procs && s'.procs[p].pc.Storing? && s'.procs[p].pc.t == pr.pc.t
         && On(s', p, pr.(pc := s'.procs[p].pc)) && Temp(Hash(w, pr), pr.pc.t) in s'.names
  {
    assert ProcInv(w, s, pr);
  }

  lemma StoreGoesOn(w: World, s: State, p: Pid, pr: Proc)
    requires Inv(w, s) && On(s, p, pr) && pr.pc.Storing? && Temp(Hash(w, pr), pr.pc.t) in s.names
    ensures pr.pc.r in s.data
    ensures pr.pc.done < |s.data[pr.pc.r]| ==>
      var st := StoreChunk(p, CHUNK);
      && Enabled(w, s, st) && Guarded(w, s, st)
      && var s' := Apply(w, s, st);
         && p in s'.procs && On(s', p, pr.(pc := s'.procs[p].pc)) && Temp(Hash(w, pr), pr.pc.t) in s'.names
         && s'.procs[p].pc.Storing? && s'.procs[p].pc.t == pr.pc.t && s'.procs[p].pc.r == pr.pc.r
         && s'.procs[p].pc.done > pr.pc.done && pr.pc.r in s'.data && s'.data[pr.pc.r] == s.data[pr.pc.r]
    ensures pr.pc.done >= |s.data[pr.pc.r]| ==>
      var st := StoreEnd(p);
      && Enabled(w, s, st) && Guarded(w, s, st)
      && var s' := Apply(w, s, st);
         On(s', p, pr.(pc := Stored(pr.pc.t))) && Temp(Hash(w, pr), pr.pc.t) in s'.names
  {
    assert ProcInv(w, s, pr);
  }

  lemma AfterRename(w: World, s: State, p: Pid, pr: Proc)
    requires Inv(w, s) && On(s, p, pr) && pr.pc.Stored? && Temp(Hash(w, pr), pr.pc.t) in s.names
    ensures var st := Rename(p);
      && Enabled(w, s, st) && Guarded(w, s, st)
      && var s' := Apply(w, s, st); On(s', p, pr.(pc := Done)) && HasEntry(s', Hash(w, pr))
  {
    RenameShape(w, s, p);
    hide ProcsInv, PublishedInv, PrivateInv, DoRename;
  }

  // ----- the code

  class Session {
    const w: World
    const p: Pid
    var s: State
    var next: Ino

    ghost predicate Ready()
      reads this
    {
      Inv(w, s) && Fresh(s, next)
    }

    constructor (w: World, p: Pid, s: State, next: Ino)
      requires Inv(w, s) && Fresh(s, next)
      ensures this.w == w && this.p == p && this.s == s && Ready()
    {
      this.w, this.p, this.s, this.next := w, p, s, next;
    }

    /** One system call of this process. */
    method Take(st: Step)
      requires Ready() && Enabled(w, s, st) && Guarded(w, s, st) && Uses(st, next)
      modifies this
      ensures Ready() && s == Apply(w, old(s), st)
    {
      StepKeeps(w, s, st);
      StaysFresh(w, s, st, next);
      s := Apply(w, s, st);
      next := next + 1;
    }

    /** recoverObjectFile, with a removal that succeeds. */
    method RecoverObjectFile(pr: Proc)
      requires Ready() && On(s, p, pr) && pr.pc == Hit && HasEntry(s, Hash(w, pr))
      modifies this
      ensures Ready() && On(s, p, pr.(pc := Done)) && HasEntry(s, Hash(w, pr))
    {
      hide Inv, Apply, Enabled, Guarded, HasEntry;
      AfterRemove(w, s, p, pr);
      Take(Remove(p, true));
      var cleared := pr.(pc := Cleared);
      if pr.mode.Copy? {
        AfterCopyOpen(w, s, p, cleared, next);
        Take(CopyOpen(p, next));
        CopyGoesOn(w, s, p, s.procs[p]);
        while s.procs[p].pc.done < |s.data[s.procs[p].pc.r]|
          invariant Ready() && p in s.procs && s.procs[p].pc.Copying? && s.procs[p].pc.r in s.data
          invariant On(s, p, pr.(pc := s.procs[p].pc)) && HasEntry(s, Hash(w, pr))
          decreases |s.data[s.procs[p].pc.r]| - s.procs[p].pc.done
        {
          CopyGoesOn(w, s, p, s.procs[p]);
          Take(CopyChunk(p, CHUNK));
        }
        CopyGoesOn(w, s, p, s.procs[p]);
        Take(CopyEnd(p));
      } else {
        AfterLink(w, s, p, cleared);
        Take(Link(p));
      }
      AfterTouch(w, s, p, pr.(pc := Placed));
      Take(Touch(p));
    }

    /** The object writing of writeModule: codegen into the output file. */
    method WriteObjectFile(pr: Proc, ghost tn: Name)
      requires Ready() && On(s, p, pr) && pr.pc == Missed && SafeTarget(s, Other(pr.out)) && Free(w, s, p, tn)
      modifies this
      ensures Ready() && On(s, p, pr.(pc := Generated)) && Free(w, s, p, tn)
    {
      hide Inv, Apply, Enabled, Guarded, Free;
      AfterGenOpen(w, s, p, pr, next, tn);
      Take(GenOpen(p, next));
      while s.procs[p].pc.done < |w.compile(pr.src)|
        invariant Ready() && p in s.procs && s.procs[p].pc.Generating?
        invariant On(s, p, pr.(pc := s.procs[p].pc)) && Free(w, s, p, tn)
        decreases |w.compile(pr.src)| - s.procs[p].pc.done
      {
        GenGoesOn(w, s, p, s.procs[p], tn);
        Take(GenChunk(p, CHUNK));
      }
      GenGoesOn(w, s, p, s.procs[p], tn);
      Take(GenEnd(p));
    }

    /** cacheObjectFile, with the temporary name `t` from createUniqueFile. */
    method CacheObjectFile(pr: Proc, t: string)
      requires Ready() && On(s, p, pr) && pr.pc == Generated && Free(w, s, p, Temp(Hash(w, pr), t))
      modifies this
      ensures Ready() && On(s, p, pr.(pc := Done)) && HasEntry(s, Hash(w, pr))
    {
      hide Inv, Apply, Enabled, Guarded, HasEntry;
      AfterMakeTemp(w, s, p, pr, t, next);
      Take(MakeTemp(p, t, next));
      AfterStoreOpen(w, s, p, pr.(pc := TempMade(t)), next);
      Take(StoreOpen(p, next));
      StoreGoesOn(w, s, p, s.procs[p]);
      while s.procs[p].pc.done < |s.data[s.procs[p].pc.r]|
        invariant Ready() && p in s.procs && s.procs[p].pc.Storing? && s.procs[p].pc.r in s.data
        invariant On(s, p, pr.(pc := s.procs[p].pc)) && s.procs[p].pc.t == t && Temp(Hash(w, pr), t) in s.names
        decreases |s.data[s.procs[p].pc.r]| - s.procs[p].pc.done
      {
        StoreGoesOn(w, s, p, s.procs[p]);
        Take(StoreChunk(p, CHUNK));
      }
      StoreGoesOn(w, s, p, s.procs[p]);
      Take(StoreEnd(p));
      AfterRename(w, s, p, pr.(pc := Stored(t)));
      Take(Rename(p));
    }

    /** writeModule with the cache: on a hit the object is recovered, on a miss it
        is generated and stored. Undisturbed, it completes either way: the output
        holds the object code and the cache has an entry for it. */
    method WriteModule(src: Source, out: string, mode: Mode, t: string) returns (hit: bool)
      requires Ready() && KeySound(w) && Enabled(w, s, Start(p, src, out, mode))
      requires HasEntry(s, w.key(src)) || SafeTarget(s, Other(out))
      requires Free(w, s, p, Temp(w.key(src), t))
      modifies this
      ensures Ready() && hit == HasEntry(old(s), w.key(src)) && HasEntry(s, w.key(src))
      ensures On(s, p, Proc(src, out, mode, Done))
      ensures Exists(s, Other(out)) && s.data[Resolve(s, Other(out))] == w.compile(src)
    {
      hide Inv, Apply, Enabled, Guarded, HasEntry, Free, SafeTarget;
      var pr := Proc(src, out, mode, Looking);
      ghost var tn := Temp(w.key(src), t);
      AfterStart(w, s, p, pr, tn);
      Take(Start(p, src, out, mode));
      AfterLookup(w, s, p, pr, tn);
      Take(Lookup(p));
      hit := s.procs[p].pc == Hit;
      if hit {
        RecoverObjectFile(pr.(pc := Hit));
      } else {
        WriteObjectFile(pr.(pc := Missed), tn);
        CacheObjectFile(pr.(pc := Generated), t);
      }
      OutputReady(w, s, p, pr.(pc := Done));
    }
  }

  lemma OutputReady(w: World, s: State, p: Pid, pr: Proc)
    requires KeySound(w) && Inv(w, s) && On(s, p, pr) && pr.pc == Done && HasEntry(s, Hash(w, pr))
    ensures Exists(s, Other(pr.out)) && Resolve(s, Other(pr.out)) in s.data
    ensures s.data[Resolve(s, Other(pr.out))] == w.compile(pr.src)
  {
    assert ProcInv(w, s, pr);
  }
}
