/** What every step of the cache protocol keeps. */
module CacheSafety {
  import opened CacheNames
  import opened CacheProtocol

  /** `c` is the whole object code of some module whose key is `h`. */
  ghost predicate Complete(w: World, h: string, c: Content) {
    exists src :: w.key(src) == h && w.compile(src) == c
  }

  /** Whatever a lookup can find is a whole object for its hash. */
  ghost predicate EntriesComplete(w: World, s: State) {
    forall h :: Exists(s, Entry(h)) ==>
      Resolve(s, Entry(h)) in s.data && Complete(w, h, s.data[Resolve(s, Entry(h))])
  }

  // ----- the invariant

  ghost predicate NamesInv(s: State) {
    && (forall n :: n in s.names && s.names[n].File? ==> s.names[n].ino in s.data)
    && (forall h :: Entry(h) in s.names ==>
          s.names[Entry(h)].File? && s.names[Entry(h)].ino in s.published
          && s.published[s.names[Entry(h)].ino] == h)
    && (forall h, t :: Temp(h, t) in s.names ==>
          s.names[Temp(h, t)].File? && s.names[Temp(h, t)].ino !in s.published)
    && (forall o :: Other(o) in s.names && s.names[Other(o)].Sym? ==> s.names[Other(o)].target.Entry?)
  }

  /** An inode that never was an entry has at most one name. */
  ghost predicate PrivateInv(s: State) {
    forall m, n | m in s.names && n in s.names && m != n && s.names[m].File? && s.names[m] == s.names[n] ::
      s.names[m].ino in s.published
  }

  /** An inode that ever was an entry holds a whole object of its hash. */
  ghost predicate PublishedInv(w: World, s: State) {
    forall i :: i in s.published ==> i in s.data && Complete(w, s.published[i], s.data[i])
  }

  ghost predicate FsInv(w: World, s: State) {
    NamesInv(s) && PrivateInv(s) && PublishedInv(w, s)
  }

  /** The process's output is a private file with exactly this content. */
  predicate OutHolds(s: State, pr: Proc, c: Content) {
    var o := Other(pr.out);
    && o in s.names && s.names[o].File?
    && s.names[o].ino !in s.published && s.names[o].ino in s.data
    && s.data[s.names[o].ino] == c
  }

  predicate IsPrefix(c: Content, done: nat, whole: Content) {
    done <= |whole| && c == whole[..done]
  }

  /** The output of a process that reached the end of a recovery or of codegen. */
  ghost predicate OutReady(w: World, s: State, pr: Proc) {
    var o := Other(pr.out);
    && o in s.names
    && (s.names[o] == Sym(Entry(Hash(w, pr)))
        || (s.names[o].File? && s.names[o].ino in s.data
            && Complete(w, Hash(w, pr), s.data[s.names[o].ino])))
    && (pr.mode.Copy? || pr.mode.HardLink? ==> s.names[o].File?)
  }

  ghost predicate ProcInv(w: World, s: State, pr: Proc) {
    var obj := w.compile(pr.src);
    var o := Other(pr.out);
    match pr.pc
    case Copying(r, wi, done) =>
      && r in s.published && r in s.data && s.published[r] == Hash(w, pr)
      && o in s.names && s.names[o] == File(wi) && wi !in s.published
      && wi in s.data && IsPrefix(s.data[wi], done, s.data[r])
    case Placed => OutReady(w, s, pr)
    case Done => OutReady(w, s, pr)
    case Generating(wi, done) =>
      && o in s.names && s.names[o] == File(wi) && wi !in s.published
      && wi in s.data && IsPrefix(s.data[wi], done, obj)
    case Generated => OutHolds(s, pr, obj)
    case TempMade(t) => OutHolds(s, pr, obj)
    case Storing(t, r, wi, done) =>
      var tn := Temp(Hash(w, pr), t);
      && OutHolds(s, pr, obj) && s.names[o] == File(r)
      && wi !in s.published && wi in s.data && IsPrefix(s.data[wi], done, obj)
      && (tn in s.names ==> s.names[tn] == File(wi))
      && (forall n :: n in s.names && s.names[n] == File(wi) ==> n == tn)
    case Stored(t) =>
      var tn := Temp(Hash(w, pr), t);
      && OutHolds(s, pr, obj)
      && (tn in s.names ==> s.names[tn].File? && s.names[tn].ino in s.data
                            && s.data[s.names[tn].ino] == obj)
    case _ => true
  }

  /** The temporary name a process currently works with. */
  function Held(w: World, pr: Proc): set<Name> {
    match pr.pc
    case TempMade(t) => {Temp(Hash(w, pr), t)}
    case Storing(t, _, _, _) => {Temp(Hash(w, pr), t)}
    case Stored(t) => {Temp(Hash(w, pr), t)}
    case _ => {}
  }

  ghost predicate Apart(w: World, a: Proc, b: Proc) {
    && a.out != b.out
    && Held(w, a) !! Held(w, b)
    && (a.pc.Storing? && b.pc.Storing? ==> a.pc.w != b.pc.w)
  }

  ghost predicate ProcsInv(w: World, s: State) {
    && (forall p :: p in s.procs ==> ProcInv(w, s, s.procs[p]))
    && (forall p, q :: p in s.procs && q in s.procs && p != q ==> Apart(w, s.procs[p], s.procs[q]))
  }

  ghost predicate Inv(w: World, s: State) {
    FsInv(w, s) && ProcsInv(w, s)
  }

  // ----- the conditions under which the protocol is safe

  /** Opening this output for writing cannot reach a file of the cache. */
  predicate SafeTarget(s: State, n: Name) {
    n in s.names ==> s.names[n].File? && s.names[n].ino !in s.published
  }

  ghost predicate FreshTemp(w: World, s: State, p: Pid, t: string)
    requires p in s.procs
  {
    forall q :: q in s.procs && q != p ==> Temp(Hash(w, s.procs[p]), t) !in Held(w, s.procs[q])
  }

  ghost predicate Guarded(w: World, s: State, st: Step)
    requires Enabled(w, s, st)
  {
    match st
    case GenOpen(p, _) => SafeTarget(s, Other(s.procs[p].out))
    case CopyOpen(p, _) => Exists(s, Entry(Hash(w, s.procs[p]))) ==> SafeTarget(s, Other(s.procs[p].out))
    case MakeTemp(p, t, _) => FreshTemp(w, s, p, t)
    case _ => true
  }

  // ----- one process moves, the others stay

  lemma ApartSymmetric(w: World, a: Proc, b: Proc)
    requires Apart(w, a, b)
    ensures Apart(w, b, a)
  {
  }

  /** A process that takes up no new temporary name and no new descriptor of its
      own stays apart from another one. */
  lemma ApartMove(w: World, a: Proc, a': Proc, b: Proc)
    requires Apart(w, a, b) && a'.out == a.out
    requires Held(w, a') <= Held(w, a)
    requires a'.pc.Storing? ==> a.pc.Storing? && a'.pc.w == a.pc.w
    ensures Apart(w, a', b)
  {
  }

  lemma MoveKeeps(w: World, s: State, s': State, p: Pid)
    requires ProcsInv(w, s) && FsInv(w, s')
    requires p in s'.procs && s'.procs == s.procs[p := s'.procs[p]]
    requires forall q :: q in s.procs && q != p ==> ProcInv(w, s', s.procs[q])
    requires ProcInv(w, s', s'.procs[p])
    requires forall q :: q in s.procs && q != p ==> Apart(w, s'.procs[p], s.procs[q])
    ensures Inv(w, s')
  {
    forall q, r | q in s'.procs && r in s'.procs && q != r
      ensures Apart(w, s'.procs[q], s'.procs[r])
    {
      if r == p {
        ApartSymmetric(w, s'.procs[p], s.procs[q]);
      }
    }
  }

  /** MoveKeeps for a process that was there before and keeps its name. */
  lemma OwnMoveKeeps(w: World, s: State, s': State, p: Pid)
    requires ProcsInv(w, s) && FsInv(w, s')
    requires p in s.procs && p in s'.procs && s'.procs == s.procs[p := s'.procs[p]]
    requires forall q :: q in s.procs && q != p ==> ProcInv(w, s', s.procs[q])
    requires ProcInv(w, s', s'.procs[p])
    requires s'.procs[p].out == s.procs[p].out && Held(w, s'.procs[p]) <= Held(w, s.procs[p])
    requires s'.procs[p].pc.Storing? ==> s.procs[p].pc.Storing? && s'.procs[p].pc.w == s.procs[p].pc.w
    ensures Inv(w, s')
  {
    forall q | q in s.procs && q != p ensures Apart(w, s'.procs[p], s.procs[q]) {
      ApartMove(w, s.procs[p], s'.procs[p], s.procs[q]);
    }
    MoveKeeps(w, s, s', p);
  }

  // ----- steps that touch no file

  predicate SameFiles(s: State, s': State) {
    s'.names == s.names && s'.data == s.data && s'.published == s.published
  }

  lemma SameFilesFrame(w: World, s: State, s': State, pr: Proc)
    requires SameFiles(s, s') && ProcInv(w, s, pr)
    ensures ProcInv(w, s', pr)
  {
  }

  lemma SameFilesFs(w: World, s: State, s': State)
    requires SameFiles(s, s')
    ensures FsInv(w, s) <==> FsInv(w, s')
  {
  }

  /** Every process's clause survives a step that touches no file. */
  lemma SameFilesAll(w: World, s: State, s': State)
    requires FsInv(w, s) && SameFiles(s, s')
    requires forall q :: q in s.procs ==> ProcInv(w, s, s.procs[q])
    ensures FsInv(w, s')
    ensures forall q :: q in s.procs ==> ProcInv(w, s', s.procs[q])
  {
    forall q | q in s.procs ensures ProcInv(w, s', s.procs[q]) {
      SameFilesFrame(w, s, s', s.procs[q]);
    }
  }

  predicate PcOnly(st: Step) {
    st.Lookup? || st.CopyEnd? || st.Touch? || st.GenEnd? || st.StoreEnd? || st.Fail?
  }

  /** At the end of a copy the prefix written is the whole file. */
  lemma PcOnlyOwn(w: World, s: State, st: Step)
    requires FsInv(w, s) && Enabled(w, s, st) && PcOnly(st) && ProcInv(w, s, s.procs[st.p])
    ensures ProcInv(w, s, Apply(w, s, st).procs[st.p])
  {
  }

  lemma PcOnlyMove(w: World, s: State, st: Step)
    requires Enabled(w, s, st) && PcOnly(st)
    ensures var s' := Apply(w, s, st);
      && SameFiles(s, s') && s'.procs == s.procs[st.p := s'.procs[st.p]]
      && s'.procs[st.p].out == s.procs[st.p].out && !s'.procs[st.p].pc.Storing?
      && Held(w, s'.procs[st.p]) <= Held(w, s.procs[st.p])
  {
  }

  lemma PcOnlyKeeps(w: World, s: State, st: Step)
    requires Inv(w, s) && Enabled(w, s, st) && PcOnly(st)
    ensures Inv(w, Apply(w, s, st))
  {
    var s' := Apply(w, s, st);
    PcOnlyMove(w, s, st);
    PcOnlyOwn(w, s, st);
    SameFilesFrame(w, s, s', s'.procs[st.p]);
    SameFilesAll(w, s, s');
    OwnMoveKeeps(w, s, s', st.p);
  }

  lemma FatalKeeps(w: World, s: State, p: Pid)
    requires Inv(w, s) && p in s.procs
    ensures Inv(w, SetPc(s, p, Fatal))
  {
    SameFilesAll(w, s, SetPc(s, p, Fatal));
    OwnMoveKeeps(w, s, SetPc(s, p, Fatal), p);
  }

  lemma StartKeeps(w: World, s: State, st: Step)
    requires Inv(w, s) && st.Start? && Enabled(w, s, st)
    ensures Inv(w, Apply(w, s, st))
  {
    var s' := Apply(w, s, st);
    forall q | q in s.procs ensures ProcInv(w, s', s.procs[q]) {
      SameFilesFrame(w, s, s', s.procs[q]);
    }
    MoveKeeps(w, s, s', st.p);
  }

  lemma DieKeeps(w: World, s: State, p: Pid)
    requires Inv(w, s) && p in s.procs
    ensures Inv(w, Apply(w, s, Die(p)))
  {
    var s' := Apply(w, s, Die(p));
    forall q | q in s'.procs ensures ProcInv(w, s', s'.procs[q]) {
      SameFilesFrame(w, s, s', s.procs[q]);
    }
  }

  // ----- steps that remove a name

  lemma UnlinkFs(w: World, s: State, n: Name)
    requires FsInv(w, s)
    ensures FsInv(w, Unlink(s, n))
  {
  }

  lemma UnlinkFrame(w: World, s: State, n: Name, pr: Proc)
    requires ProcInv(w, s, pr) && n != Other(pr.out)
    ensures ProcInv(w, Unlink(s, n), pr)
  {
  }

  lemma PruneKeeps(w: World, s: State, n: Name)
    requires Inv(w, s) && !n.Other?
    ensures Inv(w, Unlink(s, n))
  {
    UnlinkFs(w, s, n);
    forall q | q in s.procs ensures ProcInv(w, Unlink(s, n), s.procs[q]) {
      UnlinkFrame(w, s, n, s.procs[q]);
    }
  }

  lemma RemoveKeeps(w: World, s: State, p: Pid, ok: bool)
    requires Inv(w, s) && Enabled(w, s, Remove(p, ok))
    ensures Inv(w, Apply(w, s, Remove(p, ok)))
  {
    var n := Other(s.procs[p].out);
    var u := if ok then Unlink(s, n) else s;
    var s' := Apply(w, s, Remove(p, ok));
    UnlinkFs(w, s, n);
    forall q | q in s.procs && q != p ensures ProcInv(w, s', s.procs[q]) {
      assert Apart(w, s.procs[p], s.procs[q]);
      UnlinkFrame(w, s, n, s.procs[q]);
      SameFilesFrame(w, u, s', s.procs[q]);
    }
    OwnMoveKeeps(w, s, s', p);
  }

  // ----- steps that write

  /** The inode a process has open for writing. */
  predicate Writes(pr: Proc, i: Ino) {
    (pr.pc.Copying? || pr.pc.Generating? || pr.pc.Storing?) && pr.pc.w == i
  }

  /** Changing the data behind a process's own write descriptor is invisible to
      every other process. */
  lemma WriteFrame(w: World, s: State, a: Proc, i: Ino, c: Content, b: Proc)
    requires FsInv(w, s) && ProcInv(w, s, a) && ProcInv(w, s, b) && Apart(w, a, b) && Writes(a, i)
    ensures ProcInv(w, s.(data := s.data[i := c]), b)
  {
  }

  lemma WriteFs(w: World, s: State, i: Ino, c: Content)
    requires FsInv(w, s) && i !in s.published
    ensures FsInv(w, s.(data := s.data[i := c]))
  {
  }

  lemma WriteAtEnd(c: Content, done: nat, whole: Content, k: nat)
    requires IsPrefix(c, done, whole)
    ensures IsPrefix(WriteAt(c, done, Chunk(whole, done, k)), done + |Chunk(whole, done, k)|, whole)
  {
    var b := Chunk(whole, done, k);
    assert WriteAt(c, done, b) == c + b;
  }

  predicate Chunky(st: Step) { st.CopyChunk? || st.GenChunk? || st.StoreChunk? }

  lemma ChunkOwn(w: World, s: State, st: Step)
    requires FsInv(w, s) && Enabled(w, s, st) && Chunky(st) && ProcInv(w, s, s.procs[st.p])
    ensures s.procs[st.p].pc.w !in s.published
    ensures ProcInv(w, Apply(w, s, st), Apply(w, s, st).procs[st.p])
  {
    var pr := s.procs[st.p];
    WriteAtEnd(s.data[pr.pc.w], pr.pc.done, if st.CopyChunk? then s.data[pr.pc.r] else w.compile(pr.src), st.k);
  }

  lemma ChunkKeeps(w: World, s: State, st: Step)
    requires Inv(w, s) && Enabled(w, s, st) && Chunky(st)
    ensures Inv(w, Apply(w, s, st))
  {
    ChunkOwn(w, s, st);
    ChunkShape(w, s, st);
    WriteKeeps(w, s, st.p, s.procs[st.p].pc.w, Apply(w, s, st).data[s.procs[st.p].pc.w], Apply(w, s, st).procs[st.p].pc);
  }

  lemma ChunkShape(w: World, s: State, st: Step)
    requires Enabled(w, s, st) && Chunky(st)
    ensures var i, s' := s.procs[st.p].pc.w, Apply(w, s, st);
      && Writes(s.procs[st.p], i) && i in s'.data
      && Held(w, s'.procs[st.p]) == Held(w, s.procs[st.p]) && Writes(s'.procs[st.p], i)
      && s'.procs[st.p].pc.Storing? == s.procs[st.p].pc.Storing?
      && s' == SetPc(s.(data := s.data[i := s'.data[i]]), st.p, s'.procs[st.p].pc)
  {
  }

  lemma WriteKeeps(w: World, s: State, p: Pid, i: Ino, c: Content, pc: Pc)
    requires Inv(w, s) && p in s.procs && i !in s.published
    requires var pr := s.procs[p];
      && Writes(pr, i) && Writes(pr.(pc := pc), i)
      && Held(w, pr.(pc := pc)) == Held(w, pr) && pc.Storing? == pr.pc.Storing?
    requires var s' := SetPc(s.(data := s.data[i := c]), p, pc);
      ProcInv(w, s', s'.procs[p])
    ensures Inv(w, SetPc(s.(data := s.data[i := c]), p, pc))
  {
    var s' := SetPc(s.(data := s.data[i := c]), p, pc);
    WriteFs(w, s, i, c);
    WriteOthers(w, s, s', p, i);
    OwnMoveKeeps(w, s, s', p);
  }

  lemma WriteOthers(w: World, s: State, s': State, p: Pid, i: Ino)
    requires Inv(w, s) && p in s.procs && Writes(s.procs[p], i) && i in s'.data
    requires SameFiles(s.(data := s.data[i := s'.data[i]]), s')
    ensures forall q :: q in s.procs && q != p ==> ProcInv(w, s', s.procs[q])
  {
    forall q | q in s.procs && q != p ensures ProcInv(w, s', s.procs[q]) {
      assert Apart(w, s.procs[p], s.procs[q]);
      WriteFrame(w, s, s.procs[p], i, s'.data[i], s.procs[q]);
      SameFilesFrame(w, s.(data := s.data[i := s'.data[i]]), s', s.procs[q]);
    }
  }

  // ----- opening an output

  lemma OpenShape(w: World, s: State, n: Name, novel: Ino)
    requires FsInv(w, s) && n.Other? && novel !in s.data && SafeTarget(s, n)
    ensures var i := OpenedIno(s, n, novel);
      i !in s.published && OpenWrite(s, n, novel) == s.(names := s.names[n := File(i)], data := s.data[i := ""])
  {
    assert novel !in s.published;
    assert n in s.names ==> s.names == s.names[n := s.names[n]];
  }

  lemma OpenFs(w: World, s: State, n: Name, novel: Ino)
    requires FsInv(w, s) && n.Other? && novel !in s.data && SafeTarget(s, n)
    ensures FsInv(w, OpenWrite(s, n, novel))
  {
    OpenShape(w, s, n, novel);
  }

  lemma OpenFrame(w: World, s: State, n: Name, novel: Ino, pr: Proc)
    requires FsInv(w, s) && n.Other? && ProcInv(w, s, pr) && Other(pr.out) != n
    requires novel !in s.data && SafeTarget(s, n)
    ensures ProcInv(w, OpenWrite(s, n, novel), pr)
  {
    OpenShape(w, s, n, novel);
    assert novel !in s.published;
  }

  lemma OpenOthers(w: World, s: State, s': State, p: Pid, novel: Ino)
    requires Inv(w, s) && p in s.procs && novel !in s.data && SafeTarget(s, Other(s.procs[p].out))
    requires SameFiles(OpenWrite(s, Other(s.procs[p].out), novel), s')
    ensures forall q :: q in s.procs && q != p ==> ProcInv(w, s', s.procs[q])
  {
    var n := Other(s.procs[p].out);
    forall q | q in s.procs && q != p ensures ProcInv(w, s', s.procs[q]) {
      assert Apart(w, s.procs[p], s.procs[q]);
      OpenFrame(w, s, n, novel, s.procs[q]);
      SameFilesFrame(w, OpenWrite(s, n, novel), s', s.procs[q]);
    }
  }

  /** Opening a safe output and moving on to generating or copying. */
  lemma OpenOutKeeps(w: World, s: State, p: Pid, novel: Ino, pc: Pc)
    requires Inv(w, s) && p in s.procs && novel !in s.data && SafeTarget(s, Other(s.procs[p].out))
    requires var i := OpenedIno(s, Other(s.procs[p].out), novel);
      || pc == Generating(i, 0)
      || (Entry(Hash(w, s.procs[p])) in s.names && pc == Copying(Resolve(s, Entry(Hash(w, s.procs[p]))), i, 0))
    ensures Inv(w, SetPc(OpenWrite(s, Other(s.procs[p].out), novel), p, pc))
  {
    var n := Other(s.procs[p].out);
    OpenShape(w, s, n, novel);
    OpenFs(w, s, n, novel);
    var s' := SetPc(OpenWrite(s, n, novel), p, pc);
    OpenOthers(w, s, s', p, novel);
    OwnMoveKeeps(w, s, s', p);
  }

  lemma GenOpenKeeps(w: World, s: State, p: Pid, novel: Ino)
    requires Inv(w, s) && Enabled(w, s, GenOpen(p, novel)) && SafeTarget(s, Other(s.procs[p].out))
    ensures Inv(w, Apply(w, s, GenOpen(p, novel)))
  {
    OpenOutKeeps(w, s, p, novel, Generating(OpenedIno(s, Other(s.procs[p].out), novel), 0));
  }

  lemma CopyOpenKeeps(w: World, s: State, p: Pid, novel: Ino)
    requires Inv(w, s) && Enabled(w, s, CopyOpen(p, novel)) && Guarded(w, s, CopyOpen(p, novel))
    ensures Inv(w, Apply(w, s, CopyOpen(p, novel)))
  {
    var e := Entry(Hash(w, s.procs[p]));
    if Exists(s, e) {
      OpenOutKeeps(w, s, p, novel, Copying(Resolve(s, e), OpenedIno(s, Other(s.procs[p].out), novel), 0));
    } else {
      FatalKeeps(w, s, p);
    }
  }

  // ----- linking an output to an entry

  function Named(s: State, n: Name, node: Node): State {
    s.(names := s.names[n := node])
  }

  lemma LinkFs(w: World, s: State, o: string, h: string, node: Node)
    requires FsInv(w, s) && Other(o) !in s.names
    requires node == Sym(Entry(h)) || (Entry(h) in s.names && node == s.names[Entry(h)])
    ensures FsInv(w, Named(s, Other(o), node))
  {
  }

  lemma LinkFrame(w: World, s: State, o: string, h: string, node: Node, pr: Proc)
    requires FsInv(w, s) && ProcInv(w, s, pr) && pr.out != o
    requires node == Sym(Entry(h)) || (Entry(h) in s.names && node == s.names[Entry(h)])
    ensures ProcInv(w, Named(s, Other(o), node), pr)
  {
  }

  lemma LinkOthers(w: World, s: State, s': State, p: Pid, h: string, node: Node)
    requires Inv(w, s) && p in s.procs
    requires node == Sym(Entry(h)) || (Entry(h) in s.names && node == s.names[Entry(h)])
    requires SameFiles(Named(s, Other(s.procs[p].out), node), s')
    ensures forall q :: q in s.procs && q != p ==> ProcInv(w, s', s.procs[q])
  {
    var o := s.procs[p].out;
    forall q | q in s.procs && q != p ensures ProcInv(w, s', s.procs[q]) {
      assert Apart(w, s.procs[p], s.procs[q]);
      LinkFrame(w, s, o, h, node, s.procs[q]);
      SameFilesFrame(w, Named(s, Other(o), node), s', s.procs[q]);
    }
  }

  lemma NamedKeeps(w: World, s: State, p: Pid, node: Node)
    requires Inv(w, s) && p in s.procs && !s.procs[p].mode.Copy? && Other(s.procs[p].out) !in s.names
    requires var e := Entry(Hash(w, s.procs[p]));
      if s.procs[p].mode.HardLink? then e in s.names && node == s.names[e] else node == Sym(e)
    ensures Inv(w, SetPc(Named(s, Other(s.procs[p].out), node), p, Placed))
  {
    var pr := s.procs[p];
    var s' := SetPc(Named(s, Other(pr.out), node), p, Placed);
    LinkFs(w, s, pr.out, Hash(w, pr), node);
    LinkOthers(w, s, s', p, Hash(w, pr), node);
    OwnMoveKeeps(w, s, s', p);
  }

  lemma LinkKeeps(w: World, s: State, p: Pid)
    requires Inv(w, s) && Enabled(w, s, Link(p))
    ensures Inv(w, Apply(w, s, Link(p)))
  {
    var pr := s.procs[p];
    var e := Entry(Hash(w, pr));
    if Other(pr.out) in s.names || (pr.mode.HardLink? && e !in s.names) {
      FatalKeeps(w, s, p);
    } else {
      NamedKeeps(w, s, p, if pr.mode.HardLink? then s.names[e] else Sym(e));
    }
  }

  // ----- storing

  /** Giving a temporary name an empty inode of its own. */
  function TempAt(s: State, tn: Name, i: Ino): State {
    s.(names := s.names[tn := File(i)], data := s.data[i := ""])
  }

  /** `i` is new, or it is the file already behind `tn`. */
  ghost predicate TempIno(s: State, tn: Name, i: Ino) {
    tn.Temp? && (i !in s.data || (tn in s.names && s.names[tn] == File(i)))
  }

  lemma TempFs(w: World, s: State, tn: Name, i: Ino)
    requires FsInv(w, s) && TempIno(s, tn, i) && (tn in s.names ==> s.names[tn] == File(i))
    ensures FsInv(w, TempAt(s, tn, i)) && i !in s.published
  {
  }

  lemma TempFrame(w: World, s: State, tn: Name, i: Ino, pr: Proc)
    requires FsInv(w, s) && ProcInv(w, s, pr) && TempIno(s, tn, i) && tn !in Held(w, pr)
    ensures ProcInv(w, TempAt(s, tn, i), pr)
  {
  }

  lemma TempOthers(w: World, s: State, s': State, p: Pid, tn: Name, i: Ino)
    requires Inv(w, s) && p in s.procs && TempIno(s, tn, i)
    requires forall q :: q in s.procs && q != p ==> tn !in Held(w, s.procs[q])
    requires SameFiles(TempAt(s, tn, i), s')
    ensures forall q :: q in s.procs && q != p ==> ProcInv(w, s', s.procs[q])
  {
    forall q | q in s.procs && q != p ensures ProcInv(w, s', s.procs[q]) {
      TempFrame(w, s, tn, i, s.procs[q]);
      SameFilesFrame(w, TempAt(s, tn, i), s', s.procs[q]);
    }
  }

  lemma MakeTempOwn(w: World, s: State, pr: Proc, t: string, novel: Ino)
    requires FsInv(w, s) && ProcInv(w, s, pr) && pr.pc == Generated
    requires TempIno(s, Temp(Hash(w, pr), t), novel) && Temp(Hash(w, pr), t) !in s.names
    ensures ProcInv(w, TempAt(s, Temp(Hash(w, pr), t), novel), pr.(pc := TempMade(t)))
  {
  }

  lemma MadeKeeps(w: World, s: State, p: Pid, t: string, novel: Ino)
    requires Inv(w, s) && p in s.procs && s.procs[p].pc == Generated && novel !in s.data
    requires Temp(Hash(w, s.procs[p]), t) !in s.names && FreshTemp(w, s, p, t)
    ensures Inv(w, SetPc(TempAt(s, Temp(Hash(w, s.procs[p]), t), novel), p, TempMade(t)))
  {
    var pr := s.procs[p];
    var tn := Temp(Hash(w, pr), t);
    var s' := SetPc(TempAt(s, tn, novel), p, TempMade(t));
    TempFs(w, s, tn, novel);
    MakeTempOwn(w, s, pr, t, novel);
    SameFilesFrame(w, TempAt(s, tn, novel), s', s'.procs[p]);
    TempOthers(w, s, s', p, tn, novel);
    hide ProcInv;
    forall q | q in s.procs && q != p ensures Apart(w, s'.procs[p], s.procs[q]) {
      assert Apart(w, pr, s.procs[q]);
    }
    MoveKeeps(w, s, s', p);
  }

  lemma MakeTempKeeps(w: World, s: State, p: Pid, t: string, novel: Ino)
    requires Inv(w, s) && Enabled(w, s, MakeTemp(p, t, novel)) && FreshTemp(w, s, p, t)
    ensures Inv(w, Apply(w, s, MakeTemp(p, t, novel)))
  {
    hide Inv;
    MadeKeeps(w, s, p, t, novel);
  }

  /** No other process writes to the file behind a temporary name. */
  lemma TempUnshared(w: World, s: State, tn: Name, i: Ino, b: Proc)
    requires FsInv(w, s) && ProcInv(w, s, b) && TempIno(s, tn, i) && tn !in Held(w, b)
    ensures b.pc.Storing? ==> b.pc.w != i
  {
  }

  lemma StoreOpenOwn(w: World, s: State, pr: Proc, i: Ino)
    requires FsInv(w, s) && pr.pc.TempMade? && ProcInv(w, s, pr)
    requires TempIno(s, Temp(Hash(w, pr), pr.pc.t), i)
    ensures Exists(s, Other(pr.out))
    ensures ProcInv(w, TempAt(s, Temp(Hash(w, pr), pr.pc.t), i),
                    pr.(pc := Storing(pr.pc.t, Resolve(s, Other(pr.out)), i, 0)))
  {
  }

  lemma StoreOpenShape(w: World, s: State, p: Pid, novel: Ino)
    requires NamesInv(s) && Enabled(w, s, StoreOpen(p, novel)) && Exists(s, Other(s.procs[p].out))
    ensures var pr := s.procs[p]; var tn := Temp(Hash(w, pr), pr.pc.t); var i := OpenedIno(s, tn, novel);
      && TempIno(s, tn, i) && (tn in s.names ==> s.names[tn] == File(i))
      && Apply(w, s, StoreOpen(p, novel))
         == SetPc(TempAt(s, tn, i), p, Storing(pr.pc.t, Resolve(s, Other(pr.out)), i, 0))
  {
    var tn := Temp(Hash(w, s.procs[p]), s.procs[p].pc.t);
    assert tn in s.names ==> s.names == s.names[tn := s.names[tn]];
  }

  lemma StoreOpenKeeps(w: World, s: State, p: Pid, novel: Ino)
    requires Inv(w, s) && Enabled(w, s, StoreOpen(p, novel))
    ensures Inv(w, Apply(w, s, StoreOpen(p, novel)))
  {
    assert ProcInv(w, s, s.procs[p]);
    StoreOpenShape(w, s, p, novel);
    StoreAtKeeps(w, s, p, OpenedIno(s, Temp(Hash(w, s.procs[p]), s.procs[p].pc.t), novel));
  }

  lemma StoreAtKeeps(w: World, s: State, p: Pid, i: Ino)
    requires Inv(w, s) && p in s.procs && s.procs[p].pc.TempMade? && Exists(s, Other(s.procs[p].out))
    requires var tn := Temp(Hash(w, s.procs[p]), s.procs[p].pc.t);
      TempIno(s, tn, i) && (tn in s.names ==> s.names[tn] == File(i))
    ensures var pr := s.procs[p];
      Inv(w, SetPc(TempAt(s, Temp(Hash(w, pr), pr.pc.t), i), p,
                   Storing(pr.pc.t, Resolve(s, Other(pr.out)), i, 0)))
  {
    var pr := s.procs[p];
    var tn := Temp(Hash(w, pr), pr.pc.t);
    var u := TempAt(s, tn, i);
    var s' := SetPc(u, p, Storing(pr.pc.t, Resolve(s, Other(pr.out)), i, 0));
    StoreOpenOwn(w, s, pr, i);
    TempFs(w, s, tn, i);
    SameFilesFrame(w, u, s', s'.procs[p]);
    forall q | q in s.procs && q != p
      ensures tn !in Held(w, s.procs[q]) && Apart(w, s'.procs[p], s.procs[q])
    {
      assert Apart(w, pr, s.procs[q]);
      TempUnshared(w, s, tn, i, s.procs[q]);
    }
    TempOthers(w, s, s', p, tn, i);
    MoveKeeps(w, s, s', p);
  }

  /** rename(2) of a temporary file onto its entry. */
  function Publish(s: State, h: string, tn: Name): State
    requires tn in s.names && s.names[tn].File?
  {
    s.(names := (s.names - {tn})[Entry(h) := s.names[tn]],
       published := s.published[s.names[tn].ino := h])
  }

  lemma PublishFs(w: World, s: State, h: string, t: string)
    requires FsInv(w, s) && Temp(h, t) in s.names
    requires Complete(w, h, s.data[s.names[Temp(h, t)].ino])
    ensures FsInv(w, Publish(s, h, Temp(h, t)))
  {
  }

  lemma PublishFrame(w: World, s: State, h: string, t: string, pr: Proc)
    requires FsInv(w, s) && ProcInv(w, s, pr) && Temp(h, t) in s.names && Temp(h, t) !in Held(w, pr)
    ensures ProcInv(w, Publish(s, h, Temp(h, t)), pr)
  {
  }

  lemma PublishOwn(w: World, s: State, pr: Proc)
    requires FsInv(w, s) && pr.pc.Stored? && ProcInv(w, s, pr) && Temp(Hash(w, pr), pr.pc.t) in s.names
    ensures Complete(w, Hash(w, pr), s.data[s.names[Temp(Hash(w, pr), pr.pc.t)].ino])
    ensures ProcInv(w, Publish(s, Hash(w, pr), Temp(Hash(w, pr), pr.pc.t)), pr.(pc := Done))
  {
  }

  lemma PublishOthers(w: World, s: State, s': State, p: Pid, h: string, t: string)
    requires Inv(w, s) && p in s.procs && Temp(h, t) in Held(w, s.procs[p]) && Temp(h, t) in s.names
    requires SameFiles(Publish(s, h, Temp(h, t)), s')
    ensures forall q :: q in s.procs && q != p ==> ProcInv(w, s', s.procs[q])
  {
    forall q | q in s.procs && q != p ensures ProcInv(w, s', s.procs[q]) {
      assert Apart(w, s.procs[p], s.procs[q]);
      PublishFrame(w, s, h, t, s.procs[q]);
      SameFilesFrame(w, Publish(s, h, Temp(h, t)), s', s.procs[q]);
    }
  }

  lemma RenameShape(w: World, s: State, p: Pid)
    requires NamesInv(s) && Enabled(w, s, Rename(p))
    ensures var h, t := Hash(w, s.procs[p]), s.procs[p].pc.t;
      Apply(w, s, Rename(p)) ==
        if Temp(h, t) in s.names then SetPc(Publish(s, h, Temp(h, t)), p, Done) else SetPc(s, p, Fatal)
  {
  }

  lemma RenameKeeps(w: World, s: State, p: Pid)
    requires Inv(w, s) && Enabled(w, s, Rename(p))
    ensures Inv(w, Apply(w, s, Rename(p)))
  {
    RenameShape(w, s, p);
    if Temp(Hash(w, s.procs[p]), s.procs[p].pc.t) in s.names {
      PublishKeeps(w, s, p);
    } else {
      FatalKeeps(w, s, p);
    }
  }

  lemma PublishKeeps(w: World, s: State, p: Pid)
    requires Inv(w, s) && p in s.procs && s.procs[p].pc.Stored?
    requires Temp(Hash(w, s.procs[p]), s.procs[p].pc.t) in s.names
    ensures var h := Hash(w, s.procs[p]);
      Inv(w, SetPc(Publish(s, h, Temp(h, s.procs[p].pc.t)), p, Done))
  {
    var pr := s.procs[p];
    var h, t := Hash(w, pr), pr.pc.t;
    var u := Publish(s, h, Temp(h, t));
    var s' := SetPc(u, p, Done);
    PublishOwn(w, s, pr);
    PublishFs(w, s, h, t);
    SameFilesFrame(w, u, s', s'.procs[p]);
    PublishOthers(w, s, s', p, h, t);
    OwnMoveKeeps(w, s, s', p);
  }

  // ----- every step, every run

  lemma CompilerStepKeeps(w: World, s: State, st: Step)
    requires Inv(w, s) && Enabled(w, s, st) && Guarded(w, s, st)
    requires st.GenOpen? || st.CopyOpen? || st.Link? || st.MakeTemp? || st.StoreOpen? || st.Rename?
    ensures Inv(w, Apply(w, s, st))
  {
    match st
    case GenOpen(p, novel) => GenOpenKeeps(w, s, p, novel);
    case CopyOpen(p, novel) => CopyOpenKeeps(w, s, p, novel);
    case Link(p) => LinkKeeps(w, s, p);
    case MakeTemp(p, t, novel) => MakeTempKeeps(w, s, p, t, novel);
    case StoreOpen(p, novel) => StoreOpenKeeps(w, s, p, novel);
    case Rename(p) => RenameKeeps(w, s, p);
  }

  /** Every step of every process, of the pruner, and every crash keeps the invariant. */
  lemma StepKeeps(w: World, s: State, st: Step)
    requires Inv(w, s) && Enabled(w, s, st) && Guarded(w, s, st)
    ensures Inv(w, Apply(w, s, st))
  {
    if PcOnly(st) { PcOnlyKeeps(w, s, st); }
    else if Chunky(st) { ChunkKeeps(w, s, st); }
    else if st.Start? { StartKeeps(w, s, st); }
    else if st.Die? { DieKeeps(w, s, st.p); }
    else if st.PruneEntry? { PruneKeeps(w, s, Entry(st.h)); }
    else if st.PruneTemp? { PruneKeeps(w, s, Temp(st.h, st.t)); }
    else if st.Remove? { RemoveKeeps(w, s, st.p, st.ok); }
    else { CompilerStepKeeps(w, s, st); }
  }
}
