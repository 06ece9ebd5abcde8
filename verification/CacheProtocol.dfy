/** The IR-to-object cache as a step system: any number of compiler processes,
    interleaved, over one file system, beside a pruner and with crashes. */
module CacheProtocol {
  import opened CacheNames

  type Ino = nat
  type Pid = nat
  type Source = string   // a module's bitcode with everything the key depends on
  type Content = string  // bytes of a file

  /** What codegen and hashing compute; both are left uninterpreted. */
  datatype World = World(key: Source -> string, compile: Source -> Content)

  datatype Node = File(ino: Ino) | Sym(target: Name)

  datatype Mode = Copy | HardLink | AnyLink | SymLink

  /** Where a process stands in writeModule, cacheObjectFile or recoverObjectFile.
      `r` and `w` are the inodes behind open descriptors, `done` the file offset. */
  datatype Pc =
    | Looking
    | Hit
    | Cleared
    | Copying(r: Ino, w: Ino, done: nat)
    | Placed
    | Missed
    | Generating(w: Ino, done: nat)
    | Generated
    | TempMade(t: string)
    | Storing(t: string, r: Ino, w: Ino, done: nat)
    | Stored(t: string)
    | Done
    | Fatal

  datatype Proc = Proc(src: Source, out: string, mode: Mode, pc: Pc)

  /** `published` is a history variable: the inodes that were ever renamed onto
      an entry name, with the hash of that entry. No step reads it. */
  datatype State = State(
    names: map<Name, Node>,
    data: map<Ino, Content>,
    procs: map<Pid, Proc>,
    published: map<Ino, string>)

  datatype Step =
    | Start(p: Pid, src: Source, out: string, mode: Mode)
    | Lookup(p: Pid)
    | Remove(p: Pid, ok: bool)
    | CopyOpen(p: Pid, novel: Ino)
    | CopyChunk(p: Pid, k: nat)
    | CopyEnd(p: Pid)
    | Link(p: Pid)
    | Touch(p: Pid)
    | GenOpen(p: Pid, novel: Ino)
    | GenChunk(p: Pid, k: nat)
    | GenEnd(p: Pid)
    | MakeTemp(p: Pid, t: string, novel: Ino)
    | StoreOpen(p: Pid, novel: Ino)
    | StoreChunk(p: Pid, k: nat)
    | StoreEnd(p: Pid)
    | Rename(p: Pid)
    | Fail(p: Pid)
    | Die(p: Pid)
    | PruneEntry(h: string)
    | PruneTemp(h: string, t: string)

  // ----- file system calls

  /** The name an open through `n` ends at; links into the cache are one level deep. */
  function Target(s: State, n: Name): Name {
    if n in s.names && s.names[n].Sym? then s.names[n].target else n
  }

  predicate Exists(s: State, n: Name) {
    var t := Target(s, n);
    t in s.names && s.names[t].File?
  }

  function Resolve(s: State, n: Name): Ino
    requires Exists(s, n)
  {
    s.names[Target(s, n)].ino
  }

  /** open(2) with O_CREAT and O_TRUNC: follows a link, empties an existing file
      in place, creates a missing one on the inode `novel`. */
  function OpenWrite(s: State, n: Name, novel: Ino): (r: State)
    ensures r.procs == s.procs && r.published == s.published
  {
    if Exists(s, n) then s.(data := s.data[Resolve(s, n) := ""])
    else s.(names := s.names[Target(s, n) := File(novel)], data := s.data[novel := ""])
  }

  function OpenedIno(s: State, n: Name, novel: Ino): Ino {
    if Exists(s, n) then Resolve(s, n) else novel
  }

  function Zeros(n: nat): Content { seq(n, _ => '\0') }

  /** write(2) at an offset; a gap past the end reads as zeros. */
  function WriteAt(c: Content, at: nat, bytes: Content): Content {
    (if at <= |c| then c[..at] else c + Zeros(at - |c|)) + bytes
    + (if at + |bytes| < |c| then c[at + |bytes|..] else "")
  }

  function Chunk(c: Content, at: nat, k: nat): Content {
    if at >= |c| then "" else if at + k <= |c| then c[at..at + k] else c[at..]
  }

  function SetPc(s: State, p: Pid, pc: Pc): State
    requires p in s.procs
  {
    s.(procs := s.procs[p := s.procs[p].(pc := pc)])
  }

  /** Among the processes, only the point that `p` has reached differs. */
  predicate OnlyMoves(s: State, r: State, p: Pid) {
    p in s.procs && p in r.procs && r.procs == s.procs[p := s.procs[p].(pc := r.procs[p].pc)]
  }

  function Unlink(s: State, n: Name): State {
    s.(names := s.names - {n})
  }

  function Hash(w: World, pr: Proc): string { w.key(pr.src) }

  // ----- steps

  predicate At(s: State, p: Pid, pc: Pc) {
    p in s.procs && s.procs[p].pc == pc
  }

  predicate Enabled(w: World, s: State, st: Step) {
    match st
    case Start(p, src, out, mode) =>
      p !in s.procs && forall q | q in s.procs :: s.procs[q].out != out
    case Lookup(p) => At(s, p, Looking)
    case Remove(p, ok) => At(s, p, Hit)
    case CopyOpen(p, novel) => At(s, p, Cleared) && s.procs[p].mode.Copy? && novel !in s.data
    case CopyChunk(p, k) =>
      p in s.procs && s.procs[p].pc.Copying? && k > 0 &&
      var pc := s.procs[p].pc;
      pc.r in s.data && pc.w in s.data && pc.done < |s.data[pc.r]|
    case CopyEnd(p) =>
      p in s.procs && s.procs[p].pc.Copying? &&
      var pc := s.procs[p].pc;
      pc.r in s.data && pc.done >= |s.data[pc.r]|
    case Link(p) => At(s, p, Cleared) && !s.procs[p].mode.Copy?
    case Touch(p) => At(s, p, Placed)
    case GenOpen(p, novel) => At(s, p, Missed) && novel !in s.data
    case GenChunk(p, k) =>
      p in s.procs && s.procs[p].pc.Generating? && k > 0 &&
      var pc := s.procs[p].pc;
      pc.w in s.data && pc.done < |w.compile(s.procs[p].src)|
    case GenEnd(p) =>
      p in s.procs && s.procs[p].pc.Generating? &&
      s.procs[p].pc.done >= |w.compile(s.procs[p].src)|
    case MakeTemp(p, t, novel) =>  // createUniqueFile: the name must not exist
      At(s, p, Generated) && novel !in s.data && Temp(Hash(w, s.procs[p]), t) !in s.names
    case StoreOpen(p, novel) => p in s.procs && s.procs[p].pc.TempMade? && novel !in s.data
    case StoreChunk(p, k) =>
      p in s.procs && s.procs[p].pc.Storing? && k > 0 &&
      var pc := s.procs[p].pc;
      pc.r in s.data && pc.w in s.data && pc.done < |s.data[pc.r]|
    case StoreEnd(p) =>
      p in s.procs && s.procs[p].pc.Storing? &&
      var pc := s.procs[p].pc;
      pc.r in s.data && pc.done >= |s.data[pc.r]|
    case Rename(p) => p in s.procs && s.procs[p].pc.Stored?
    case Fail(p) => p in s.procs
    case Die(p) => p in s.procs
    case PruneEntry(h) => true
    case PruneTemp(h, t) => true
  }

  // recoverObjectFile

  function DoCopyOpen(w: World, s: State, p: Pid, novel: Ino): (r: State)
    requires p in s.procs
    ensures OnlyMoves(s, r, p)
  {
    var pr := s.procs[p];
    var e := Entry(Hash(w, pr));
    if !Exists(s, e) then SetPc(s, p, Fatal) else
    SetPc(OpenWrite(s, Other(pr.out), novel), p,
          Copying(Resolve(s, e), OpenedIno(s, Other(pr.out), novel), 0))
  }

  function DoCopyChunk(s: State, p: Pid, k: nat): (r: State)
    requires p in s.procs && s.procs[p].pc.Copying?
    requires s.procs[p].pc.r in s.data && s.procs[p].pc.w in s.data
    ensures OnlyMoves(s, r, p)
  {
    var pc := s.procs[p].pc;
    var bytes := Chunk(s.data[pc.r], pc.done, k);
    SetPc(s.(data := s.data[pc.w := WriteAt(s.data[pc.w], pc.done, bytes)]), p,
          Copying(pc.r, pc.w, pc.done + |bytes|))
  }

  function DoLink(w: World, s: State, p: Pid): (r: State)
    requires p in s.procs
    ensures OnlyMoves(s, r, p)
  {
    var pr := s.procs[p];
    var e := Entry(Hash(w, pr));
    if Other(pr.out) in s.names then SetPc(s, p, Fatal)
    else if pr.mode.HardLink? then
      if e in s.names
      then SetPc(s.(names := s.names[Other(pr.out) := s.names[e]]), p, Placed)
      else SetPc(s, p, Fatal)
    else SetPc(s.(names := s.names[Other(pr.out) := Sym(e)]), p, Placed)
  }

  // codegen, through writeModule

  function DoGenOpen(s: State, p: Pid, novel: Ino): (r: State)
    requires p in s.procs
    ensures OnlyMoves(s, r, p)
  {
    var out := Other(s.procs[p].out);
    SetPc(OpenWrite(s, out, novel), p, Generating(OpenedIno(s, out, novel), 0))
  }

  function DoGenChunk(w: World, s: State, p: Pid, k: nat): (r: State)
    requires p in s.procs && s.procs[p].pc.Generating? && s.procs[p].pc.w in s.data
    ensures OnlyMoves(s, r, p)
  {
    var pc := s.procs[p].pc;
    var bytes := Chunk(w.compile(s.procs[p].src), pc.done, k);
    SetPc(s.(data := s.data[pc.w := WriteAt(s.data[pc.w], pc.done, bytes)]), p,
          Generating(pc.w, pc.done + |bytes|))
  }

  // cacheObjectFile

  function DoMakeTemp(w: World, s: State, p: Pid, t: string, novel: Ino): (r: State)
    requires p in s.procs
    ensures OnlyMoves(s, r, p)
  {
    SetPc(s.(names := s.names[Temp(Hash(w, s.procs[p]), t) := File(novel)],
             data := s.data[novel := ""]), p, TempMade(t))
  }

  function DoStoreOpen(w: World, s: State, p: Pid, novel: Ino): (r: State)
    requires p in s.procs && s.procs[p].pc.TempMade?
    ensures OnlyMoves(s, r, p)
  {
    var pr := s.procs[p];
    var t := Temp(Hash(w, pr), pr.pc.t);
    if !Exists(s, Other(pr.out)) then SetPc(s, p, Fatal) else
    SetPc(OpenWrite(s, t, novel), p,
          Storing(pr.pc.t, Resolve(s, Other(pr.out)), OpenedIno(s, t, novel), 0))
  }

  function DoStoreChunk(s: State, p: Pid, k: nat): (r: State)
    requires p in s.procs && s.procs[p].pc.Storing?
    requires s.procs[p].pc.r in s.data && s.procs[p].pc.w in s.data
    ensures OnlyMoves(s, r, p)
  {
    var pc := s.procs[p].pc;
    var bytes := Chunk(s.data[pc.r], pc.done, k);
    SetPc(s.(data := s.data[pc.w := WriteAt(s.data[pc.w], pc.done, bytes)]), p,
          Storing(pc.t, pc.r, pc.w, pc.done + |bytes|))
  }

  function DoRename(w: World, s: State, p: Pid): (r: State)
    requires p in s.procs && s.procs[p].pc.Stored?
    ensures OnlyMoves(s, r, p)
  {
    var pr := s.procs[p];
    var h := Hash(w, pr);
    var t := Temp(h, pr.pc.t);
    if t !in s.names then SetPc(s, p, Fatal) else
    SetPc(s.(names := (s.names - {t})[Entry(h) := s.names[t]],
             published := if s.names[t].File? then s.published[s.names[t].ino := h] else s.published),
          p, Done)
  }

  function Apply(w: World, s: State, st: Step): State
    requires Enabled(w, s, st)
  {
    match st
    case Start(p, src, out, mode) =>
      s.(procs := s.procs[p := Proc(src, out, mode, Looking)])
    case Lookup(p) =>
      SetPc(s, p, if Exists(s, Entry(Hash(w, s.procs[p]))) then Hit else Missed)
    case Remove(p, ok) =>  // the result of the removal is not looked at
      SetPc(if ok then Unlink(s, Other(s.procs[p].out)) else s, p, Cleared)
    case CopyOpen(p, novel) => DoCopyOpen(w, s, p, novel)
    case CopyChunk(p, k) => DoCopyChunk(s, p, k)
    case CopyEnd(p) => SetPc(s, p, Placed)
    case Link(p) => DoLink(w, s, p)
    case Touch(p) =>  // opens the entry for appending and sets its times only
      SetPc(s, p, if Exists(s, Entry(Hash(w, s.procs[p]))) then Done else Fatal)
    case GenOpen(p, novel) => DoGenOpen(s, p, novel)
    case GenChunk(p, k) => DoGenChunk(w, s, p, k)
    case GenEnd(p) => SetPc(s, p, Generated)
    case MakeTemp(p, t, novel) => DoMakeTemp(w, s, p, t, novel)
    case StoreOpen(p, novel) => DoStoreOpen(w, s, p, novel)
    case StoreChunk(p, k) => DoStoreChunk(s, p, k)
    case StoreEnd(p) => SetPc(s, p, Stored(s.procs[p].pc.t))
    case Rename(p) => DoRename(w, s, p)
    case Fail(p) => SetPc(s, p, Fatal)
    case Die(p) => s.(procs := s.procs - {p})
    case PruneEntry(h) => Unlink(s, Entry(h))
    case PruneTemp(h, t) => Unlink(s, Temp(h, t))
  }

  // ----- runs

  predicate CanRun(w: World, s: State, run: seq<Step>)
    decreases |run|
  {
    run == [] || (Enabled(w, s, run[0]) && CanRun(w, Apply(w, s, run[0]), run[1..]))
  }

  function Exec(w: World, s: State, run: seq<Step>): State
    requires CanRun(w, s, run)
    decreases |run|
  {
    if run == [] then s else Exec(w, Apply(w, s, run[0]), run[1..])
  }
}
