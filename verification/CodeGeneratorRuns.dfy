/** Guarantees over every run of a CodeGenerator: any sequence of emits and hook
    installations, followed by destruction unless a fatal error came before. */
module CodeGeneratorRuns {
  import opened CodeGenerator
  import Sequences

  /** An emit is told whether errors were reported before it. */
  datatype Call = Emit(m: DModule, errors: bool) | SetHook(h: Hook)

  /** A call; after a fatal error there are none. */
  function Step(c: Setup, s: State, call: Call): State {
    if s.fatal then s
    else match call
      case Emit(m, errors) => AfterEmitCall(c, s, m, errors)
      case SetHook(h) => s.(hook := Some(h))
  }

  function Run(c: Setup, calls: seq<Call>): State {
    if calls == [] then INITIAL else Step(c, Run(c, calls[..|calls| - 1]), calls[|calls| - 1])
  }

  function Final(c: Setup, calls: seq<Call>): State {
    var s := Run(c, calls);
    if s.fatal then s else AfterDestroy(c, s)
  }

  /** Errors were reported before some emit. */
  predicate Errors(calls: seq<Call>) {
    exists i :: 0 <= i < |calls| && calls[i].Emit? && calls[i].errors
  }

  lemma ErrorsSnoc(calls: seq<Call>)
    requires calls != []
    ensures var init, last := calls[..|calls| - 1], calls[|calls| - 1];
      Errors(calls) <==> Errors(init) || (last.Emit? && last.errors)
  {
    var init, last := calls[..|calls| - 1], calls[|calls| - 1];
    if Errors(init) {
      var i :| 0 <= i < |init| && init[i].Emit? && init[i].errors;
      assert calls[i] == init[i];
    }
  }

  // ----- what a run asked for

  function Emitted(calls: seq<Call>): seq<DModule> {
    if calls == [] then []
    else Emitted(calls[..|calls| - 1]) + (match calls[|calls| - 1] case Emit(m, _) => [m] case SetHook(_) => [])
  }

  function Installed(calls: seq<Call>): seq<Hook> {
    if calls == [] then []
    else Installed(calls[..|calls| - 1]) + (match calls[|calls| - 1] case Emit(_, _) => [] case SetHook(h) => [h])
  }

  /** The last hook installed. */
  function LastHook(calls: seq<Call>): Option<Hook> {
    if Installed(calls) == [] then None else Some(Installed(calls)[|Installed(calls)| - 1])
  }

  /** The last hook installed since the last emit. */
  function HookSinceEmit(calls: seq<Call>): Option<Hook> {
    if calls == [] then None
    else match calls[|calls| - 1]
      case Emit(_, _) => None
      case SetHook(h) => Some(h)
  }

  function AllOptions(ms: seq<DModule>): seq<string> {
    if ms == [] then [] else AllOptions(ms[..|ms| - 1]) + ms[|ms| - 1].options
  }

  function AllLibs(ms: seq<DModule>): seq<string> {
    if ms == [] then [] else AllLibs(ms[..|ms| - 1]) + ms[|ms| - 1].libs
  }

  function BitcodeOptions(bs: seq<Bitcode>): seq<string> {
    if bs == [] then [] else BitcodeOptions(bs[..|bs| - 1]) + bs[|bs| - 1].options
  }

  function BitcodeLibs(bs: seq<Bitcode>): seq<string> {
    if bs == [] then [] else BitcodeLibs(bs[..|bs| - 1]) + bs[|bs| - 1].libs
  }

  function UpTo(n: nat): seq<nat> { seq(n, i => i) }

  // ----- linker metadata of a written module

  lemma {:induction false} LinkAllMetadata(ir: IR, bs: seq<Bitcode>)
    ensures var r := LinkAll(ir, bs);
      && r.id == ir.id && r.modules == ir.modules && r.bitcode == ir.bitcode + bs
      && r.linkerOptions == ir.linkerOptions && r.linkerDependentLibs == ir.linkerDependentLibs
      && Operands(r.options) == Operands(ir.options) + BitcodeOptions(bs)
      && Operands(r.libs) == Operands(ir.libs) + BitcodeLibs(bs)
    decreases |bs|
  {
    if bs != [] {
      LinkAllMetadata(ir, bs[..|bs| - 1]);
    }
  }

  /** D code first, bitcode files after it, each in original order, none lost. */
  ghost predicate Holds(w: Written, ms: seq<DModule>, bs: seq<Bitcode>) {
    && w.modules == ms && w.bitcode == bs
    && Operands(w.options) == AllOptions(ms) + BitcodeOptions(bs)
    && Operands(w.libs) == AllLibs(ms) + BitcodeLibs(bs)
  }

  function Generated(id: nat, ms: seq<DModule>): IR {
    IR(id, ms, [], AllOptions(ms), AllLibs(ms), None, None)
  }

  lemma WrittenHolds(id: nat, ms: seq<DModule>, bs: seq<Bitcode>, file: string, hook: Option<Hook>)
    ensures Holds(WrittenAs(LinkAll(Generated(id, ms), bs), file, hook), ms, bs)
  {
    LinkAllMetadata(Generated(id, ms), bs);
    assert [] + bs == bs && [] + BitcodeOptions(bs) == BitcodeOptions(bs) && [] + BitcodeLibs(bs) == BitcodeLibs(bs);
  }

  lemma GeneratedSnoc(id: nat, ms: seq<DModule>, m: DModule)
    ensures Codegen(Generated(id, ms), m) == Generated(id, ms + [m])
    ensures ms == [] ==> Generated(id, ms) == FreshIR(id)
  {
    assert (ms + [m])[..|ms|] == ms;
  }

  // ----- single-object runs

  lemma {:induction false} SingleState(c: Setup, calls: seq<Call>)
    requires c.singleObj
    ensures var s, ms := Run(c, calls), Emitted(calls);
      && (s.fatal <==> Errors(calls)) && s.log == []
      && (!s.fatal ==>
            && s.count == |ms| && s.freed == [] && s.hook == LastHook(calls)
            && s.made == (if ms == [] then 0 else 1)
            && s.ir == (if ms == [] then None else Some(Generated(0, ms))))
    decreases |calls|
  {
    if calls != [] {
      var init := calls[..|calls| - 1];
      SingleState(c, init);
      ErrorsSnoc(calls);
      hide Errors;
      match calls[|calls| - 1]
      case Emit(m, _) => GeneratedSnoc(0, Emitted(init), m);
      case SetHook(_) => assert Emitted(calls) == Emitted(init);
    }
  }

  lemma DestroySingle(c: Setup, s: State, ms: seq<DModule>)
    requires c.singleObj && !s.fatal && s.count == |ms| && s.log == [] && s.freed == []
    requires s.made == (if ms == [] then 0 else 1)
    requires s.ir == (if ms == [] then None else Some(Generated(0, ms)))
    ensures var f := AfterDestroy(c, s);
      && (f.fatal <==> ms != [] && !AllLoad(c.bitcodeFiles))
      && (f.fatal || ms == [] ==> f.log == [])
      && (!f.fatal ==> f.ir.None? && f.freed == UpTo(f.made) && f.made == s.made)
      && (!f.fatal && ms != [] ==>
            && |f.log| == 1 && f.log[0].file == c.firstObj
            && Holds(f.log[0], ms, c.bitcodeFiles) && f.log[0].hook == s.hook)
  {
    hide Holds, AllLoad, LinkAll, Loadable;
    if ms != [] {
      LinkAllMetadata(Generated(0, ms), c.bitcodeFiles);
      WrittenHolds(0, ms, c.bitcodeFiles, c.firstObj, s.hook);
    }
  }

  /** In single-object mode nothing is written without an emit or after a fatal error;
      otherwise there is one write, to the first object file, of all modules in order
      with all bitcode files. The one IRState is freed once, and the last installed
      hook fires. A run is fatal exactly if errors were reported before an emit or a
      bitcode file that is needed does not load. */
  lemma SingleObjectRuns(c: Setup, calls: seq<Call>)
    requires c.singleObj
    ensures var f, ms := Final(c, calls), Emitted(calls);
      && (f.fatal <==> Errors(calls) || (ms != [] && !AllLoad(c.bitcodeFiles)))
      && (f.fatal || ms == [] ==> f.log == [])
      && (!f.fatal ==> f.ir.None? && f.freed == UpTo(f.made) && f.made == if ms == [] then 0 else 1)
      && (!f.fatal && ms != [] ==>
            && |f.log| == 1 && f.log[0].file == c.firstObj
            && Holds(f.log[0], ms, c.bitcodeFiles) && f.log[0].hook == LastHook(calls))
  {
    hide Run, Emitted, Errors, AllLoad, AfterDestroy, Holds, LastHook, Generated;
    SingleState(c, calls);
    if !Run(c, calls).fatal {
      DestroySingle(c, Run(c, calls), Emitted(calls));
    }
  }

  // ----- one object per module

  function BitcodeFor(c: Setup, i: nat): seq<Bitcode> { if i == 0 then c.bitcodeFiles else [] }

  ghost predicate WritesEach(c: Setup, log: seq<Written>, ms: seq<DModule>) {
    && |log| == |ms|
    && forall i :: 0 <= i < |ms| ==> log[i].file == ms[i].obj && Holds(log[i], [ms[i]], BitcodeFor(c, i))
  }

  /** What holds after emits of `ms`, with or without errors, and the hook `h` since. */
  ghost predicate Progress(c: Setup, s: State, ms: seq<DModule>, errors: bool, h: Option<Hook>) {
    && (s.fatal <==> errors || (ms != [] && !AllLoad(c.bitcodeFiles)))
    && |s.log| <= |ms| && WritesEach(c, s.log, ms[..|s.log|])
    && (!s.fatal ==> s.count == s.made == |ms| == |s.log| && s.ir.None? && s.freed == UpTo(s.made) && s.hook == h)
  }

  lemma EmitProgresses(c: Setup, s: State, ms: seq<DModule>, e: bool, h: Option<Hook>, m: DModule, errors: bool)
    requires !c.singleObj && Progress(c, s, ms, e, h)
    ensures Progress(c, Step(c, s, Emit(m, errors)), ms + [m], e || errors, None)
  {
    hide AllLoad, WritesEach, AfterEmit, Loadable, LinkAll;
    assert (ms + [m])[..|s.log|] == ms[..|s.log|];
    if !s.fatal && !errors && (s.count != 0 || AllLoad(c.bitcodeFiles)) {
      assert ms[..|s.log|] == ms;
      EmitOne(c, s, m, ms);
      assert (ms + [m])[..|ms| + 1] == ms + [m];
    }
  }

  lemma {:induction false} ManyState(c: Setup, calls: seq<Call>)
    requires !c.singleObj
    ensures Progress(c, Run(c, calls), Emitted(calls), Errors(calls), HookSinceEmit(calls))
    decreases |calls|
  {
    if calls == [] {
      assert !Errors(calls);
    } else {
      hide Progress, AfterEmitCall;
      var init, last := calls[..|calls| - 1], calls[|calls| - 1];
      ManyState(c, init);
      ErrorsSnoc(calls);
      hide Errors;
      if last.Emit? {
        EmitProgresses(c, Run(c, init), Emitted(init), Errors(init), HookSinceEmit(init), last.m, last.errors);
      } else {
        HookProgresses(c, Run(c, init), Emitted(init), Errors(init), HookSinceEmit(init), last.h);
        assert Emitted(init) + [] == Emitted(init);
      }
    }
  }

  lemma HookProgresses(c: Setup, s: State, ms: seq<DModule>, e: bool, h: Option<Hook>, h': Hook)
    requires Progress(c, s, ms, e, h)
    ensures Progress(c, Step(c, s, SetHook(h')), ms, e, Some(h'))
  {
    hide AllLoad, WritesEach;
  }

  /** What an emit writes when every module has its own object. */
  function OwnObject(c: Setup, s: State, m: DModule): Written {
    WrittenAs(LinkAll(Generated(s.made, [m]), BitcodeFor(c, s.count)), m.obj, s.hook)
  }

  lemma EmitWrites(c: Setup, s: State, m: DModule)
    requires !c.singleObj && s.ir.None?
    ensures AfterEmit(c, s, m) ==
      s.(count := s.count + 1, made := s.made + 1, hook := None,
         log := s.log + [OwnObject(c, s, m)], freed := s.freed + [s.made])
  {
    GeneratedSnoc(s.made, [], m);
    assert [] + [m] == [m];
    LinkAllMetadata(Generated(s.made, [m]), BitcodeFor(c, s.count));
    assert LinkAll(Generated(s.made, [m]), []) == Generated(s.made, [m]);
  }

  lemma WritesEachSnoc(c: Setup, log: seq<Written>, ms: seq<DModule>, w: Written, m: DModule)
    requires WritesEach(c, log, ms) && w.file == m.obj && Holds(w, [m], BitcodeFor(c, |ms|))
    ensures WritesEach(c, log + [w], ms + [m])
  {
    hide Holds;
  }

  lemma EmitOne(c: Setup, s: State, m: DModule, ms: seq<DModule>)
    requires !c.singleObj && s.ir.None? && s.count == s.made == |ms| && s.freed == UpTo(s.made)
    requires WritesEach(c, s.log, ms)
    ensures var s' := AfterEmit(c, s, m);
      && s'.count == s'.made == |ms| + 1 && s'.ir.None? && s'.hook.None? && s'.freed == UpTo(s'.made)
      && s'.fatal == s.fatal
      && |s'.log| == |s.log| + 1 && s'.log[..|s.log|] == s.log && s'.log[|s.log|].hook == s.hook
      && WritesEach(c, s'.log, ms + [m])
  {
    hide Holds, WritesEach, AfterEmit, LinkAll;
    EmitWrites(c, s, m);
    WrittenHolds(s.made, [m], BitcodeFor(c, s.count), m.obj, s.hook);
    WritesEachSnoc(c, s.log, ms, OwnObject(c, s, m), m);
    Sequences.SnocInit(s.log, OwnObject(c, s, m));
  }

  /** Otherwise module i is written once, to its own object file, the bitcode files
      going into the first one only; every IRState is freed once, in order. What was
      written before a fatal error is right as well. */
  lemma ObjectPerModuleRuns(c: Setup, calls: seq<Call>)
    requires !c.singleObj
    ensures var f, ms := Final(c, calls), Emitted(calls);
      && (f.fatal <==> Errors(calls) || (ms != [] && !AllLoad(c.bitcodeFiles)))
      && |f.log| <= |ms| && WritesEach(c, f.log, ms[..|f.log|])
      && (!f.fatal ==> f.ir.None? && |f.log| == f.made == |ms| && f.freed == UpTo(f.made))
  {
    ManyState(c, calls);
    hide WritesEach, Run, Emitted, Errors, AllLoad;
  }

  /** A hook fires on the next module written after its installation. */
  lemma HookFiresNext(c: Setup, calls: seq<Call>, m: DModule)
    requires !c.singleObj && !Run(c, calls + [Emit(m, false)]).fatal
    ensures var before, after := Run(c, calls).log, Run(c, calls + [Emit(m, false)]).log;
      |after| == |before| + 1 && after[..|before|] == before && after[|before|].hook == HookSinceEmit(calls)
  {
    var s, more := Run(c, calls), calls + [Emit(m, false)];
    assert more[..|calls|] == calls;
    ManyState(c, calls);
    ManyState(c, more);
    assert Emitted(calls)[..|s.log|] == Emitted(calls);
    hide WritesEach, AfterEmit, AllLoad, Errors, Emitted;
    EmitOne(c, s, m, Emitted(calls));
  }

  // ----- hooks fire at most once

  function Fired(log: seq<Written>): seq<Hook> {
    if log == [] then []
    else Fired(log[..|log| - 1]) + (match log[|log| - 1].hook case None => [] case Some(h) => [h])
  }

  function Waiting(hook: Option<Hook>): multiset<Hook> {
    match hook case None => multiset{} case Some(h) => multiset{h}
  }

  lemma FiredSnoc(log: seq<Written>, w: Written)
    ensures multiset(Fired(log + [w])) == multiset(Fired(log)) + Waiting(w.hook)
  {
    assert (log + [w])[..|log|] == log;
  }

  /** Hooks that fired and the one that waits were all installed. */
  ghost predicate Accounted(s: State, installed: seq<Hook>) {
    multiset(Fired(s.log)) + Waiting(s.hook) <= multiset(installed)
  }

  lemma InstallAccounted(s: State, installed: seq<Hook>, h: Hook)
    requires Accounted(s, installed)
    ensures Accounted(s.(hook := Some(h)), installed + [h])
  {
    hide Fired;
  }

  lemma EmitAccounted(c: Setup, s: State, m: DModule, installed: seq<Hook>)
    requires Accounted(s, installed) && Valid(c, s) && !s.fatal
    ensures Accounted(AfterEmit(c, s, m), installed)
  {
    hide Fired;
    if !c.singleObj {
      hide AfterEmit, LinkAll;
      EmitWrites(c, s, m);
      FiredSnoc(s.log, OwnObject(c, s, m));
    }
  }

  lemma StillAccounted(s: State, installed: seq<Hook>, h: Hook)
    requires Accounted(s, installed)
    ensures Accounted(s, installed + [h])
  {
    hide Fired;
  }

  lemma CallAccounted(c: Setup, s: State, m: DModule, errors: bool, installed: seq<Hook>)
    requires Accounted(s, installed) && Valid(c, s)
    ensures !s.fatal ==> Accounted(AfterEmitCall(c, s, m, errors), installed)
  {
    hide Fired, AfterEmit, Loadable, LinkAll;
    if !s.fatal && AfterEmitCall(c, s, m, errors) == AfterEmit(c, s, m) {
      EmitAccounted(c, s, m, installed);
    }
  }

  lemma {:induction false} HooksAccounted(c: Setup, calls: seq<Call>)
    ensures Accounted(Run(c, calls), Installed(calls))
    decreases |calls|
  {
    hide Accounted, AfterEmit;
    if calls == [] {
      NothingAccounted();
    } else {
      var init, call := calls[..|calls| - 1], calls[|calls| - 1];
      HooksAccounted(c, init);
      RunsStayValid(c, init);
      hide AfterEmitCall;
      match call
      case SetHook(h) =>
        InstallAccounted(Run(c, init), Installed(init), h);
        StillAccounted(Run(c, init), Installed(init), h);
      case Emit(m, errors) =>
        CallAccounted(c, Run(c, init), m, errors, Installed(init));
        assert Installed(init) + [] == Installed(init);
    }
  }

  lemma NothingAccounted()
    ensures Accounted(INITIAL, [])
  {
  }

  /** No hook fires more often than it was installed. */
  lemma HooksFireOnce(c: Setup, calls: seq<Call>)
    ensures multiset(Fired(Final(c, calls).log)) <= multiset(Installed(calls))
  {
    HooksAccounted(c, calls);
    var s := Run(c, calls);
    hide Fired, Run, Installed, Loadable, AllLoad;
    if Final(c, calls).log != s.log {
      FiredSnoc(s.log, WrittenAs(LinkAll(s.ir.value, c.bitcodeFiles), c.firstObj, s.hook));
    }
  }

  /** The class never trips its own assertion: each call finds a valid state. */
  lemma {:induction false} RunsStayValid(c: Setup, calls: seq<Call>)
    ensures Valid(c, Run(c, calls))
    decreases |calls|
  {
    if calls != [] {
      RunsStayValid(c, calls[..|calls| - 1]);
    }
  }

  lemma {:induction false} RunSnoc(c: Setup, calls: seq<Call>, i: nat)
    requires i < |calls|
    ensures Run(c, calls[..i + 1]) == Step(c, Run(c, calls[..i]), calls[i])
  {
    assert calls[..i + 1][..i] == calls[..i];
  }

  /** Driving the class through a run leaves it in the state the run describes. */
  method Drive(c: Setup, calls: seq<Call>) returns (cg: CodeGenerator)
    ensures cg.View() == Final(c, calls)
  {
    cg := new CodeGenerator(c);
    for i := 0 to |calls|
      invariant fresh(cg) && cg.setup == c && cg.View() == Run(c, calls[..i]) && Valid(c, cg.View())
    {
      RunSnoc(c, calls, i);
      hide Run;
      if !cg.fatal {
        match calls[i]
        case Emit(m, errors) => cg.Emit(m, errors);
        case SetHook(h) => cg.SetDComputeHook(h);
      }
    }
    assert calls[..|calls|] == calls;
    if !cg.fatal {
      cg.Destroy();
    }
  }
}
