/** The life cycle of ldc::CodeGenerator: emits, hooks and destruction. */
module CodeGenerator {

  datatype Option<T> = None | Some(value: T)

  /** A D module: its object file and the linker metadata its code asks for. */
  datatype DModule = DModule(name: string, obj: string, options: seq<string>, libs: seq<string>)

  /** A bitcode file given on the command line, with its own linker metadata; it may
      turn out not to load. */
  datatype Bitcode = Bitcode(file: string, loads: bool, options: seq<string>, libs: seq<string>)

  type Hook = nat

  /** Named metadata of an LLVM module: absent, or a list of operands. */
  type Metadata = Option<seq<string>>

  function Operands(m: Metadata): seq<string> {
    match m case None => [] case Some(ops) => ops
  }

  /** An IRState: what was generated into it and what metadata it holds. */
  datatype IR = IR(
    id: nat, modules: seq<DModule>, bitcode: seq<Bitcode>,
    linkerOptions: seq<string>, linkerDependentLibs: seq<string>,
    options: Metadata, libs: Metadata)

  /** One object file as written. */
  datatype Written = Written(
    file: string, modules: seq<DModule>, bitcode: seq<Bitcode>,
    options: Metadata, libs: Metadata, hook: Option<Hook>)

  /** What the generator and its surroundings look like between two calls; after a
      fatal error the compiler has exited. */
  datatype State = State(
    count: nat, ir: Option<IR>, hook: Option<Hook>,
    log: seq<Written>, made: nat, freed: seq<nat>, fatal: bool)

  datatype Setup = Setup(singleObj: bool, firstObj: string, bitcodeFiles: seq<Bitcode>)

  // ----- linker metadata

  /** New operands in front of the ones already there; nothing for an empty list. */
  function Prepend(node: Metadata, newOperands: seq<string>): (r: Metadata)
    ensures Operands(r) == newOperands + Operands(node)
  {
    if newOperands == [] then node else Some(newOperands + Operands(node))
  }

  /** addLinkerMetadata: stores the operands away, clears the node and refills it. */
  method AddLinkerMetadata(node: Metadata, newOperands: seq<string>) returns (r: Metadata)
    ensures r == Prepend(node, newOperands)
  {
    if newOperands == [] {
      return node;
    }
    var stored: seq<string> := [];
    var present := Operands(node);
    for i := 0 to |present|
      invariant stored == present[..i]
    {
      stored := stored + [present[i]];
    }
    var operands: seq<string> := [];
    for i := 0 to |newOperands|
      invariant operands == newOperands[..i]
    {
      operands := operands + [newOperands[i]];
    }
    for i := 0 to |stored|
      invariant operands == newOperands + stored[..i]
    {
      operands := operands + [stored[i]];
    }
    assert stored == present && newOperands + stored[..|stored|] == newOperands + Operands(node);
    return Some(operands);
  }

  /** Linking a bitcode file appends its metadata to the module's. */
  function LinkIn(ir: IR, b: Bitcode): IR {
    ir.(bitcode := ir.bitcode + [b],
        options := if b.options == [] then ir.options else Some(Operands(ir.options) + b.options),
        libs := if b.libs == [] then ir.libs else Some(Operands(ir.libs) + b.libs))
  }

  function LinkAll(ir: IR, bs: seq<Bitcode>): IR {
    if bs == [] then ir else LinkIn(LinkAll(ir, bs[..|bs| - 1]), bs[|bs| - 1])
  }

  predicate AllLoad(bs: seq<Bitcode>) { forall b :: b in bs ==> b.loads }

  /** The files before the first one that does not load. */
  function Loadable(bs: seq<Bitcode>): (r: seq<Bitcode>)
    ensures r <= bs && AllLoad(r)
    ensures r == bs <==> AllLoad(bs)
    ensures |r| < |bs| ==> !bs[|r|].loads
  {
    bs[..LoadCount(bs)]
  }

  function LoadCount(bs: seq<Bitcode>): (n: nat)
    ensures n <= |bs| && (forall i :: 0 <= i < n ==> bs[i].loads) && (n < |bs| ==> !bs[n].loads)
  {
    if bs == [] || !bs[0].loads then 0 else 1 + LoadCount(bs[1..])
  }

  lemma LoadableUpTo(bs: seq<Bitcode>, i: nat)
    requires i < |bs| && AllLoad(bs[..i]) && !bs[i].loads
    ensures Loadable(bs) == bs[..i]
  {
  }

  /** insertBitcodeFiles: the files are linked in order; one that does not load is
      fatal. */
  method InsertBitcodeFiles(ir: IR, bs: seq<Bitcode>) returns (ok: bool, r: IR)
    ensures ok <==> AllLoad(bs)
    ensures r == LinkAll(ir, Loadable(bs))
  {
    r := ir;
    for i := 0 to |bs|
      invariant r == LinkAll(ir, bs[..i]) && AllLoad(bs[..i])
    {
      if !bs[i].loads {
        LoadableUpTo(bs, i);
        assert bs[i] in bs;
        return false, r;
      }
      r := LinkIn(r, bs[i]);
      assert bs[..i + 1] == bs[..i] + [bs[i]] && bs[..i + 1][..i] == bs[..i];
    }
    assert bs[..|bs|] == bs;
    return true, r;
  }

  /** Generating code for a module adds to the IRState's own linker lists. */
  function Codegen(ir: IR, m: DModule): IR {
    ir.(modules := ir.modules + [m],
        linkerOptions := ir.linkerOptions + m.options,
        linkerDependentLibs := ir.linkerDependentLibs + m.libs)
  }

  // ----- the steps as functions of the state

  function FreshIR(id: nat): IR { IR(id, [], [], [], [], None, None) }

  function WrittenAs(ir: IR, file: string, hook: Option<Hook>): Written {
    Written(file, ir.modules, ir.bitcode,
            Prepend(ir.options, ir.linkerOptions), Prepend(ir.libs, ir.linkerDependentLibs), hook)
  }

  /** The state after writing `ir` to `file` and freeing it. */
  function AfterWrite(s: State, ir: IR, file: string): State {
    s.(ir := None, hook := None, log := s.log + [WrittenAs(ir, file, s.hook)], freed := s.freed + [ir.id])
  }

  function AfterEmit(c: Setup, s: State, m: DModule): State {
    if c.singleObj then
      if s.ir.Some? then s.(count := s.count + 1, ir := Some(Codegen(s.ir.value, m)))
      else s.(count := s.count + 1, ir := Some(Codegen(FreshIR(s.made), m)), made := s.made + 1)
    else
      var ir := Codegen(FreshIR(s.made), m);
      AfterWrite(s.(count := s.count + 1, made := s.made + 1),
                 if s.count == 0 then LinkAll(ir, c.bitcodeFiles) else ir, m.obj)
  }

  /** The state in which a bitcode file fails to load. */
  function AfterFailure(s: State, ir: IR, bs: seq<Bitcode>): State {
    s.(ir := Some(LinkAll(ir, Loadable(bs))), fatal := true)
  }

  /** An emit with every outcome: errors reported before it are fatal, and so is a
      bitcode file that does not load. */
  function AfterEmitCall(c: Setup, s: State, m: DModule, errors: bool): State {
    if errors then s.(fatal := true)
    else if !c.singleObj && s.count == 0 && !AllLoad(c.bitcodeFiles)
    then AfterFailure(s.(count := 1, made := s.made + 1), Codegen(FreshIR(s.made), m), c.bitcodeFiles)
    else AfterEmit(c, s, m)
  }

  function AfterDestroy(c: Setup, s: State): State {
    if !c.singleObj || s.count == 0 || s.ir.None? then s
    else if !AllLoad(c.bitcodeFiles) then AfterFailure(s, s.ir.value, c.bitcodeFiles)
    else AfterWrite(s, LinkAll(s.ir.value, c.bitcodeFiles), c.firstObj)
  }

  const INITIAL := State(0, None, None, [], 0, [], false)

  /** Between calls an IRState is live exactly while a single object is being built. */
  predicate Valid(c: Setup, s: State) {
    !s.fatal ==> if c.singleObj then s.ir.Some? <==> s.count > 0 else s.ir.None?
  }

  // ----- the class

  class CodeGenerator {
    const setup: Setup
    var moduleCount: nat
    var ir: Option<IR>
    var dcomputeHook: Option<Hook>
    var log: seq<Written>
    var made: nat
    var freed: seq<nat>
    var fatal: bool

    function View(): State
      reads this
    {
      State(moduleCount, ir, dcomputeHook, log, made, freed, fatal)
    }

    constructor (setup: Setup)
      ensures this.setup == setup && View() == INITIAL && Valid(setup, View())
    {
      this.setup := setup;
      moduleCount, ir, dcomputeHook, log, made, freed, fatal := 0, None, None, [], 0, [], false;
    }

    method SetDComputeHook(h: Hook)
      modifies `dcomputeHook
      ensures View() == old(View()).(hook := Some(h))
    {
      dcomputeHook := Some(h);
    }

    method PrepareLLModule()
      requires Valid(setup, View()) && !fatal
      modifies `moduleCount, `ir, `made
      ensures moduleCount == old(moduleCount) + 1 && ir.Some?
      ensures if setup.singleObj && old(ir).Some? then ir == old(ir) && made == old(made)
              else ir == Some(FreshIR(old(made))) && made == old(made) + 1
    {
      moduleCount := moduleCount + 1;
      if setup.singleObj && ir.Some? {
        return;
      }
      assert ir.None?;  // the source asserts the same
      ir := Some(FreshIR(made));
      made := made + 1;
    }

    method WriteAndFreeLLModule(file: string)
      requires ir.Some?
      modifies `ir, `dcomputeHook, `log, `freed
      ensures View() == AfterWrite(old(View()), old(ir).value, file)
    {
      var state := ir.value;
      var options := AddLinkerMetadata(state.options, state.linkerOptions);
      var libs := AddLinkerMetadata(state.libs, state.linkerDependentLibs);
      var fired := dcomputeHook;
      if dcomputeHook.Some? {
        dcomputeHook := None;
      }
      log := log + [Written(file, state.modules, state.bitcode, options, libs, fired)];
      freed := freed + [state.id];
      ir := None;
    }

    method FinishLLModule(m: DModule)
      requires ir.Some?
      modifies `ir, `dcomputeHook, `log, `freed, `fatal
      ensures setup.singleObj ==> View() == old(View())
      ensures !setup.singleObj ==>
        var first, bs, st := old(moduleCount) == 1, setup.bitcodeFiles, old(ir).value;
        View() == if first && !AllLoad(bs) then AfterFailure(old(View()), st, bs)
                  else AfterWrite(old(View()), if first then LinkAll(st, bs) else st, m.obj)
    {
      if setup.singleObj {
        return;
      }
      if moduleCount == 1 {
        var ok, linked := InsertBitcodeFiles(ir.value, setup.bitcodeFiles);
        ir := Some(linked);
        if !ok {
          fatal := true;
          return;
        }
      }
      WriteAndFreeLLModule(m.obj);
    }

    method Emit(m: DModule, errors: bool)
      requires Valid(setup, View()) && !fatal
      modifies this
      ensures View() == AfterEmitCall(setup, old(View()), m, errors) && Valid(setup, View())
    {
      if errors {
        fatal := true;
        return;
      }
      PrepareLLModule();
      ir := Some(Codegen(ir.value, m));
      FinishLLModule(m);
    }

    method Destroy()
      requires Valid(setup, View()) && !fatal
      modifies this
      ensures View() == AfterDestroy(setup, old(View()))
    {
      if setup.singleObj && moduleCount > 0 {
        var ok, linked := InsertBitcodeFiles(ir.value, setup.bitcodeFiles);
        ir := Some(linked);
        if !ok {
          fatal := true;
          return;
        }
        WriteAndFreeLLModule(setup.firstObj);
      }
    }
  }
}
