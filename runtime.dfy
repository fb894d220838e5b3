/**
 * The runtime instrument (cmd/runtime.go): a slot `swtls` on every goroutine
 * record `g`, copied from parent to child when `newproc1` creates a
 * goroutine, and read and written by accessors on the running goroutine.
 */
module Runtime {
  import opened Wrappers
  import opened Ast
  import opened GoStd
  import opened Params
  import opened Hooks
  import Core

  /** The field appended to struct g: `swtls interface{}`. */
  const SlotField: Field := Field(["swtls"], Ident("interface{}"))

  /** A type spec named g, or with a nil name, whose type is a struct. */
  predicate IsGoroutineRecord(n: Node) {
    n.TypeNode? && (n.spec.name.None? || n.spec.name == Some("g")) && n.spec.typ.StructType?
  }

  /**
   * The runtime2.go edit: append the slot field, last, to a goroutine record;
   * every other node is left alone and the edit answers false.
   */
  function AppendSlotField(n: Node): (r: (bool, Node))
    ensures r.0 <==> IsGoroutineRecord(n)
    ensures r.0 ==> r.1 == TypeNode(TypeSpec(n.spec.name, StructType(n.spec.typ.fields + [SlotField])))
    ensures !r.0 ==> r.1 == n
  {
    match n
    case TypeNode(spec) =>
      if spec.name.Some? && spec.name.value != "g" then (false, n)
      else (
        match spec.typ
        case StructType(fields) => (true, TypeNode(TypeSpec(spec.name, StructType(fields + [SlotField]))))
        case _ => (false, n))
    case _ => (false, n)
  }

  /** There is no duplicate check: a second application appends a second slot field. */
  lemma {:induction false} AppendSlotFieldTwice(n: Node)
    requires IsGoroutineRecord(n)
    ensures var once := AppendSlotField(n).1;
            var twice := AppendSlotField(once);
            twice.0 && twice.1.spec.typ.fields == n.spec.typ.fields + [SlotField, SlotField]
            && |twice.1.spec.typ.fields| == |n.spec.typ.fields| + 2
  {
    var once := AppendSlotField(n).1;
    assert IsGoroutineRecord(once);
    assert n.spec.typ.fields + [SlotField] + [SlotField] == n.spec.typ.fields + [SlotField, SlotField];
  }

  /**
   * The proc.go edit reads the result list of any newproc1 and, when it has
   * one result, the second parameter and the body: Go panics otherwise.
   */
  predicate Newproc1Defined(n: Node) {
    n.FuncNode? && n.decl.name == "newproc1" ==>
      n.decl.results.Some? &&
      (|n.decl.results.value| == 1 ==> |n.decl.params| >= 2 && n.decl.body.Some?)
  }

  /** A function named newproc1 with exactly one result field. */
  predicate IsNewproc1(n: Node) {
    n.FuncNode? && n.decl.name == "newproc1" && n.decl.results.Some? && |n.decl.results.value| == 1
  }

  /**
   * The proc.go edit: name newproc1's parameters and result, and put one
   * deferred copy of the caller's slot into the result's slot before the
   * original statements.
   */
  function PrependSlotCopy(n: Node): (r: (bool, Node))
    requires Newproc1Defined(n)
    ensures r.0 <==> IsNewproc1(n)
    ensures !r.0 ==> r.1 == n
    ensures r.0 ==>
      var d := n.decl;
      var params := EnhancedFields(d.params);
      var results := EnhancedFields(d.results.value);
      r.1 == FuncNode(FuncDecl(d.name, d.recv, params, Some(results),
                               Some([SlotCopy(results[0].names[0], params[1].names[0])] + d.body.value)))
  {
    match n
    case FuncNode(d) =>
      if d.name != "newproc1" then (false, n)
      else if |d.results.value| != 1 then (false, n)
      else
        var parameterNames := ParamInfos(d.params);
        var resultNames := ParamInfos(d.results.value);
        var copy := SlotCopy(resultNames[0].name, parameterNames[1].name);
        (true, FuncNode(FuncDecl(d.name, d.recv, EnhancedFields(d.params), Some(EnhancedFields(d.results.value)),
                                 Some([copy] + d.body.value))))
    case _ => (false, n)
  }

  /**
   * For the runtime's own declaration `newproc1(fn *funcval, callergp *g,
   * callerpc uintptr) *g` the copy goes from `callergp` into the result, which
   * is named `sw_param_0`.
   */
  lemma Newproc1CopyNames(fnType: Expr, gType: Expr, pcType: Expr, body: seq<Stmt>)
    ensures var d := FuncDecl("newproc1", None,
                              [Field(["fn"], fnType), Field(["callergp"], gType), Field(["callerpc"], pcType)],
                              Some([Field([], gType)]), Some(body));
            var r := PrependSlotCopy(FuncNode(d));
            r.0 && r.1.decl.body.value[0] == SlotCopy("sw_param_0", "callergp")
            && r.1.decl.body.value[1..] == body
            && r.1.decl.results.value == [Field(["sw_param_0"], gType)]
  {
    var fs := [Field(["fn"], fnType), Field(["callergp"], gType), Field(["callerpc"], pcType)];
    assert fs[1].names[..0] == [];
    assert EnhancedFields(fs)[1].names == ["callergp"];
  }

  /** HookPoints: the record edit on runtime2.go, then the newproc1 edit on proc.go. */
  function HookPoints(): (r: seq<HookPoint>)
    ensures |r| == 2
    ensures r[0] == HookPoint("runtime", "runtime2.go", GoroutineSlot)
    ensures r[1] == HookPoint("runtime", "proc.go", Newproc1SlotCopy)
  {
    [HookPoint("runtime", "runtime2.go", GoroutineSlot), HookPoint("runtime", "proc.go", Newproc1SlotCopy)]
  }

  /** ExtraChangesForEnhancedFile: nothing to do, no error. */
  function ExtraChangesForEnhancedFile(path: string): (r: Option<Error>)
    ensures r.None?
  {
    None
  }

  /** WriteExtraFiles: exactly one file, `<basePath>/skywalking.go`, holding the slot accessors. */
  function WriteExtraFiles(basePath: string): (r: Result<seq<WrittenFile>, Error>)
    ensures r.Ok? && |r.value| == 1
    ensures r.value[0] == WrittenFile(Join(basePath, "skywalking.go"), SlotAccessors)
  {
    Ok([WrittenFile(Join(basePath, "skywalking.go"), SlotAccessors)])
  }

  /**
   * The patched runtime, seen through the slot: each goroutine's `swtls`, the
   * goroutine that is running (`getg().m.curg`), and whether the framework
   * package's GetGLS/SetGLS were bound to the runtime's accessors at link
   * time (otherwise they keep their fallbacks: get nil, set nothing).
   */
  class Goroutines {
    var slots: map<nat, Core.Value>
    var current: nat
    var nextId: nat
    const linked: bool

    ghost predicate Valid()
      reads this
    {
      current in slots && forall g :: g in slots ==> g < nextId
    }

    /** The process starts with one goroutine, whose slot is nil. */
    constructor (linked: bool)
      ensures Valid() && this.linked == linked
      ensures slots == map[0 := Core.Nil] && current == 0
    {
      this.linked := linked;
      slots := map[0 := Core.Nil];
      current := 0;
      nextId := 1;
    }

    /** `_skywalking_tls_get_impl`: the running goroutine's slot. */
    method TlsGet() returns (v: Core.Value)
      requires Valid()
      ensures v == slots[current]
    {
      v := slots[current];
    }

    /** `_skywalking_tls_set_impl`: overwrite the running goroutine's slot and no other. */
    method TlsSet(v: Core.Value)
      requires Valid()
      modifies this
      ensures Valid() && current == old(current)
      ensures slots == old(slots)[current := v]
    {
      slots := slots[current := v];
    }

    /** GetGLS: the runtime accessor once linked, nil otherwise. */
    method GetGLS() returns (v: Core.Value)
      requires Valid()
      ensures v == if linked then slots[current] else Core.Nil
    {
      if linked {
        v := TlsGet();
      } else {
        v := Core.Nil;
      }
    }

    /** SetGLS: the runtime accessor once linked, nothing otherwise. */
    method SetGLS(v: Core.Value)
      requires Valid()
      modifies this
      ensures Valid() && current == old(current)
      ensures slots == if linked then old(slots)[current := v] else old(slots)
    {
      if linked {
        TlsSet(v);
      }
    }

    /**
     * `go f()` through the patched newproc1: a new goroutine with a zeroed
     * record, then the deferred copy of the running goroutine's slot into it
     * (both records are non-nil here). The running goroutine is unchanged.
     */
    method Spawn() returns (child: nat)
      requires Valid()
      modifies this
      ensures Valid() && current == old(current)
      ensures child !in old(slots)
      ensures slots == old(slots)[child := old(slots)[current]]
    {
      child := nextId;
      nextId := nextId + 1;
      slots := slots[child := Core.Nil];
      // the deferred copy: result0.swtls = param1.swtls
      slots := slots[child := slots[current]];
    }

    /** The scheduler switches to another goroutine. */
    method Switch(g: nat)
      requires Valid() && g in slots
      modifies this
      ensures Valid() && current == g && slots == old(slots)
    {
      current := g;
    }
  }

  /**
   * The context-propagation scenario: a value set on the parent before `go`
   * is seen by the child; the child's own set is seen by the child and not
   * by the parent.
   */
  method PropagationScenario(v: Core.Value, w: Core.Value)
    returns (childSeesAtStart: Core.Value, childSeesAfterSet: Core.Value, parentSeesAfterChildSet: Core.Value)
    ensures childSeesAtStart == v
    ensures childSeesAfterSet == w
    ensures parentSeesAfterChildSet == v
  {
    var rt := new Goroutines(true);
    var parent := rt.current;
    rt.SetGLS(v);
    var child := rt.Spawn();
    rt.Switch(child);
    childSeesAtStart := rt.GetGLS();
    rt.SetGLS(w);
    childSeesAfterSet := rt.GetGLS();
    rt.Switch(parent);
    parentSeesAfterChildSet := rt.GetGLS();
  }
}
