/**
 * The rewrite applied to a framework's interceptor sources before they are
 * copied into the instrumented package (cmd/framework.go): imports of the
 * core package and of the instrumented package are dropped, references
 * qualified by those packages lose their qualifier, and the first parameter
 * of BeforeInvoke/AfterInvoke becomes `*Invocation`.
 */
module InterceptorSource {
  import opened Wrappers
  import opened Ast
  import opened GoStd

  /** An import whose path literal ends in `core"`. */
  predicate IsCoreImport(s: ImportSpec) {
    Base(s.path) == "core\""
  }

  /** The import of the instrumented package itself. */
  predicate IsInstrumentedImport(s: ImportSpec, importPath: string) {
    s.path == "\"" + importPath + "\""
  }

  /** The qualifier an import of the instrumented package introduces: its alias, else the path's base. */
  function Qualifier(s: ImportSpec, importPath: string): string {
    if s.alias.Some? then s.alias.value else Base(importPath)
  }

  /**
   * The import part of the rewrite, in source order: the imports kept, and
   * the qualifiers added to the removal list (which starts as ["core"]).
   */
  function RewriteImports(imports: seq<ImportSpec>, importPath: string): (r: (seq<ImportSpec>, seq<string>))
    ensures |r.0| + |r.1| <= |imports|
  {
    if imports == [] then ([], [])
    else
      var rest := RewriteImports(imports[1..], importPath);
      var x := imports[0];
      if IsCoreImport(x) then rest
      else if IsInstrumentedImport(x, importPath) then (rest.0, [Qualifier(x, importPath)] + rest.1)
      else ([x] + rest.0, rest.1)
  }

  /**
   * The imports kept are exactly those of neither the core package nor the
   * instrumented package, and the qualifiers added are exactly those of the
   * instrumented package's imports.
   */
  lemma RewriteImportsSpec(imports: seq<ImportSpec>, importPath: string)
    ensures var r := RewriteImports(imports, importPath);
            forall s :: s in r.0 <==> s in imports && !IsCoreImport(s) && !IsInstrumentedImport(s, importPath)
    ensures var r := RewriteImports(imports, importPath);
            forall q :: q in r.1 <==>
              exists s :: s in imports && !IsCoreImport(s) && IsInstrumentedImport(s, importPath) && q == Qualifier(s, importPath)
  {
    KeptImports(imports, importPath);
    AddedQualifiers(imports, importPath);
  }

  lemma {:induction false} KeptImports(imports: seq<ImportSpec>, importPath: string)
    ensures var r := RewriteImports(imports, importPath);
            forall s :: s in r.0 <==> s in imports && !IsCoreImport(s) && !IsInstrumentedImport(s, importPath)
  {
    if imports != [] {
      KeptImports(imports[1..], importPath);
      assert forall s :: s in imports <==> s == imports[0] || s in imports[1..];
    }
  }

  lemma {:induction false} AddedQualifiers(imports: seq<ImportSpec>, importPath: string)
    ensures var r := RewriteImports(imports, importPath);
            forall q :: q in r.1 <==> QualifiesInstrumented(q, imports, importPath)
  {
    if imports != [] {
      var x := imports[0];
      var tail := imports[1..];
      AddedQualifiers(tail, importPath);
      var r := RewriteImports(imports, importPath);
      var rest := RewriteImports(tail, importPath);
      var added := !IsCoreImport(x) && IsInstrumentedImport(x, importPath);
      assert r.1 == if added then [Qualifier(x, importPath)] + rest.1 else rest.1;
      forall q | q in r.1 ensures QualifiesInstrumented(q, imports, importPath) {
        if q in rest.1 {
          assert QualifiesInstrumented(q, tail, importPath);
          var s :| s in tail && !IsCoreImport(s) && IsInstrumentedImport(s, importPath) && q == Qualifier(s, importPath);
          assert s in imports;
        } else {
          assert added && q == Qualifier(x, importPath);
          assert x in imports;
        }
      }
      forall q | QualifiesInstrumented(q, imports, importPath) ensures q in r.1 {
        var s :| s in imports && !IsCoreImport(s) && IsInstrumentedImport(s, importPath) && q == Qualifier(s, importPath);
        if s != x {
          assert s in tail;
          assert QualifiesInstrumented(q, tail, importPath);
        }
      }
    }
  }

  /** `q` is the qualifier of an import of the instrumented package in `imports`. */
  predicate QualifiesInstrumented(q: string, imports: seq<ImportSpec>, importPath: string) {
    exists s :: s in imports && !IsCoreImport(s) && IsInstrumentedImport(s, importPath) && q == Qualifier(s, importPath)
  }

  /** The removal list: "core" first, then the qualifiers of the instrumented package's imports. */
  function RemovalList(imports: seq<ImportSpec>, importPath: string): (refs: seq<string>)
    ensures refs != [] && refs[0] == "core"
  {
    ["core"] + RewriteImports(imports, importPath).1
  }

  /** `q.Sel` with `q` in the removal list. */
  predicate IsQualified(e: Expr, refs: seq<string>) {
    e.Selector? && e.x.Ident? && e.x.name in refs
  }

  /**
   * The callee a call ends up with. The traversal visits the callee and then
   * each argument; whenever one of them is a qualified reference it installs
   * that reference's selector as the callee, so the last one wins.
   */
  function CallFun(fun: Expr, args: seq<Expr>, refs: seq<string>): (r: Option<string>)
    ensures r.Some? <==> IsQualified(fun, refs) || exists k :: 0 <= k < |args| && IsQualified(args[k], refs)
    ensures (forall k :: 0 <= k < |args| ==> !IsQualified(args[k], refs)) ==>
              r == if IsQualified(fun, refs) then Some(fun.sel) else None
  {
    if args == [] then (if IsQualified(fun, refs) then Some(fun.sel) else None)
    else
      var last := args[|args| - 1];
      if IsQualified(last, refs) then Some(last.sel)
      else
        var r := CallFun(fun, args[..|args| - 1], refs);
        assert forall k :: 0 <= k < |args| - 1 ==> args[..|args| - 1][k] == args[k];
        r
  }

  /** The expression rewrite as the source performs it; `Rw` of a child is taken with its true parent in mind. */
  function Rw(e: Expr, refs: seq<string>): Expr
    decreases e
  {
    match e
    case Ident(_) => e
    case Leaf => e
    case Star(x) => if IsQualified(x, refs) then Star(Ident(x.sel)) else Star(Rw(x, refs))
    case Unary(op, x) => Unary(op, Rw(x, refs))
    case Selector(x, sel) => Selector(Rw(x, refs), sel)
    case Call(fun, args) =>
      var newArgs := seq(|args|, k requires 0 <= k < |args| => Rw(args[k], refs));
      var callee := CallFun(fun, args, refs);
      Call(if callee.Some? then Ident(callee.value) else Rw(fun, refs), newArgs)
    case StructType(fields) =>
      StructType(seq(|fields|, k requires 0 <= k < |fields| => Field(fields[k].names, Rw(fields[k].typ, refs))))
    case Compound(kids) => Compound(seq(|kids|, k requires 0 <= k < |kids| => Rw(kids[k], refs)))
  }

  /** Whether a qualified reference occurs anywhere in `e`. */
  predicate MentionsQualified(e: Expr, refs: seq<string>)
    decreases e
  {
    IsQualified(e, refs) ||
    match e
    case Ident(_) => false
    case Leaf => false
    case Star(x) => MentionsQualified(x, refs)
    case Unary(_, x) => MentionsQualified(x, refs)
    case Selector(x, _) => MentionsQualified(x, refs)
    case Call(fun, args) => MentionsQualified(fun, refs) || exists k :: 0 <= k < |args| && MentionsQualified(args[k], refs)
    case StructType(fields) => exists k :: 0 <= k < |fields| && MentionsQualified(fields[k].typ, refs)
    case Compound(kids) => exists k :: 0 <= k < |kids| && MentionsQualified(kids[k], refs)
  }

  /** Whether some call in `e` has a qualified callee, or some pointer type a qualified base. */
  predicate QualifiedCalleeOrPointer(e: Expr, refs: seq<string>)
    decreases e
  {
    match e
    case Ident(_) => false
    case Leaf => false
    case Star(x) => IsQualified(x, refs) || QualifiedCalleeOrPointer(x, refs)
    case Unary(_, x) => QualifiedCalleeOrPointer(x, refs)
    case Selector(x, _) => QualifiedCalleeOrPointer(x, refs)
    case Call(fun, args) =>
      IsQualified(fun, refs) || QualifiedCalleeOrPointer(fun, refs)
      || exists k :: 0 <= k < |args| && QualifiedCalleeOrPointer(args[k], refs)
    case StructType(fields) => exists k :: 0 <= k < |fields| && QualifiedCalleeOrPointer(fields[k].typ, refs)
    case Compound(kids) => exists k :: 0 <= k < |kids| && QualifiedCalleeOrPointer(kids[k], refs)
  }

  /** The rewrite only ever replaces qualified references: an expression without one is unchanged. */
  lemma {:induction false} RwUnchangedWithoutQualified(e: Expr, refs: seq<string>)
    requires !MentionsQualified(e, refs)
    ensures Rw(e, refs) == e
    decreases e
  {
    match e
    case Ident(_) =>
    case Leaf =>
    case Star(x) => RwUnchangedWithoutQualified(x, refs);
    case Unary(_, x) => RwUnchangedWithoutQualified(x, refs);
    case Selector(x, _) => RwUnchangedWithoutQualified(x, refs);
    case Call(fun, args) =>
      RwUnchangedWithoutQualified(fun, refs);
      forall k | 0 <= k < |args| ensures Rw(args[k], refs) == args[k] {
        assert !MentionsQualified(args[k], refs);
        RwUnchangedWithoutQualified(args[k], refs);
      }
    case StructType(fields) =>
      forall k | 0 <= k < |fields| ensures Rw(fields[k].typ, refs) == fields[k].typ {
        assert !MentionsQualified(fields[k].typ, refs);
        RwUnchangedWithoutQualified(fields[k].typ, refs);
      }
      assert seq(|fields|, k requires 0 <= k < |fields| => Field(fields[k].names, Rw(fields[k].typ, refs))) == fields;
    case Compound(kids) =>
      forall k | 0 <= k < |kids| ensures Rw(kids[k], refs) == kids[k] {
        assert !MentionsQualified(kids[k], refs);
        RwUnchangedWithoutQualified(kids[k], refs);
      }
  }

  /** The rewrite keeps a qualified reference qualified and leaves other expressions unqualified. */
  lemma RwPreservesQualified(e: Expr, refs: seq<string>)
    ensures IsQualified(Rw(e, refs), refs) <==> IsQualified(e, refs)
  {
  }

  /** After the rewrite no call has a qualified callee and no pointer type a qualified base. */
  lemma {:induction false} RwLeavesNoQualifiedCalleeOrPointer(e: Expr, refs: seq<string>)
    ensures !QualifiedCalleeOrPointer(Rw(e, refs), refs)
    decreases e
  {
    match e
    case Ident(_) =>
    case Leaf =>
    case Star(x) =>
      if !IsQualified(x, refs) {
        RwLeavesNoQualifiedCalleeOrPointer(x, refs);
        RwPreservesQualified(x, refs);
      }
    case Unary(_, x) => RwLeavesNoQualifiedCalleeOrPointer(x, refs);
    case Selector(x, _) => RwLeavesNoQualifiedCalleeOrPointer(x, refs);
    case Call(fun, args) =>
      var newArgs := seq(|args|, k requires 0 <= k < |args| => Rw(args[k], refs));
      forall k | 0 <= k < |args| ensures !QualifiedCalleeOrPointer(newArgs[k], refs) {
        RwLeavesNoQualifiedCalleeOrPointer(args[k], refs);
      }
      if CallFun(fun, args, refs).None? {
        RwLeavesNoQualifiedCalleeOrPointer(fun, refs);
        RwPreservesQualified(fun, refs);
      }
    case StructType(fields) =>
      var newFields := seq(|fields|, k requires 0 <= k < |fields| => Field(fields[k].names, Rw(fields[k].typ, refs)));
      forall k | 0 <= k < |fields| ensures !QualifiedCalleeOrPointer(newFields[k].typ, refs) {
        RwLeavesNoQualifiedCalleeOrPointer(fields[k].typ, refs);
      }
    case Compound(kids) =>
      var newKids := seq(|kids|, k requires 0 <= k < |kids| => Rw(kids[k], refs));
      forall k | 0 <= k < |kids| ensures !QualifiedCalleeOrPointer(newKids[k], refs) {
        RwLeavesNoQualifiedCalleeOrPointer(kids[k], refs);
      }
  }

  /** Rewriting twice is rewriting once. */
  lemma {:induction false} RwIdempotent(e: Expr, refs: seq<string>)
    ensures Rw(Rw(e, refs), refs) == Rw(e, refs)
    decreases e
  {
    match e
    case Ident(_) =>
    case Leaf =>
    case Star(x) =>
      if !IsQualified(x, refs) {
        RwIdempotent(x, refs);
        RwPreservesQualified(x, refs);
      }
    case Unary(_, x) => RwIdempotent(x, refs);
    case Selector(x, _) => RwIdempotent(x, refs);
    case Call(fun, args) =>
      var newArgs := seq(|args|, k requires 0 <= k < |args| => Rw(args[k], refs));
      forall k | 0 <= k < |args|
        ensures Rw(newArgs[k], refs) == newArgs[k]
        ensures IsQualified(newArgs[k], refs) <==> IsQualified(args[k], refs)
        ensures IsQualified(args[k], refs) ==> newArgs[k] == args[k]
      {
        RwIdempotent(args[k], refs);
        RwPreservesQualified(args[k], refs);
      }
      var c := CallFun(fun, args, refs);
      var callee := if c.Some? then Ident(c.value) else Rw(fun, refs);
      if exists k :: 0 <= k < |args| && IsQualified(args[k], refs) {
        CallFunByArguments(fun, callee, args, newArgs, refs);
      } else {
        RwIdempotent(fun, refs);
        RwPreservesQualified(fun, refs);
      }
    case StructType(fields) =>
      var newFields := seq(|fields|, k requires 0 <= k < |fields| => Field(fields[k].names, Rw(fields[k].typ, refs)));
      forall k | 0 <= k < |fields| ensures Rw(newFields[k].typ, refs) == newFields[k].typ {
        RwIdempotent(fields[k].typ, refs);
      }
      assert seq(|newFields|, k requires 0 <= k < |newFields| => Field(newFields[k].names, Rw(newFields[k].typ, refs))) == newFields;
    case Compound(kids) =>
      var newKids := seq(|kids|, k requires 0 <= k < |kids| => Rw(kids[k], refs));
      forall k | 0 <= k < |kids| ensures Rw(newKids[k], refs) == newKids[k] {
        RwIdempotent(kids[k], refs);
      }
  }

  /** Once some argument is qualified, the callee choice no longer depends on the callee. */
  lemma {:induction false} CallFunByArguments(fun: Expr, fun2: Expr, args: seq<Expr>, newArgs: seq<Expr>, refs: seq<string>)
    requires |newArgs| == |args|
    requires forall k :: 0 <= k < |args| ==> (IsQualified(newArgs[k], refs) <==> IsQualified(args[k], refs))
    requires forall k :: 0 <= k < |args| ==> (IsQualified(args[k], refs) ==> newArgs[k] == args[k])
    requires exists k :: 0 <= k < |args| && IsQualified(args[k], refs)
    ensures CallFun(fun2, newArgs, refs) == CallFun(fun, args, refs)
    decreases |args|
  {
    var n := |args| - 1;
    if !IsQualified(args[n], refs) {
      assert forall k :: 0 <= k < n ==> args[..n][k] == args[k] && newArgs[..n][k] == newArgs[k];
      var k :| 0 <= k < |args| && IsQualified(args[k], refs);
      assert k < n && IsQualified(args[..n][k], refs);
      CallFunByArguments(fun, fun2, args[..n], newArgs[..n], refs);
    }
  }

  /**
   * The rewrite as the source performs it keeps the qualifier of a reference
   * whose parent is neither a call nor a pointer type, although the import
   * is deleted: `x.(core.EnhancedInstance)` still names `core`.
   */
  lemma RwKeepsQualifierInTypeAssertion()
    ensures var e := Compound([Ident("x"), Selector(Ident("core"), "EnhancedInstance")]);
            Rw(e, ["core"]) == e && MentionsQualified(Rw(e, ["core"]), ["core"])
  {
    var e := Compound([Ident("x"), Selector(Ident("core"), "EnhancedInstance")]);
    assert IsQualified(e.kids[1], ["core"]);
  }

  /** ... and a qualified call argument displaces the callee: `f(core.X)` becomes `X(core.X)`. */
  lemma RwReplacesCalleeByArgument()
    ensures Rw(Call(Ident("f"), [Selector(Ident("core"), "X")]), ["core"])
            == Call(Ident("X"), [Selector(Ident("core"), "X")])
  {
    var args := [Selector(Ident("core"), "X")];
    assert IsQualified(args[0], ["core"]);
    assert seq(|args|, k requires 0 <= k < |args| => Rw(args[k], ["core"])) == args;
  }

  /** The corrected expression rewrite: every qualified reference, wherever it stands, becomes its selector. */
  function Unqualify(e: Expr, refs: seq<string>): (r: Expr)
    decreases e
  {
    if IsQualified(e, refs) then Ident(e.sel)
    else
      match e
      case Ident(_) => e
      case Leaf => e
      case Star(x) => Star(Unqualify(x, refs))
      case Unary(op, x) => Unary(op, Unqualify(x, refs))
      case Selector(x, sel) => Selector(Unqualify(x, refs), sel)
      case Call(fun, args) =>
        Call(Unqualify(fun, refs), seq(|args|, k requires 0 <= k < |args| => Unqualify(args[k], refs)))
      case StructType(fields) =>
        StructType(seq(|fields|, k requires 0 <= k < |fields| => Field(fields[k].names, Unqualify(fields[k].typ, refs))))
      case Compound(kids) => Compound(seq(|kids|, k requires 0 <= k < |kids| => Unqualify(kids[k], refs)))
  }

  /** Whether some selector in `e` picks a name that is itself in the removal list, as in `core.core`. */
  predicate SelectsRefName(e: Expr, refs: seq<string>)
    decreases e
  {
    (e.Selector? && e.sel in refs) ||
    match e
    case Ident(_) => false
    case Leaf => false
    case Star(x) => SelectsRefName(x, refs)
    case Unary(_, x) => SelectsRefName(x, refs)
    case Selector(x, _) => SelectsRefName(x, refs)
    case Call(fun, args) => SelectsRefName(fun, refs) || exists k :: 0 <= k < |args| && SelectsRefName(args[k], refs)
    case StructType(fields) => exists k :: 0 <= k < |fields| && SelectsRefName(fields[k].typ, refs)
    case Compound(kids) => exists k :: 0 <= k < |kids| && SelectsRefName(kids[k], refs)
  }

  /**
   * After the corrected rewrite no qualified reference remains anywhere
   * (unless a selector names a removed package, when `core.core.X` becomes `core.X`).
   */
  lemma {:induction false} UnqualifyLeavesNoQualified(e: Expr, refs: seq<string>)
    requires !SelectsRefName(e, refs)
    ensures !MentionsQualified(Unqualify(e, refs), refs)
    decreases e
  {
    if !IsQualified(e, refs) {
      match e
      case Ident(_) =>
      case Leaf =>
      case Star(x) => UnqualifyLeavesNoQualified(x, refs);
      case Unary(_, x) => UnqualifyLeavesNoQualified(x, refs);
      case Selector(x, _) => UnqualifyLeavesNoQualified(x, refs);
      case Call(fun, args) =>
        UnqualifyLeavesNoQualified(fun, refs);
        var newArgs := seq(|args|, k requires 0 <= k < |args| => Unqualify(args[k], refs));
        forall k | 0 <= k < |args| ensures !MentionsQualified(newArgs[k], refs) {
          UnqualifyLeavesNoQualified(args[k], refs);
        }
      case StructType(fields) =>
        var newFields := seq(|fields|, k requires 0 <= k < |fields| => Field(fields[k].names, Unqualify(fields[k].typ, refs)));
        forall k | 0 <= k < |fields| ensures !MentionsQualified(newFields[k].typ, refs) {
          UnqualifyLeavesNoQualified(fields[k].typ, refs);
        }
      case Compound(kids) =>
        var newKids := seq(|kids|, k requires 0 <= k < |kids| => Unqualify(kids[k], refs));
        forall k | 0 <= k < |kids| ensures !MentionsQualified(newKids[k], refs) {
          UnqualifyLeavesNoQualified(kids[k], refs);
        }
    }
  }

  /** The corrected rewrite agrees with the source's on a qualified callee and a qualified pointer base. */
  lemma UnqualifyAgreesOnCalleeAndPointer(q: string, sel: string, args: seq<Expr>, refs: seq<string>)
    requires q in refs
    requires forall k :: 0 <= k < |args| ==> !MentionsQualified(args[k], refs)
    ensures Unqualify(Star(Selector(Ident(q), sel)), refs) == Rw(Star(Selector(Ident(q), sel)), refs) == Star(Ident(sel))
    ensures Unqualify(Call(Selector(Ident(q), sel), args), refs) == Rw(Call(Selector(Ident(q), sel), args), refs)
            == Call(Ident(sel), args)
  {
    forall k | 0 <= k < |args| ensures Rw(args[k], refs) == args[k] && Unqualify(args[k], refs) == args[k] {
      RwUnchangedWithoutQualified(args[k], refs);
      UnqualifyUnchangedWithoutQualified(args[k], refs);
    }
    forall k | 0 <= k < |args| ensures !IsQualified(args[k], refs) {
      assert !MentionsQualified(args[k], refs);
    }
  }

  lemma {:induction false} UnqualifyUnchangedWithoutQualified(e: Expr, refs: seq<string>)
    requires !MentionsQualified(e, refs)
    ensures Unqualify(e, refs) == e
    decreases e
  {
    match e
    case Ident(_) =>
    case Leaf =>
    case Star(x) => UnqualifyUnchangedWithoutQualified(x, refs);
    case Unary(_, x) => UnqualifyUnchangedWithoutQualified(x, refs);
    case Selector(x, _) => UnqualifyUnchangedWithoutQualified(x, refs);
    case Call(fun, args) =>
      UnqualifyUnchangedWithoutQualified(fun, refs);
      forall k | 0 <= k < |args| ensures Unqualify(args[k], refs) == args[k] {
        assert !MentionsQualified(args[k], refs);
        UnqualifyUnchangedWithoutQualified(args[k], refs);
      }
    case StructType(fields) =>
      forall k | 0 <= k < |fields| ensures Unqualify(fields[k].typ, refs) == fields[k].typ {
        assert !MentionsQualified(fields[k].typ, refs);
        UnqualifyUnchangedWithoutQualified(fields[k].typ, refs);
      }
      assert seq(|fields|, k requires 0 <= k < |fields| => Field(fields[k].names, Unqualify(fields[k].typ, refs))) == fields;
    case Compound(kids) =>
      forall k | 0 <= k < |kids| ensures Unqualify(kids[k], refs) == kids[k] {
        assert !MentionsQualified(kids[k], refs);
        UnqualifyUnchangedWithoutQualified(kids[k], refs);
      }
  }

  /** Which expression rewrite a file rewrite applies: the source's, or the corrected one. */
  datatype Mode = AsWritten | Corrected

  function RewriteExpr(e: Expr, refs: seq<string>, mode: Mode): Expr {
    if mode == AsWritten then Rw(e, refs) else Unqualify(e, refs)
  }

  function RewriteFields(fs: seq<Field>, refs: seq<string>, mode: Mode): (r: seq<Field>)
    ensures |r| == |fs|
    ensures forall k :: 0 <= k < |fs| ==> r[k] == Field(fs[k].names, RewriteExpr(fs[k].typ, refs, mode))
  {
    seq(|fs|, k requires 0 <= k < |fs| => Field(fs[k].names, RewriteExpr(fs[k].typ, refs, mode)))
  }

  function RewriteStmt(s: Stmt, refs: seq<string>, mode: Mode): Stmt {
    match s
    case Plain(es) => Plain(seq(|es|, k requires 0 <= k < |es| => RewriteExpr(es[k], refs, mode)))
    case _ => s
  }

  /** BeforeInvoke and AfterInvoke: a pointer-typed first parameter is made to point at Invocation, whatever it pointed at. */
  predicate TakesInvocation(d: FuncDecl) {
    (d.name == "BeforeInvoke" || d.name == "AfterInvoke") && |d.params| > 0 && d.params[0].typ.Star?
  }

  function InvocationParameter(d: FuncDecl): (r: FuncDecl)
    ensures r.name == d.name && r.recv == d.recv && r.results == d.results && r.body == d.body
    ensures TakesInvocation(d) ==> r.params == d.params[0 := Field(d.params[0].names, Star(Ident("Invocation")))]
    ensures !TakesInvocation(d) ==> r == d
  {
    if TakesInvocation(d) then d.(params := d.params[0 := Field(d.params[0].names, Star(Ident("Invocation")))])
    else d
  }

  /** One top-level declaration: the BeforeInvoke/AfterInvoke edit first, then the expression rewrite throughout. */
  function RewriteNode(n: Node, refs: seq<string>, mode: Mode): Node {
    match n
    case FuncNode(d0) =>
      var d := InvocationParameter(d0);
      FuncNode(FuncDecl(
        d.name,
        if d.recv.Some? then Some(RewriteFields(d.recv.value, refs, mode)) else None,
        RewriteFields(d.params, refs, mode),
        if d.results.Some? then Some(RewriteFields(d.results.value, refs, mode)) else None,
        if d.body.Some? then Some(seq(|d.body.value|, k requires 0 <= k < |d.body.value| => RewriteStmt(d.body.value[k], refs, mode)))
        else None))
    case TypeNode(spec) => TypeNode(TypeSpec(spec.name, RewriteExpr(spec.typ, refs, mode)))
    case OtherNode => n
  }

  /**
   * The whole interceptor-source rewrite. Imports precede declarations in a
   * Go file, so the removal list is complete before any reference is seen.
   */
  function RewriteFile(f: File, importPath: string, mode: Mode): (r: File)
    ensures r.pkg == f.pkg
    ensures forall s :: s in r.imports <==> s in f.imports && !IsCoreImport(s) && !IsInstrumentedImport(s, importPath)
    ensures |r.decls| == |f.decls|
  {
    var refs := RemovalList(f.imports, importPath);
    RewriteImportsSpec(f.imports, importPath);
    File(f.pkg, RewriteImports(f.imports, importPath).0,
         seq(|f.decls|, k requires 0 <= k < |f.decls| => RewriteNode(f.decls[k], refs, mode)))
  }

  /**
   * An interceptor's `BeforeInvoke(invocation *core.Invocation) error` comes
   * out as `BeforeInvoke(invocation *Invocation) error`, under either rewrite.
   */
  lemma BeforeInvokeSignature(recv: Option<seq<Field>>, refs: seq<string>, mode: Mode)
    requires "core" in refs
    requires recv.Some? ==> forall k :: 0 <= k < |recv.value| ==> recv.value[k].typ.Ident?
    ensures var d := FuncDecl("BeforeInvoke", recv, [Field(["invocation"], Star(Selector(Ident("core"), "Invocation")))],
                              Some([Field([], Ident("error"))]), None);
            RewriteNode(FuncNode(d), refs, mode)
            == FuncNode(FuncDecl("BeforeInvoke", recv, [Field(["invocation"], Star(Ident("Invocation")))],
                                 Some([Field([], Ident("error"))]), None))
  {
    if recv.Some? {
      assert RewriteFields(recv.value, refs, mode) == recv.value;
    }
    assert RewriteFields([Field([], Ident("error"))], refs, mode) == [Field([], Ident("error"))];
  }
}
