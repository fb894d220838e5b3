/**
 * The framework instrumenter (cmd/framework.go): for every point a framework
 * registers, it prepends an invoker to the matched method, records the
 * method, and afterwards writes the pre/post adapters that bridge to the
 * framework's interceptor, a glue file, and the rewritten interceptor sources.
 */
module Framework {
  import opened Wrappers
  import opened Ast
  import opened GoStd
  import opened Params
  import opened Hooks
  import Core
  import Gin
  import InterceptorSource

  /** The prefix of every generated adapter name. */
  const GeneratePrefix: string := "_skywalking_enhance_"

  /** The registered frameworks, in registration order: gin only. */
  function Registry(ginAssets: seq<Core.Entry>): (r: seq<Core.Instrument>)
    ensures |r| == 1 && r[0].basePackage == "github.com/gin-gonic/gin"
  {
    [Gin.Instrument(ginAssets)]
  }

  /** Evaluating a point's method filter: what each registered closure reads, and its answer. */
  predicate FilterDefined(f: Core.MethodFilter, n: Node) {
    match f
    case GinHandleHTTPRequest => Gin.FilterMethodDefined(n)
  }

  function FilterMethod(f: Core.MethodFilter, n: Node): (r: bool)
    requires FilterDefined(f, n)
    ensures r ==> n.FuncNode?
  {
    match f
    case GinHandleHTTPRequest => Gin.FilterMethod(n)
  }

  /** buildFrameworkFuncID indexes the receiver list it is given. */
  predicate FuncIDDefined(d: FuncDecl) {
    d.recv.Some? ==> d.recv.value != []
  }

  /** The receiver part of an ID: "" for a function, the type name for a `*T` receiver, None for any other receiver. */
  function ReceiverName(d: FuncDecl): Option<string>
    requires FuncIDDefined(d)
  {
    if d.recv.None? then Some("")
    else
      var t := d.recv.value[0].typ;
      if t.Star? && t.x.Ident? then Some(t.x.name) else None
  }

  /** buildFrameworkFuncID: the import path with `/ . - @` made `_`, then `_`, the receiver type and the name; "" for an unusable receiver. */
  function FuncID(pkgPath: string, d: FuncDecl): string
    requires FuncIDDefined(d)
  {
    match ReceiverName(d)
    case Some(recv) => UnderscorePunctuation(pkgPath) + "_" + recv + d.name
    case None => ""
  }

  /** The ID reads nothing of the parameter names, so naming a declaration's fields leaves it unchanged. */
  lemma FuncIDIgnoresNames(pkgPath: string, d: FuncDecl)
    requires FuncIDDefined(d)
    ensures var renamed := d.(recv := if d.recv.Some? then Some(EnhancedFields(d.recv.value)) else None,
                              params := EnhancedFields(d.params),
                              results := if d.results.Some? then Some(EnhancedFields(d.results.value)) else None);
            FuncIDDefined(renamed) && FuncID(pkgPath, renamed) == FuncID(pkgPath, d)
  {
  }

  /**
   * The three shapes of an ID: the mapped path, `_` and the name for a
   * function; the receiver type in between for a `*T` receiver; "" for any
   * other receiver, and only then. The path part holds no `/ . - @`.
   */
  lemma FuncIDShape(pkgPath: string, d: FuncDecl)
    requires FuncIDDefined(d)
    ensures FuncID(pkgPath, d) == "" <==> d.recv.Some? && !(d.recv.value[0].typ.Star? && d.recv.value[0].typ.x.Ident?)
    ensures d.recv.None? ==> FuncID(pkgPath, d) == UnderscorePunctuation(pkgPath) + "_" + d.name
    ensures d.recv.Some? && d.recv.value[0].typ.Star? && d.recv.value[0].typ.x.Ident? ==>
              FuncID(pkgPath, d) == UnderscorePunctuation(pkgPath) + "_" + d.recv.value[0].typ.x.name + d.name
    ensures FuncID(pkgPath, d) != "" ==>
              |FuncID(pkgPath, d)| > |pkgPath| &&
              forall k :: 0 <= k < |pkgPath| ==> !IsPathPunctuation(FuncID(pkgPath, d)[k])
  {
  }

  /** The adapter names derived from an ID: `<prefix><id>` and `<prefix><id>_ret`, never equal. */
  function AdapterNames(id: string): (r: (string, string))
    ensures r.0 == GeneratePrefix + id
    ensures r.1 == r.0 + "_ret" && r.0 != r.1
  {
    var pre := GeneratePrefix + id;
    assert |pre + "_ret"| > |pre|;
    (pre, pre + "_ret")
  }

  /** The import path of a point: the framework's base package joined with the point's package path. */
  function ImportPath(p: Core.InstrumentPoint, i: Core.Instrument): string {
    Join(i.basePackage, p.packagePath)
  }

  /**
   * FrameworkEnhanceMethodInfo: the point and framework a method was matched
   * for, one ParameterInfo per parameter, receiver and result field, and the
   * names of its two adapters.
   */
  datatype MethodInfo = MethodInfo(
    point: Core.InstrumentPoint,
    inst: Core.Instrument,
    params: seq<ParameterInfo>,
    recvs: seq<ParameterInfo>,
    results: seq<ParameterInfo>,
    preName: string,
    postName: string)

  /** Naming a declaration's parameters, results and receiver, as enhanceParameterNames does to each list. */
  function Renamed(d: FuncDecl): FuncDecl {
    d.(recv := if d.recv.Some? then Some(EnhancedFields(d.recv.value)) else None,
       params := EnhancedFields(d.params),
       results := if d.results.Some? then Some(EnhancedFields(d.results.value)) else None)
  }

  /** The record NewFrameworkEnhanceMethodInfo builds for `d`, and `d` with its fields named. */
  function MethodInfoOf(p: Core.InstrumentPoint, i: Core.Instrument, d: FuncDecl): (MethodInfo, FuncDecl)
    requires FuncIDDefined(d)
  {
    var renamed := Renamed(d);
    FuncIDIgnoresNames(ImportPath(p, i), d);
    var names := AdapterNames(FuncID(ImportPath(p, i), renamed));
    (MethodInfo(p, i, ParamInfos(d.params),
                if d.recv.Some? then ParamInfos(d.recv.value) else [],
                if d.results.Some? then ParamInfos(d.results.value) else [],
                names.0, names.1),
     renamed)
  }

  /** The record has one entry per field, names its adapters after the original declaration, and the renaming touches nothing else. */
  lemma MethodInfoShape(p: Core.InstrumentPoint, i: Core.Instrument, d: FuncDecl)
    requires FuncIDDefined(d)
    ensures var (info, renamed) := MethodInfoOf(p, i, d);
            |info.params| == |d.params| &&
            |info.recvs| == (if d.recv.Some? then |d.recv.value| else 0) &&
            |info.results| == (if d.results.Some? then |d.results.value| else 0) &&
            (info.preName, info.postName) == AdapterNames(FuncID(ImportPath(p, i), d)) &&
            renamed.name == d.name && renamed.body == d.body &&
            renamed.recv.Some? == d.recv.Some? && renamed.results.Some? == d.results.Some? &&
            forall k :: 0 <= k < |d.params| ==> renamed.params[k].names != [] && info.params[k].name == renamed.params[k].names[0]
  {
    FuncIDIgnoresNames(ImportPath(p, i), d);
  }

  /** NewFrameworkEnhanceMethodInfo: parameters, then results, then the receiver when there is one, then the adapter names. */
  method NewFrameworkEnhanceMethodInfo(p: Core.InstrumentPoint, i: Core.Instrument, d: FuncDecl)
    returns (info: MethodInfo, decl: FuncDecl)
    requires FuncIDDefined(d)
    ensures (info, decl) == MethodInfoOf(p, i, d)
  {
    var params, paramInfos := EnhanceParameterNames(Some(d.params));
    var results, resultInfos := EnhanceParameterNames(d.results);
    var recv := d.recv;
    var recvInfos: seq<ParameterInfo> := [];
    if d.recv.Some? {
      var infos;
      recv, infos := EnhanceParameterNames(d.recv);
      recvInfos := infos.value;
    }
    decl := d.(recv := recv, params := params.value, results := results);
    FuncIDIgnoresNames(ImportPath(p, i), d);
    var id := FuncID(Join(i.basePackage, p.packagePath), decl);
    info := MethodInfo(p, i, paramInfos.value, recvInfos, resultInfos.GetOr([]),
                       GeneratePrefix + id, GeneratePrefix + id + "_ret");
  }

  /** The variables the invoker binds: `_sw_inv_res<i>` per result, then `_sw_invocation` and `_sw_keep`. */
  function ResultVar(i: nat): string {
    "_sw_inv_res" + NatToString(i)
  }

  const InvocationVar: string := "_sw_invocation"
  const KeepVar: string := "_sw_keep"

  /** `&name` for each field. */
  function Refs(infos: seq<ParameterInfo>): (r: seq<string>)
    ensures |r| == |infos|
    ensures forall k :: 0 <= k < |infos| ==> r[k] == "&" + infos[k].name
  {
    seq(|infos|, k requires 0 <= k < |infos| => "&" + infos[k].name)
  }

  /**
   * The invoker statement: `if <results>, _sw_invocation, _sw_keep :=
   * <pre>(<&recvs>, <&params>); !_sw_keep { return <results> } else { defer
   * <post>(_sw_invocation, <&results>) }`.
   */
  function InvokerOf(info: MethodInfo): Stmt {
    Invoker(seq(|info.results|, k requires 0 <= k < |info.results| => ResultVar(k)),
            info.preName, Refs(info.recvs) + Refs(info.params),
            info.postName, Refs(info.results))
  }

  /** The invoker's bindings are pairwise distinct and never the invocation or keep variable, and it passes one reference per receiver and parameter. */
  lemma {:induction false} InvokerBindings(info: MethodInfo)
    ensures var s := InvokerOf(info);
            |s.results| == |info.results| &&
            (forall j, k :: 0 <= j < k < |s.results| ==> s.results[j] != s.results[k]) &&
            InvocationVar !in s.results && KeepVar !in s.results &&
            |s.preArgs| == |info.recvs| + |info.params| && |s.postArgs| == |info.results|
  {
    var s := InvokerOf(info);
    forall j, k | 0 <= j < k < |s.results| ensures s.results[j] != s.results[k] {
      if s.results[j] == s.results[k] {
        PrefixedNumberInjective("_sw_inv_res", j, k);
      }
    }
    forall k | 0 <= k < |s.results| ensures s.results[k] != InvocationVar && s.results[k] != KeepVar {
      assert s.results[k] == "_sw_inv_res" + NatToString(k);
      assert s.results[k][7] == '_' && InvocationVar[7] == 'o';
      assert s.results[k][4] == 'i' && KeepVar[4] == 'k';
    }
  }

  /** BuildForInvoker: the one statement prepended to the matched method's body. */
  method BuildForInvoker(info: MethodInfo) returns (stmts: seq<Stmt>)
    ensures stmts == [InvokerOf(info)]
  {
    var resultVars: seq<string> := [];
    for inx := 0 to |info.results|
      invariant |resultVars| == inx
      invariant forall k :: 0 <= k < inx ==> resultVars[k] == ResultVar(k)
    {
      resultVars := resultVars + ["_sw_inv_res" + NatToString(inx)];
    }
    assert resultVars == InvokerOf(info).results;
    var invokerParams: seq<string> := [];
    for k := 0 to |info.recvs|
      invariant invokerParams == Refs(info.recvs[..k])
    {
      invokerParams := invokerParams + ["&" + info.recvs[k].name];
    }
    assert info.recvs[..|info.recvs|] == info.recvs;
    for k := 0 to |info.params|
      invariant invokerParams == Refs(info.recvs) + Refs(info.params[..k])
    {
      invokerParams := invokerParams + ["&" + info.params[k].name];
    }
    assert info.params[..|info.params|] == info.params;
    var realResults: seq<string> := [];
    for k := 0 to |info.results|
      invariant realResults == Refs(info.results[..k])
    {
      realResults := realResults + ["&" + info.results[k].name];
    }
    assert info.results[..|info.results|] == info.results;
    stmts := [Invoker(resultVars, info.preName, invokerParams, info.postName, realResults)];
  }

  /** Fields `<prefix><i> *T`, one per ParameterInfo, pointing at its type. */
  function PointerFields(prefix: string, infos: seq<ParameterInfo>): (r: seq<Field>)
    ensures |r| == |infos|
    ensures forall k :: 0 <= k < |infos| ==> r[k] == PointerField(prefix, k, infos[k].typ)
  {
    seq(|infos|, k requires 0 <= k < |infos| => PointerField(prefix, k, infos[k].typ))
  }

  /** The field `<prefix><i> *T`. */
  function PointerField(prefix: string, i: nat, t: Expr): Field {
    Field([prefix + NatToString(i)], Star(t))
  }

  /** The default-value tokens of the results, in order. */
  function DefaultTokens(infos: seq<ParameterInfo>): (r: seq<string>)
    ensures |r| == |infos|
    ensures forall k :: 0 <= k < |infos| ==> r[k] == infos[k].defaultValue
  {
    seq(|infos|, k requires 0 <= k < |infos| => infos[k].defaultValue)
  }

  const InvocationPointer: Expr := Star(Ident("Invocation"))

  /**
   * The pre-adapter: `(recv_i *R..., param_i *P...) (ret_i *T..., inv
   * *Invocation, keep bool)`, whose body builds the invocation and asks the
   * interceptor's BeforeInvoke.
   */
  function PreAdapterOf(info: MethodInfo): FuncDecl {
    FuncDecl(info.preName, None,
             PointerFields("recv_", info.recvs) + PointerFields("param_", info.params),
             Some(PointerFields("ret_", info.results) + [Field(["inv"], InvocationPointer), Field(["keep"], Ident("bool"))]),
             Some([PreProtocol(info.point.interceptorName, |info.recvs| > 0, |info.params|, DefaultTokens(info.results))]))
  }

  /** The post-adapter: `(invocation *Invocation, ret_i *T...)`, whose body calls the interceptor's AfterInvoke. */
  function PostAdapterOf(info: MethodInfo): FuncDecl {
    FuncDecl(info.postName, None,
             [Field(["invocation"], InvocationPointer)] + PointerFields("ret_", info.results),
             Some([]),
             Some([PostProtocol(info.point.interceptorName, |info.results|)]))
  }

  /** The adapters answer to the invoker's names, and take one pointer per reference it passes or binds. */
  lemma AdapterArities(info: MethodInfo)
    ensures var pre := PreAdapterOf(info);
            var post := PostAdapterOf(info);
            var site := InvokerOf(info);
            pre.name == site.pre && post.name == site.post &&
            |pre.params| == |site.preArgs| && |pre.results.value| == |site.results| + 2 &&
            |post.params| == 1 + |site.postArgs|
  {
  }

  /** Each adapter field points at the type of the field it stands for, in the invoker's order. */
  lemma {:induction false} AdapterFieldTypes(info: MethodInfo)
    ensures var pre := PreAdapterOf(info);
            var post := PostAdapterOf(info);
            (forall k :: 0 <= k < |info.recvs| ==> pre.params[k].typ == Star(info.recvs[k].typ)) &&
            (forall k :: 0 <= k < |info.params| ==> pre.params[|info.recvs| + k].typ == Star(info.params[k].typ)) &&
            (forall k :: 0 <= k < |info.results| ==>
               pre.results.value[k].typ == Star(info.results[k].typ) && post.params[1 + k].typ == Star(info.results[k].typ)) &&
            pre.results.value[|info.results|].typ == InvocationPointer && post.params[0].typ == InvocationPointer
  {
    var rf := PointerFields("recv_", info.recvs);
    var pf := PointerFields("param_", info.params);
    var tf := PointerFields("ret_", info.results);
    forall k | 0 <= k < |info.params| ensures (rf + pf)[|info.recvs| + k] == pf[k] {
    }
    forall k | 0 <= k < |info.results| ensures ([Field(["invocation"], InvocationPointer)] + tf)[1 + k] == tf[k] {
    }
  }

  /**
   * Rendering the adapter bodies as the source's templates are written: the
   * loop over the results evaluates `.index`, a field ParameterInfo does not
   * have, so rendering fails (and BuildForAdapter panics) for any method with
   * a result; without results both bodies render.
   */
  function RenderAdapterBodiesAsWritten(info: MethodInfo): (r: Option<(seq<Stmt>, seq<Stmt>)>)
    ensures r.Some? <==> info.results == []
    ensures r.Some? ==> r.value == (PreAdapterOf(info).body.value, PostAdapterOf(info).body.value)
  {
    if info.results != [] then None
    else Some((PreAdapterOf(info).body.value, PostAdapterOf(info).body.value))
  }

  /** One loop of BuildForAdapter: a `<prefix><i> *T` field per ParameterInfo. */
  method BuildPointerFields(prefix: string, infos: seq<ParameterInfo>) returns (fields: seq<Field>)
    ensures fields == PointerFields(prefix, infos)
  {
    fields := [];
    for i := 0 to |infos|
      invariant |fields| == i
      invariant forall k :: 0 <= k < i ==> fields[k] == PointerField(prefix, k, infos[k].typ)
    {
      fields := fields + [PointerField(prefix, i, infos[i].typ)];
    }
  }

  /** The default tokens the pre-adapter's returns carry, one per result. */
  method CollectDefaults(infos: seq<ParameterInfo>) returns (tokens: seq<string>)
    ensures tokens == DefaultTokens(infos)
  {
    tokens := [];
    for i := 0 to |infos|
      invariant |tokens| == i
      invariant forall k :: 0 <= k < i ==> tokens[k] == infos[k].defaultValue
    {
      tokens := tokens + [infos[i].defaultValue];
    }
  }

  /** BuildForAdapter: the pre-adapter, then the post-adapter. */
  method BuildForAdapter(info: MethodInfo) returns (decls: seq<FuncDecl>)
    ensures decls == [PreAdapterOf(info), PostAdapterOf(info)]
  {
    var recvFields := BuildPointerFields("recv_", info.recvs);
    var paramFields := BuildPointerFields("param_", info.params);
    var retFields := BuildPointerFields("ret_", info.results);
    var preResults := retFields + [Field(["inv"], Star(Ident("Invocation"))), Field(["keep"], Ident("bool"))];
    var defaults := CollectDefaults(info.results);
    var preFunc := FuncDecl(info.preName, None, recvFields + paramFields, Some(preResults),
                            Some([PreProtocol(info.point.interceptorName, |info.recvs| > 0, |info.params|, defaults)]));
    var postFunc := FuncDecl(info.postName, None, [Field(["invocation"], Star(Ident("Invocation")))] + retFields, Some([]),
                             Some([PostProtocol(info.point.interceptorName, |info.results|)]));
    decls := [preFunc, postFunc];
  }

  // ---------------------------------------------------------------------
  // What the generated code does when the instrumented method is called.
  // ---------------------------------------------------------------------

  /** What the interceptor's BeforeInvoke did: whether it returned an error, and the invocation afterwards. */
  datatype BeforeOutcome = BeforeOutcome(failed: bool, invocation: Core.Invocation)

  /** What a pre-adapter returns: the result defaults, the invocation and keep. */
  datatype PreOutcome = PreOutcome(rets: seq<Core.Value>, invocation: Core.Invocation, keep: bool)

  /** The deferred post-adapter call: the invocation and the method's results as AfterInvoke sees them. */
  datatype AfterCall = AfterCall(invocation: Core.Invocation, results: seq<Core.Value>)

  /** One call of the instrumented method: what it returns, whether its original body ran, and the AfterInvoke call. */
  datatype Execution = Execution(results: seq<Core.Value>, ranOriginal: bool, after: Option<AfterCall>)

  function Literals(tokens: seq<string>): (r: seq<Core.Value>)
    ensures |r| == |tokens|
    ensures forall k :: 0 <= k < |tokens| ==> r[k] == Core.Literal(tokens[k])
  {
    seq(|tokens|, k requires 0 <= k < |tokens| => Core.Literal(tokens[k]))
  }

  /**
   * Running a pre-adapter on the values its pointer arguments point at:
   * CallerInstance is the receiver pointer, Args the parameter values; an
   * error from BeforeInvoke answers keep=true, Continue answers keep=false,
   * anything else keep=true. None when `pre` is not a generated pre-adapter
   * for that many arguments.
   */
  function RunPreAdapter(pre: FuncDecl, vals: seq<Core.Value>, before: Core.Invocation -> BeforeOutcome): Option<PreOutcome> {
    if pre.body.None? || |pre.body.value| != 1 || !pre.body.value[0].PreProtocol? then None
    else
      var p := pre.body.value[0];
      if |vals| != |pre.params| || p.argCount > |vals| || (p.hasCaller && p.argCount == |vals|) then None
      else
        var recvCount := |vals| - p.argCount;
        var invocation := Core.Invocation(if p.hasCaller then Some(Core.Pointer(vals[0])) else None, vals[recvCount..], false, []);
        var b := before(invocation);
        var defaults := Literals(p.defaults);
        if b.failed then Some(PreOutcome(defaults, b.invocation, true))
        else if b.invocation.continueFlag then Some(PreOutcome(defaults, b.invocation, false))
        else Some(PreOutcome(defaults, b.invocation, true))
  }

  /** The values `&x, &y, ...` point at in `env`; None when one is not a reference to a variable of `env`. */
  function Resolve(refs: seq<string>, env: map<string, Core.Value>): (r: Option<seq<Core.Value>>)
    ensures r.Some? ==> |r.value| == |refs|
  {
    if refs == [] then Some([])
    else if |refs[0]| >= 1 && refs[0][0] == '&' && refs[0][1..] in env then
      match Resolve(refs[1..], env)
      case Some(rest) => Some([env[refs[0][1..]]] + rest)
      case None => None
    else None
  }

  /**
   * Calling a method whose body starts with the invoker `site`, given the
   * adapters, the variables in scope, the interceptor's BeforeInvoke and the
   * results the original body produces. When keep is false the invoker
   * returns the pre-adapter's results at once and nothing is deferred;
   * otherwise the original body runs and the deferred post-adapter hands
   * its results to AfterInvoke. None when the pieces do not fit together.
   */
  function Execute(site: Stmt, pre: FuncDecl, post: FuncDecl, env: map<string, Core.Value>,
                   before: Core.Invocation -> BeforeOutcome, original: seq<Core.Value>): Option<Execution>
  {
    if !site.Invoker? || site.pre != pre.name || site.post != post.name then None
    else
      match Resolve(site.preArgs, env)
      case None => None
      case Some(vals) =>
        match RunPreAdapter(pre, vals, before)
        case None => None
        case Some(p) =>
          if |p.rets| != |site.results| then None
          else if !p.keep then Some(Execution(p.rets, false, None))
          else if post.body.None? || |post.body.value| != 1 || !post.body.value[0].PostProtocol?
                  || post.body.value[0].resultCount != |site.postArgs|
                  || |post.params| != 1 + |site.postArgs| || |original| != |site.postArgs| then None
          else Some(Execution(original, true, Some(AfterCall(p.invocation, original))))
  }

  lemma {:induction false} ResolveRefs(infos: seq<ParameterInfo>, env: map<string, Core.Value>)
    requires forall k :: 0 <= k < |infos| ==> infos[k].name in env
    ensures Resolve(Refs(infos), env) == Some(EnvValues(infos, env))
  {
    var refs := Refs(infos);
    if infos == [] {
      assert refs == [];
    } else {
      ResolveRefs(infos[1..], env);
      assert refs[1..] == Refs(infos[1..]);
      assert refs[0] == "&" + infos[0].name;
      assert refs[0][1..] == infos[0].name;
      assert [env[infos[0].name]] + EnvValues(infos[1..], env) == EnvValues(infos, env);
    }
  }

  /** The values of the named fields in `env`. */
  function EnvValues(infos: seq<ParameterInfo>, env: map<string, Core.Value>): (r: seq<Core.Value>)
    requires forall k :: 0 <= k < |infos| ==> infos[k].name in env
    ensures |r| == |infos| && forall k :: 0 <= k < |infos| ==> r[k] == env[infos[k].name]
  {
    seq(|infos|, k requires 0 <= k < |infos| => env[infos[k].name])
  }

  lemma {:induction false} ResolveAppend(a: seq<string>, b: seq<string>, env: map<string, Core.Value>)
    requires Resolve(a, env).Some? && Resolve(b, env).Some?
    ensures Resolve(a + b, env) == Some(Resolve(a, env).value + Resolve(b, env).value)
  {
    if a == [] {
      assert a + b == b;
      assert [] + Resolve(b, env).value == Resolve(b, env).value;
    } else {
      assert (a + b)[1..] == a[1..] + b && (a + b)[0] == a[0];
      ResolveAppend(a[1..], b, env);
      var x := env[a[0][1..]];
      assert Resolve(a, env).value == [x] + Resolve(a[1..], env).value;
      assert [x] + (Resolve(a[1..], env).value + Resolve(b, env).value)
             == ([x] + Resolve(a[1..], env).value) + Resolve(b, env).value;
    }
  }

  /** The invocation BeforeInvoke is handed for a call of the recorded method in `env`. */
  function InitialInvocation(info: MethodInfo, env: map<string, Core.Value>): Core.Invocation
    requires forall k :: 0 <= k < |info.recvs| ==> info.recvs[k].name in env
    requires forall k :: 0 <= k < |info.params| ==> info.params[k].name in env
  {
    Core.Invocation(if info.recvs != [] then Some(Core.Pointer(env[info.recvs[0].name])) else None,
                    EnvValues(info.params, env), false, [])
  }

  /**
   * End to end, the generated invoker and adapters implement the interceptor
   * protocol: BeforeInvoke sees the receiver pointer and the argument
   * values; if it fails, or does not set Continue, the original body runs
   * and AfterInvoke receives its results; if it sets Continue (without
   * failing), the method returns the results' default values at once and
   * AfterInvoke is not called.
   */
  lemma InterceptorProtocol(info: MethodInfo, env: map<string, Core.Value>,
                            before: Core.Invocation -> BeforeOutcome, original: seq<Core.Value>)
    requires forall k :: 0 <= k < |info.recvs| ==> info.recvs[k].name in env
    requires forall k :: 0 <= k < |info.params| ==> info.params[k].name in env
    requires |original| == |info.results|
    ensures var e := Execute(InvokerOf(info), PreAdapterOf(info), PostAdapterOf(info), env, before, original);
            var b := before(InitialInvocation(info, env));
            e.Some? &&
            (b.failed ==> e.value == Execution(original, true, Some(AfterCall(b.invocation, original)))) &&
            (!b.failed && b.invocation.continueFlag ==>
               e.value == Execution(Literals(DefaultTokens(info.results)), false, None)) &&
            (!b.failed && !b.invocation.continueFlag ==>
               e.value == Execution(original, true, Some(AfterCall(b.invocation, original))))
  {
    PreAdapterRuns(info, env, before);
    AdapterArities(info);
    InvokerBindings(info);
    ExecuteFitting(InvokerOf(info), PreAdapterOf(info), PostAdapterOf(info), env, before, original);
  }

  /** When the invoker and the adapters fit together, the call follows the pre-adapter's keep answer. */
  lemma ExecuteFitting(site: Stmt, pre: FuncDecl, post: FuncDecl, env: map<string, Core.Value>,
                       before: Core.Invocation -> BeforeOutcome, original: seq<Core.Value>)
    requires site.Invoker? && site.pre == pre.name && site.post == post.name
    requires Resolve(site.preArgs, env).Some?
    requires RunPreAdapter(pre, Resolve(site.preArgs, env).value, before).Some?
    requires |RunPreAdapter(pre, Resolve(site.preArgs, env).value, before).value.rets| == |site.results|
    requires post.body.Some? && |post.body.value| == 1 && post.body.value[0].PostProtocol?
    requires post.body.value[0].resultCount == |site.postArgs| == |original|
    requires |post.params| == 1 + |site.postArgs|
    ensures var p := RunPreAdapter(pre, Resolve(site.preArgs, env).value, before).value;
            Execute(site, pre, post, env, before, original)
            == if p.keep then Some(Execution(original, true, Some(AfterCall(p.invocation, original))))
               else Some(Execution(p.rets, false, None))
  {
  }

  /** The invoker resolves the receiver and parameter references, and the pre-adapter hands BeforeInvoke the initial invocation. */
  lemma PreAdapterRuns(info: MethodInfo, env: map<string, Core.Value>, before: Core.Invocation -> BeforeOutcome)
    requires forall k :: 0 <= k < |info.recvs| ==> info.recvs[k].name in env
    requires forall k :: 0 <= k < |info.params| ==> info.params[k].name in env
    ensures var vals := Resolve(InvokerOf(info).preArgs, env);
            var b := before(InitialInvocation(info, env));
            vals.Some? &&
            RunPreAdapter(PreAdapterOf(info), vals.value, before)
              == Some(PreOutcome(Literals(DefaultTokens(info.results)), b.invocation, b.failed || !b.invocation.continueFlag))
  {
    var site := InvokerOf(info);
    var pre := PreAdapterOf(info);
    ResolveRefs(info.recvs, env);
    ResolveRefs(info.params, env);
    ResolveAppend(Refs(info.recvs), Refs(info.params), env);
    var rv := EnvValues(info.recvs, env);
    var pv := EnvValues(info.params, env);
    var vals := rv + pv;
    assert Resolve(site.preArgs, env) == Some(vals);
    assert vals[|rv|..] == pv;
    assert |vals| == |pre.params|;
  }

  // ---------------------------------------------------------------------
  // The instrumenter object.
  // ---------------------------------------------------------------------

  /** The points of one framework, each in `<base>/<packagePath>`. */
  function PointsOf(inst: Core.Instrument): (r: seq<HookPoint>)
    ensures |r| == |inst.points|
    ensures forall k :: 0 <= k < |inst.points| ==>
              r[k] == HookPoint(ImportPath(inst.points[k], inst), inst.points[k].fileName, EnhanceMethod(inst.points[k], inst))
  {
    seq(|inst.points|, k requires 0 <= k < |inst.points| =>
          HookPoint(ImportPath(inst.points[k], inst), inst.points[k].fileName, EnhanceMethod(inst.points[k], inst)))
  }

  /** Every registered framework's points, framework by framework. */
  function FrameworkPoints(registry: seq<Core.Instrument>): seq<HookPoint> {
    if registry == [] then []
    else FrameworkPoints(registry[..|registry| - 1]) + PointsOf(registry[|registry| - 1])
  }

  /** Each point produced for a registry belongs to one of its frameworks and to one of that framework's points, at that point's package and file. */
  lemma {:induction false} FrameworkPointsSound(registry: seq<Core.Instrument>, hp: HookPoint)
    requires hp in FrameworkPoints(registry)
    ensures hp.action.EnhanceMethod?
    ensures hp.action.inst in registry && hp.action.point in hp.action.inst.points
    ensures hp.pkg == ImportPath(hp.action.point, hp.action.inst) && hp.file == hp.action.point.fileName
  {
    if registry != [] {
      var init := registry[..|registry| - 1];
      if hp in FrameworkPoints(init) {
        FrameworkPointsSound(init, hp);
      }
    }
  }

  /** ... and every point of every framework is produced. */
  lemma {:induction false} FrameworkPointsComplete(registry: seq<Core.Instrument>, i: nat, k: nat)
    requires i < |registry| && k < |registry[i].points|
    ensures HookPoint(ImportPath(registry[i].points[k], registry[i]), registry[i].points[k].fileName,
                      EnhanceMethod(registry[i].points[k], registry[i])) in FrameworkPoints(registry)
  {
    var init := registry[..|registry| - 1];
    if i < |registry| - 1 {
      assert init[i] == registry[i];
      FrameworkPointsComplete(init, i, k);
    } else {
      assert PointsOf(registry[i])[k] in PointsOf(registry[i]);
    }
  }

  /** With gin registered, there is one point: gin.go of `github.com/gin-gonic/gin`. */
  lemma GinPoints(assets: seq<Core.Entry>)
    ensures FrameworkPoints(Registry(assets))
            == [HookPoint("github.com/gin-gonic/gin", "gin.go", EnhanceMethod(Gin.Points()[0], Gin.Instrument(assets)))]
  {
    var inst := Gin.Instrument(assets);
    assert Registry(assets)[..0] == [];
    assert TrimTrailingSlashes("github.com/gin-gonic/gin") == "github.com/gin-gonic/gin";
    assert ImportPath(inst.points[0], inst) == "github.com/gin-gonic/gin";
  }

  /** What the point's edit reads: the filter's inputs, and the receiver list and body of a matched method. */
  predicate EditDefined(p: Core.InstrumentPoint, n: Node) {
    FilterDefined(p.filterMethod, n) &&
    (FilterMethod(p.filterMethod, n) ==> FuncIDDefined(n.decl) && n.decl.body.Some?)
  }

  /**
   * The point's FilterAndEdit on one node: an unmatched node is left alone;
   * a matched method gets its fields named and the invoker in front of its
   * original statements, and its record is produced.
   */
  function EnhanceMethodEdit(p: Core.InstrumentPoint, i: Core.Instrument, n: Node): (bool, Node, seq<MethodInfo>)
    requires EditDefined(p, n)
  {
    if !FilterMethod(p.filterMethod, n) then (false, n, [])
    else
      var (info, renamed) := MethodInfoOf(p, i, n.decl);
      (true, FuncNode(renamed.(body := Some([InvokerOf(info)] + renamed.body.value))), [info])
  }

  /** The edit changes a node exactly when the filter accepts it; the original statements follow the invoker unchanged. */
  lemma EnhanceMethodEditShape(p: Core.InstrumentPoint, i: Core.Instrument, n: Node)
    requires EditDefined(p, n)
    ensures var (hit, m, infos) := EnhanceMethodEdit(p, i, n);
            (hit <==> FilterMethod(p.filterMethod, n)) &&
            (!hit ==> m == n && infos == []) &&
            (hit ==> |infos| == 1 && m.FuncNode? && m.decl.name == n.decl.name && m.decl.body.Some? &&
                     m.decl.body.value == [InvokerOf(infos[0])] + n.decl.body.value &&
                     m.decl.body.value[0].pre == infos[0].preName &&
                     |m.decl.params| == |n.decl.params| &&
                     infos[0].point == p && infos[0].inst == i)
  {
  }

  /** Which interceptor sources are copied: root files other than go.mod, go.sum and instrument.go. */
  predicate Copied(e: Core.Entry) {
    !e.isDir && e.name != "go.mod" && e.name != "go.sum" && e.name != "instrument.go"
  }

  /** The interceptor sources, rewritten as the source does it, in directory order, as `<basePath>/sw_enhance_<name>`; the first that does not parse is an error. */
  function CopyInterceptors(entries: seq<Core.Entry>, basePath: string, importPath: string): Result<seq<WrittenFile>, Error> {
    if entries == [] then Ok([])
    else
      var e := entries[0];
      if !Copied(e) then CopyInterceptors(entries[1..], basePath, importPath)
      else if e.source.None? then Err(ParseError)
      else
        match CopyInterceptors(entries[1..], basePath, importPath)
        case Err(err) => Err(err)
        case Ok(rest) =>
          Ok([WrittenFile(Join(basePath, "sw_enhance_" + e.name),
                          Interceptor(InterceptorSource.RewriteFile(e.source.value, importPath, InterceptorSource.AsWritten)))]
             + rest)
  }

  /** Copying fails exactly when some copied source does not parse; otherwise every copied entry gives one file, in order. */
  lemma CopyInterceptorsShape(entries: seq<Core.Entry>, basePath: string, importPath: string)
    ensures var r := CopyInterceptors(entries, basePath, importPath);
            (r.Err? <==> exists k :: 0 <= k < |entries| && Copied(entries[k]) && entries[k].source.None?) &&
            (r.Ok? ==> |r.value| == |CopiedNames(entries)| &&
                       forall j :: 0 <= j < |r.value| ==>
                         r.value[j].path == Join(basePath, "sw_enhance_" + CopiedNames(entries)[j]) &&
                         r.value[j].content.Interceptor?)
  {
    CopyFails(entries, basePath, importPath);
    if CopyInterceptors(entries, basePath, importPath).Ok? {
      CopyFiles(entries, basePath, importPath);
    }
  }

  lemma {:induction false} CopyFails(entries: seq<Core.Entry>, basePath: string, importPath: string)
    ensures CopyInterceptors(entries, basePath, importPath).Err? <==>
            exists k :: 0 <= k < |entries| && Copied(entries[k]) && entries[k].source.None?
  {
    if entries != [] {
      CopyFails(entries[1..], basePath, importPath);
      assert forall k :: 1 <= k < |entries| ==> entries[k] == entries[1..][k - 1];
      assert forall k :: 0 <= k < |entries| - 1 ==> entries[1..][k] == entries[k + 1];
    }
  }

  lemma {:induction false} CopyFiles(entries: seq<Core.Entry>, basePath: string, importPath: string)
    requires CopyInterceptors(entries, basePath, importPath).Ok?
    ensures var files := CopyInterceptors(entries, basePath, importPath).value;
            |files| == |CopiedNames(entries)| &&
            forall j :: 0 <= j < |files| ==>
              files[j].path == Join(basePath, "sw_enhance_" + CopiedNames(entries)[j]) &&
              files[j].content.Interceptor?
  {
    if entries != [] {
      CopyFiles(entries[1..], basePath, importPath);
      var rest := CopyInterceptors(entries[1..], basePath, importPath).value;
      var names := CopiedNames(entries[1..]);
      if Copied(entries[0]) {
        var files := CopyInterceptors(entries, basePath, importPath).value;
        assert files[1..] == rest;
        assert CopiedNames(entries)[1..] == names;
      }
    }
  }

  /** The names of the copied entries, in order. */
  function CopiedNames(entries: seq<Core.Entry>): seq<string> {
    if entries == [] then []
    else if Copied(entries[0]) then [entries[0].name] + CopiedNames(entries[1..])
    else CopiedNames(entries[1..])
  }

  /** `xs` in front of a successful result; an error stays. */
  function Prepend(xs: seq<WrittenFile>, r: Result<seq<WrittenFile>, Error>): Result<seq<WrittenFile>, Error> {
    if r.Err? then r else Ok(xs + r.value)
  }

  /** Every record's pre- and post-adapter, record by record. */
  function AllAdapters(ms: seq<MethodInfo>): (r: seq<FuncDecl>)
    ensures |r| == 2 * |ms|
    ensures forall k :: 0 <= k < |ms| ==> r[2 * k] == PreAdapterOf(ms[k]) && r[2 * k + 1] == PostAdapterOf(ms[k])
  {
    if ms == [] then []
    else
      var init := AllAdapters(ms[..|ms| - 1]);
      assert forall k :: 0 <= k < |ms| - 1 ==> ms[..|ms| - 1][k] == ms[k];
      init + [PreAdapterOf(ms[|ms| - 1]), PostAdapterOf(ms[|ms| - 1])]
  }

  /** The package the generated files belong to, taken from the first record. */
  function PackageName(m: MethodInfo): string {
    if m.point.packagePath == "" then Base(m.inst.basePackage) else Base(m.point.packagePath)
  }

  /**
   * WriteExtraFiles: nothing without records; otherwise the adapter file and
   * the glue file, then the interceptor sources of the first record's
   * framework.
   */
  function ExtraFiles(ms: seq<MethodInfo>, basePath: string): Result<seq<WrittenFile>, Error> {
    if ms == [] then Ok([])
    else
      var pkg := PackageName(ms[0]);
      match CopyInterceptors(ms[0].inst.assets, basePath, ImportPath(ms[0].point, ms[0].inst))
      case Err(err) => Err(err)
      case Ok(copies) =>
        Ok([WrittenFile(Join(basePath, "skywalking_adapter.go"), Adapters(pkg, AllAdapters(ms))),
            WrittenFile(Join(basePath, "sw_intercepter.go"), Glue(pkg))] + copies)
  }

  /** The layout of the extra files: adapter file, glue file, then one file per copied source; all adapters share the first record's package. */
  lemma ExtraFilesLayout(ms: seq<MethodInfo>, basePath: string)
    requires ms != []
    ensures var r := ExtraFiles(ms, basePath);
            var copies := CopyInterceptors(ms[0].inst.assets, basePath, ImportPath(ms[0].point, ms[0].inst));
            (r.Ok? <==> copies.Ok?) &&
            (r.Ok? ==> |r.value| == 2 + |CopiedNames(ms[0].inst.assets)| &&
                       r.value[0].path == Join(basePath, "skywalking_adapter.go") &&
                       r.value[0].content == Adapters(PackageName(ms[0]), AllAdapters(ms)) &&
                       r.value[1].path == Join(basePath, "sw_intercepter.go") &&
                       r.value[1].content == Glue(PackageName(ms[0])) &&
                       r.value[2..] == copies.value)
  {
    CopyInterceptorsShape(ms[0].inst.assets, basePath, ImportPath(ms[0].point, ms[0].inst));
  }

  /** For gin the generated files are in package `gin`. */
  lemma GinPackageName(m: MethodInfo, assets: seq<Core.Entry>)
    requires m.point == Gin.Points()[0] && m.inst == Gin.Instrument(assets)
    ensures PackageName(m) == "gin"
  {
    BaseOfJoin("github.com/gin-gonic", "gin");
    assert "github.com/gin-gonic" + "/" + "gin" == "github.com/gin-gonic/gin";
  }

  /** The adapter file's declarations: BuildForAdapter of each record, in record order. */
  method CollectAdapters(ms: seq<MethodInfo>) returns (decls: seq<FuncDecl>)
    ensures decls == AllAdapters(ms)
  {
    decls := [];
    for m := 0 to |ms|
      invariant decls == AllAdapters(ms[..m])
    {
      var fu := BuildForAdapter(ms[m]);
      decls := decls + fu;
      assert ms[..m + 1][..m] == ms[..m];
    }
    assert ms[..|ms|] == ms;
  }

  /** The interceptor-copying loop: skip directories and go.mod, go.sum, instrument.go; rewrite and name the rest. */
  method CopyInterceptorSources(entries: seq<Core.Entry>, basePath: string, importPath: string)
    returns (r: Result<seq<WrittenFile>, Error>)
    ensures r == CopyInterceptors(entries, basePath, importPath)
  {
    var copies: seq<WrittenFile> := [];
    assert entries[0..] == entries;
    assert CopyInterceptors(entries, basePath, importPath).Ok? ==>
           [] + CopyInterceptors(entries, basePath, importPath).value == CopyInterceptors(entries, basePath, importPath).value;
    for k := 0 to |entries|
      invariant CopyInterceptors(entries, basePath, importPath) ==
                Prepend(copies, CopyInterceptors(entries[k..], basePath, importPath))
    {
      var entry := entries[k];
      assert entries[k..][1..] == entries[k + 1..];
      if entry.isDir {
        continue;
      }
      if entry.name == "go.mod" || entry.name == "go.sum" || entry.name == "instrument.go" {
        continue;
      }
      if entry.source.None? {
        return Err(ParseError);
      }
      var parsed := InterceptorSource.RewriteFile(entry.source.value, importPath, InterceptorSource.AsWritten);
      var w := WrittenFile(Join(basePath, "sw_enhance_" + entry.name), Interceptor(parsed));
      ghost var tail := CopyInterceptors(entries[k + 1..], basePath, importPath);
      assert tail.Ok? ==> copies + ([w] + tail.value) == (copies + [w]) + tail.value;
      copies := copies + [w];
    }
    assert copies + [] == copies;
    r := Ok(copies);
  }

  /** FrameworkInstrument: the points of every registered framework, and the records of the methods edited so far. */
  class FrameworkInstrument {
    var points: seq<HookPoint>
    var enhanceMethods: seq<MethodInfo>

    /** NewFrameworkInstrument: framework by framework, point by point. */
    constructor (registry: seq<Core.Instrument>)
      ensures points == FrameworkPoints(registry) && enhanceMethods == []
    {
      var collected: seq<HookPoint> := [];
      for i := 0 to |registry|
        invariant collected == FrameworkPoints(registry[..i])
      {
        var inst := registry[i];
        for k := 0 to |inst.points|
          invariant collected == FrameworkPoints(registry[..i]) + PointsOf(inst)[..k]
        {
          var point := inst.points[k];
          collected := collected + [HookPoint(Join(inst.basePackage, point.packagePath), point.fileName, EnhanceMethod(point, inst))];
          assert PointsOf(inst)[..k + 1] == PointsOf(inst)[..k] + [PointsOf(inst)[k]];
        }
        assert PointsOf(inst)[..|inst.points|] == PointsOf(inst);
        assert registry[..i + 1][..i] == registry[..i];
      }
      assert registry[..|registry|] == registry;
      points := collected;
      enhanceMethods := [];
    }

    /** A point's FilterAndEdit on one node: the edited node, and the record appended when the filter matches. */
    method FilterAndEdit(p: Core.InstrumentPoint, i: Core.Instrument, n: Node) returns (hit: bool, edited: Node)
      requires EditDefined(p, n)
      modifies this
      ensures var (h, m, infos) := EnhanceMethodEdit(p, i, n);
              hit == h && edited == m && enhanceMethods == old(enhanceMethods) + infos
      ensures points == old(points)
    {
      if !FilterMethod(p.filterMethod, n) {
        return false, n;
      }
      var info, decl := NewFrameworkEnhanceMethodInfo(p, i, n.decl);
      enhanceMethods := enhanceMethods + [info];
      var invoker := BuildForInvoker(info);
      edited := FuncNode(decl.(body := Some(invoker + decl.body.value)));
      hit := true;
    }

    /** WriteExtraFiles: the adapters of every record, the glue, and the rewritten interceptor sources. */
    method WriteExtraFiles(basePath: string) returns (r: Result<seq<WrittenFile>, Error>)
      ensures r == ExtraFiles(enhanceMethods, basePath)
    {
      if |enhanceMethods| == 0 {
        return Ok([]);
      }
      var first := enhanceMethods[0];
      var packageName := if first.point.packagePath == "" then Base(first.inst.basePackage) else Base(first.point.packagePath);
      var decls := CollectAdapters(enhanceMethods);
      var written := [WrittenFile(Join(basePath, "skywalking_adapter.go"), Adapters(packageName, decls)),
                      WrittenFile(Join(basePath, "sw_intercepter.go"), Glue(packageName))];
      var copies := CopyInterceptorSources(first.inst.assets, basePath, Join(first.inst.basePackage, first.point.packagePath));
      if copies.Err? {
        return Err(copies.error);
      }
      r := Ok(written + copies.value);
    }
  }
}
