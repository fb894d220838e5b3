/** The gin framework's instrumentation: one point on `(*Engine).handleHTTPRequest` in gin.go. */
module Gin {
  import opened Wrappers
  import opened Ast
  import Core

  function BasePackage(): (r: string)
    ensures r == "github.com/gin-gonic/gin"
  {
    "github.com/gin-gonic/gin"
  }

  /** The single point: package root, file gin.go, interceptor ServerHTTPInterceptor. */
  function Points(): (r: seq<Core.InstrumentPoint>)
    ensures |r| == 1
    ensures r[0].packagePath == "" && r[0].fileName == "gin.go"
    ensures r[0].filterMethod == Core.GinHandleHTTPRequest
    ensures r[0].interceptorName == "ServerHTTPInterceptor"
  {
    [Core.InstrumentPoint("", "gin.go", Core.GinHandleHTTPRequest, "ServerHTTPInterceptor")]
  }

  /** The gin instrument; `assets` is the content of its embedded file system. */
  function Instrument(assets: seq<Core.Entry>): (r: Core.Instrument)
    ensures r.basePackage == BasePackage() && r.points == Points() && r.assets == assets
  {
    Core.Instrument(BasePackage(), Points(), assets)
  }

  /**
   * FilterMethod reads the receiver list of every function named
   * handleHTTPRequest without a nil check.
   */
  predicate FilterMethodDefined(n: Node) {
    n.FuncNode? && n.decl.name == "handleHTTPRequest" ==> n.decl.recv.Some?
  }

  /** True exactly for a `handleHTTPRequest` declaration whose first receiver has type `*Engine`. */
  function FilterMethod(n: Node): (r: bool)
    requires FilterMethodDefined(n)
    ensures r ==> n.FuncNode? && n.decl.name == "handleHTTPRequest"
    ensures r <==> n.FuncNode? && n.decl.name == "handleHTTPRequest"
                   && n.decl.recv.value != [] && n.decl.recv.value[0].typ == Star(Ident("Engine"))
  {
    match n
    case FuncNode(d) =>
      if d.name == "handleHTTPRequest" && |d.recv.value| > 0 then
        match d.recv.value[0].typ
        case Star(x) => (match x case Ident(name) => name == "Engine" case _ => false)
        case _ => false
      else false
    case _ => false
  }

  /** EnhanceStruct reads the name of every type spec without a nil check. */
  predicate EnhanceStructDefined(n: Node) {
    n.TypeNode? ==> n.spec.name.Some?
  }

  /** True for any type spec named Engine, whatever type it declares. */
  function EnhanceStruct(n: Node): (r: bool)
    requires EnhanceStructDefined(n)
    ensures r <==> n.TypeNode? && n.spec.name == Some("Engine")
  {
    match n
    case TypeNode(s) => s.name.value == "Engine"
    case _ => false
  }
}
