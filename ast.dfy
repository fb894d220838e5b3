/**
 * The part of a Go syntax tree that the instrumenter inspects or edits.
 * Parsing and printing are outside the model: a parsed file is a `File`
 * value, and "printing" a tree is writing the value out.
 */
module Ast {
  import opened Wrappers

  /** The token of a unary expression; only INT and FLOAT are told apart. */
  datatype Tok = INT | FLOAT | OtherTok(name: string)

  datatype Expr =
    | Ident(name: string)
    | Star(x: Expr)                      // *X
    | Unary(op: Tok, x: Expr)
    | Selector(x: Expr, sel: string)     // X.Sel
    | Call(fun: Expr, args: seq<Expr>)   // Fun(Args...)
    | StructType(fields: seq<Field>)     // struct { Fields }
    | Compound(kids: seq<Expr>)          // any other expression with sub-expressions, in source order
    | Leaf                               // any other expression without sub-expressions

  /** A field of a parameter, result, receiver or struct field list: `a, b T` or just `T`. */
  datatype Field = Field(names: seq<string>, typ: Expr)

  /**
   * A statement. `Plain` stands for any statement of the original source,
   * given by the expressions it contains. The other kinds are the statements
   * the instrumenter synthesises; each carries what its Go text is built from.
   */
  datatype Stmt =
    | Plain(exprs: seq<Expr>)
      /** `if res..., _sw_invocation, _sw_keep := pre(preArgs...); !_sw_keep { return res... } else { defer post(_sw_invocation, postArgs...) }` */
    | Invoker(results: seq<string>, pre: string, preArgs: seq<string>, post: string, postArgs: seq<string>)
      /** `defer func() { if child != nil && parent != nil { child.swtls = parent.swtls } }()` */
    | SlotCopy(child: string, parent: string)
      /** The body of a pre-adapter: build the Invocation, call BeforeInvoke, answer keep. */
    | PreProtocol(interceptor: string, hasCaller: bool, argCount: nat, defaults: seq<string>)
      /** The body of a post-adapter: call AfterInvoke with the invocation and the results. */
    | PostProtocol(interceptor: string, resultCount: nat)

  /** A function or method declaration; `None` stands for Go's nil field list or body. */
  datatype FuncDecl = FuncDecl(
    name: string,
    recv: Option<seq<Field>>,
    params: seq<Field>,
    results: Option<seq<Field>>,
    body: Option<seq<Stmt>>)

  /** `type Name Type`; the name is `None` where the tree holds a nil identifier. */
  datatype TypeSpec = TypeSpec(name: Option<string>, typ: Expr)

  /** A declaration-level node met by the traversal. */
  datatype Node = FuncNode(decl: FuncDecl) | TypeNode(spec: TypeSpec) | OtherNode

  /** An import; `path` is the literal's text, quotes included. */
  datatype ImportSpec = ImportSpec(alias: Option<string>, path: string)

  datatype File = File(pkg: string, imports: seq<ImportSpec>, decls: seq<Node>)
}
