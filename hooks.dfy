/**
 * The instrumenter's own vocabulary (cmd/intrument.go): an instrument point
 * of a compilation, the files an instrumenter writes, and its errors.
 */
module Hooks {
  import opened Ast
  import Core

  /**
   * What a point's FilterAndEdit closure does: the two runtime edits, or the
   * framework edit of one framework point.
   */
  datatype Action =
    | GoroutineSlot
    | Newproc1SlotCopy
    | EnhanceMethod(point: Core.InstrumentPoint, inst: Core.Instrument)

  /** InstrumentPoint: applies to file `file` of package `pkg`. */
  datatype HookPoint = HookPoint(pkg: string, file: string, action: Action)

  /**
   * What a written file holds: a rewritten source file behind its line
   * directive, the generated adapters, the glue file that declares
   * Invocation and the slot accessors' fallbacks, a copied interceptor
   * source, or the runtime's slot accessors.
   */
  datatype Content =
    | Rewritten(directive: string, tree: File)
    | Adapters(pkg: string, decls: seq<FuncDecl>)
    | Glue(pkg: string)
    | Interceptor(source: File)
    | SlotAccessors

  datatype WrittenFile = WrittenFile(path: string, content: Content)

  /** compileOptions (cmd/main.go): the compiled package's import path and the object file it is written to. */
  datatype CompileOptions = CompileOptions(package: string, output: string)

  /** The errors the model keeps: a source that does not parse. */
  datatype Error = ParseError
}
