/**
 * The types that frameworks/core declares: the run-time invocation payload
 * and the description of one framework's instrumentation points.
 */
module Core {
  import opened Wrappers
  import opened Ast

  /**
   * A run-time value: Go's nil interface, a default-value literal produced by
   * generated code, some other value, or a pointer to a value.
   */
  datatype Value = Nil | Literal(token: string) | Actual(id: int) | Pointer(target: Value)

  /**
   * The payload handed to an interceptor. `returnValues` (Go: Return) is reserved: nothing
   * fills or reads it.
   */
  datatype Invocation = Invocation(
    callerInstance: Option<Value>,
    args: seq<Value>,
    continueFlag: bool,
    returnValues: seq<Value>)

  /**
   * The method predicate of a point. Go stores a closure; the model names
   * the closures this repository registers, and the framework instrumenter
   * evaluates them.
   */
  datatype MethodFilter = GinHandleHTTPRequest

  /** A framework's instrumentation point: where, which method, which interceptor. */
  datatype InstrumentPoint = InstrumentPoint(
    packagePath: string,
    fileName: string,
    filterMethod: MethodFilter,
    interceptorName: string)

  /** A root entry of a framework's embedded file system; `source` is `None` when it does not parse. */
  datatype Entry = Entry(name: string, isDir: bool, source: Option<File>)

  /** A framework to instrument: its import path, its points and its embedded sources. */
  datatype Instrument = Instrument(basePackage: string, points: seq<InstrumentPoint>, assets: seq<Entry>)
}
