# go-agent-instrumentation toolexec instrumenter, modelled in Dafny

The repository is a `go build -toolexec` wrapper. For every tool
invocation it checks whether the tool is the Go compiler (`compile`). It
reads the compiled package (`-p`) and the object file (`-o`) from the
arguments. When both are known, it instruments the compilation:

- It picks the `.go` arguments that a hook point of the package names.
- It runs every point's edit over the declarations of those files.
- It writes each edited file into the build directory, behind a
  `//line <original>:1` directive.
- It puts the copy's path in place of the original argument.
- It appends the instrumenter's extra files to the argument list.

There are two instrumenters:

- **Runtime.** For package `runtime`, it adds a slot `swtls` to every
  goroutine record `g`. It makes `newproc1` copy the parent's slot into the
  child. It writes accessors that read and write the running goroutine's
  slot.
- **Framework.** For any other package, it has the registered frameworks
  (gin). It prepends an *invoker* statement to each matched method. The
  invoker calls a generated pre-adapter; the interceptor's `BeforeInvoke`
  decides through the `keep` flag whether the original body runs. A
  deferred post-adapter calls `AfterInvoke`. It then writes the adapters, a
  glue file, and rewritten copies of the framework's interceptor sources.

The model works on values: syntax trees are datatypes (`Ast`). Where the
source works step by step, as in the option loop, the selection, edit and
write loops of `instrument`, parameter naming and the adapter builders,
there are methods. Each method is proved equal to a specification
function, and the properties are proved about those functions. Two parts
that the source keeps as mutable state are classes:

- the framework instrumenter's record list (`Framework.FrameworkInstrument`);
- the patched runtime's goroutine slots (`Runtime.Goroutines`).

Modules:

| module | models |
|---|---|
| `Wrappers` | Option and Result |
| `GoStd` | `filepath.Base/Clean/Join/Dir/Ext`, `strings.TrimSuffix/HasSuffix`, `%d`, the `[/.\-@]` replacement |
| `Ast` | the fragment of Go syntax the edits read, and the statements they generate |
| `Core` | frameworks/core: instrument points, the framework descriptor, `Invocation` |
| `Gin` | frameworks/gin/instrument.go |
| `Params` | `enhanceParameterNames`, `NewParameterInfo` |
| `Hooks` | `InstrumentPoint`, written files, `compileOptions`, errors |
| `Runtime` | cmd/runtime.go and the accessors it writes |
| `Framework` | cmd/framework.go, without the source rewrite |
| `InterceptorSource` | the rewrite of copied interceptor sources |
| `Instrumenter` | `instrument` |
| `Toolexec` | cmd/main.go |

## Model

| member | source | states |
|---|---|---|
| Toolexec.CommandName | cmd/main.go:56-59 | the tool name is the base name of `args[0]` minus its extension; with no extension it is the whole base name |
| Toolexec.CompileExeIsCompile | cmd/main.go:56-62 | `<dir>/compile.exe` is recognised as the compiler, wherever it is installed |
| Toolexec.StemAndExt | cmd/main.go:56-59 | a tool installed as `stem.ext` (stem without '/') is named `stem` |
| Toolexec.CompilerIsNotCompile | cmd/main.go:56-62 | `<dir>/compiler` is not the compiler |
| Toolexec.NoExtName | cmd/main.go:56-59 | a tool name without '.' is taken as it is |
| Toolexec.KeyValueSplit | cmd/main.go:72 | splitting at the first '=' loses nothing: the key has no '=', and key, '=' and value rebuild the argument; without '=' the key is the whole argument |
| Toolexec.Step | cmd/main.go:66-95 | each turn of the loop advances `i` by 1 or 2, and stores the package only under key `-p` and the output only under key `-o` |
| Toolexec.PackageForms | cmd/main.go:74-95 | `-p=V` stores everything after the first '=' and advances 1; `-p V` stores the next argument and advances 2 |
| Toolexec.OutputForms | cmd/main.go:76-95 | the same two forms for `-o` |
| Toolexec.SkipRules | cmd/main.go:67-86 | other arguments store nothing; a non-flag advances 1; an unknown flag with '=' advances 1; an unknown flag without '=' advances 2 exactly when the next argument is empty or longer than one character (the source counts bytes) and not starting with '-' |
| Toolexec.ScanKeepsPackage | cmd/main.go:65-96 | an option that no examined argument names keeps its value; the last argument is never examined as a flag |
| Toolexec.ScanKeepsOutput | cmd/main.go:65-96 | the same for the output |
| Toolexec.LaterPackageWins | cmd/main.go:65-96 | a later `-p` overwrites an earlier one: the last one the loop reads, as `-p=V` or as `-p V`, gives the package |
| Toolexec.LaterOutputWins | cmd/main.go:65-96 | the same for `-o`: the last one the loop reads, in either spelling, gives the output |
| Toolexec.ScanFlags | cmd/main.go:64-98 | the flag loop, from `args[1]` on, computes the options of the scan specification |
| Toolexec.ParseCompileOption | cmd/main.go:51-99 | nil for an empty list; non-nil exactly when the tool is `compile`; the options are those the loop reads |
| Toolexec.Run | cmd/main.go:21-37 | the arguments are instrumented only when the options are non-nil with package and output both non-empty; otherwise they are left as they are; an instrumentation error stops the tool |
| Params.NewParameterInfo | cmd/intrument.go:198-217 | keeps the name and type; the default is "0" exactly for a unary INT or FLOAT expression and "nil" otherwise |
| Params.IdentifierTypesDefaultToNil | cmd/intrument.go:212-213 | a plain identifier type such as `int` defaults to "nil" |
| Params.SyntheticName | cmd/intrument.go:177 | the synthetic name of index i is `sw_param_` followed by i |
| Params.SyntheticNamesDistinct | cmd/intrument.go:177 | distinct indices give distinct synthetic names |
| Params.RenameFirstBlank | cmd/intrument.go:182-187 | only the first "_" among a field's names is replaced; every other name stays |
| Params.EnhanceField | cmd/intrument.go:176-193 | naming a field keeps its type and leaves it with at least one name |
| Params.EnhancedFields | cmd/intrument.go:176-194 | the named list has one field per field, each named by its own index |
| Params.ParamInfos | cmd/intrument.go:175-195 | one ParameterInfo per field, not per name, built from the field's first name after naming |
| Params.ParamInfoName | cmd/intrument.go:178-192 | a field contributes `sw_param_<i>` when it is unnamed or its first name is "_"; otherwise its first name, whatever follows |
| Params.EnhancedFieldsNamed | cmd/intrument.go:178-187 | after naming no field is unnamed; a named field keeps its number of names; one without "_" is unchanged |
| Params.RenameFirstBlankInPlace | cmd/intrument.go:182-187 | the in-place loop computes RenameFirstBlank |
| Params.EnhanceParameterNames | cmd/intrument.go:171-196 | nil for a nil list; otherwise the list is renamed in place and one ParameterInfo is returned per field |
| Gin.BasePackage | frameworks/gin/instrument.go:17-19 | the base package is `github.com/gin-gonic/gin` |
| Gin.Points | frameworks/gin/instrument.go:25-59 | one point: package path "", file gin.go, the handleHTTPRequest filter, interceptor ServerHTTPInterceptor |
| Gin.Instrument | frameworks/gin/instrument.go:14-23 | the gin descriptor is its base package, its points and its embedded files |
| Gin.FilterMethod | frameworks/gin/instrument.go:30-46 | true exactly for a function named handleHTTPRequest whose first receiver has type `*Engine`; a value receiver, a pointer to a non-identifier, another name or another node give false |
| Gin.EnhanceStruct | frameworks/gin/instrument.go:48-56 | true exactly for a type spec named Engine, whatever its type |
| Runtime.AppendSlotField | cmd/runtime.go:23-41 | a type spec named g, or unnamed, whose type is a struct gains exactly `swtls interface{}`, appended last; the answer is true exactly then, and any other node is unchanged |
| Runtime.AppendSlotFieldTwice | cmd/runtime.go:34-38 | there is no duplicate check: a second application adds a second slot field |
| Runtime.PrependSlotCopy | cmd/runtime.go:46-68 | matches exactly a newproc1 with one result field; names its parameters and result, and prepends one deferred copy from the second parameter's slot into the result's slot before the unchanged body; other nodes are unchanged |
| Runtime.Newproc1CopyNames | cmd/runtime.go:56-63 | for the runtime's `newproc1(fn, callergp, callerpc) *g` the copy goes from `callergp` into the result, named `sw_param_0` |
| Runtime.HookPoints | cmd/runtime.go:18-71 | two points: the record edit on runtime2.go, then the newproc1 edit on proc.go, both in package runtime |
| Runtime.ExtraChangesForEnhancedFile | cmd/runtime.go:73-75 | does nothing and reports no error |
| Runtime.WriteExtraFiles | cmd/runtime.go:77-109 | exactly one file, `<basePath>/skywalking.go`, holding the slot accessors |
| Runtime.Goroutines.constructor | cmd/runtime.go:97-104 | the process starts with one goroutine whose slot is nil |
| Runtime.Goroutines.TlsGet | cmd/runtime.go:97-99 | returns the running goroutine's slot |
| Runtime.Goroutines.TlsSet | cmd/runtime.go:102-104 | overwrites the running goroutine's slot and no other |
| Runtime.Goroutines.GetGLS | cmd/framework.go:101-117 | the runtime accessor once linked; nil otherwise |
| Runtime.Goroutines.SetGLS | cmd/framework.go:101-117 | the runtime accessor once linked; nothing otherwise |
| Runtime.Goroutines.Spawn | cmd/runtime.go:59-63 | a new goroutine starts with a copy of its creator's slot; the creator and every other slot are unchanged |
| Runtime.Goroutines.Switch | cmd/runtime.go:97-104 | a switch changes the running goroutine and no slot |
| Runtime.PropagationScenario | cmd/runtime.go:59-104 | a value set before `go` is seen by the child; the child's own set is seen by the child and not by the parent |
| Framework.Registry | cmd/framework.go:21-26 | gin is the one registered framework |
| Framework.FilterMethod | cmd/framework.go:42-45 | a point's method filter accepts only function declarations |
| Framework.FuncIDShape | cmd/framework.go:222-237 | the ID is the mapped path, `_`, the receiver type (empty for a function) and the name; it is "" exactly for a receiver that is not `*Ident`; the path part has no `/ . - @` |
| Framework.FuncIDIgnoresNames | cmd/framework.go:222-237 | the ID does not depend on field names, so naming the fields first does not change it |
| Framework.AdapterNames | cmd/framework.go:263-265 | the pre-adapter is `_skywalking_enhance_<id>`, the post-adapter that name with `_ret`, and the two differ |
| Framework.MethodInfoShape | cmd/framework.go:251-267 | one ParameterInfo per parameter, receiver and result field; adapter names from the import path and the declaration; the renaming changes only field names |
| Framework.NewFrameworkEnhanceMethodInfo | cmd/framework.go:251-267 | builds the record and the renamed declaration |
| Framework.Refs | cmd/framework.go:281-296 | one `&name` per field, in order |
| Framework.InvokerBindings | cmd/framework.go:269-323 | the invoker binds one distinct `_sw_inv_res<i>` per result, never `_sw_invocation` or `_sw_keep`; it passes one reference per receiver and parameter to the pre-adapter and one per result to the post-adapter |
| Framework.BuildForInvoker | cmd/framework.go:269-323 | the one statement prepended to the matched method is the invoker |
| Framework.PointerFields | cmd/framework.go:334-351 | one field `<prefix><i> *T` per ParameterInfo, pointing at its type |
| Framework.DefaultTokens | cmd/framework.go:374-385 | the pre-adapter's returns carry the results' default tokens, in order |
| Framework.AdapterArities | cmd/framework.go:326-415 | the adapters answer to the invoker's names; pre takes R+N parameters, returns M+2 results; post takes 1+M parameters |
| Framework.AdapterFieldTypes | cmd/framework.go:334-415 | `recv_i`, then `param_i`, then `ret_i` point at the original types; `inv` and post's first parameter are `*Invocation` |
| Framework.BuildPointerFields | cmd/framework.go:334-351 | the field-building loops compute PointerFields |
| Framework.CollectDefaults | cmd/framework.go:374-385 | the loop over the results computes DefaultTokens |
| Framework.BuildForAdapter | cmd/framework.go:326-433 | BuildForAdapter returns the pre-adapter, then the post-adapter |
| Framework.Literals | cmd/framework.go:374-385 | each default token becomes the literal it renders |
| Framework.Resolve | cmd/framework.go:313 | resolving the invoker's references gives one value per reference |
| Framework.ResolveRefs | cmd/framework.go:281-296 | the references of fields in scope resolve to the values of those fields |
| Framework.EnvValues | cmd/framework.go:281-296 | the values of the named fields, in order |
| Framework.PreAdapterRuns | cmd/framework.go:361-385 | the pre-adapter hands BeforeInvoke the receiver pointer and the argument values; it answers keep=false exactly when BeforeInvoke succeeds and sets Continue; it returns the default values |
| Framework.InterceptorProtocol | cmd/framework.go:313-385 | end to end: if BeforeInvoke fails, or does not set Continue, the original body runs and AfterInvoke receives its results; if it sets Continue without failing, the method returns the default values at once and AfterInvoke is not called |
| Framework.PointsOf | cmd/framework.go:37-55 | one point per framework point, in package `Join(BasePackage, PackagePath)`, same file |
| Framework.FrameworkPointsSound | cmd/framework.go:33-60 | every point produced belongs to a registered framework's point, at its package and file |
| Framework.FrameworkPointsComplete | cmd/framework.go:33-60 | every point of every registered framework is produced |
| Framework.GinPoints | cmd/framework.go:24-60 | with gin registered there is exactly one point: gin.go of `github.com/gin-gonic/gin` |
| Framework.EnhanceMethodEditShape | cmd/framework.go:42-53 | the edit changes a node exactly when the filter accepts it, then appends one record and puts the invoker in front of the unchanged original statements |
| Framework.CopyInterceptorsShape | cmd/framework.go:138-218 | copying fails exactly when a copied source does not parse; otherwise each root file other than go.mod, go.sum and instrument.go gives `sw_enhance_<name>`, in order |
| Framework.AllAdapters | cmd/framework.go:80-84 | each record's pre- and post-adapter, record by record |
| Framework.ExtraFilesLayout | cmd/framework.go:66-219 | `skywalking_adapter.go` with every adapter, then `sw_intercepter.go`, then the copies; fails exactly when the copies fail; one package name for all, taken from the first record |
| Framework.GinPackageName | cmd/framework.go:70-75 | for gin the package name is `gin`, the base of the base package, since the point's package path is empty |
| Framework.CollectAdapters | cmd/framework.go:80-84 | the adapter loop computes AllAdapters |
| Framework.CopyInterceptorSources | cmd/framework.go:138-218 | the copying loop computes the copy specification: each copied source rewritten as the source does it, so a removed qualifier goes only from a call's callee or a pointer base |
| Framework.FrameworkInstrument.constructor | cmd/framework.go:33-60 | the points of every registered framework, in order, and no records |
| Framework.FrameworkInstrument.FilterAndEdit | cmd/framework.go:42-53 | answers and edits as the edit function does, and appends its record; the points are unchanged |
| Framework.FrameworkInstrument.WriteExtraFiles | cmd/framework.go:66-219 | nothing without records; otherwise the extra-file layout of the records, with the interceptor copies rewritten as the source does it |
| Framework.RenderAdapterBodiesAsWritten | cmd/framework.go:361-431 | the templates as written render only for a method without results; then they give the intended bodies |
| InterceptorSource.RewriteImports | cmd/framework.go:162-175 | each import is kept or contributes a qualifier or is dropped, so together they number at most the imports |
| InterceptorSource.RewriteImportsSpec | cmd/framework.go:162-175 | kept imports are exactly those of neither the core package nor the instrumented package; qualifiers added are exactly the alias or base name of each import of the instrumented package |
| InterceptorSource.RemovalList | cmd/framework.go:158-172 | the removal list starts with "core" |
| InterceptorSource.InvocationParameter | cmd/framework.go:176-183 | a pointer first parameter of BeforeInvoke or AfterInvoke is made `*Invocation`; everything else is unchanged |
| InterceptorSource.CallFun | cmd/framework.go:189-196 | a call's callee is replaced exactly when its callee or an argument is a qualified reference; without qualified arguments only a qualified callee loses its qualifier |
| InterceptorSource.RwUnchangedWithoutQualified | cmd/framework.go:184-199 | the rewrite only replaces qualified references: an expression without one is unchanged |
| InterceptorSource.RwPreservesQualified | cmd/framework.go:184-199 | a reference stays qualified exactly when it was |
| InterceptorSource.RwLeavesNoQualifiedCalleeOrPointer | cmd/framework.go:189-196 | afterwards no call has a qualified callee and no pointer type a qualified base |
| InterceptorSource.RwIdempotent | cmd/framework.go:184-199 | rewriting twice is rewriting once |
| InterceptorSource.CallFunByArguments | cmd/framework.go:189-196 | once an argument is qualified, the new callee no longer depends on the old callee |
| InterceptorSource.RwKeepsQualifierInTypeAssertion | cmd/framework.go:191-196 | as written, `x.(core.EnhancedInstance)` keeps the qualifier although the import is deleted |
| InterceptorSource.RwReplacesCalleeByArgument | cmd/framework.go:191-193 | as written, `f(core.X)` becomes `X(core.X)` |
| InterceptorSource.UnqualifyLeavesNoQualified | cmd/framework.go:184-199 | the corrected rewrite leaves no qualified reference anywhere (unless a selector names a removed package) |
| InterceptorSource.UnqualifyAgreesOnCalleeAndPointer | cmd/framework.go:191-196 | on a qualified callee and a qualified pointer base the corrected rewrite does what the source's does |
| InterceptorSource.UnqualifyUnchangedWithoutQualified | cmd/framework.go:184-199 | the corrected rewrite leaves an expression without qualified references unchanged |
| InterceptorSource.RewriteFields | cmd/framework.go:184-199 | each field keeps its names and has its type rewritten |
| InterceptorSource.RewriteFile | cmd/framework.go:159-206 | the package stays; the imports kept are exactly those of neither removed package; there is one declaration per declaration |
| InterceptorSource.BeforeInvokeSignature | cmd/framework.go:176-199 | `BeforeInvoke(invocation *core.Invocation) error` becomes `BeforeInvoke(invocation *Invocation) error` |
| Instrumenter.MatchingSpec | cmd/intrument.go:62-71 | the points kept for a path are exactly those of the compiled package whose file is the path's base name, in hook-point order |
| Instrumenter.Find | cmd/intrument.go:78 | the first record for the path, or -1 when there is none |
| Instrumenter.AddPointsTwice | cmd/intrument.go:78-86 | collecting points in two steps is collecting them in one |
| Instrumenter.SelectFails | cmd/intrument.go:56-88 | the selection fails exactly when a candidate does not parse |
| Instrumenter.AddPointsKeepsPaths | cmd/intrument.go:78-86 | collecting points keeps every record's path and index, and the path has a record afterwards |
| Instrumenter.SelectSound | cmd/intrument.go:56-88 | a successful selection records exactly the `.go` paths some point matches, each once, at its first occurrence, with its tree and only matching points |
| Instrumenter.SelectErrorStays | cmd/intrument.go:73-76 | the first parse failure ends the selection: later arguments do not change the result |
| Instrumenter.SelectFiles | cmd/intrument.go:56-88 | the selection loop computes the selection specification |
| Instrumenter.MatchPoints | cmd/intrument.go:62-87 | one argument against every hook point computes one selection step |
| Instrumenter.EditNode | cmd/intrument.go:96-100 | an edit that does not match leaves the node alone; only framework edits record methods |
| Instrumenter.ApplyPoints | cmd/intrument.go:96-100 | every point of the file on one node, in order; unmatched means unchanged |
| Instrumenter.ApplyDecls | cmd/intrument.go:95-104 | one declaration out per declaration in; a file no point matched is unchanged |
| Instrumenter.RuntimePointsRecordNothing | cmd/intrument.go:95-104 | runtime points never record a method |
| Instrumenter.EditAll | cmd/intrument.go:92-109 | one edited tree and one instrumented flag per selected file |
| Instrumenter.EditWith | cmd/intrument.go:97 | one FilterAndEdit call through the instrumenter that owns the point |
| Instrumenter.EditFile | cmd/intrument.go:95-107 | the traversal of one file computes ApplyDecls and appends its records |
| Instrumenter.EditDecls | cmd/intrument.go:95-104 | the declaration loop computes ApplyDecls |
| Instrumenter.EditNodeWithPoints | cmd/intrument.go:96-100 | the point loop computes ApplyPoints |
| Instrumenter.EditSelected | cmd/intrument.go:92-109 | the file loop computes EditAll and appends every record |
| Instrumenter.Substitute | cmd/intrument.go:112-129 | the argument list keeps its length |
| Instrumenter.SubstituteSpec | cmd/intrument.go:112-129 | only instrumented files are substituted: the entry at an instrumented record's index becomes `Join(Dir(output), Base(path))`; every other entry is unchanged |
| Instrumenter.RewritesShape | cmd/intrument.go:112-124 | every written copy is named after its original path and starts with `//line <path>:1` |
| Instrumenter.Paths | cmd/intrument.go:136-138 | the paths of the extra files, in order |
| Instrumenter.SelectionDefined | cmd/intrument.go:56-88 | a successful selection can be edited, and every record's index is an argument |
| Instrumenter.DistinctIndices | cmd/intrument.go:78-85 | records sit at distinct arguments |
| Instrumenter.SubstitutedArgs | cmd/intrument.go:112-129 | an argument is replaced only if it is a candidate, and only by its own copy |
| Instrumenter.InstrumentArgs | cmd/intrument.go:41-141 | the original arguments come first; each is unchanged or replaced by its copy in the build directory, only if it is a candidate |
| Instrumenter.FinishArgs | cmd/intrument.go:92-140 | the new list is the substituted arguments followed by the extra files' paths |
| Instrumenter.InstrumentExtras | cmd/intrument.go:132-140 | after the original arguments come only paths of extra files that were written |
| Instrumenter.ExtrasAreNotCopies | cmd/intrument.go:132-135 | no extra file is a rewritten copy |
| Instrumenter.InstrumentCopies | cmd/intrument.go:112-128 | every instrumented copy is written where its argument now points, under the original file name, behind a directive naming the original path |
| Instrumenter.DestKeepsName | cmd/intrument.go:114-115 | the copy keeps the original file's name |
| Instrumenter.WriteCopies | cmd/intrument.go:112-129 | the write loop computes the substituted arguments and the written copies |
| Instrumenter.ExtraPaths | cmd/intrument.go:136-138 | the loop collects the extra files' paths |
| Instrumenter.RuntimeSelection | cmd/intrument.go:44-46 | a runtime selection holds no framework points |
| Instrumenter.EditAndWrite | cmd/intrument.go:90-140 | the tail of instrument computes its specification |
| Instrumenter.Instrument | cmd/intrument.go:41-141 | the runtime instrumenter for package runtime, the framework instrumenter otherwise; the whole of instrument computes its specification |
| GoStd.UnderscorePunctuation | cmd/framework.go:236 | same length; each of `/ . - @` becomes '_', every other character stays |
| GoStd.BaseOfJoin | cmd/intrument.go:114-115 | joining a directory and a file name gives a path whose base is that name |

## Left out

- Process and file I/O: `writeArgs`, `executeCommand`, `os.Create`, `ioutil.WriteFile`, printing trees, and their errors. `Toolexec.Run` returns the command line that would run. Written files are values (`Hooks.WrittenFile`).
- Parsing Go source: `decorator.ParseFile` and `decorator.Parse` are a parameter `parse`, which maps a path to a tree or to nothing. The model assumes (`Instrumenter.ParserDefined`) that the edits can read every parsed tree.
- `goStringToStmts` and the template text. The generated statements are `Ast` data. The invoker, the slot copy, and the pre- and post-protocol bodies are `Ast.Stmt` values with their meaning given by `Framework.Execute`. `goStringToStmts` is called with one argument at cmd/framework.go:313, 396 and 430 but declared with two. The model treats it as one conversion.
- Framework.BuildForAdapter: builds the intended adapters for every record. For a method with at least one result the source panics while rendering the pre-adapter's template (cmd/framework.go:389-394), so its WriteExtraFiles never returns; `Framework.ExtraFiles`, `Framework.FrameworkInstrument.WriteExtraFiles`, `Instrumenter.EditAndWrite` and `Instrumenter.Instrument` return the intended adapters there. The gin point's method has no result, so gin is not affected.
- Framework.RenderAdapterBodiesAsWritten: models only whether the templates render, not the text. `$value.DefaultValueAsString` and `ret_$index` are outside `{{ }}` and would print literally.
- The tree traversal: `dstutil.Apply` visits every node, but the model visits only a file's top-level declarations (function declarations and type specs). A type spec declared inside a function body is not modelled: a local `type g struct` in runtime2.go, which the source would extend with the slot field, stays as it is in the model.
- Go's map iteration order over the selected files (cmd/intrument.go:92, 112) is replaced by selection order. The substituted argument list does not depend on it, since records sit at distinct indices (`Instrumenter.SubstituteSpec`). The framework's record order, and so the adapter order, does depend on it in the source.
- `ExtraChangesForEnhancedFile` is modelled for the runtime (no-op, no error), but `instrument` does not call it in the model. The framework instrumenter does not declare one in cmd/framework.go.
- The errors of `fs.ReadDir` (a panic) and `fs.ReadFile` over the embedded file system. The model takes the root entries as given. Only a source that does not parse is an error.
- Linking and scheduling: the `//go:linkname` binding is the flag `linked` of `Runtime.Goroutines`, and `getg().m.curg` is its field `current`. Goroutine records are never nil in the model.
- `Return` of `Invocation` is carried but never filled or read, as in the source.
- `EnhanceStruct` is modelled (`Gin.EnhanceStruct`), but nothing consumes it. `Core.InstrumentPoint` has no field for it, as in frameworks/core/instrument.go. No accessor generation is modelled.
- Toolexec.ParseCompileOption: requires every argument the loop examines to be non-empty (`Toolexec.ParseDefined`), because the source reads `args[i][0]` unchecked and would panic. The same holds for the receiver list read by `Gin.FilterMethod` and the parameters read by the newproc1 edit.
- Toolexec.Step: strings are sequences of characters, while Go's `len` counts bytes. For a one-character non-ASCII argument such as "é" after an unknown flag without '=', the source advances 2 and the model 1; the model then examines that argument, which does not start with '-', and skips it, so both reach the same index.
- `filepath` functions use '/' as the only separator. `Clean` only drops trailing slashes and maps "" to ".", which is enough for the joins the source makes.
- The gin demo `main`, the interceptors' own behaviour, the examples and the tests.

## Findings

| source | as written | input that shows it | evidently intended | confidence | as-written member | corrected member |
|---|---|---|---|---|---|---|
| cmd/framework.go:184-199 | a reference `q.Sel` with `q` a removed package is unqualified only as a call's callee or a pointer base; as a call argument it replaces the callee | frameworks/gin/interceptor.go:15 `invocation.CallerInstance.(core.EnhancedInstance)`, and `f(core.X)` which becomes `X(core.X)` | every removed-package reference loses its qualifier where it stands, since the import is deleted | not executed | InterceptorSource.RwKeepsQualifierInTypeAssertion | InterceptorSource.UnqualifyLeavesNoQualified |
| cmd/framework.go:374-385 | the loops over the results evaluate `.index` on a `*ParameterInfo`, which has no such field, so rendering fails and BuildForAdapter panics | any matched method with at least one result, e.g. `func (e *Engine) f() error` | the pre-adapter returns each result's default value, then the invocation and keep | not executed | Framework.RenderAdapterBodiesAsWritten | Framework.InterceptorProtocol |

The interceptor copies the instrumenter writes follow the first row's rewrite as written (`InterceptorSource.AsWritten`). The corrected rewrite is `InterceptorSource.Unqualify`, selected by `InterceptorSource.Corrected`. For the second row the instrumenter's path builds the intended adapters, as the `Framework.BuildForAdapter` line under "## Left out" says.
