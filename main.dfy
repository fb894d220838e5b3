/**
 * The toolexec entry point (cmd/main.go): recognise a `compile` invocation,
 * read its `-p` (package) and `-o` (output) options, and instrument the
 * compilation only when both are known.
 */
module Toolexec {
  import opened Wrappers
  import opened Ast
  import opened GoStd
  import opened Hooks
  import Core
  import Instrumenter

  /** The tool's name: the base name of its path without its extension. */
  function CommandName(tool: string): (r: string)
    ensures Ext(Base(tool)) == [] ==> r == Base(tool)
    ensures Ext(Base(tool)) != [] ==> r + Ext(Base(tool)) == Base(tool)
  {
    var cmd := Base(tool);
    var ext := Ext(cmd);
    if ext != "" then TrimSuffix(cmd, ext) else cmd
  }

  /** `strings.SplitN(arg, "=", 2)[0]`: everything before the first '='. */
  function Key(arg: string): string {
    var k := IndexOf(arg, '=');
    if k < 0 then arg else arg[..k]
  }

  /** `strings.SplitN(arg, "=", 2)[1]` when there is a second part: everything after the first '='. */
  function Value(arg: string): string {
    var k := IndexOf(arg, '=');
    if k < 0 then "" else arg[k + 1..]
  }

  /** The split at the first '=' loses nothing: without '=' the key is the whole argument, with one the key has no '=' and key, '=' and value make up the argument. */
  lemma KeyValueSplit(arg: string)
    ensures '=' !in arg ==> Key(arg) == arg && Value(arg) == ""
    ensures '=' in arg ==> Key(arg) + "=" + Value(arg) == arg && '=' !in Key(arg)
  {
    var k := IndexOf(arg, '=');
    if '=' in arg {
      assert k >= 0;
      assert arg[..k] + "=" + arg[k + 1..] == arg;
    }
  }

  /** Which option a step stores, if any. */
  datatype Store = NoStore | StorePackage(value: string) | StoreOutput(value: string)

  /**
   * One turn of the loop at index i: how far i advances and what is stored.
   * `-p`/`-o` take the text after '=' or the next argument; an unknown flag
   * also consumes the next argument when that looks like its value.
   */
  function Step(args: seq<string>, i: nat): (r: (nat, Store))
    requires i + 1 < |args| && args[i] != ""
    ensures r.0 == 1 || r.0 == 2
    ensures r.1.StorePackage? ==> Key(args[i]) == "-p"
    ensures r.1.StoreOutput? ==> Key(args[i]) == "-o"
  {
    var arg := args[i];
    if arg[0] != '-' then (1, NoStore)
    else
      var hasValue := IndexOf(arg, '=') >= 0;
      var key := Key(arg);
      if key == "-p" || key == "-o" then
        var v := if hasValue then Value(arg) else args[i + 1];
        (if hasValue then 1 else 2, if key == "-p" then StorePackage(v) else StoreOutput(v))
      else if hasValue then (1, NoStore)
      else if args[i + 1] == "" || (|args[i + 1]| > 1 && args[i + 1][0] != '-') then (2, NoStore)
      else (1, NoStore)
  }

  function Apply(opt: CompileOptions, s: Store): CompileOptions {
    match s
    case NoStore => opt
    case StorePackage(v) => opt.(package := v)
    case StoreOutput(v) => opt.(output := v)
  }

  /** The source reads the first byte of every argument the loop examines, so those must be non-empty. */
  predicate Scannable(args: seq<string>, i: nat)
    decreases |args| - i
  {
    i + 1 >= |args| || (args[i] != "" && Scannable(args, i + Step(args, i).0))
  }

  /** The loop from index i, starting from the options read so far. */
  function Scan(args: seq<string>, i: nat, opt: CompileOptions): CompileOptions
    requires Scannable(args, i)
    decreases |args| - i
  {
    if i + 1 >= |args| then opt
    else
      var (adv, s) := Step(args, i);
      Scan(args, i + adv, Apply(opt, s))
  }

  /** One turn of the scan. */
  lemma ScanUnfold(args: seq<string>, i: nat, opt: CompileOptions)
    requires Scannable(args, i) && i + 1 < |args|
    ensures args[i] != "" && Scannable(args, i + Step(args, i).0)
    ensures Scan(args, i, opt) == Scan(args, i + Step(args, i).0, Apply(opt, Step(args, i).1))
  {
  }

  /** The scan needs non-empty examined arguments only when the tool is `compile`. */
  predicate ParseDefined(args: seq<string>) {
    |args| > 0 && CommandName(args[0]) == "compile" ==> Scannable(args, 1)
  }

  /** parseCompileOption as a function of the arguments. */
  function ParseSpec(args: seq<string>): Option<CompileOptions>
    requires ParseDefined(args)
  {
    if |args| == 0 || CommandName(args[0]) != "compile" then None
    else Some(Scan(args, 1, CompileOptions("", "")))
  }

  /** parseCompileOption: nil for an empty list or another tool; otherwise the options the loop reads. */
  method ParseCompileOption(args: seq<string>) returns (opt: Option<CompileOptions>)
    requires ParseDefined(args)
    ensures |args| == 0 ==> opt.None?
    ensures opt.Some? <==> |args| > 0 && CommandName(args[0]) == "compile"
    ensures opt == ParseSpec(args)
  {
    if |args| == 0 || CommandName(args[0]) != "compile" {
      return None;
    }
    var options := ScanFlags(args);
    opt := Some(options);
  }

  /** The flag loop of parseCompileOption, from args[1] on. */
  method ScanFlags(args: seq<string>) returns (opt: CompileOptions)
    requires |args| >= 1 && Scannable(args, 1)
    ensures opt == Scan(args, 1, CompileOptions("", ""))
  {
    var package, output := "", "";
    var i := 1;
    while i < |args| - 1
      invariant 1 <= i <= |args|
      invariant Scannable(args, i)
      invariant Scan(args, i, CompileOptions(package, output)) == Scan(args, 1, CompileOptions("", ""))
      decreases |args| - i
    {
      ghost var step := Step(args, i);
      ghost var before := CompileOptions(package, output);
      ghost var at := i;
      ScanUnfold(args, i, before);
      if args[i][0] != '-' {
        i := i + 1;
        continue;
      }
      // Split at the first '=', as strings.SplitN with a limit of 2 does.
      var hasValue := IndexOf(args[i], '=') >= 0;
      var key := Key(args[i]);
      if key == "-p" || key == "-o" {
        var v := if hasValue then Value(args[i]) else args[i + 1];
        if key == "-p" {
          package := v;
        } else {
          output := v;
        }
        i := if hasValue then i + 1 else i + 2;
      } else if hasValue {
        i := i + 1;
      } else if args[i + 1] == "" || (|args[i + 1]| > 1 && args[i + 1][0] != '-') {
        i := i + 2;
      } else {
        i := i + 1;
      }
      assert i == at + step.0 && CompileOptions(package, output) == Apply(before, step.1);
    }
    opt := CompileOptions(package, output);
  }

  /** `compile.exe` is the compiler too, wherever it is installed. */
  lemma CompileExeIsCompile(dir: string)
    ensures CommandName(Join(dir, "compile.exe")) == "compile"
  {
    assert "compile" + "." + "exe" == "compile.exe";
    StemAndExt(dir, "compile", "exe");
  }

  /** A tool installed as `stem.ext` is named `stem`. */
  lemma StemAndExt(dir: string, stem: string, ext: string)
    requires stem != [] && '/' !in stem && '/' !in ext && '.' !in ext
    ensures CommandName(Join(dir, stem + "." + ext)) == stem
  {
    var name := stem + "." + ext;
    assert '/' !in stem + ".";
    assert '/' !in name;
    BaseOfJoin(dir, name);
    NameExt(stem, ext);
    assert name[..|stem|] == stem;
  }

  /** The extension of `stem.ext` is `.ext`. */
  lemma NameExt(stem: string, ext: string)
    requires '/' !in ext && '.' !in ext
    ensures Ext(stem + "." + ext) == "." + ext
  {
    var name := stem + "." + ext;
    assert name[|stem|] == '.';
    assert forall k :: |stem| < k < |name| ==> name[k] == ext[k - |stem| - 1];
    LastDotExt(name, |name| - 1, |stem|);
    assert name[|stem|..] == "." + ext;
  }

  /** The extension runs from the last '.' when no '.' or '/' follows it. */
  lemma {:induction false} LastDotExt(path: string, i: int, j: nat)
    requires j <= i < |path| && path[j] == '.'
    requires forall k :: j < k <= i ==> path[k] != '.' && path[k] != '/'
    ensures ExtFrom(path, i) == path[j..]
    decreases i
  {
    if i > j {
      LastDotExt(path, i - 1, j);
    }
  }

  /** A path element without '.' has no extension. */
  lemma {:induction false} NoDotNoExt(path: string, i: int)
    requires i < |path|
    requires forall k :: 0 <= k <= i ==> path[k] != '.'
    ensures ExtFrom(path, i) == ""
    decreases i + 1
  {
    if i >= 0 && path[i] != '/' {
      NoDotNoExt(path, i - 1);
    }
  }

  /** `compiler` is not, wherever it is installed. */
  lemma CompilerIsNotCompile(dir: string)
    ensures CommandName(Join(dir, "compiler")) != "compile"
  {
    NoExtName(dir, "compiler");
  }

  /** A tool installed under a name without '.' is named by it. */
  lemma NoExtName(dir: string, name: string)
    requires name != [] && '/' !in name && '.' !in name
    ensures CommandName(Join(dir, name)) == name
  {
    BaseOfJoin(dir, name);
    NoDotNoExt(name, |name| - 1);
  }

  /** Both spellings of `-p`: `-p=V` takes everything after the first '=' and advances 1, `-p V` takes the next argument and advances 2. */
  lemma PackageForms(args: seq<string>, i: nat, v: string)
    requires i + 1 < |args|
    ensures args[i] == "-p=" + v ==> Step(args, i) == (1, StorePackage(v))
    ensures args[i] == "-p" ==> Step(args, i) == (2, StorePackage(args[i + 1]))
  {
    if args[i] == "-p=" + v {
      assert args[i][2] == '=';
      assert IndexOf(args[i], '=') == 2;
      assert args[i][3..] == v;
    }
    if args[i] == "-p" {
      assert IndexOf(args[i], '=') == -1;
    }
  }

  /** Both spellings of `-o`, as for `-p`. */
  lemma OutputForms(args: seq<string>, i: nat, v: string)
    requires i + 1 < |args|
    ensures args[i] == "-o=" + v ==> Step(args, i) == (1, StoreOutput(v))
    ensures args[i] == "-o" ==> Step(args, i) == (2, StoreOutput(args[i + 1]))
  {
    if args[i] == "-o=" + v {
      assert args[i][2] == '=';
      assert IndexOf(args[i], '=') == 2;
      assert args[i][3..] == v;
    }
    if args[i] == "-o" {
      assert IndexOf(args[i], '=') == -1;
    }
  }

  /** The skipping rules for everything that is not `-p` or `-o`. */
  lemma SkipRules(args: seq<string>, i: nat)
    requires i + 1 < |args| && args[i] != ""
    requires Key(args[i]) != "-p" && Key(args[i]) != "-o"
    ensures Step(args, i).1 == NoStore
    ensures args[i][0] != '-' ==> Step(args, i).0 == 1
    ensures args[i][0] == '-' && '=' in args[i] ==> Step(args, i).0 == 1
    ensures args[i][0] == '-' && '=' !in args[i] ==>
              (Step(args, i).0 == 2 <==> args[i + 1] == "" || (|args[i + 1]| > 1 && args[i + 1][0] != '-'))
  {
  }

  /**
   * An option that no argument from i on names keeps the value it had; the
   * last argument does not count, since it is never examined as a flag.
   * Here for the package, and below for the output.
   */
  lemma {:induction false} ScanKeepsPackage(args: seq<string>, i: nat, opt: CompileOptions)
    requires Scannable(args, i)
    requires forall j :: i <= j < |args| - 1 ==> Key(args[j]) != "-p"
    ensures Scan(args, i, opt).package == opt.package
    decreases |args| - i
  {
    if i + 1 < |args| {
      var (adv, s) := Step(args, i);
      assert Apply(opt, s).package == opt.package;
      ScanKeepsPackage(args, i + adv, Apply(opt, s));
    }
  }

  lemma {:induction false} ScanKeepsOutput(args: seq<string>, i: nat, opt: CompileOptions)
    requires Scannable(args, i)
    requires forall j :: i <= j < |args| - 1 ==> Key(args[j]) != "-o"
    ensures Scan(args, i, opt).output == opt.output
    decreases |args| - i
  {
    if i + 1 < |args| {
      var (adv, s) := Step(args, i);
      assert Apply(opt, s).output == opt.output;
      ScanKeepsOutput(args, i + adv, Apply(opt, s));
    }
  }

  /**
   * A later `-p` overwrites an earlier one: the one the loop reads at i, in
   * either spelling, wins when no argument examined after it names `-p`.
   */
  lemma LaterPackageWins(args: seq<string>, i: nat, opt: CompileOptions, v: string)
    requires Scannable(args, i) && i + 1 < |args|
    requires args[i] == "-p=" + v || (args[i] == "-p" && args[i + 1] == v)
    requires forall j :: i + (if args[i] == "-p" then 2 else 1) <= j < |args| - 1 ==> Key(args[j]) != "-p"
    ensures Scan(args, i, opt).package == v
  {
    PackageForms(args, i, v);
    ScanUnfold(args, i, opt);
    ScanKeepsPackage(args, i + Step(args, i).0, opt.(package := v));
  }

  /** The same for `-o`: the last output the loop reads wins. */
  lemma LaterOutputWins(args: seq<string>, i: nat, opt: CompileOptions, v: string)
    requires Scannable(args, i) && i + 1 < |args|
    requires args[i] == "-o=" + v || (args[i] == "-o" && args[i + 1] == v)
    requires forall j :: i + (if args[i] == "-o" then 2 else 1) <= j < |args| - 1 ==> Key(args[j]) != "-o"
    ensures Scan(args, i, opt).output == v
  {
    OutputForms(args, i, v);
    ScanUnfold(args, i, opt);
    ScanKeepsOutput(args, i + Step(args, i).0, opt.(output := v));
  }

  /** The condition in main under which the compilation is instrumented. */
  predicate Activated(opt: Option<CompileOptions>) {
    opt.Some? && opt.value.package != "" && opt.value.output != ""
  }

  /**
   * main without its I/O: parse the options and, when they are complete,
   * instrument the arguments; the result is the command line that is then
   * executed, or the error that stops the tool.
   */
  method Run(args: seq<string>, registry: seq<Core.Instrument>, parse: string -> Option<File>)
    returns (r: Result<seq<string>, Error>)
    requires ParseDefined(args)
    requires Instrumenter.ParserDefined(parse)
    ensures var opt := ParseSpec(args);
            if !Activated(opt) then r == Ok(args)
            else
              var out := Instrumenter.InstrumentSpec(args, opt.value, registry, parse);
              (r.Ok? <==> out.Ok?) && (r.Ok? ==> r.value == out.value.args)
  {
    var option := ParseCompileOption(args);
    if option.Some? && option.value.package != "" && option.value.output != "" {
      var out := Instrumenter.Instrument(args, option.value, registry, parse);
      if out.Err? {
        return Err(out.error);
      }
      return Ok(out.value.args);
    }
    r := Ok(args);
  }
}
