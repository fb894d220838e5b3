/**
 * One instrumented compilation (`instrument`, cmd/intrument.go): pick the
 * `.go` arguments that some hook point of the package names, run every
 * point over every declaration of those files, write the edited files to
 * the build directory behind a line directive, substitute their paths in
 * the argument list, and append the instrumenter's extra files.
 */
module Instrumenter {
  import opened Wrappers
  import opened Ast
  import opened GoStd
  import opened Hooks
  import Core
  import Gin
  import Runtime
  import Framework

  /** fileInfo: a selected path, the index of its first occurrence, its tree and the points collected for it. */
  datatype Selected = Selected(path: string, index: nat, tree: File, points: seq<HookPoint>)

  /** A hook point applies to a path when it names the compiled package and the path's base name. */
  predicate PointMatches(hp: HookPoint, pkg: string, path: string) {
    hp.pkg == pkg && Base(path) == hp.file
  }

  /** The points that apply to `path`, in hook-point order. */
  function Matching(points: seq<HookPoint>, pkg: string, path: string): seq<HookPoint> {
    if points == [] then []
    else
      var init := Matching(points[..|points| - 1], pkg, path);
      var last := points[|points| - 1];
      if PointMatches(last, pkg, path) then init + [last] else init
  }

  /** Matching keeps exactly the points that apply, in order. */
  lemma {:induction false} MatchingSpec(points: seq<HookPoint>, pkg: string, path: string)
    ensures var r := Matching(points, pkg, path);
            (forall hp :: hp in r <==> hp in points && PointMatches(hp, pkg, path)) &&
            (r == [] <==> forall k :: 0 <= k < |points| ==> !PointMatches(points[k], pkg, path))
  {
    if points != [] {
      var init := points[..|points| - 1];
      MatchingSpec(init, pkg, path);
      assert points == init + [points[|points| - 1]];
      assert forall k :: 0 <= k < |init| ==> init[k] == points[k];
    }
  }

  /** The position of the record for `path`, or -1. */
  function Find(sel: seq<Selected>, path: string): (r: int)
    ensures -1 <= r < |sel|
    ensures r >= 0 ==> sel[r].path == path
    ensures forall k :: 0 <= k < |sel| && (r < 0 || k < r) ==> sel[k].path != path
  {
    if sel == [] then -1
    else if sel[0].path == path then 0
    else
      var r := Find(sel[1..], path);
      if r < 0 then -1 else r + 1
  }

  /** Collecting points for `path`: appended to its record, or a new record at occurrence `index`. */
  function AddPoints(sel: seq<Selected>, path: string, index: nat, tree: File, ms: seq<HookPoint>): seq<Selected> {
    var j := Find(sel, path);
    if j >= 0 then sel[j := sel[j].(points := sel[j].points + ms)]
    else sel + [Selected(path, index, tree, ms)]
  }

  lemma AddPointsTwice(sel: seq<Selected>, path: string, index: nat, tree: File, a: seq<HookPoint>, b: seq<HookPoint>)
    ensures AddPoints(AddPoints(sel, path, index, tree, a), path, index, tree, b) == AddPoints(sel, path, index, tree, a + b)
  {
    var j := Find(sel, path);
    var once := AddPoints(sel, path, index, tree, a);
    assert forall k :: 0 <= k < |sel| ==> once[k].path == sel[k].path;
    if j >= 0 {
      assert once[j].path == path;
      assert Find(once, path) == j;
      assert once[j].points + b == sel[j].points + (a + b);
    } else {
      assert once[|sel|].path == path;
      assert Find(once, path) == |sel|;
    }
  }

  /**
   * The selection over the first `n` arguments: a `.go` path that some point
   * matches is parsed (a parse failure is an error) and gets its matching
   * points, once per occurrence; other arguments are passed over.
   */
  function Select(args: seq<string>, n: nat, points: seq<HookPoint>, pkg: string,
                  parse: string -> Option<File>): Result<seq<Selected>, Error>
    requires n <= |args|
  {
    if n == 0 then Ok([])
    else
      match Select(args, n - 1, points, pkg, parse)
      case Err(e) => Err(e)
      case Ok(sel) =>
        var path := args[n - 1];
        SelectStep(sel, path, n - 1, points, pkg, parse)
  }

  /** A `.go` argument that some hook point applies to. */
  predicate Candidate(points: seq<HookPoint>, pkg: string, path: string) {
    HasSuffix(path, ".go") && Matching(points, pkg, path) != []
  }

  /** One record: a candidate at its first occurrence among the first `n` arguments, with its tree and only matching points. */
  ghost predicate GoodRecord(s: Selected, args: seq<string>, n: nat, points: seq<HookPoint>, pkg: string,
                             parse: string -> Option<File>)
    requires n <= |args|
  {
    s.index < n && args[s.index] == s.path &&
    (forall j :: 0 <= j < s.index ==> args[j] != s.path) &&
    HasSuffix(s.path, ".go") && parse(s.path) == Some(s.tree) &&
    s.points != [] &&
    (forall hp :: hp in s.points ==> hp in points && PointMatches(hp, pkg, s.path))
  }

  /** What the selection guarantees: distinct paths, good records, and every candidate recorded. */
  ghost predicate WellSelected(sel: seq<Selected>, args: seq<string>, n: nat, points: seq<HookPoint>, pkg: string,
                               parse: string -> Option<File>)
    requires n <= |args|
  {
    (forall j, k :: 0 <= j < k < |sel| ==> sel[j].path != sel[k].path) &&
    (forall k :: 0 <= k < |sel| ==> GoodRecord(sel[k], args, n, points, pkg, parse)) &&
    (forall j :: 0 <= j < n && Candidate(points, pkg, args[j]) ==>
       exists k :: 0 <= k < |sel| && sel[k].path == args[j])
  }

  /** The selection fails exactly when a candidate does not parse. */
  lemma {:induction false} SelectFails(args: seq<string>, n: nat, points: seq<HookPoint>, pkg: string,
                                       parse: string -> Option<File>)
    requires n <= |args|
    ensures Select(args, n, points, pkg, parse).Err? <==>
              exists j :: 0 <= j < n && Candidate(points, pkg, args[j]) && parse(args[j]).None?
  {
    if n > 0 {
      SelectFails(args, n - 1, points, pkg, parse);
      var prev := Select(args, n - 1, points, pkg, parse);
      var bad := Candidate(points, pkg, args[n - 1]) && parse(args[n - 1]).None?;
      assert Select(args, n, points, pkg, parse).Err? <==> prev.Err? || bad;
      if bad {
        assert exists j :: 0 <= j < n && Candidate(points, pkg, args[j]) && parse(args[j]).None? by {
          assert Candidate(points, pkg, args[n - 1]) && parse(args[n - 1]).None?;
        }
      }
    }
  }

  /** An argument that is not a new candidate leaves the records as they are. */
  lemma PassOver(sel: seq<Selected>, args: seq<string>, n: nat, points: seq<HookPoint>, pkg: string,
                 parse: string -> Option<File>)
    requires 0 < n <= |args|
    requires WellSelected(sel, args, n - 1, points, pkg, parse)
    requires !Candidate(points, pkg, args[n - 1])
    ensures WellSelected(sel, args, n, points, pkg, parse)
  {
  }

  /** Extending a record keeps every path and index, so every candidate stays recorded. */
  lemma AddPointsKeepsPaths(sel: seq<Selected>, path: string, index: nat, tree: File, ms: seq<HookPoint>)
    ensures var next := AddPoints(sel, path, index, tree, ms);
            |next| >= |sel| && (exists k :: 0 <= k < |next| && next[k].path == path) &&
            forall k :: 0 <= k < |sel| ==> next[k].path == sel[k].path && next[k].index == sel[k].index
  {
    var j := Find(sel, path);
    var next := AddPoints(sel, path, index, tree, ms);
    if j >= 0 {
      assert next[j].path == path;
    } else {
      assert next[|sel|].path == path;
    }
  }

  /** A candidate that parses is added to its record, or recorded at this occurrence. */
  lemma AddCandidate(sel: seq<Selected>, args: seq<string>, n: nat, points: seq<HookPoint>, pkg: string,
                     parse: string -> Option<File>)
    requires 0 < n <= |args|
    requires WellSelected(sel, args, n - 1, points, pkg, parse)
    requires Candidate(points, pkg, args[n - 1]) && parse(args[n - 1]).Some?
    ensures WellSelected(AddPoints(sel, args[n - 1], n - 1, parse(args[n - 1]).value, Matching(points, pkg, args[n - 1])),
                         args, n, points, pkg, parse)
  {
    var path := args[n - 1];
    var next := AddPoints(sel, path, n - 1, parse(path).value, Matching(points, pkg, path));
    StillComplete(sel, args, n, points, pkg, parse, next);
    if Find(sel, path) >= 0 {
      ExtendRecord(sel, args, n, points, pkg, parse, next);
    } else {
      NewRecord(sel, args, n, points, pkg, parse, next);
    }
  }

  lemma StillComplete(sel: seq<Selected>, args: seq<string>, n: nat, points: seq<HookPoint>, pkg: string,
                      parse: string -> Option<File>, next: seq<Selected>)
    requires 0 < n <= |args|
    requires WellSelected(sel, args, n - 1, points, pkg, parse)
    requires parse(args[n - 1]).Some?
    requires next == AddPoints(sel, args[n - 1], n - 1, parse(args[n - 1]).value, Matching(points, pkg, args[n - 1]))
    ensures forall j :: 0 <= j < n && Candidate(points, pkg, args[j]) ==>
              exists k :: 0 <= k < |next| && next[k].path == args[j]
  {
    var path := args[n - 1];
    var ms := Matching(points, pkg, path);
    AddPointsKeepsPaths(sel, path, n - 1, parse(path).value, ms);
    forall j' | 0 <= j' < n && Candidate(points, pkg, args[j'])
      ensures exists k :: 0 <= k < |next| && next[k].path == args[j']
    {
      if j' < n - 1 {
        var k :| 0 <= k < |sel| && sel[k].path == args[j'];
        assert next[k].path == args[j'];
      } else {
        assert args[j'] == path;
      }
    }
  }

  lemma ExtendRecord(sel: seq<Selected>, args: seq<string>, n: nat, points: seq<HookPoint>, pkg: string,
                     parse: string -> Option<File>, next: seq<Selected>)
    requires 0 < n <= |args|
    requires WellSelected(sel, args, n - 1, points, pkg, parse)
    requires Candidate(points, pkg, args[n - 1]) && parse(args[n - 1]).Some?
    requires Find(sel, args[n - 1]) >= 0
    requires next == AddPoints(sel, args[n - 1], n - 1, parse(args[n - 1]).value, Matching(points, pkg, args[n - 1]))
    ensures forall j, k :: 0 <= j < k < |next| ==> next[j].path != next[k].path
    ensures forall k :: 0 <= k < |next| ==> GoodRecord(next[k], args, n, points, pkg, parse)
  {
    var path := args[n - 1];
    var j := Find(sel, path);
    var ms := Matching(points, pkg, path);
    assert |next| == |sel|;
    assert forall k :: 0 <= k < |sel| && k != j ==> next[k] == sel[k];
    assert next[j] == sel[j].(points := sel[j].points + ms);
    assert GoodRecord(sel[j], args, n - 1, points, pkg, parse);
    MatchingSpec(points, pkg, path);
    assert forall hp :: hp in next[j].points ==> hp in sel[j].points || hp in ms;
    forall k | 0 <= k < |next|
      ensures GoodRecord(next[k], args, n, points, pkg, parse)
    {
      if k != j {
        assert GoodRecord(sel[k], args, n - 1, points, pkg, parse);
      }
    }
  }

  lemma NewRecord(sel: seq<Selected>, args: seq<string>, n: nat, points: seq<HookPoint>, pkg: string,
                  parse: string -> Option<File>, next: seq<Selected>)
    requires 0 < n <= |args|
    requires WellSelected(sel, args, n - 1, points, pkg, parse)
    requires Candidate(points, pkg, args[n - 1]) && parse(args[n - 1]).Some?
    requires Find(sel, args[n - 1]) < 0
    requires next == AddPoints(sel, args[n - 1], n - 1, parse(args[n - 1]).value, Matching(points, pkg, args[n - 1]))
    ensures forall j, k :: 0 <= j < k < |next| ==> next[j].path != next[k].path
    ensures forall k :: 0 <= k < |next| ==> GoodRecord(next[k], args, n, points, pkg, parse)
  {
    var path := args[n - 1];
    assert forall k :: 0 <= k < |sel| ==> next[k] == sel[k];
    assert forall j' :: 0 <= j' < n - 1 ==> args[j'] != path;
    MatchingSpec(points, pkg, path);
    assert GoodRecord(next[|sel|], args, n, points, pkg, parse);
    forall k | 0 <= k < |sel|
      ensures GoodRecord(next[k], args, n, points, pkg, parse)
    {
      assert GoodRecord(sel[k], args, n - 1, points, pkg, parse);
    }
  }

  /**
   * A successful selection records exactly the candidates, each once, at its
   * first occurrence, with its parsed tree and only points that match it.
   */
  lemma {:induction false} SelectSound(args: seq<string>, n: nat, points: seq<HookPoint>, pkg: string,
                                       parse: string -> Option<File>)
    requires n <= |args|
    ensures var r := Select(args, n, points, pkg, parse);
            r.Ok? ==> WellSelected(r.value, args, n, points, pkg, parse)
  {
    if n > 0 {
      SelectSound(args, n - 1, points, pkg, parse);
      var prev := Select(args, n - 1, points, pkg, parse);
      if prev.Ok? {
        if !Candidate(points, pkg, args[n - 1]) {
          PassOver(prev.value, args, n, points, pkg, parse);
        } else if parse(args[n - 1]).Some? {
          AddCandidate(prev.value, args, n, points, pkg, parse);
        }
      }
    }
  }

  /** What a point's edit reads of a node, for every edit the instrumenters register. */
  predicate NodeDefined(n: Node) {
    Runtime.Newproc1Defined(n) && Gin.FilterMethodDefined(n) &&
    (Gin.FilterMethod(n) ==> Framework.FuncIDDefined(n.decl) && n.decl.body.Some?)
  }

  /** Every edit is defined on every one of the declarations. */
  predicate AllDefined(decls: seq<Node>) {
    decls == [] || (AllDefined(decls[..|decls| - 1]) && NodeDefined(decls[|decls| - 1]))
  }

  lemma {:induction false} AllDefinedPrefix(decls: seq<Node>, d: nat)
    requires AllDefined(decls) && d <= |decls|
    ensures AllDefined(decls[..d])
    ensures d < |decls| ==> NodeDefined(decls[d])
  {
    if d < |decls| {
      var init := decls[..|decls| - 1];
      AllDefinedPrefix(init, d);
      assert init[..d] == decls[..d];
      if d < |init| {
        assert init[d] == decls[d];
      }
    } else {
      assert decls[..d] == decls;
    }
  }

  predicate FileDefined(f: File) {
    AllDefined(f.decls)
  }

  /** Every edit is defined on every selected file. */
  predicate TreesDefined(sel: seq<Selected>) {
    sel == [] || (TreesDefined(sel[..|sel| - 1]) && FileDefined(sel[|sel| - 1].tree))
  }

  lemma {:induction false} TreesDefinedAll(sel: seq<Selected>)
    requires forall k :: 0 <= k < |sel| ==> FileDefined(sel[k].tree)
    ensures TreesDefined(sel)
  {
    if sel != [] {
      var init := sel[..|sel| - 1];
      assert forall k :: 0 <= k < |init| ==> init[k] == sel[k];
      TreesDefinedAll(init);
    }
  }

  lemma {:induction false} TreesDefinedPrefix(sel: seq<Selected>, k: nat)
    requires TreesDefined(sel) && k <= |sel|
    ensures TreesDefined(sel[..k])
    ensures k < |sel| ==> FileDefined(sel[k].tree)
  {
    if k < |sel| {
      var init := sel[..|sel| - 1];
      TreesDefinedPrefix(init, k);
      assert init[..k] == sel[..k];
      if k < |init| {
        assert init[k] == sel[k];
      }
    } else {
      assert sel[..k] == sel;
    }
  }

  /** The parser only produces trees on which every edit is defined. */
  ghost predicate ParserDefined(parse: string -> Option<File>) {
    forall path :: parse(path).Some? ==> FileDefined(parse(path).value)
  }

  /**
   * One FilterAndEdit call: whether it matched, the node afterwards, and the
   * records the framework instrumenter appended. An unmatched node is left
   * alone, and every edit leaves a node on which the others are still defined.
   */
  function EditNode(a: Action, n: Node): (r: (bool, Node, seq<Framework.MethodInfo>))
    requires NodeDefined(n)
    ensures NodeDefined(r.1)
    ensures !r.0 ==> r.1 == n && r.2 == []
    ensures !a.EnhanceMethod? ==> r.2 == []
  {
    match a
    case GoroutineSlot =>
      var e := Runtime.AppendSlotField(n);
      (e.0, e.1, [])
    case Newproc1SlotCopy =>
      var e := Runtime.PrependSlotCopy(n);
      (e.0, e.1, [])
    case EnhanceMethod(p, i) =>
      var e := Framework.EnhanceMethodEdit(p, i, n);
      Framework.EnhanceMethodEditShape(p, i, n);
      e
  }

  /** Every point of a file, in order, on one node; each sees the node as the previous ones left it. */
  function ApplyPoints(points: seq<HookPoint>, n: Node): (r: (bool, Node, seq<Framework.MethodInfo>))
    requires NodeDefined(n)
    ensures NodeDefined(r.1)
    ensures !r.0 ==> r.1 == n && r.2 == []
  {
    if points == [] then (false, n, [])
    else
      var e := ApplyPoints(points[..|points| - 1], n);
      var last := EditNode(points[|points| - 1].action, e.1);
      (e.0 || last.0, last.1, e.2 + last.2)
  }

  /** The traversal of a file's declarations, in order. */
  function ApplyDecls(points: seq<HookPoint>, decls: seq<Node>): (r: (bool, seq<Node>, seq<Framework.MethodInfo>))
    requires AllDefined(decls)
    ensures |r.1| == |decls|
    ensures !r.0 ==> r.1 == decls && r.2 == []
  {
    if decls == [] then (false, [], [])
    else
      var init := decls[..|decls| - 1];
      var e := ApplyDecls(points, init);
      var last := ApplyPoints(points, decls[|decls| - 1]);
      assert !e.0 && !last.0 ==> e.1 + [last.1] == decls by {
        assert init + [decls[|decls| - 1]] == decls;
      }
      (e.0 || last.0, e.1 + [last.1], e.2 + last.2)
  }

  /** A point that is not a framework point produces no record, in any position. */
  lemma {:induction false} RuntimePointsRecordNothing(points: seq<HookPoint>, decls: seq<Node>)
    requires AllDefined(decls)
    requires forall hp :: hp in points ==> !hp.action.EnhanceMethod?
    ensures ApplyDecls(points, decls).2 == []
  {
    if decls != [] {
      RuntimePointsRecordNothing(points, decls[..|decls| - 1]);
      ApplyPointsRecordNothing(points, decls[|decls| - 1]);
    }
  }

  lemma {:induction false} ApplyPointsRecordNothing(points: seq<HookPoint>, n: Node)
    requires NodeDefined(n)
    requires forall hp :: hp in points ==> !hp.action.EnhanceMethod?
    ensures ApplyPoints(points, n).2 == []
  {
    if points != [] {
      assert forall hp :: hp in points[..|points| - 1] ==> hp in points;
      ApplyPointsRecordNothing(points[..|points| - 1], n);
    }
  }

  /** Editing the selected files in order: per file whether it was instrumented and its tree, and all records. */
  function EditAll(sel: seq<Selected>): (r: (seq<(bool, File)>, seq<Framework.MethodInfo>))
    requires TreesDefined(sel)
    ensures |r.0| == |sel|
  {
    if sel == [] then ([], [])
    else
      var e := EditAll(sel[..|sel| - 1]);
      var s := sel[|sel| - 1];
      var f := ApplyDecls(s.points, s.tree.decls);
      (e.0 + [(f.0, s.tree.(decls := f.1))], e.1 + f.2)
  }

  /** The instrumented copy of `path` in the build directory. */
  function Dest(buildDir: string, path: string): string {
    Join(buildDir, Base(path))
  }

  /** The line directive that maps the copy back to the original path. */
  function LineDirective(path: string): string {
    "//line " + path + ":1\n"
  }

  /** The argument list with each instrumented file's first occurrence replaced by its copy. */
  function Substitute(args: seq<string>, sel: seq<Selected>, edited: seq<(bool, File)>, buildDir: string): (r: seq<string>)
    requires |edited| == |sel|
    requires forall k :: 0 <= k < |sel| ==> sel[k].index < |args|
    ensures |r| == |args|
  {
    if sel == [] then args
    else
      var n := |sel| - 1;
      var prev := Substitute(args, sel[..n], edited[..n], buildDir);
      if edited[n].0 then prev[sel[n].index := Dest(buildDir, sel[n].path)] else prev
  }

  /** Substitute is Overwrite with each record's copy as its name. */
  lemma {:induction false} SubstituteOverwrites(args: seq<string>, sel: seq<Selected>, edited: seq<(bool, File)>, buildDir: string)
    requires |edited| == |sel|
    requires forall k :: 0 <= k < |sel| ==> sel[k].index < |args|
    ensures Substitute(args, sel, edited, buildDir) == Overwrite(args, sel, edited, Dests(sel, buildDir))
  {
    if sel != [] {
      var n := |sel| - 1;
      SubstituteOverwrites(args, sel[..n], edited[..n], buildDir);
      assert Dests(sel, buildDir)[..n] == Dests(sel[..n], buildDir);
    }
  }

  /** Each record's copy, in selection order. */
  function Dests(sel: seq<Selected>, buildDir: string): (r: seq<string>)
    ensures |r| == |sel| && forall k :: 0 <= k < |sel| ==> r[k] == Dest(buildDir, sel[k].path)
  {
    seq(|sel|, k requires 0 <= k < |sel| => Dest(buildDir, sel[k].path))
  }

  /** Record by record, the entry at an edited record's index becomes that record's name in `names`. */
  function Overwrite(args: seq<string>, sel: seq<Selected>, edited: seq<(bool, File)>, names: seq<string>): (r: seq<string>)
    requires |edited| == |sel| == |names|
    requires forall k :: 0 <= k < |sel| ==> sel[k].index < |args|
    ensures |r| == |args|
  {
    if sel == [] then args
    else
      var n := |sel| - 1;
      var prev := Overwrite(args, sel[..n], edited[..n], names[..n]);
      if edited[n].0 then prev[sel[n].index := names[n]] else prev
  }

  /** Some instrumented record sits at argument `i`. */
  predicate InstrumentedAt(sel: seq<Selected>, edited: seq<(bool, File)>, i: nat)
    requires |edited| == |sel|
  {
    exists k :: 0 <= k < |sel| && sel[k].index == i && edited[k].0
  }

  /**
   * Only instrumented files are substituted: the entry at an instrumented
   * record's index becomes its copy, and every other entry is unchanged.
   */
  lemma SubstituteSpec(args: seq<string>, sel: seq<Selected>, edited: seq<(bool, File)>, buildDir: string, i: nat)
    requires |edited| == |sel|
    requires forall k :: 0 <= k < |sel| ==> sel[k].index < |args| && args[sel[k].index] == sel[k].path
    requires forall j, k :: 0 <= j < k < |sel| ==> sel[j].index != sel[k].index
    requires i < |args|
    ensures Substitute(args, sel, edited, buildDir)[i] ==
              if InstrumentedAt(sel, edited, i) then Dest(buildDir, args[i]) else args[i]
  {
    var names := Dests(sel, buildDir);
    SubstituteOverwrites(args, sel, edited, buildDir);
    if InstrumentedAt(sel, edited, i) {
      var k :| 0 <= k < |sel| && sel[k].index == i && edited[k].0;
      OverwriteAt(args, sel, edited, names, k);
    } else {
      OverwriteUntouched(args, sel, edited, names, i);
    }
  }

  /** The entry at an edited record's index is that record's name: indices are distinct, so no other record writes there. */
  lemma {:induction false} OverwriteAt(args: seq<string>, sel: seq<Selected>, edited: seq<(bool, File)>, names: seq<string>, k: nat)
    requires |edited| == |sel| == |names|
    requires forall j :: 0 <= j < |sel| ==> sel[j].index < |args|
    requires forall i, j :: 0 <= i < j < |sel| ==> sel[i].index != sel[j].index
    requires k < |sel| && edited[k].0
    ensures Overwrite(args, sel, edited, names)[sel[k].index] == names[k]
  {
    var n := |sel| - 1;
    if k < n {
      var sel', edited', names' := sel[..n], edited[..n], names[..n];
      assert forall j :: 0 <= j < n ==> sel'[j] == sel[j] && edited'[j] == edited[j] && names'[j] == names[j];
      OverwriteAt(args, sel', edited', names', k);
      assert sel[n].index != sel[k].index;
    }
  }

  /** An entry no edited record points at stays as it was. */
  lemma {:induction false} OverwriteUntouched(args: seq<string>, sel: seq<Selected>, edited: seq<(bool, File)>, names: seq<string>, i: nat)
    requires |edited| == |sel| == |names|
    requires forall j :: 0 <= j < |sel| ==> sel[j].index < |args|
    requires forall j :: 0 <= j < |sel| && sel[j].index == i ==> !edited[j].0
    requires i < |args|
    ensures Overwrite(args, sel, edited, names)[i] == args[i]
  {
    if sel != [] {
      var n := |sel| - 1;
      var sel', edited', names' := sel[..n], edited[..n], names[..n];
      assert forall j :: 0 <= j < n ==> sel'[j] == sel[j] && edited'[j] == edited[j];
      OverwriteUntouched(args, sel', edited', names', i);
    }
  }

  /** The written copies of the instrumented files, in selection order. */
  function Rewrites(sel: seq<Selected>, edited: seq<(bool, File)>, buildDir: string): seq<WrittenFile>
    requires |edited| == |sel|
  {
    if sel == [] then []
    else
      var n := |sel| - 1;
      Rewrites(sel[..n], edited[..n], buildDir) +
      (if edited[n].0 then [WrittenFile(Dest(buildDir, sel[n].path), Rewritten(LineDirective(sel[n].path), edited[n].1))] else [])
  }

  /** Every written copy starts with the directive naming its original path and is named after that path. */
  lemma {:induction false} RewritesShape(sel: seq<Selected>, edited: seq<(bool, File)>, buildDir: string, w: WrittenFile)
    requires |edited| == |sel|
    requires w in Rewrites(sel, edited, buildDir)
    ensures exists k :: 0 <= k < |sel| && edited[k].0 &&
              w == WrittenFile(Dest(buildDir, sel[k].path), Rewritten("//line " + sel[k].path + ":1\n", edited[k].1))
  {
    var n := |sel| - 1;
    if w in Rewrites(sel[..n], edited[..n], buildDir) {
      RewritesShape(sel[..n], edited[..n], buildDir, w);
      var k :| 0 <= k < n && edited[..n][k].0 &&
               w == WrittenFile(Dest(buildDir, sel[..n][k].path), Rewritten("//line " + sel[..n][k].path + ":1\n", edited[..n][k].1));
      assert sel[..n][k] == sel[k] && edited[..n][k] == edited[k];
    } else {
      assert edited[n].0;
    }
  }

  /** The hook points of the instrumenter chosen for the package: runtime's for "runtime", the frameworks' otherwise. */
  function HookPointsFor(pkg: string, registry: seq<Core.Instrument>): seq<HookPoint> {
    if pkg == "runtime" then Runtime.HookPoints() else Framework.FrameworkPoints(registry)
  }

  function Paths(files: seq<WrittenFile>): (r: seq<string>)
    ensures |r| == |files| && forall k :: 0 <= k < |files| ==> r[k] == files[k].path
  {
    seq(|files|, k requires 0 <= k < |files| => files[k].path)
  }

  /** The new argument list, and every file written into the build directory. */
  datatype Outcome = Outcome(args: seq<string>, written: seq<WrittenFile>)

  /** A successful selection over a parser that yields only editable trees can be edited and substituted. */
  lemma SelectionDefined(args: seq<string>, points: seq<HookPoint>, pkg: string, parse: string -> Option<File>)
    requires ParserDefined(parse)
    ensures var r := Select(args, |args|, points, pkg, parse);
            r.Ok? ==> TreesDefined(r.value) && forall k :: 0 <= k < |r.value| ==> r.value[k].index < |args|
  {
    SelectSound(args, |args|, points, pkg, parse);
    var r := Select(args, |args|, points, pkg, parse);
    if r.Ok? {
      assert forall k :: 0 <= k < |r.value| ==> GoodRecord(r.value[k], args, |args|, points, pkg, parse);
      TreesDefinedAll(r.value);
    }
  }

  /** The tail of `instrument` once the files are selected: edit them, then write the copies and the extra files. */
  function Finish(args: seq<string>, opt: CompileOptions, sel: seq<Selected>): Result<Outcome, Error>
    requires TreesDefined(sel) && forall k :: 0 <= k < |sel| ==> sel[k].index < |args|
  {
    var buildDir := Dir(opt.output);
    var (edited, records) := EditAll(sel);
    var extra := if opt.package == "runtime" then Runtime.WriteExtraFiles(buildDir) else Framework.ExtraFiles(records, buildDir);
    match extra
    case Err(e) => Err(e)
    case Ok(files) =>
      Ok(Outcome(Substitute(args, sel, edited, buildDir) + Paths(files), Rewrites(sel, edited, buildDir) + files))
  }

  /** `instrument` as a function of its inputs. */
  function InstrumentSpec(args: seq<string>, opt: CompileOptions, registry: seq<Core.Instrument>,
                          parse: string -> Option<File>): Result<Outcome, Error>
    requires ParserDefined(parse)
  {
    var points := HookPointsFor(opt.package, registry);
    SelectionDefined(args, points, opt.package, parse);
    match Select(args, |args|, points, opt.package, parse)
    case Err(e) => Err(e)
    case Ok(sel) => Finish(args, opt, sel)
  }

  /** Records sit at distinct arguments, since each one sits at its own path's first occurrence. */
  lemma DistinctIndices(sel: seq<Selected>, args: seq<string>, points: seq<HookPoint>, pkg: string,
                        parse: string -> Option<File>)
    requires WellSelected(sel, args, |args|, points, pkg, parse)
    ensures forall j, k :: 0 <= j < k < |sel| ==> sel[j].index != sel[k].index
  {
    forall j, k | 0 <= j < k < |sel| ensures sel[j].index != sel[k].index {
      assert GoodRecord(sel[j], args, |args|, points, pkg, parse);
      assert GoodRecord(sel[k], args, |args|, points, pkg, parse);
    }
  }

  /** Only candidates are ever substituted, and only by their own copy. */
  lemma SubstitutedArgs(args: seq<string>, sel: seq<Selected>, edited: seq<(bool, File)>, buildDir: string,
                        points: seq<HookPoint>, pkg: string, parse: string -> Option<File>)
    requires WellSelected(sel, args, |args|, points, pkg, parse)
    requires |edited| == |sel|
    ensures var sub := Substitute(args, sel, edited, buildDir);
            forall i :: 0 <= i < |args| ==>
              (sub[i] == args[i] || sub[i] == Dest(buildDir, args[i])) &&
              (sub[i] != args[i] ==> Candidate(points, pkg, args[i]))
  {
    assert forall k :: 0 <= k < |sel| ==> GoodRecord(sel[k], args, |args|, points, pkg, parse);
    DistinctIndices(sel, args, points, pkg, parse);
    var sub := Substitute(args, sel, edited, buildDir);
    forall i | 0 <= i < |args|
      ensures (sub[i] == args[i] || sub[i] == Dest(buildDir, args[i])) &&
              (sub[i] != args[i] ==> Candidate(points, pkg, args[i]))
    {
      SubstituteSpec(args, sel, edited, buildDir, i);
      if sub[i] != args[i] {
        var k :| 0 <= k < |sel| && sel[k].index == i && edited[k].0;
        assert GoodRecord(sel[k], args, |args|, points, pkg, parse);
        var hp := sel[k].points[0];
        assert hp in sel[k].points;
        MatchingSpec(points, pkg, args[i]);
      }
    }
  }

  /**
   * The argument list `instrument` hands back: the original arguments, where
   * an entry changes only if it is a candidate, and then into its copy in the
   * build directory; the extra files' paths follow.
   */
  lemma InstrumentArgs(args: seq<string>, opt: CompileOptions, registry: seq<Core.Instrument>,
                       parse: string -> Option<File>)
    requires ParserDefined(parse)
    ensures var r := InstrumentSpec(args, opt, registry, parse);
            var points := HookPointsFor(opt.package, registry);
            r.Ok? ==>
              |r.value.args| >= |args| &&
              (forall i :: 0 <= i < |args| ==>
                 r.value.args[i] == args[i] || r.value.args[i] == Dest(Dir(opt.output), args[i])) &&
              (forall i :: 0 <= i < |args| && r.value.args[i] != args[i] ==> Candidate(points, opt.package, args[i]))
  {
    var points := HookPointsFor(opt.package, registry);
    SelectSound(args, |args|, points, opt.package, parse);
    SelectionDefined(args, points, opt.package, parse);
    var s := Select(args, |args|, points, opt.package, parse);
    if s.Ok? {
      var sel := s.value;
      assert forall k :: 0 <= k < |sel| ==> GoodRecord(sel[k], args, |args|, points, opt.package, parse);
      var edited := EditAll(sel).0;
      SubstitutedArgs(args, sel, edited, Dir(opt.output), points, opt.package, parse);
      FinishArgs(args, opt, sel);
      var r := InstrumentSpec(args, opt, registry, parse);
      assert r == Finish(args, opt, sel);
      if r.Ok? {
        var sub := Substitute(args, sel, edited, Dir(opt.output));
        assert forall i :: 0 <= i < |args| ==> r.value.args[i] == r.value.args[..|args|][i] == sub[i];
      }
    }
  }

  lemma FinishArgs(args: seq<string>, opt: CompileOptions, sel: seq<Selected>)
    requires TreesDefined(sel) && forall k :: 0 <= k < |sel| ==> sel[k].index < |args|
    ensures var r := Finish(args, opt, sel);
            r.Ok? ==> r.value.args[..|args|] == Substitute(args, sel, EditAll(sel).0, Dir(opt.output)) &&
                      ExtrasWritten(r.value, |args|)
  {
    var buildDir := Dir(opt.output);
    var (edited, records) := EditAll(sel);
    var extra := if opt.package == "runtime" then Runtime.WriteExtraFiles(buildDir) else Framework.ExtraFiles(records, buildDir);
    if extra.Ok? {
      ExtrasAreNotCopies(opt.package, records, buildDir);
      OutcomeShape(Finish(args, opt, sel).value, Substitute(args, sel, edited, buildDir), Rewrites(sel, edited, buildDir), extra.value);
    }
  }

  /** The substituted arguments come first, then the paths of the extra files, each of which is written. */
  lemma OutcomeShape(out: Outcome, sub: seq<string>, copies: seq<WrittenFile>, files: seq<WrittenFile>)
    requires out.args == sub + Paths(files) && out.written == copies + files
    requires forall w :: w in files ==> !w.content.Rewritten?
    ensures out.args[..|sub|] == sub && ExtrasWritten(out, |sub|)
  {
    assert out.args[..|sub|] == sub;
    forall i | |sub| <= i < |out.args| ensures ExtraAt(out, i) {
      var w := files[i - |sub|];
      assert w in out.written;
    }
  }

  /** Every argument from `n` on is the path of a written extra file. */
  ghost predicate ExtrasWritten(out: Outcome, n: nat) {
    |out.args| >= n && forall i :: n <= i < |out.args| ==> ExtraAt(out, i)
  }

  /** Argument `i` is the path of a written file that is not a rewritten copy. */
  ghost predicate ExtraAt(out: Outcome, i: nat)
    requires i < |out.args|
  {
    exists w :: w in out.written && !w.content.Rewritten? && w.path == out.args[i]
  }

  /** After the original arguments come only the paths of extra files that were written. */
  lemma InstrumentExtras(args: seq<string>, opt: CompileOptions, registry: seq<Core.Instrument>,
                         parse: string -> Option<File>)
    requires ParserDefined(parse)
    ensures var r := InstrumentSpec(args, opt, registry, parse);
            r.Ok? ==> ExtrasWritten(r.value, |args|)
  {
    var points := HookPointsFor(opt.package, registry);
    SelectionDefined(args, points, opt.package, parse);
    var s := Select(args, |args|, points, opt.package, parse);
    if s.Ok? {
      FinishArgs(args, opt, s.value);
      assert InstrumentSpec(args, opt, registry, parse) == Finish(args, opt, s.value);
    }
  }

  /** The extra files are never Rewritten copies. */
  lemma ExtrasAreNotCopies(pkg: string, records: seq<Framework.MethodInfo>, buildDir: string)
    ensures var extra := if pkg == "runtime" then Runtime.WriteExtraFiles(buildDir) else Framework.ExtraFiles(records, buildDir);
            extra.Ok? ==> forall w :: w in extra.value ==> !w.content.Rewritten?
  {
    if pkg != "runtime" && records != [] {
      Framework.ExtraFilesLayout(records, buildDir);
      var r := Framework.ExtraFiles(records, buildDir);
      if r.Ok? {
        Framework.CopyInterceptorsShape(records[0].inst.assets, buildDir, Framework.ImportPath(records[0].point, records[0].inst));
        forall w | w in r.value ensures !w.content.Rewritten? {
          var j :| 0 <= j < |r.value| && r.value[j] == w;
          if j >= 2 {
            assert w == r.value[2..][j - 2];
          }
        }
      }
    }
  }

  /**
   * Every instrumented copy is written where its argument now points, under
   * the original file's name, behind a line directive naming the original path.
   */
  lemma InstrumentCopies(args: seq<string>, opt: CompileOptions, registry: seq<Core.Instrument>,
                         parse: string -> Option<File>, w: WrittenFile)
    requires ParserDefined(parse)
    requires InstrumentSpec(args, opt, registry, parse).Ok?
    requires w in InstrumentSpec(args, opt, registry, parse).value.written && w.content.Rewritten?
    ensures var r := InstrumentSpec(args, opt, registry, parse).value;
            exists i :: 0 <= i < |args| && r.args[i] == w.path && w.path == Dest(Dir(opt.output), args[i]) &&
                        w.content.directive == "//line " + args[i] + ":1\n"
  {
    var points := HookPointsFor(opt.package, registry);
    SelectSound(args, |args|, points, opt.package, parse);
    SelectionDefined(args, points, opt.package, parse);
    var sel := Select(args, |args|, points, opt.package, parse).value;
    assert forall k :: 0 <= k < |sel| ==> GoodRecord(sel[k], args, |args|, points, opt.package, parse);
    DistinctIndices(sel, args, points, opt.package, parse);
    var buildDir := Dir(opt.output);
    var (edited, records) := EditAll(sel);
    var files := (if opt.package == "runtime" then Runtime.WriteExtraFiles(buildDir) else Framework.ExtraFiles(records, buildDir)).value;
    ExtrasAreNotCopies(opt.package, records, buildDir);
    var r := InstrumentSpec(args, opt, registry, parse).value;
    assert r == Outcome(Substitute(args, sel, edited, buildDir) + Paths(files), Rewrites(sel, edited, buildDir) + files);
    assert w in Rewrites(sel, edited, buildDir);
    RewritesShape(sel, edited, buildDir, w);
    var k :| 0 <= k < |sel| && edited[k].0 &&
             w == WrittenFile(Dest(buildDir, sel[k].path), Rewritten("//line " + sel[k].path + ":1\n", edited[k].1));
    var i := sel[k].index;
    SubstituteSpec(args, sel, edited, buildDir, i);
    assert InstrumentedAt(sel, edited, i);
    assert r.args[i] == w.path;
  }

  /** The copy of an instrumented `.go` file keeps the file's name. */
  lemma DestKeepsName(buildDir: string, path: string)
    requires HasSuffix(path, ".go")
    ensures Base(Dest(buildDir, path)) == Base(path)
  {
    var b := Base(path);
    if b == "/" {
      assert path != [] && path[|path| - 1] == 'o';
      assert TrimTrailingSlashes(path) == path;
    }
    BaseOfJoin(buildDir, b);
  }

  /** The selection after one more argument, given the selection before it. */
  function SelectStep(sel: seq<Selected>, path: string, inx: nat, points: seq<HookPoint>, pkg: string,
                      parse: string -> Option<File>): Result<seq<Selected>, Error>
  {
    if !Candidate(points, pkg, path) then Ok(sel)
    else if parse(path).None? then Err(ParseError)
    else Ok(AddPoints(sel, path, inx, parse(path).value, Matching(points, pkg, path)))
  }

  /** The selection loop: argument by argument. */
  method SelectFiles(args: seq<string>, points: seq<HookPoint>, pkg: string, parse: string -> Option<File>)
    returns (r: Result<seq<Selected>, Error>)
    ensures r == Select(args, |args|, points, pkg, parse)
  {
    var sel: seq<Selected> := [];
    for inx := 0 to |args|
      invariant Select(args, inx, points, pkg, parse) == Ok(sel)
    {
      var path := args[inx];
      if !HasSuffix(path, ".go") {
        continue;
      }
      var next := MatchPoints(sel, path, inx, points, pkg, parse);
      assert Select(args, inx + 1, points, pkg, parse) == SelectStep(sel, path, inx, points, pkg, parse);
      if next.Err? {
        SelectErrorStays(args, inx + 1, |args|, points, pkg, parse);
        return next;
      }
      sel := next.value;
    }
    r := Ok(sel);
  }

  /** The first parse failure ends the selection: later arguments do not change the result. */
  lemma {:induction false} SelectErrorStays(args: seq<string>, n: nat, m: nat, points: seq<HookPoint>, pkg: string,
                                            parse: string -> Option<File>)
    requires n <= m <= |args|
    requires Select(args, n, points, pkg, parse).Err?
    ensures Select(args, m, points, pkg, parse) == Select(args, n, points, pkg, parse)
  {
    if m > n {
      SelectErrorStays(args, n, m - 1, points, pkg, parse);
    }
  }

  /** One argument against every hook point: parse on each match and collect the point in the path's record. */
  method MatchPoints(sel: seq<Selected>, path: string, inx: nat, points: seq<HookPoint>, pkg: string,
                     parse: string -> Option<File>) returns (r: Result<seq<Selected>, Error>)
    requires HasSuffix(path, ".go")
    ensures r == SelectStep(sel, path, inx, points, pkg, parse)
  {
    var cur := sel;
    for h := 0 to |points|
      invariant var ms := Matching(points[..h], pkg, path);
                (ms == [] ==> cur == sel) &&
                (ms != [] ==> parse(path).Some? && cur == AddPoints(sel, path, inx, parse(path).value, ms))
    {
      var hp := points[h];
      assert points[..h + 1][..h] == points[..h];
      assert Matching(points[..h + 1], pkg, path) ==
             Matching(points[..h], pkg, path) + (if PointMatches(hp, pkg, path) then [hp] else []);
      if hp.pkg != pkg || Base(path) != hp.file {
        continue;
      }
      var file := parse(path);
      if file.None? {
        MatchingSpec(points, pkg, path);
        assert Candidate(points, pkg, path);
        return Err(ParseError);
      }
      if Matching(points[..h], pkg, path) != [] {
        AddPointsTwice(sel, path, inx, file.value, Matching(points[..h], pkg, path), [hp]);
      } else {
        assert Matching(points[..h + 1], pkg, path) == [hp];
      }
      cur := AddPoints(cur, path, inx, file.value, [hp]);
    }
    assert points[..|points|] == points;
    r := Ok(cur);
  }

  /** One point's FilterAndEdit on one node, through the instrumenter that owns the point. */
  method EditWith(a: Action, n: Node, fw: Framework.FrameworkInstrument?) returns (hit: bool, m: Node)
    requires NodeDefined(n)
    requires a.EnhanceMethod? ==> fw != null
    modifies fw
    ensures hit == EditNode(a, n).0 && m == EditNode(a, n).1
    ensures fw != null ==> fw.enhanceMethods == old(fw.enhanceMethods) + EditNode(a, n).2
  {
    match a
    case GoroutineSlot =>
      var e := Runtime.AppendSlotField(n);
      hit, m := e.0, e.1;
    case Newproc1SlotCopy =>
      var e := Runtime.PrependSlotCopy(n);
      hit, m := e.0, e.1;
    case EnhanceMethod(p, i) =>
      hit, m := fw.FilterAndEdit(p, i, n);
  }

  /** The traversal of one selected file: every declaration, and on each every point of the file in order. */
  method EditFile(s: Selected, fw: Framework.FrameworkInstrument?) returns (hit: bool, tree: File)
    requires FileDefined(s.tree)
    requires fw == null ==> forall hp :: hp in s.points ==> !hp.action.EnhanceMethod?
    modifies fw
    ensures var e := ApplyDecls(s.points, s.tree.decls);
            hit == e.0 && tree == s.tree.(decls := e.1) &&
            (fw != null ==> fw.enhanceMethods == old(fw.enhanceMethods) + e.2)
  {
    var decls;
    hit, decls := EditDecls(s.points, s.tree.decls, fw);
    tree := s.tree.(decls := decls);
  }

  method EditDecls(points: seq<HookPoint>, decls: seq<Node>, fw: Framework.FrameworkInstrument?)
    returns (hit: bool, out: seq<Node>)
    requires AllDefined(decls)
    requires fw == null ==> forall hp :: hp in points ==> !hp.action.EnhanceMethod?
    modifies fw
    ensures var e := ApplyDecls(points, decls);
            hit == e.0 && out == e.1 && (fw != null ==> fw.enhanceMethods == old(fw.enhanceMethods) + e.2)
  {
    out := [];
    hit := false;
    ghost var records: seq<Framework.MethodInfo> := [];
    for d := 0 to |decls|
      invariant AllDefined(decls[..d])
      invariant (hit, out, records) == ApplyDecls(points, decls[..d])
      invariant fw != null ==> fw.enhanceMethods == old(fw.enhanceMethods) + records
    {
      AllDefinedPrefix(decls, d);
      AllDefinedPrefix(decls, d + 1);
      ApplyDeclsStep(points, decls, d);
      ghost var e := ApplyPoints(points, decls[d]);
      var h, node := EditNodeWithPoints(points, decls[d], fw);
      if fw != null {
        AppendAssoc(old(fw.enhanceMethods), records, e.2);
      }
      hit := hit || h;
      out := out + [node];
      records := records + e.2;
    }
    assert decls[..|decls|] == decls;
  }

  lemma ApplyDeclsStep(points: seq<HookPoint>, decls: seq<Node>, d: nat)
    requires d < |decls|
    requires AllDefined(decls[..d]) && AllDefined(decls[..d + 1]) && NodeDefined(decls[d])
    ensures var e := ApplyDecls(points, decls[..d]);
            var last := ApplyPoints(points, decls[d]);
            ApplyDecls(points, decls[..d + 1]) == (e.0 || last.0, e.1 + [last.1], e.2 + last.2)
  {
    assert decls[..d + 1][..d] == decls[..d];
  }

  /** Every point of the file, in order, on one declaration. */
  method EditNodeWithPoints(points: seq<HookPoint>, n: Node, fw: Framework.FrameworkInstrument?) returns (hit: bool, m: Node)
    requires NodeDefined(n)
    requires fw == null ==> forall hp :: hp in points ==> !hp.action.EnhanceMethod?
    modifies fw
    ensures var e := ApplyPoints(points, n);
            hit == e.0 && m == e.1 && (fw != null ==> fw.enhanceMethods == old(fw.enhanceMethods) + e.2)
  {
    hit, m := false, n;
    ghost var records: seq<Framework.MethodInfo> := [];
    for p := 0 to |points|
      invariant (hit, m, records) == ApplyPoints(points[..p], n)
      invariant fw != null ==> fw.enhanceMethods == old(fw.enhanceMethods) + records
    {
      assert points[..p + 1][..p] == points[..p];
      assert points[p] in points;
      ghost var e := EditNode(points[p].action, m);
      var h, edited := EditWith(points[p].action, m, fw);
      if fw != null {
        AppendAssoc(old(fw.enhanceMethods), records, e.2);
      }
      records := records + e.2;
      if h {
        hit := true;
      }
      m := edited;
    }
    assert points[..|points|] == points;
  }

  lemma EditAllStep(sel: seq<Selected>, k: nat)
    requires k < |sel|
    requires TreesDefined(sel[..k]) && TreesDefined(sel[..k + 1]) && FileDefined(sel[k].tree)
    ensures var e := EditAll(sel[..k]);
            var f := ApplyDecls(sel[k].points, sel[k].tree.decls);
            EditAll(sel[..k + 1]) == (e.0 + [(f.0, sel[k].tree.(decls := f.1))], e.1 + f.2)
  {
    assert sel[..k + 1][..k] == sel[..k];
  }

  lemma AppendAssoc(a: seq<Framework.MethodInfo>, b: seq<Framework.MethodInfo>, c: seq<Framework.MethodInfo>)
    ensures (a + b) + c == a + (b + c)
  {
  }

  /** Editing the selected files in turn. */
  method EditSelected(sel: seq<Selected>, fw: Framework.FrameworkInstrument?) returns (edited: seq<(bool, File)>)
    requires TreesDefined(sel)
    requires fw == null ==> forall k, hp :: 0 <= k < |sel| && hp in sel[k].points ==> !hp.action.EnhanceMethod?
    modifies fw
    ensures edited == EditAll(sel).0
    ensures fw != null ==> fw.enhanceMethods == old(fw.enhanceMethods) + EditAll(sel).1
  {
    edited := [];
    ghost var records: seq<Framework.MethodInfo> := [];
    for k := 0 to |sel|
      invariant TreesDefined(sel[..k])
      invariant (edited, records) == EditAll(sel[..k])
      invariant fw != null ==> fw.enhanceMethods == old(fw.enhanceMethods) + records
    {
      TreesDefinedPrefix(sel, k);
      TreesDefinedPrefix(sel, k + 1);
      EditAllStep(sel, k);
      ghost var f := ApplyDecls(sel[k].points, sel[k].tree.decls);
      var hit, tree := EditFile(sel[k], fw);
      edited := edited + [(hit, tree)];
      if fw != null {
        AppendAssoc(old(fw.enhanceMethods), records, f.2);
      }
      records := records + f.2;
    }
    assert sel[..|sel|] == sel;
  }

  /** Write each instrumented copy behind its line directive and put its path in place of the original. */
  method WriteCopies(args: seq<string>, sel: seq<Selected>, edited: seq<(bool, File)>, buildDir: string)
    returns (newArgs: seq<string>, written: seq<WrittenFile>)
    requires |edited| == |sel|
    requires forall k :: 0 <= k < |sel| ==> sel[k].index < |args|
    ensures newArgs == Substitute(args, sel, edited, buildDir)
    ensures written == Rewrites(sel, edited, buildDir)
  {
    newArgs := args;
    written := [];
    for k := 0 to |sel|
      invariant newArgs == Substitute(args, sel[..k], edited[..k], buildDir)
      invariant written == Rewrites(sel[..k], edited[..k], buildDir)
    {
      assert sel[..k + 1][..k] == sel[..k] && edited[..k + 1][..k] == edited[..k];
      if edited[k].0 {
        var dest := Join(buildDir, Base(sel[k].path));
        written := written + [WrittenFile(dest, Rewritten("//line " + sel[k].path + ":1\n", edited[k].1))];
        newArgs := newArgs[sel[k].index := dest];
      }
    }
    assert sel[..|sel|] == sel && edited[..|sel|] == edited;
  }

  /** The extra files' paths, in order. */
  method ExtraPaths(files: seq<WrittenFile>) returns (paths: seq<string>)
    ensures paths == Paths(files)
  {
    paths := [];
    for j := 0 to |files|
      invariant paths == Paths(files[..j])
    {
      paths := paths + [files[j].path];
    }
    assert files[..|files|] == files;
  }

  /**
   * instrument: choose the instrumenter by package, select and edit the
   * files, write each instrumented copy behind its line directive and put it
   * in place of the original argument, then append the extra files.
   */
  method Instrument(args: seq<string>, opt: CompileOptions, registry: seq<Core.Instrument>,
                    parse: string -> Option<File>) returns (r: Result<Outcome, Error>)
    requires ParserDefined(parse)
    ensures r == InstrumentSpec(args, opt, registry, parse)
  {
    var fw: Framework.FrameworkInstrument? := null;
    var points: seq<HookPoint>;
    if opt.package == "runtime" {
      points := Runtime.HookPoints();
    } else {
      fw := new Framework.FrameworkInstrument(registry);
      points := fw.points;
    }
    var selected := SelectFiles(args, points, opt.package, parse);
    if selected.Err? {
      return Err(selected.error);
    }
    var sel := selected.value;
    SelectionDefined(args, points, opt.package, parse);
    if fw == null {
      RuntimeSelection(args, points, opt.package, parse);
    }
    r := EditAndWrite(args, opt, sel, fw);
  }

  /** The runtime's points are not framework points, so neither is any point a runtime selection collects. */
  lemma RuntimeSelection(args: seq<string>, points: seq<HookPoint>, pkg: string, parse: string -> Option<File>)
    requires points == Runtime.HookPoints()
    ensures var r := Select(args, |args|, points, pkg, parse);
            r.Ok? ==> forall k, hp :: 0 <= k < |r.value| && hp in r.value[k].points ==> !hp.action.EnhanceMethod?
  {
    SelectSound(args, |args|, points, pkg, parse);
    var r := Select(args, |args|, points, pkg, parse);
    if r.Ok? {
      assert forall k :: 0 <= k < |r.value| ==> GoodRecord(r.value[k], args, |args|, points, pkg, parse);
    }
  }

  /** The tail of instrument: edit the selected files, write the copies and the extra files, and extend the arguments. */
  method EditAndWrite(args: seq<string>, opt: CompileOptions, sel: seq<Selected>, fw: Framework.FrameworkInstrument?)
    returns (r: Result<Outcome, Error>)
    requires TreesDefined(sel) && forall k :: 0 <= k < |sel| ==> sel[k].index < |args|
    requires fw == null <==> opt.package == "runtime"
    requires fw != null ==> fw.enhanceMethods == []
    requires fw == null ==> forall k, hp :: 0 <= k < |sel| && hp in sel[k].points ==> !hp.action.EnhanceMethod?
    modifies fw
    ensures r == Finish(args, opt, sel)
  {
    var buildDir := Dir(opt.output);
    var edited := EditSelected(sel, fw);
    var newArgs, written := WriteCopies(args, sel, edited, buildDir);
    var extra: Result<seq<WrittenFile>, Error>;
    if fw == null {
      extra := Runtime.WriteExtraFiles(buildDir);
    } else {
      extra := fw.WriteExtraFiles(buildDir);
    }
    if extra.Err? {
      return Err(extra.error);
    }
    var files := extra.value;
    var extraArgs := ExtraPaths(files);
    assert fw != null ==> fw.enhanceMethods == EditAll(sel).1;
    assert extra == (if opt.package == "runtime" then Runtime.WriteExtraFiles(buildDir)
                     else Framework.ExtraFiles(EditAll(sel).1, buildDir));
    r := Ok(Outcome(newArgs + extraArgs, written + files));
  }
}
