/**
 * Parameter naming (cmd/intrument.go): every parameter, result or receiver
 * field that generated code must refer to gets a usable name, and its type
 * gets a default-value token.
 */
module Params {
  import opened Wrappers
  import opened Ast
  import opened GoStd

  /** What generated code needs to know of one field: its name, its type and a default value. */
  datatype ParameterInfo = ParameterInfo(name: string, typ: Expr, defaultValue: string)

  /** The type shapes whose default token is "0": a unary expression on INT or FLOAT. */
  predicate IsNumericToken(t: Expr) {
    t.Unary? && (t.op == INT || t.op == FLOAT)
  }

  /** NewParameterInfo: the default is "0" for a numeric token shape and "nil" for everything else. */
  function NewParameterInfo(name: string, tp: Expr): (r: ParameterInfo)
    ensures r.name == name && r.typ == tp
    ensures r.defaultValue == "0" || r.defaultValue == "nil"
    ensures r.defaultValue == "0" <==> IsNumericToken(tp)
  {
    var d :=
      match tp
      case Star(_) => "nil"
      case Unary(op, _) => if op == INT || op == FLOAT then "0" else "nil"
      case _ => "nil";
    ParameterInfo(name, tp, d)
  }

  /** A plain identifier type such as `int` or `string` also defaults to "nil". */
  lemma IdentifierTypesDefaultToNil(name: string, typeName: string)
    ensures NewParameterInfo(name, Ident(typeName)).defaultValue == "nil"
  {
  }

  /** The name given to the field at index `i`: `sw_param_<i>`. */
  function SyntheticName(i: nat): (r: string)
    ensures |r| > 9 && r[..9] == "sw_param_"
  {
    "sw_param_" + NatToString(i)
  }

  lemma SyntheticNamesDistinct(i: nat, j: nat)
    requires i != j
    ensures SyntheticName(i) != SyntheticName(j)
  {
    if SyntheticName(i) == SyntheticName(j) {
      PrefixedNumberInjective("sw_param_", i, j);
    }
  }

  /** `names` with only its first "_" replaced by `newName`. */
  function RenameFirstBlank(names: seq<string>, newName: string): (r: seq<string>)
    ensures |r| == |names|
    ensures forall k :: 0 <= k < |names| ==>
              r[k] == (if names[k] == "_" && "_" !in names[..k] then newName else names[k])
  {
    if names == [] then []
    else if names[0] == "_" then [newName] + names[1..]
    else
      var rest := RenameFirstBlank(names[1..], newName);
      assert forall k :: 1 <= k < |names| ==> names[..k] == [names[0]] + names[1..][..k - 1];
      [names[0]] + rest
  }

  /** The field at index `i` after naming: an unnamed field gets the synthetic name, otherwise its first "_" does. */
  function EnhanceField(f: Field, i: nat): (r: Field)
    ensures r.typ == f.typ && |r.names| >= 1
  {
    if f.names == [] then Field([SyntheticName(i)], f.typ)
    else Field(RenameFirstBlank(f.names, SyntheticName(i)), f.typ)
  }

  /** The whole field list after naming, field by field. */
  function EnhancedFields(fs: seq<Field>): (r: seq<Field>)
    ensures |r| == |fs|
    ensures forall k :: 0 <= k < |fs| ==> r[k] == EnhanceField(fs[k], k)
  {
    seq(|fs|, k requires 0 <= k < |fs| => EnhanceField(fs[k], k))
  }

  /** One ParameterInfo per field (not per name), named by the field's first name after naming. */
  function ParamInfos(fs: seq<Field>): (r: seq<ParameterInfo>)
    ensures |r| == |fs|
    ensures forall k :: 0 <= k < |fs| ==> r[k] == NewParameterInfo(EnhanceField(fs[k], k).names[0], fs[k].typ)
  {
    seq(|fs|, k requires 0 <= k < |fs| => NewParameterInfo(EnhanceField(fs[k], k).names[0], fs[k].typ))
  }

  /**
   * Which name a field contributes: the synthetic one when it is unnamed or
   * its first name is "_", otherwise its first name; later names never count.
   */
  lemma ParamInfoName(fs: seq<Field>, i: nat)
    requires i < |fs|
    ensures ParamInfos(fs)[i].name ==
              if fs[i].names == [] || fs[i].names[0] == "_" then SyntheticName(i) else fs[i].names[0]
  {
    if fs[i].names != [] {
      assert fs[i].names[..0] == [];
    }
  }

  /** After naming, no field is unnamed, and a field that had a "_" no longer has its first one. */
  lemma EnhancedFieldsNamed(fs: seq<Field>, i: nat)
    requires i < |fs|
    ensures EnhancedFields(fs)[i].names != []
    ensures fs[i].names != [] ==> |EnhancedFields(fs)[i].names| == |fs[i].names|
    ensures fs[i].names != [] && "_" !in fs[i].names ==> EnhancedFields(fs)[i].names == fs[i].names
  {
    var names := fs[i].names;
    if names != [] && "_" !in names {
      var r := EnhancedFields(fs)[i].names;
      assert forall k :: 0 <= k < |names| ==> r[k] == names[k];
    }
  }

  /** The inner loop of enhanceParameterNames: overwrite the first "_" of a field's names, if any. */
  method RenameFirstBlankInPlace(names: seq<string>, newName: string) returns (r: seq<string>)
    ensures r == RenameFirstBlank(names, newName)
  {
    r := names;
    var j := 0;
    while j < |r|
      invariant 0 <= j <= |r|
      invariant r == names
      invariant "_" !in names[..j]
    {
      if r[j] == "_" {
        r := r[j := newName];
        break;
      }
      assert names[..j + 1] == names[..j] + [names[j]];
      j := j + 1;
    }
    ghost var spec := RenameFirstBlank(names, newName);
    forall k | 0 <= k < |r| ensures r[k] == spec[k] {
      if j < k < |names| {
        assert names[..k][j] == names[j];
      }
    }
  }

  /**
   * enhanceParameterNames: names the fields of a list in place and returns one
   * ParameterInfo per field; a nil list gives nil.
   */
  method EnhanceParameterNames(fields: Option<seq<Field>>) returns (renamed: Option<seq<Field>>, infos: Option<seq<ParameterInfo>>)
    ensures fields.None? ==> renamed.None? && infos.None?
    ensures fields.Some? ==> renamed == Some(EnhancedFields(fields.value)) && infos == Some(ParamInfos(fields.value))
  {
    if fields.None? {
      return None, None;
    }
    ghost var original := fields.value;
    var list := fields.value;
    var result: seq<ParameterInfo> := [];
    var i := 0;
    while i < |list|
      invariant 0 <= i <= |list| == |original|
      invariant forall k :: 0 <= k < i ==> list[k] == EnhanceField(original[k], k)
      invariant forall k :: i <= k < |list| ==> list[k] == original[k]
      invariant |result| == i
      invariant forall k :: 0 <= k < i ==> result[k] == NewParameterInfo(EnhanceField(original[k], k).names[0], original[k].typ)
    {
      var f := list[i];
      var defineName := "sw_param_" + NatToString(i);
      if |f.names| == 0 {
        f := Field([defineName], f.typ);
        result := result + [NewParameterInfo(defineName, f.typ)];
      } else {
        var names := RenameFirstBlankInPlace(f.names, defineName);
        f := Field(names, f.typ);
        result := result + [NewParameterInfo(names[0], f.typ)];
      }
      list := list[i := f];
      i := i + 1;
    }
    assert list == EnhancedFields(original);
    assert result == ParamInfos(original);
    return Some(list), Some(result);
  }
}
