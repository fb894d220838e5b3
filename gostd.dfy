/**
 * The few functions of Go's standard library that the instrumenter leans on:
 * `path/filepath` (with '/' as the only separator), `strings` and the `%d`
 * verb of `fmt`.
 */
module GoStd {

  /** Index of the last '/' in `s`, or -1 when there is none. */
  function LastSlash(s: string): (r: int)
    ensures -1 <= r < |s|
    ensures r >= 0 ==> s[r] == '/'
    ensures forall k :: r < k < |s| ==> s[k] != '/'
  {
    if s == [] then -1
    else if s[|s| - 1] == '/' then |s| - 1
    else LastSlash(s[..|s| - 1])
  }

  /** `s` without its trailing slashes. */
  function TrimTrailingSlashes(s: string): (r: string)
    ensures |r| <= |s| && r == s[..|r|]
    ensures r == [] || r[|r| - 1] != '/'
    ensures forall k :: |r| <= k < |s| ==> s[k] == '/'
  {
    if s != [] && s[|s| - 1] == '/' then TrimTrailingSlashes(s[..|s| - 1]) else s
  }

  /**
   * `filepath.Base`: the last element of a path, trailing slashes ignored;
   * "." for the empty path and "/" for a path made of slashes only.
   */
  function Base(path: string): (r: string)
    ensures r != []
    ensures r == "/" || '/' !in r
    ensures path == [] ==> r == "."
  {
    if path == [] then "."
    else
      var p := TrimTrailingSlashes(path);
      if p == [] then "/" else p[LastSlash(p) + 1..]
  }

  /**
   * The part of `filepath.Clean` this model keeps: trailing slashes are
   * dropped (a lone "/" stays) and the empty path becomes ".".
   */
  function Clean(path: string): (r: string)
    ensures r != []
  {
    if path == [] then "."
    else
      var p := TrimTrailingSlashes(path);
      if p == [] then "/" else p
  }

  /** `filepath.Join` of two elements: the non-empty ones joined by '/', then cleaned. */
  function Join(a: string, b: string): string {
    if a == [] && b == [] then ""
    else if a == [] then Clean(b)
    else if b == [] then Clean(a)
    else Clean(a + "/" + b)
  }

  /** `filepath.Dir`: everything up to the last '/', cleaned ("." when there is no '/'). */
  function Dir(path: string): string {
    Clean(path[..LastSlash(path) + 1])
  }

  /** `filepath.Ext` scanning backwards from index `i` of the path. */
  function ExtFrom(path: string, i: int): (r: string)
    requires i < |path|
    decreases i + 1
    ensures r == [] || (|r| <= |path| && r[0] == '.' && r == path[|path| - |r|..])
  {
    if i < 0 || path[i] == '/' then ""
    else if path[i] == '.' then path[i..]
    else ExtFrom(path, i - 1)
  }

  /** `filepath.Ext`: the suffix from the last '.' of the last element, or "". */
  function Ext(path: string): (r: string)
    ensures r == [] || (|r| <= |path| && r[0] == '.' && r == path[|path| - |r|..])
  {
    ExtFrom(path, |path| - 1)
  }

  predicate HasSuffix(s: string, suffix: string) {
    |suffix| <= |s| && s[|s| - |suffix|..] == suffix
  }

  /** `strings.TrimSuffix`. */
  function TrimSuffix(s: string, suffix: string): (r: string)
    ensures HasSuffix(s, suffix) ==> r + suffix == s
    ensures !HasSuffix(s, suffix) ==> r == s
  {
    if HasSuffix(s, suffix) then s[..|s| - |suffix|] else s
  }

  /** Index of the first `c` in `s`, or -1. */
  function IndexOf(s: string, c: char): (r: int)
    ensures -1 <= r < |s|
    ensures r >= 0 ==> s[r] == c
    ensures forall k :: 0 <= k < |s| && (r < 0 || k < r) ==> s[k] != c
  {
    if s == [] then -1
    else if s[0] == c then 0
    else
      var k := IndexOf(s[1..], c);
      if k < 0 then -1 else k + 1
  }

  function Digit(d: nat): char
    requires d < 10
  {
    "0123456789"[d]
  }

  /** The `%d` rendering of a natural number. */
  function NatToString(n: nat): (r: string)
    ensures |r| >= 1
    ensures (|r| == 1) <==> n < 10
  {
    if n < 10 then [Digit(n)] else NatToString(n / 10) + [Digit(n % 10)]
  }

  /** Distinct numbers print differently, so names built from indices never collide. */
  lemma {:induction false} NatToStringInjective(a: nat, b: nat)
    requires NatToString(a) == NatToString(b)
    ensures a == b
  {
    if a >= 10 && b >= 10 {
      var sa, sb := NatToString(a), NatToString(b);
      assert sa[..|sa| - 1] == NatToString(a / 10);
      assert sb[..|sb| - 1] == NatToString(b / 10);
      NatToStringInjective(a / 10, b / 10);
      assert sa[|sa| - 1] == Digit(a % 10) && sb[|sb| - 1] == Digit(b % 10);
    }
  }

  /** A name that is a number's decimal form after a fixed prefix determines the number. */
  lemma PrefixedNumberInjective(prefix: string, a: nat, b: nat)
    requires prefix + NatToString(a) == prefix + NatToString(b)
    ensures a == b
  {
    var sa, sb := prefix + NatToString(a), prefix + NatToString(b);
    assert NatToString(a) == sa[|prefix|..];
    assert NatToString(b) == sb[|prefix|..];
    NatToStringInjective(a, b);
  }

  /** The regular-expression class `[/.\-@]`. */
  predicate IsPathPunctuation(c: char) {
    c == '/' || c == '.' || c == '-' || c == '@'
  }

  /** Every character of the class `[/.\-@]` replaced by '_'. */
  function UnderscorePunctuation(s: string): (r: string)
    ensures |r| == |s|
    ensures forall k :: 0 <= k < |s| ==> r[k] == (if IsPathPunctuation(s[k]) then '_' else s[k])
  {
    if s == [] then []
    else [if IsPathPunctuation(s[0]) then '_' else s[0]] + UnderscorePunctuation(s[1..])
  }

  lemma {:induction false} LastSlashAfterName(s: string, name: string)
    requires '/' !in name
    ensures LastSlash(s + name) == LastSlash(s)
    decreases |name|
  {
    if name != [] {
      var t := s + name;
      assert t[..|t| - 1] == s + name[..|name| - 1];
      LastSlashAfterName(s, name[..|name| - 1]);
    } else {
      assert s + name == s;
    }
  }

  /** Joining a directory and a file name gives a path whose base is that name. */
  lemma BaseOfJoin(dir: string, name: string)
    requires name != [] && '/' !in name
    ensures Base(Join(dir, name)) == name
  {
    if dir == [] {
      LastSlashAfterName([], name);
      assert [] + name == name;
    } else {
      var p := dir + "/" + name;
      assert p[|p| - 1] == name[|name| - 1];
      assert TrimTrailingSlashes(p) == p;
      LastSlashAfterName(dir + "/", name);
      assert (dir + "/") + name == p;
      assert p[|dir| + 1..] == name;
    }
  }
}
