/**
 * Python's `os.path` functions as they behave on Windows (`ntpath`), where
 * the repository's scripts were run: both '/' and '\\' separate components
 * and `join` inserts '\\'. Drive letters and UNC prefixes are not modelled.
 */
module PyPath {
  import opened Wrappers
  import opened Text

  predicate IsSep(c: char) {
    c == '\\' || c == '/'
  }

  predicate NoSep(s: string) {
    forall i :: 0 <= i < |s| ==> !IsSep(s[i])
  }

  const Sep: char := '\\'

  /** The index just after the last separator of `p`, or 0 when there is none. */
  function TailStart(p: string): (i: nat)
    ensures i <= |p|
    ensures i > 0 ==> IsSep(p[i - 1])
    ensures forall j :: i <= j < |p| ==> !IsSep(p[j])
    decreases |p|
  {
    if p == [] || IsSep(p[|p| - 1]) then |p| else TailStart(p[..|p| - 1])
  }

  /** `os.path.basename(p)`: the final component. */
  function Basename(p: string): (r: string)
    ensures NoSep(r)
    ensures exists k :: 0 <= k <= |p| && r == p[k..]
  {
    p[TailStart(p)..]
  }

  /** The base name is the whole final component: it reaches back to the last separator, or to the start. */
  lemma BasenameIsFinalComponent(p: string)
    ensures |Basename(p)| < |p| ==> IsSep(p[|p| - |Basename(p)| - 1])
  {
    assert |Basename(p)| == |p| - TailStart(p);
  }

  function StripTrailingSeps(s: string): (r: string)
    ensures |r| <= |s| && r == s[..|r|]
    ensures r == [] || !IsSep(r[|r| - 1])
    decreases |s|
  {
    if s != [] && IsSep(s[|s| - 1]) then StripTrailingSeps(s[..|s| - 1]) else s
  }

  /** `os.path.dirname(p)`: everything before the final component, trailing separators removed. */
  function Dirname(p: string): string {
    var head := p[..TailStart(p)];
    var stripped := StripTrailingSeps(head);
    if stripped == [] then head else stripped
  }

  /** `os.path.join(a, b)` for two components. */
  function Join(a: string, b: string): (r: string)
    ensures |b| > 0 && IsSep(b[0]) ==> r == b
    ensures !(|b| > 0 && IsSep(b[0])) ==> exists mid :: (mid == "" || mid == [Sep]) && r == a + mid + b
    ensures !(|b| > 0 && IsSep(b[0])) && |a| > 0 && !IsSep(a[|a| - 1]) ==> r == a + [Sep] + b
    ensures !(|b| > 0 && IsSep(b[0])) && (|a| == 0 || IsSep(a[|a| - 1])) ==> r == a + b
  {
    if |b| > 0 && IsSep(b[0]) then b
    else if |a| > 0 && !IsSep(a[|a| - 1]) then a + [Sep] + b
    else assert a + "" + b == a + b; a + b
  }

  predicate HasNonDot(s: string) {
    exists i :: 0 <= i < |s| && s[i] != '.'
  }

  /**
   * `os.path.splitext(p)`: the extension starts at the last '.' of the final
   * component, provided some character other than '.' precedes it there.
   */
  function SplitExt(p: string): (r: (string, string))
    ensures r.0 + r.1 == p
    ensures r.1 == "" || r.1[0] == '.'
    ensures NoSep(r.1)
    ensures forall i :: 0 < i < |r.1| ==> r.1[i] != '.'
    ensures r.1 != "" ==> TailStart(p) <= |r.0| && HasNonDot(p[TailStart(p)..|r.0|])
  {
    var start := TailStart(p);
    match LastIndexOf(p, '.')
    case None => (p, "")
    case Some(d) =>
      if d >= start && HasNonDot(p[start..d]) then (p[..d], p[d..]) else (p, "")
  }

  /**
   * Whenever the final component holds a '.' with some other character
   * before it in that component, `splitext` finds an extension.
   */
  lemma SplitExtFindsExtension(p: string, e: nat)
    requires TailStart(p) <= e < |p| && p[e] == '.' && HasNonDot(p[TailStart(p)..e])
    ensures SplitExt(p).1 != ""
  {
    var start := TailStart(p);
    var d := LastIndexOf(p, '.').value;
    assert d >= e;
    var w :| 0 <= w < e - start && p[start..e][w] != '.';
    assert p[start..d][w] == p[start..e][w];
  }

  /** `os.path.splitext(os.path.basename(p))[0]`, the stem every script logs. */
  function Stem(p: string): string {
    SplitExt(Basename(p)).0
  }

  /** The stem of a path is a plain file name. */
  lemma StemNoSep(p: string)
    ensures NoSep(Stem(p))
  {
    var b := Basename(p);
    var (stem, ext) := SplitExt(b);
    forall i | 0 <= i < |stem| ensures !IsSep(stem[i]) {
      assert (stem + ext)[i] == stem[i];
    }
  }

  /** A plain file name followed by a plain suffix is a plain file name. */
  lemma NoSepAppend(a: string, b: string)
    requires NoSep(a) && NoSep(b)
    ensures NoSep(a + b)
  {
    forall i | 0 <= i < |a + b| ensures !IsSep((a + b)[i]) {
      if i >= |a| {
        assert (a + b)[i] == b[i - |a|];
      }
    }
  }

  /** A path that ends in "." + `e` after an ordinary character splits off exactly that extension. */
  lemma SplitExtOfSuffix(s: string, e: string)
    requires |s| > 0 && s[|s| - 1] != '.' && !IsSep(s[|s| - 1])
    requires NoSep(e) && forall i :: 0 <= i < |e| ==> e[i] != '.'
    ensures SplitExt(s + "." + e) == (s, "." + e)
  {
    var p := s + "." + e;
    assert p[|s|] == '.';
    assert LastIndexOf(p, '.') == Some(|s|);
    var start := TailStart(p);
    assert start <= |s| - 1 by {
      assert !IsSep(p[|s| - 1]) && !IsSep(p[|s|]);
      assert forall j :: |s| < j < |p| ==> p[j] == e[j - |s| - 1];
    }
    assert p[start..|s|][|s| - 1 - start] == s[|s| - 1];
    assert p[..|s|] == s;
    assert p[|s|..] == "." + e;
  }

  /** The final component of `dir + "\\" + name` is `name` when `name` holds no separator. */
  lemma BasenameOfChild(dir: string, name: string)
    requires NoSep(name)
    ensures Basename(dir + [Sep] + name) == name
  {
    var p := dir + [Sep] + name;
    assert IsSep(p[|dir|]);
    assert TailStart(p) == |dir| + 1;
    assert p[|dir| + 1..] == name;
  }

  /** `os.path.join(dir, name)` names a file called `name`, whatever `dir` is, when `name` holds no separator. */
  lemma BasenameOfJoin(dir: string, name: string)
    requires NoSep(name)
    ensures Basename(Join(dir, name)) == name
  {
    if |dir| > 0 && !IsSep(dir[|dir| - 1]) {
      BasenameOfChild(dir, name);
    } else {
      var p := dir + name;
      assert TailStart(p) == |dir| by {
        if |dir| > 0 { assert IsSep(p[|dir| - 1]); }
      }
      assert p[|dir|..] == name;
    }
  }
}
