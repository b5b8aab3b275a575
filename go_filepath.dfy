/**
 * The parts of Go's `path/filepath` package that destination resolution uses,
 * with '/' as the only separator: `filepath.Ext` and `filepath.Join`.
 */
module GoFilepath {
  import opened GoStrings

  /** A file-name extension as filepath.Ext returns it: a '.' followed by no further '.' and no separator. */
  predicate IsExtension(e: string)
  {
    |e| > 0 && e[0] == '.' && forall k :: 1 <= k < |e| ==> e[k] != '.' && e[k] != '/'
  }

  /**
   * filepath.Ext: the suffix of `path` that starts at the last '.' of its final
   * '/'-separated element, or "" when that element has no '.'.
   */
  function Ext(path: string): (e: string)
    ensures e == [] || IsExtension(e)
    ensures |e| <= |path| && path[|path| - |e|..] == e
    decreases |path|
  {
    if path == [] then []
    else
      var c := path[|path| - 1];
      if c == '/' then []
      else if c == '.' then "."
      else
        var e := Ext(path[..|path| - 1]);
        if e == [] then [] else e + [c]
  }

  /** Ext is empty only when every '.' of the path is followed by a separator (it is not in the final element). */
  lemma {:induction false} EmptyExtMeansNoDot(path: string)
    requires Ext(path) == []
    ensures forall i :: 0 <= i < |path| && path[i] == '.' ==> exists j :: i < j < |path| && path[j] == '/'
    decreases |path|
  {
    if path != [] && path[|path| - 1] != '/' {
      var p := path[..|path| - 1];
      EmptyExtMeansNoDot(p);
      forall i | 0 <= i < |path| && path[i] == '.' ensures exists j :: i < j < |path| && path[j] == '/' {
        assert i < |p| && p[i] == '.';
        var j :| i < j < |p| && p[j] == '/';
        assert path[j] == '/';
      }
    }
  }

  /** Appending an extension to anything makes it the extension of the result. */
  lemma {:induction false} ExtOfAppendedExtension(x: string, e: string)
    requires IsExtension(e)
    ensures Ext(x + e) == e
    decreases |e|
  {
    var p := x + e;
    if |e| > 1 {
      var e' := e[..|e| - 1];
      assert p[..|p| - 1] == x + e';
      ExtOfAppendedExtension(x, e');
    }
  }

  /** The extension of a path ending in "/" + n is that of n alone. */
  lemma {:induction false} ExtAfterSeparator(a: string, n: string)
    ensures Ext(a + "/" + n) == Ext(n)
    decreases |n|
  {
    var p := a + "/" + n;
    if n != [] {
      var n' := n[..|n| - 1];
      assert p[..|p| - 1] == a + "/" + n';
      ExtAfterSeparator(a, n');
    }
  }

  /** Lower-casing an extension leaves an extension. */
  lemma LowerExtension(e: string)
    requires IsExtension(e)
    ensures IsExtension(ToLower(e))
  {
    var l := ToLower(e);
    forall k | 1 <= k < |l| ensures l[k] != '.' && l[k] != '/' {
      LowerKeepsSeparators(e[k]);
    }
  }

  /** Drops every trailing '/' of a directory name. */
  function TrimTrailingSlashes(dir: string): (r: string)
    ensures r <= dir
    ensures r == [] || r[|r| - 1] != '/'
    ensures forall k :: |r| <= k < |dir| ==> dir[k] == '/'
    decreases |dir|
  {
    if dir != [] && dir[|dir| - 1] == '/' then TrimTrailingSlashes(dir[..|dir| - 1]) else dir
  }

  /**
   * filepath.Join of a directory and a file name: empty elements are ignored and
   * exactly one separator stands between the two.
   */
  function Join(dir: string, name: string): (p: string)
    ensures dir == [] ==> p == name
    ensures name == [] ==> p == dir
    ensures dir != [] && name != [] ==>
              && |name| < |p| && p[|p| - |name|..] == name && p[|p| - |name| - 1] == '/'
              && p[..|p| - |name| - 1] == TrimTrailingSlashes(dir)
  {
    if dir == [] then name
    else if name == [] then dir
    else TrimTrailingSlashes(dir) + "/" + name
  }

  /** Joining a non-empty name onto a directory keeps the name's extension. */
  lemma ExtOfJoin(dir: string, name: string)
    requires name != []
    ensures Ext(Join(dir, name)) == Ext(name)
  {
    if dir != [] {
      ExtAfterSeparator(TrimTrailingSlashes(dir), name);
    }
  }
}
