/** The parts of Go's `path/filepath` (with '/' as the separator) that the tool relies on. */
module FilePath {

  /** Drops every trailing '/'. */
  function TrimSlashes(s: string): (r: string)
    ensures |r| <= |s| && r == s[..|r|]
    ensures |r| > 0 ==> r[|r| - 1] != '/'
    ensures forall i :: |r| <= i < |s| ==> s[i] == '/'
  {
    if |s| > 0 && s[|s| - 1] == '/' then TrimSlashes(s[..|s| - 1]) else s
  }

  /** What follows the last '/' of `s` (all of `s` when there is none). */
  function LastElement(s: string): (r: string)
    ensures '/' !in r
    ensures |r| <= |s| && r == s[|s| - |r|..]
    ensures |s| > 0 && s[|s| - 1] != '/' ==> |r| > 0
    ensures |r| < |s| ==> s[|s| - |r| - 1] == '/'
  {
    if |s| == 0 || s[|s| - 1] == '/' then ""
    else LastElement(s[..|s| - 1]) + [s[|s| - 1]]
  }

  /** `filepath.Base`: the last element of the path after trailing slashes are removed;
      "." for the empty path and "/" for a path made of slashes only. */
  function Base(path: string): (r: string)
    ensures r != ""
    ensures r == "/" || '/' !in r
    ensures r == "/" <==> path != "" && forall i :: 0 <= i < |path| ==> path[i] == '/'
  {
    if path == "" then "."
    else
      var t := TrimSlashes(path);
      if t == "" then "/" else LastElement(t)
  }

  /** `filepath.Ext`: the suffix from the last '.' of the last element, or "". */
  function Ext(path: string): (r: string)
    ensures r == "" || (r[0] == '.' && '/' !in r && '.' !in r[1..])
    ensures |r| <= |path| && r == path[|path| - |r|..]
  {
    if |path| == 0 || path[|path| - 1] == '/' then ""
    else if path[|path| - 1] == '.' then "."
    else
      var e := Ext(path[..|path| - 1]);
      if e == "" then "" else e + [path[|path| - 1]]
  }

  /** `filepath.Join` of two elements: empty elements are dropped and the rest joined by '/'.
      The lexical clean-up Go applies afterwards is not modelled. */
  function Join(dir: string, name: string): string
  {
    if dir == "" then name else if name == "" then dir else dir + "/" + name
  }

  /** A character other than '/' extends the last element. */
  lemma LastElementSnoc(p: string, c: char)
    requires c != '/'
    ensures LastElement(p + [c]) == LastElement(p) + [c]
  {
    assert (p + [c])[..|p|] == p;
  }

  lemma {:induction false} LastElementAfterSlash(dir: string, name: string)
    requires '/' !in name
    ensures LastElement(dir + "/" + name) == name
    decreases |name|
  {
    if |name| == 0 {
      assert (dir + "/")[|dir|] == '/';
    } else {
      var init, last := name[..|name| - 1], name[|name| - 1];
      var p := dir + "/" + init;
      assert name == init + [last];
      assert dir + "/" + name == p + [last];
      LastElementAfterSlash(dir, init);
      LastElementSnoc(p, last);
    }
  }

  /** A name without separators joined under any directory is that path's base name. */
  lemma JoinBase(dir: string, name: string)
    requires name != "" && '/' !in name
    ensures Base(Join(dir, name)) == name
  {
    if dir == "" {
      assert TrimSlashes(name) == name;
      LastElementWhole(name);
    } else {
      var s := dir + "/" + name;
      assert s[|s| - 1] == name[|name| - 1];
      assert TrimSlashes(s) == s;
      LastElementAfterSlash(dir, name);
    }
  }

  lemma {:induction false} LastElementWhole(s: string)
    requires '/' !in s
    ensures LastElement(s) == s
  {
    if |s| > 0 {
      var init, last := s[..|s| - 1], s[|s| - 1];
      assert s == init + [last];
      LastElementWhole(init);
      LastElementSnoc(init, last);
    }
  }

  /** One more character that is neither '.' nor '/' extends a non-empty extension. */
  lemma ExtSnoc(p: string, c: char)
    requires c != '.' && c != '/'
    ensures Ext(p + [c]) == if Ext(p) == "" then "" else Ext(p) + [c]
  {
    assert (p + [c])[..|p|] == p;
  }

  /** The extension of a name ending in a dotted suffix without dots or slashes is that suffix. */
  lemma {:induction false} ExtOfSuffix(stem: string, suffix: string)
    requires '.' !in suffix && '/' !in suffix
    ensures Ext(stem + "." + suffix) == "." + suffix
    decreases |suffix|
  {
    if |suffix| == 0 {
      assert (stem + ".")[|stem|] == '.';
    } else {
      var init, last := suffix[..|suffix| - 1], suffix[|suffix| - 1];
      var p := stem + "." + init;
      assert suffix == init + [last];
      assert stem + "." + suffix == p + [last];
      assert "." + suffix == ("." + init) + [last];
      ExtOfSuffix(stem, init);
      ExtSnoc(p, last);
    }
  }
}
