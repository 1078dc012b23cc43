/**
 * Go's path package (slash-separated paths): Clean, Join and Dir. Clean is
 * modelled on segments: empty and "." segments vanish, ".." removes the segment
 * before it, a ".." at the start of a rooted path vanishes, and an empty result
 * is ".".
 */
module GoPath {
  import opened GoStrings

  /** A path element with no special meaning: non-empty, no slash, neither "." nor "..". */
  predicate PlainSegment(s: string) {
    s != "" && '/' !in s && s != "." && s != ".."
  }

  /** The segment stack after reading segs in order. */
  function Resolve(stack: seq<string>, segs: seq<string>, rooted: bool): (r: seq<string>)
    decreases |segs|
  {
    if segs == [] then stack
    else
      var x := segs[0];
      var next :=
        if x == "" || x == "." then stack
        else if x == ".." then
          (if |stack| > 0 && stack[|stack| - 1] != ".." then stack[..|stack| - 1]
           else if rooted then stack
           else stack + [".."])
        else stack + [x];
      Resolve(next, segs[1..], rooted)
  }

  /** path.Clean: the shortest path equivalent to p by purely lexical processing. */
  function Clean(p: string): (r: string)
    ensures r != ""
  {
    if p == "" then "."
    else
      var rooted := p[0] == '/';
      var body := Join(Resolve([], Split(p, '/'), rooted), "/");
      if rooted then "/" + body
      else if body == "" then "."
      else body
  }

  /** path.Join with two elements: empty elements are ignored and the result is cleaned. */
  function Join2(a: string, b: string): (r: string)
    ensures a == "" && b == "" ==> r == ""
    ensures a != "" || b != "" ==> r != ""
  {
    if a != "" then Clean(a + "/" + b)
    else if b != "" then Clean(b)
    else ""
  }

  /** path.Dir: everything before the last slash, cleaned. */
  function Dir(p: string): (r: string)
    ensures r != ""
  {
    var i := LastIndexOf(p, '/');
    Clean(p[..i + 1])
  }

  /** Plain segments are kept as they are read. */
  lemma {:induction false} ResolvePlain(stack: seq<string>, segs: seq<string>, rooted: bool)
    requires forall k :: 0 <= k < |segs| ==> PlainSegment(segs[k])
    ensures Resolve(stack, segs, rooted) == stack + segs
    decreases |segs|
  {
    if segs != [] {
      ResolvePlain(stack + [segs[0]], segs[1..], rooted);
      assert stack + [segs[0]] + segs[1..] == stack + segs;
    }
  }

  /** A plain segment is already clean, and it has no directory part. */
  lemma CleanPlain(s: string)
    requires PlainSegment(s)
    ensures Clean(s) == s
    ensures Dir(s) == "."
  {
    assert Split(s, '/') == [s];
    ResolvePlain([], [s], false);
    assert LastIndexOf(s, '/') == -1;
    assert s[..0] == "";
  }

  /** Two plain segments join with a single slash. */
  lemma JoinPlain(a: string, b: string)
    requires PlainSegment(a) && PlainSegment(b)
    ensures Join2(a, b) == a + "/" + b
  {
    var p := a + "/" + b;
    SplitJoin([a, b], '/');
    assert Split(p, '/') == [a, b];
    ResolvePlain([], [a, b], false);
    assert [] + [a, b] == [a, b];
    assert p[0] == a[0];
  }

  /** The last slash of a + "/" + b is the joining one when b has none. */
  lemma LastSlashOfJoin(a: string, b: string)
    requires '/' !in b
    ensures LastIndexOf(a + "/" + b, '/') == |a|
  {
    LastIndexSkipsFree(a + "/", b, '/');
    assert (a + "/")[|a|] == '/';
  }

  /** A trailing slash after a plain segment is cleaned away. */
  lemma CleanTrailingSlash(a: string)
    requires PlainSegment(a)
    ensures Clean(a + "/") == a
  {
    var d := a + "/";
    SplitJoin([a, ""], '/');
    assert Join([a, ""], "/") == d;
    assert [a, ""][1..] == [""];
    assert Resolve([], [a, ""], false) == Resolve([a], [""], false);
    assert Resolve([a], [""], false) == Resolve([a], [], false);
    assert d[0] == a[0];
  }

  /** The directory of two joined plain segments is the first of them. */
  lemma DirOfPlainJoin(a: string, b: string)
    requires PlainSegment(a) && PlainSegment(b)
    ensures Dir(a + "/" + b) == a
  {
    var p := a + "/" + b;
    LastSlashOfJoin(a, b);
    assert p[..|a| + 1] == a + "/";
    CleanTrailingSlash(a);
  }

  /** A ".." right under the root vanishes: "/.." cleans to "/", and "/../a" to "/a". */
  lemma CleanRootParent(a: string)
    requires PlainSegment(a)
    ensures Clean("/..") == "/"
    ensures Clean("/../" + a) == "/" + a
  {
    SplitJoin(["", ".."], '/');
    assert Join(["", ".."], "/") == "/..";
    var p := "/../" + a;
    SplitJoin(["", "..", a], '/');
    assert Join(["", "..", a], "/") == p;
    assert Resolve([], ["", "..", a], true) == Resolve([], ["..", a], true) == Resolve([], [a], true);
    assert Resolve([], [a], true) == [a];
    assert p[0] == '/';
  }

  /** A ".." removes the plain segment before it, leaving the current directory. */
  lemma CleanParentOfPlain(a: string)
    requires PlainSegment(a)
    ensures Clean(a + "/..") == "."
  {
    var p := a + "/..";
    SplitJoin([a, ".."], '/');
    assert Join([a, ".."], "/") == p;
    assert Resolve([], [a, ".."], false) == Resolve([a], [".."], false);
    assert [a][..0] == [];
    assert p[0] == a[0];
  }

  /** A leading ".." of a relative path is kept, and the plain segment after it too. */
  lemma CleanLeadingParent(a: string)
    requires PlainSegment(a)
    ensures Clean("../" + a) == "../" + a
  {
    var p := "../" + a;
    SplitJoin(["..", a], '/');
    assert Join(["..", a], "/") == p;
    assert ["..", a][1..] == [a] && [] + [".."] == [".."];
    assert Resolve([], ["..", a], false) == Resolve([".."], [a], false);
    assert Resolve([".."], [a], false) == ["..", a];
    assert p[0] == '.';
  }
}
