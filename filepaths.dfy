/**
  The parts of Go's `path/filepath` package (Unix flavour, separator '/')
  that the preprocessor relies on: `IsAbs`, `Clean`, `Dir` and `Join`.
  `Clean` is the purely lexical clean-up Go documents: repeated separators
  collapse, "." elements vanish, ".." removes the element before it, and ".."
  at the start of a rooted path is dropped.
*/
module FilePaths {

  /** `filepath.IsAbs` on Unix: the path starts with the separator. */
  predicate IsAbs(p: string)
  {
    |p| > 0 && p[0] == '/'
  }

  /** A path element: non-empty and without a separator. */
  predicate IsElement(e: string)
  {
    e != "" && '/' !in e
  }

  /** `strings.Split(p, "/")`: the pieces between separators, empty ones included. */
  function Split(p: string): (parts: seq<string>)
    ensures |parts| >= 1
    ensures forall i :: 0 <= i < |parts| ==> '/' !in parts[i]
    decreases |p|
  {
    if p == "" then [""]
    else
      var rest := Split(p[1..]);
      if p[0] == '/' then [""] + rest
      else [[p[0]] + rest[0]] + rest[1..]
  }

  /** `strings.Join(parts, "/")`. */
  function JoinElems(parts: seq<string>): (r: string)
    ensures |parts| == 0 ==> r == ""
    ensures |parts| > 0 ==> |parts[0]| <= |r| && r[..|parts[0]|] == parts[0]
  {
    if |parts| == 0 then ""
    else if |parts| == 1 then parts[0]
    else parts[0] + "/" + JoinElems(parts[1..])
  }

  /** Splitting at the separator and joining again gives the path back. */
  lemma {:induction false} SplitJoin(p: string)
    ensures JoinElems(Split(p)) == p
    decreases |p|
  {
    if p != "" {
      var rest := Split(p[1..]);
      SplitJoin(p[1..]);
      if p[0] == '/' {
        assert ([""] + rest)[1..] == rest;
      } else {
        var parts := [[p[0]] + rest[0]] + rest[1..];
        if |rest| > 1 {
          assert parts[1..] == rest[1..];
        }
      }
      assert p == [p[0]] + p[1..];
    }
  }

  /**
    The elements kept by cleaning: real elements only (no "" and no "."),
    every ".." before every other element, and none at all in a rooted path.
  */
  predicate Canonical(kept: seq<string>, rooted: bool)
  {
    && (forall i :: 0 <= i < |kept| ==> IsElement(kept[i]) && kept[i] != ".")
    && (rooted ==> forall i :: 0 <= i < |kept| ==> kept[i] != "..")
    && (forall i, j :: 0 <= i < j < |kept| && kept[j] == ".." ==> kept[i] == "..")
  }

  /** The kept elements after reading one more element `e`. */
  function Push(kept: seq<string>, e: string, rooted: bool): seq<string>
  {
    if e == "" || e == "." then kept
    else if e == ".." then
      if |kept| > 0 && kept[|kept| - 1] != ".." then kept[..|kept| - 1]
      else if rooted then kept
      else kept + [".."]
    else kept + [e]
  }

  /** The kept elements after reading all of `elems` from left to right. */
  function Reduce(kept: seq<string>, elems: seq<string>, rooted: bool): (r: seq<string>)
    requires Canonical(kept, rooted)
    requires forall i :: 0 <= i < |elems| ==> '/' !in elems[i]
    ensures Canonical(r, rooted)
    decreases |elems|
  {
    if elems == [] then kept
    else Reduce(Push(kept, elems[0], rooted), elems[1..], rooted)
  }

  /** `filepath.Clean`: the shortest lexically equivalent path; never empty. */
  function Clean(p: string): (r: string)
    ensures r != ""
    ensures IsAbs(r) <==> IsAbs(p)
  {
    if p == "" then "."
    else
      var rooted := p[0] == '/';
      var kept := Reduce([], Split(p), rooted);
      var body := JoinElems(kept);
      if rooted then "/" + body
      else if body == "" then "."
      else (assert kept != [] && kept[0][0] == body[0]; body)
  }

  /** The index of the last separator in `p`, or -1 if there is none. */
  function LastSlash(p: string): (r: int)
    ensures -1 <= r < |p|
    ensures r >= 0 ==> p[r] == '/'
    ensures forall j :: r < j < |p| ==> p[j] != '/'
  {
    if p == "" then -1
    else if p[|p| - 1] == '/' then |p| - 1
    else LastSlash(p[..|p| - 1])
  }

  /** `filepath.Dir`: everything up to the last separator, cleaned. */
  function Dir(p: string): (r: string)
    ensures r != ""
    ensures IsAbs(r) <==> IsAbs(p)
  {
    var k := LastSlash(p);
    assert IsAbs(p) ==> k >= 0;
    Clean(p[..k + 1])
  }

  /**
    `filepath.Join(a, b)`: the two joined by a separator and cleaned; empty
    parts are ignored, and two empty parts give the empty string.
  */
  function Join(a: string, b: string): (r: string)
    ensures r == "" <==> a == "" && b == ""
    ensures a != "" ==> (IsAbs(r) <==> IsAbs(a))
    ensures a == "" ==> (IsAbs(r) <==> IsAbs(b))
  {
    if a != "" then Clean(a + "/" + b)
    else if b != "" then Clean(b)
    else ""
  }

  // ---------------------------------------------------------------------
  // Paths made of plain elements

  /** Real elements only: no empty element, no "." and no "..". */
  predicate Plain(es: seq<string>)
  {
    forall i :: 0 <= i < |es| ==> IsElement(es[i]) && es[i] != "." && es[i] != ".."
  }

  /** The path with elements `es`, rooted or not. */
  function PathOf(rooted: bool, es: seq<string>): string
  {
    (if rooted then "/" else "") + JoinElems(es)
  }

  lemma {:induction false} SplitNoSlash(e: string)
    requires '/' !in e
    ensures Split(e) == [e]
    decreases |e|
  {
    if e != "" {
      SplitNoSlash(e[1..]);
      assert [e[0]] + e[1..] == e;
    }
  }

  lemma {:induction false} SplitCons(e: string, p: string)
    requires '/' !in e
    ensures Split(e + "/" + p) == [e] + Split(p)
    decreases |e|
  {
    if e == "" {
      assert (e + "/" + p)[1..] == p;
    } else {
      assert (e + "/" + p)[1..] == e[1..] + "/" + p;
      SplitCons(e[1..], p);
      assert [e[0]] + e[1..] == e;
    }
  }

  /** Splitting the joined elements gives the elements back. */
  lemma {:induction false} SplitJoinElems(es: seq<string>)
    requires |es| >= 1
    requires forall i :: 0 <= i < |es| ==> '/' !in es[i]
    ensures Split(JoinElems(es)) == es
    decreases |es|
  {
    if |es| == 1 {
      SplitNoSlash(es[0]);
    } else {
      SplitJoinElems(es[1..]);
      SplitCons(es[0], JoinElems(es[1..]));
      assert [es[0]] + es[1..] == es;
    }
  }

  lemma {:induction false} JoinElemsAppend(a: seq<string>, b: seq<string>)
    requires |a| >= 1 && |b| >= 1
    ensures JoinElems(a + b) == JoinElems(a) + "/" + JoinElems(b)
    decreases |a|
  {
    if |a| == 1 {
      assert (a + b)[1..] == b;
    } else {
      JoinElemsAppend(a[1..], b);
      assert (a + b)[1..] == a[1..] + b;
    }
  }

  /** A real element other than ".." can follow any canonical elements. */
  lemma CanonicalSnoc(kept: seq<string>, e: string, rooted: bool)
    requires Canonical(kept, rooted) && IsElement(e) && e != "." && e != ".."
    ensures Canonical(kept + [e], rooted)
  {
    var k := kept + [e];
    forall i, j | 0 <= i < j < |k| && k[j] == ".." ensures k[i] == ".." {
      assert j < |kept| && k[i] == kept[i] && k[j] == kept[j];
    }
  }

  /** Reading plain elements only appends them. */
  lemma {:induction false} ReducePlain(kept: seq<string>, es: seq<string>, tail: seq<string>, rooted: bool)
    requires Canonical(kept, rooted) && Plain(es)
    requires forall i :: 0 <= i < |tail| ==> '/' !in tail[i]
    ensures Canonical(kept + es, rooted)
    ensures Reduce(kept, es + tail, rooted) == Reduce(kept + es, tail, rooted)
    decreases |es|
  {
    if es == [] {
      assert kept + es == kept && es + tail == tail;
    } else {
      assert Push(kept, es[0], rooted) == kept + [es[0]];
      CanonicalSnoc(kept, es[0], rooted);
      assert (es + tail)[1..] == es[1..] + tail;
      ReducePlain(kept + [es[0]], es[1..], tail, rooted);
      assert kept + [es[0]] + es[1..] == kept + es;
    }
  }

  /** The elements `Clean` reads from the plain path `PathOf(rooted, es)`. */
  lemma SplitPathOf(rooted: bool, es: seq<string>)
    requires |es| >= 1 && Plain(es)
    ensures Split(PathOf(rooted, es)) == (if rooted then [""] else []) + es
  {
    SplitJoinElems(es);
    var j := JoinElems(es);
    if rooted {
      assert PathOf(rooted, es) == "" + "/" + j;
      SplitCons("", j);
    } else {
      assert PathOf(rooted, es) == j;
    }
  }

  /** The elements `Clean` reads from the plain path `PathOf(rooted, es)` with a trailing separator. */
  lemma SplitPathOfSlash(rooted: bool, es: seq<string>)
    requires |es| >= 1 && Plain(es)
    ensures Split(PathOf(rooted, es) + "/") == (if rooted then [""] else []) + (es + [""])
  {
    JoinElemsAppend(es, [""]);
    var j := JoinElems(es + [""]);
    assert forall i :: 0 <= i < |es + [""]| ==> '/' !in (es + [""])[i];
    SplitJoinElems(es + [""]);
    if rooted {
      assert PathOf(rooted, es) + "/" == "" + "/" + j;
      SplitCons("", j);
    } else {
      assert PathOf(rooted, es) + "/" == j;
    }
  }

  /** `Clean` keeps a path of plain elements as it is, with or without a trailing separator. */
  lemma CleanPlain(rooted: bool, es: seq<string>)
    requires |es| >= 1 && Plain(es)
    ensures Clean(PathOf(rooted, es)) == PathOf(rooted, es)
    ensures Clean(PathOf(rooted, es) + "/") == PathOf(rooted, es)
  {
    SplitPathOf(rooted, es);
    SplitPathOfSlash(rooted, es);
    var p := PathOf(rooted, es);
    var j := JoinElems(es);
    assert |j| >= |es[0]| > 0 && j[..|es[0]|] == es[0];
    assert es[0][0] != '/' by { assert es[0][0] in es[0]; }
    ReducePlain([], es, [], rooted);
    ReducePlain([], es, [""], rooted);
    assert [] + es == es && es + [] == es;
    assert Reduce(es, [""], rooted) == es;
    if rooted {
      assert p == "/" + j && (p + "/")[0] == '/';
      assert Reduce([], [""] + es, true) == Reduce([], es, true);
      assert Reduce([], [""] + (es + [""]), true) == Reduce([], es + [""], true) by {
        assert ([""] + (es + [""]))[1..] == es + [""];
      }
    } else {
      assert p == j && p[0] == es[0][0] && (p + "/")[0] == es[0][0];
      assert Split(p) == es && Split(p + "/") == es + [""];
    }
  }

  /** The last separator of `x + "/" + base` is the one before `base` when `base` has none. */
  lemma {:induction false} LastSlashBefore(x: string, base: string)
    requires '/' !in base
    ensures LastSlash(x + "/" + base) == |x|
    decreases |base|
  {
    var p := x + "/" + base;
    if base != [] {
      var b := base[..|base| - 1];
      assert base[|base| - 1] in base;
      assert p[|p| - 1] == base[|base| - 1];
      assert p[..|p| - 1] == x + "/" + b;
      assert forall c :: c in b ==> c in base;
      LastSlashBefore(x, b);
    }
  }

  /** Elements that cleaning drops wherever they stand: empty ones and ".". */
  predicate Skips(es: seq<string>)
  {
    forall i :: 0 <= i < |es| ==> es[i] == "" || es[i] == "."
  }

  /** Reading dropped elements keeps what was kept. */
  lemma {:induction false} ReduceSkips(kept: seq<string>, skips: seq<string>, rest: seq<string>, rooted: bool)
    requires Canonical(kept, rooted) && Skips(skips)
    requires forall i :: 0 <= i < |rest| ==> '/' !in rest[i]
    ensures forall i :: 0 <= i < |skips + rest| ==> '/' !in (skips + rest)[i]
    ensures Reduce(kept, skips + rest, rooted) == Reduce(kept, rest, rooted)
    decreases |skips|
  {
    forall i | 0 <= i < |skips + rest| ensures '/' !in (skips + rest)[i] {
      if i < |skips| {
        assert (skips + rest)[i] == skips[i];
      } else {
        assert (skips + rest)[i] == rest[i - |skips|];
      }
    }
    if skips == [] {
      assert skips + rest == rest;
    } else {
      assert Push(kept, skips[0], rooted) == kept;
      assert (skips + rest)[1..] == skips[1..] + rest;
      ReduceSkips(kept, skips[1..], rest, rooted);
    }
  }

  /**
    Cleaning a path whose pieces are dropped elements, then plain elements,
    then dropped elements again: the plain elements, rooted as the path is,
    or "." when there are none and the path is relative.
  */
  lemma CleanSplit(p: string, pre: seq<string>, es: seq<string>, post: seq<string>)
    requires p != "" && Split(p) == pre + es + post
    requires Skips(pre) && Plain(es) && Skips(post)
    ensures Clean(p) == if p[0] == '/' then "/" + JoinElems(es) else if es == [] then "." else JoinElems(es)
  {
    var rooted := p[0] == '/';
    var parts := Split(p);
    assert pre + es + post == pre + (es + post);
    assert es + post == parts[|pre|..];
    assert forall i :: 0 <= i < |es + post| ==> '/' !in (es + post)[i] by {
      forall i | 0 <= i < |es + post| ensures '/' !in (es + post)[i] {
        assert (es + post)[i] == parts[|pre| + i];
      }
    }
    assert forall i :: 0 <= i < |post| ==> '/' !in post[i] by {
      forall i | 0 <= i < |post| ensures '/' !in post[i] {
        assert post[i] == (es + post)[|es| + i];
      }
    }
    ReduceSkips([], pre, es + post, rooted);
    ReducePlain([], es, post, rooted);
    assert [] + es == es;
    ReduceSkips(es, post, [], rooted);
    assert post + [] == post;
  }

  /** The directory part `lead d1/…/dn/` of a name, where `lead` is "/", "./" or nothing. */
  function DirPrefix(lead: string, dir: seq<string>): string
  {
    lead + (if dir == [] then "" else JoinElems(dir) + "/")
  }

  /** A leading slash splits off an empty element. */
  lemma SplitSlash(q: string)
    ensures Split("/" + q) == [""] + Split(q)
  {
    assert ("/" + q)[1..] == q;
  }

  /** The elements of a directory part without its lead, then an empty one. */
  lemma SplitDirBody(dir: seq<string>)
    requires Plain(dir)
    ensures Split(DirPrefix("", dir)) == dir + [""]
  {
    var body := DirPrefix("", dir);
    if dir != [] {
      JoinElemsAppend(dir, [""]);
      assert JoinElems(dir + [""]) == body;
      assert forall i :: 0 <= i < |dir + [""]| ==> '/' !in (dir + [""])[i] by {
        forall i | 0 <= i < |dir + [""]| ensures '/' !in (dir + [""])[i] {
          if i < |dir| {
            assert (dir + [""])[i] == dir[i];
          }
        }
      }
      SplitJoinElems(dir + [""]);
    }
  }

  /** What `Clean` reads from a directory part. */
  lemma SplitDirPrefix(lead: string, dir: seq<string>)
    requires lead == "" || lead == "/" || lead == "./"
    requires Plain(dir)
    ensures Split(DirPrefix(lead, dir)) == (if lead == "/" then [""] else if lead == "./" then ["."] else []) + dir + [""]
  {
    var body := DirPrefix("", dir);
    SplitDirBody(dir);
    assert DirPrefix(lead, dir) == lead + body;
    if lead == "/" {
      SplitSlash(body);
      assert [""] + dir + [""] == [""] + (dir + [""]);
    } else if lead == "./" {
      assert "./" + body == "." + "/" + body;
      SplitCons(".", body);
      assert ["."] + dir + [""] == ["."] + (dir + [""]);
    } else {
      assert lead + body == body;
      assert [] + dir + [""] == dir + [""];
    }
  }

  /** A name without a slash lies in the current directory. */
  lemma DirOfElement(base: string)
    requires IsElement(base)
    ensures Dir(base) == "."
  {
    var k := LastSlash(base);
    if k >= 0 {
      assert false;
    }
    assert base[..0] == "";
  }

  /** The directory of `x + base`, where `x` ends in a slash, is `x` cleaned. */
  lemma DirOfSlashed(x: string, base: string)
    requires x != "" && x[|x| - 1] == '/' && IsElement(base)
    ensures Dir(x + base) == Clean(x)
  {
    var y := x[..|x| - 1];
    var p := x + base;
    assert x == y + "/";
    assert p == y + "/" + base;
    LastSlashBefore(y, base);
    assert p[..|y| + 1] == x;
  }

  /** A non-empty directory part ends in a slash and starts with one exactly when it is rooted. */
  lemma DirPrefixShape(lead: string, dir: seq<string>)
    requires lead == "" || lead == "/" || lead == "./"
    requires Plain(dir)
    requires DirPrefix(lead, dir) != ""
    ensures DirPrefix(lead, dir)[|DirPrefix(lead, dir)| - 1] == '/'
    ensures DirPrefix(lead, dir)[0] == '/' <==> lead == "/"
  {
    var x := DirPrefix(lead, dir);
    if lead == "" {
      assert dir != [];
      assert x == JoinElems(dir) + "/";
      assert x[..|JoinElems(dir)|] == JoinElems(dir);
      assert JoinElems(dir)[..|dir[0]|] == dir[0];
      assert x[0] == dir[0][0];
      assert dir[0][0] in dir[0];
    }
  }

  /**
    The directory of the name `lead d1/…/dn/base`: "/" and the elements for a
    rooted name, else the elements, or "." when there are none.
  */
  lemma DirOfPrefix(lead: string, dir: seq<string>, base: string)
    requires lead == "" || lead == "/" || lead == "./"
    requires Plain(dir) && IsElement(base)
    ensures Dir(DirPrefix(lead, dir) + base)
              == if lead == "/" then "/" + JoinElems(dir) else if dir == [] then "." else JoinElems(dir)
  {
    var x := DirPrefix(lead, dir);
    if x == "" {
      assert x + base == base;
      DirOfElement(base);
    } else {
      DirPrefixShape(lead, dir);
      DirOfSlashed(x, base);
      SplitDirPrefix(lead, dir);
      var pre := if lead == "/" then [""] else if lead == "./" then ["."] else [];
      CleanSplit(x, pre, dir, [""]);
    }
  }

  /** How the name "//t" splits, for a relative path `t` of plain elements. */
  lemma SplitRootRoot(target: seq<string>)
    requires |target| >= 1 && Plain(target)
    ensures Split("/" + ("/" + JoinElems(target))) == ["", ""] + target
  {
    var t := JoinElems(target);
    assert forall i :: 0 <= i < |target| ==> '/' !in target[i];
    SplitJoinElems(target);
    SplitSlash(t);
    SplitSlash("/" + t);
  }

  /** Joining the root and a relative path of plain elements roots them. */
  lemma JoinRoot(target: seq<string>)
    requires |target| >= 1 && Plain(target)
    ensures Join("/", JoinElems(target)) == PathOf(true, target)
  {
    var t := JoinElems(target);
    SplitRootRoot(target);
    assert "/" + "/" + t == "/" + ("/" + t);
    assert ["", ""] + target + [] == ["", ""] + target;
    CleanSplit("/" + "/" + t, ["", ""], target, []);
  }

  /** Joining "." and a relative path of plain elements gives that path. */
  lemma JoinDot(target: seq<string>)
    requires |target| >= 1 && Plain(target)
    ensures Join(".", JoinElems(target)) == PathOf(false, target)
  {
    var t := JoinElems(target);
    var p := "." + "/" + t;
    assert forall i :: 0 <= i < |target| ==> '/' !in target[i];
    SplitJoinElems(target);
    SplitCons(".", t);
    assert Split(p) == ["."] + target + [];
    assert t != "" by { assert |t| >= |target[0]| > 0; }
    CleanSplit(p, ["."], target, []);
    assert "" + t == t;
  }

  lemma PlainAppend(a: seq<string>, b: seq<string>)
    requires Plain(a) && Plain(b)
    ensures Plain(a + b)
  {
    forall i | 0 <= i < |a + b| ensures (a + b)[i] == if i < |a| then a[i] else b[i - |a|] {
    }
  }

  /** Joining two paths of plain elements, the second relative, puts their elements together. */
  lemma JoinPlain(rooted: bool, dir: seq<string>, target: seq<string>)
    requires |dir| >= 1 && Plain(dir) && |target| >= 1 && Plain(target)
    ensures Join(PathOf(rooted, dir), JoinElems(target)) == PathOf(rooted, dir + target)
  {
    var x, t := PathOf(rooted, dir), JoinElems(target);
    assert |x| >= |JoinElems(dir)| >= |dir[0]| > 0;
    assert Join(x, t) == Clean(x + "/" + t);
    JoinedPlain(rooted, dir, target);
    PlainAppend(dir, target);
    CleanPlain(rooted, dir + target);
  }

  lemma JoinedPlain(rooted: bool, dir: seq<string>, target: seq<string>)
    requires |dir| >= 1 && |target| >= 1
    ensures PathOf(rooted, dir) + "/" + JoinElems(target) == PathOf(rooted, dir + target)
  {
    JoinElemsAppend(dir, target);
    Regroup(if rooted then "/" else "", JoinElems(dir), JoinElems(target));
  }

  lemma Regroup(pre: string, d: string, t: string)
    ensures pre + d + "/" + t == pre + (d + "/" + t)
  {
  }

  /**
    Joining the directory `DirOfPrefix` describes with a relative path of
    plain elements puts the elements together, rooted as the directory is.
  */
  lemma JoinDirOfPrefix(lead: string, dir: seq<string>, target: seq<string>)
    requires lead == "" || lead == "/" || lead == "./"
    requires Plain(dir) && |target| >= 1 && Plain(target)
    ensures Join(if lead == "/" then "/" + JoinElems(dir) else if dir == [] then "." else JoinElems(dir), JoinElems(target))
              == PathOf(lead == "/", dir + target)
  {
    if dir == [] {
      assert dir + target == target;
      if lead == "/" {
        assert "/" + JoinElems(dir) == "/";
        JoinRoot(target);
      } else {
        JoinDot(target);
      }
    } else {
      assert lead != "/" ==> JoinElems(dir) == "" + JoinElems(dir);
      JoinPlain(lead == "/", dir, target);
    }
  }
}
