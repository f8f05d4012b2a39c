/**
 * The part of java.nio.file the command relies on, for the Unix file-system
 * provider: a path is its string form with '/' as the name separator;
 * `Paths.get` normalises that string, `Path.isAbsolute`, `Path.resolve` and
 * `Path.getParent` work on it.
 */
module UnixPaths {
  import opened Wrappers

  type Path = string

  /** `p.isAbsolute()`: the path starts at the root. */
  predicate IsAbsolute(p: Path) {
    |p| > 0 && p[0] == '/'
  }

  /** No two adjacent separators. */
  predicate NoDoubleSlash(p: Path) {
    forall i :: 0 < i < |p| ==> !(p[i - 1] == '/' && p[i] == '/')
  }

  /** The form `Paths.get` produces: no redundant separator and no trailing one except the root "/". */
  predicate Normalized(p: Path) {
    NoDoubleSlash(p) && (|p| > 1 ==> p[|p| - 1] != '/')
  }

  /** The names of `p` in order: the non-empty runs of characters between separators. */
  function Segments(p: Path): seq<string> {
    SegmentsFrom(p, [])
  }

  /** The names of `p`, the first of them continuing the partial name `cur`. */
  function SegmentsFrom(p: Path, cur: string): seq<string>
    decreases |p|
  {
    if p == [] then Flush(cur)
    else if p[0] == '/' then Flush(cur) + SegmentsFrom(p[1..], [])
    else SegmentsFrom(p[1..], cur + [p[0]])
  }

  /** A partial name ends: it is a name unless it is empty. */
  function Flush(cur: string): seq<string> {
    if cur == [] then [] else [cur]
  }

  /** A separator at the end closes the last name and adds none. */
  lemma {:induction false} TrailingSlashSegments(a: Path, cur: string)
    ensures SegmentsFrom(a + "/", cur) == SegmentsFrom(a, cur)
    decreases |a|
  {
    if a == [] {
      assert a + "/" == "/" && "/"[1..] == [];
    } else {
      assert (a + "/")[1..] == a[1..] + "/";
      if a[0] == '/' {
        TrailingSlashSegments(a[1..], []);
      } else {
        TrailingSlashSegments(a[1..], cur + [a[0]]);
      }
    }
  }

  /** Joining two paths with a separator concatenates their names. */
  lemma {:induction false} JoinSegments(a: Path, b: Path, cur: string)
    ensures SegmentsFrom(a + "/" + b, cur) == SegmentsFrom(a, cur) + SegmentsFrom(b, [])
    decreases |a|
  {
    if a == [] {
      assert a + "/" + b == "/" + b && ("/" + b)[1..] == b;
    } else {
      assert (a + "/" + b)[1..] == a[1..] + "/" + b;
      if a[0] == '/' {
        JoinSegments(a[1..], b, []);
      } else {
        JoinSegments(a[1..], b, cur + [a[0]]);
      }
    }
  }

  /** No separator at all: a single name. */
  predicate SlashFree(p: Path) {
    forall j :: 0 <= j < |p| ==> p[j] != '/'
  }

  /** Two paths without double separators join without one unless a separator meets a separator. */
  lemma NoDoubleSlashConcat(a: Path, b: Path)
    requires NoDoubleSlash(a) && NoDoubleSlash(b)
    requires !(a != [] && b != [] && a[|a| - 1] == '/' && b[0] == '/')
    ensures NoDoubleSlash(a + b)
  {
    var c := a + b;
    forall i | 0 < i < |c| ensures !(c[i - 1] == '/' && c[i] == '/') {
      if i < |a| {
        assert c[i - 1] == a[i - 1] && c[i] == a[i];
      } else if i == |a| {
        assert c[i - 1] == a[|a| - 1] && c[i] == b[0];
      } else {
        assert c[i - 1] == b[i - 1 - |a|] && c[i] == b[i - |a|];
      }
    }
  }

  /** Runs of separators collapsed to one. */
  function Collapse(s: string): (r: Path)
    ensures NoDoubleSlash(r)
    ensures |r| <= |s|
    ensures s != [] ==> r != [] && r[0] == s[0] && r[|r| - 1] == s[|s| - 1]
    ensures NoDoubleSlash(s) ==> r == s
    decreases |s|
  {
    if |s| < 2 then s
    else if s[0] == '/' && s[1] == '/' then
      Collapse(s[1..])
    else
      var rest := Collapse(s[1..]);
      assert NoDoubleSlash(s) ==> NoDoubleSlash(s[1..]) by {
        if NoDoubleSlash(s) {
          forall i | 0 < i < |s[1..]| ensures !(s[1..][i - 1] == '/' && s[1..][i] == '/') {
            assert s[1..][i - 1] == s[i] && s[1..][i] == s[i + 1];
          }
        }
      }
      assert ([s[0]] + rest)[1..] == rest;
      assert NoDoubleSlash(s) ==> [s[0]] + s[1..] == s;
      [s[0]] + rest
  }

  /** Collapsing runs of separators keeps every name and their order. */
  lemma {:induction false} CollapseSegments(s: string, cur: string)
    ensures SegmentsFrom(Collapse(s), cur) == SegmentsFrom(s, cur)
    decreases |s|
  {
    if |s| >= 2 {
      var rest := Collapse(s[1..]);
      if s[0] == '/' && s[1] == '/' {
        CollapseSegments(s[1..], cur);
        assert s[1..][1..] == s[2..];
      } else {
        assert ([s[0]] + rest)[1..] == rest;
        if s[0] == '/' {
          CollapseSegments(s[1..], []);
        } else {
          CollapseSegments(s[1..], cur + [s[0]]);
        }
      }
    }
  }

  /**
   * `Paths.get(s)`: collapses runs of separators and drops a trailing
   * separator unless the path is the root alone.
   */
  function Normalize(s: string): (p: Path)
    ensures Normalized(p)
    ensures Normalized(s) ==> p == s
    ensures IsAbsolute(p) <==> IsAbsolute(s)
    ensures Segments(p) == Segments(s)
  {
    var c := Collapse(s);
    CollapseSegments(s, []);
    if |c| > 1 && c[|c| - 1] == '/' then
      assert c == c[..|c| - 1] + "/";
      TrailingSlashSegments(c[..|c| - 1], []);
      c[..|c| - 1]
    else
      c
  }

  /** `base.resolve(child)`. */
  function Resolve(base: Path, child: Path): (r: Path)
    ensures IsAbsolute(child) ==> r == child
    ensures child == [] ==> r == base
    ensures base != [] && child != [] && !IsAbsolute(child) ==>
              (IsAbsolute(r) <==> IsAbsolute(base)) && base <= r && |child| < |r| && r[|r| - |child|..] == child
  {
    if child == [] then base
    else if base == [] || child[0] == '/' then child
    else if base == "/" then "/" + child
    else base + "/" + child
  }

  /** Resolving a relative path appends its names to those of the base. */
  lemma ResolveSegments(base: Path, child: Path)
    requires !IsAbsolute(child)
    ensures Segments(Resolve(base, child)) == Segments(base) + Segments(child)
  {
    if child != [] && base != [] {
      if base == "/" {
        JoinSegments([], child, []);
        assert [] + "/" + child == "/" + child;
        assert Segments("/") == [];
      } else {
        JoinSegments(base, child, []);
      }
    } else if child == [] {
      assert Segments(child) == [];
    } else {
      assert Segments(base) == [];
    }
  }

  /** Resolving one normalised path against another gives a normalised path. */
  lemma ResolveNormalized(base: Path, child: Path)
    requires Normalized(base) && Normalized(child)
    ensures Normalized(Resolve(base, child))
  {
    var r := Resolve(base, child);
    if child != [] && base != [] && child[0] != '/' {
      var k := if base == "/" then 1 else |base| + 1;
      assert r == r[..k] + child;
      forall i | 0 < i < |r| ensures !(r[i - 1] == '/' && r[i] == '/') {
        if i > k {
          assert r[i - 1] == child[i - 1 - k] && r[i] == child[i - k];
        } else if i == k {
          assert r[i] == child[0];
        } else if i == k - 1 {
          assert r[i - 1] == base[|base| - 1];
        } else {
          assert r[i - 1] == base[i - 1] && r[i] == base[i];
        }
      }
      assert r[|r| - 1] == child[|child| - 1];
    }
  }

  /** The index of the last separator of `p`, if there is one. */
  function LastSlash(p: Path): (r: Option<nat>)
    ensures r.Some? ==> r.value < |p| && p[r.value] == '/'
    ensures r.Some? ==> forall j :: r.value < j < |p| ==> p[j] != '/'
    ensures r.None? ==> forall j :: 0 <= j < |p| ==> p[j] != '/'
    decreases |p|
  {
    if p == [] then None
    else if p[|p| - 1] == '/' then Some(|p| - 1)
    else LastSlash(p[..|p| - 1])
  }

  /** `p.getParent()`; None stands for null. */
  function Parent(p: Path): (r: Option<Path>)
    ensures r.Some? ==> |r.value| < |p| && r.value <= p
    ensures r.Some? ==> LastSlash(p).Some? && r.value == if LastSlash(p).value > 0 then p[..LastSlash(p).value] else "/"
    ensures r.None? <==> p == "/" || forall j :: 0 <= j < |p| ==> p[j] != '/'
  {
    match LastSlash(p)
    case None => None
    case Some(i) =>
      if i > 0 then Some(p[..i])
      else if |p| > 1 then Some("/")
      else None
  }

  /** The parent of a normalised path is normalised. */
  lemma ParentNormalized(p: Path)
    requires Normalized(p) && Parent(p).Some?
    ensures Normalized(Parent(p).value)
  {
    var i := LastSlash(p).value;
    if i > 0 {
      var q := p[..i];
      assert q[|q| - 1] == p[i - 1];
      assert forall j :: 0 <= j < |q| ==> q[j] == p[j];
    }
  }

  /** A relative single name resolved against a non-empty directory has that directory as parent. */
  lemma ResolveParent(base: Path, name: Path)
    requires base != [] && name != [] && forall j :: 0 <= j < |name| ==> name[j] != '/'
    ensures Parent(Resolve(base, name)) == Some(base)
  {
    var r := Resolve(base, name);
    var k := if base == "/" then 0 else |base|;
    assert r == r[..k + 1] + name;
    assert r[k] == '/';
    assert forall j :: k < j < |r| ==> r[j] == name[j - k - 1];
    assert LastSlash(r) == Some(k) by {
      LastSlashIs(r, k);
    }
    if k > 0 {
      assert r[..k] == base;
    }
  }

  lemma {:induction false} LastSlashIs(p: Path, k: nat)
    requires k < |p| && p[k] == '/' && forall j :: k < j < |p| ==> p[j] != '/'
    ensures LastSlash(p) == Some(k)
    decreases |p|
  {
    if p[|p| - 1] != '/' {
      var q := p[..|p| - 1];
      LastSlashIs(q, k);
    }
  }

  /** The other way round: a path is its parent with its last name resolved against it. */
  lemma ParentThenResolve(p: Path)
    requires Normalized(p) && Parent(p).Some?
    ensures LastSlash(p).Some? && LastSlash(p).value + 1 < |p|
    ensures Resolve(Parent(p).value, p[LastSlash(p).value + 1..]) == p
  {
    var i := LastSlash(p).value;
    LastNameAround(p, i);
    var name := p[i + 1..];
    if i > 0 {
      JoinedAtSlash(p, p[..i], name, i);
    } else {
      JoinedAtSlash(p, "/", name, 0);
    }
  }

  /** Around the last separator of a normalised path with a parent: a name follows it and none of its neighbours is a separator. */
  lemma LastNameAround(p: Path, i: nat)
    requires Normalized(p) && Parent(p).Some? && LastSlash(p) == Some(i)
    ensures i + 1 < |p| && p[i] == '/' && p[i + 1] != '/'
    ensures i > 0 ==> p[i - 1] != '/'
  {
    assert p[|p| - 1] != '/';
  }

  /** Splitting a path at its separator at index `i` and joining the two sides again. */
  lemma JoinedAtSlash(p: Path, q: Path, name: Path, i: nat)
    requires i + 1 < |p| && p[i] == '/' && p[i + 1] != '/' && name == p[i + 1..]
    requires (i > 0 && q == p[..i] && p[i - 1] != '/') || (i == 0 && q == "/")
    ensures Resolve(q, name) == p
  {
    assert name[0] == p[i + 1];
    if i > 0 {
      assert q[|q| - 1] == p[i - 1];
      assert p == p[..i] + "/" + p[i + 1..];
    } else {
      assert p == "/" + p[1..];
    }
  }

  /** `p` followed by its parent, its parent's parent, and so on up to a path without parent. */
  function Ancestors(p: Path): (r: set<Path>)
    ensures p in r
    ensures forall a :: a in r ==> a <= p
    ensures forall a :: a in r && Parent(a).Some? ==> Parent(a).value in r
    ensures forall a :: a in r && a != p ==> exists b :: b in r && Parent(b) == Some(a)
    decreases |p|
  {
    match Parent(p)
    case None => {p}
    case Some(q) =>
      var r := {p} + Ancestors(q);
      assert forall a :: a in r && a != p ==> exists b :: b in r && Parent(b) == Some(a) by {
        forall a | a in r && a != p
          ensures exists b :: b in r && Parent(b) == Some(a)
        {
          if a == q {
            assert p in r && Parent(p) == Some(a);
          } else {
            var b :| b in Ancestors(q) && Parent(b) == Some(a);
            assert b in r;
          }
        }
      }
      r
  }

  /** A path is absolute exactly when its chain of parents reaches the root "/". */
  lemma {:induction false} AbsoluteReachesRoot(p: Path)
    ensures IsAbsolute(p) <==> "/" in Ancestors(p)
    decreases |p|
  {
    match Parent(p)
    case None =>
      assert Ancestors(p) == {p};
    case Some(q) =>
      AbsoluteReachesRoot(q);
      assert q != [] && q[0] == p[0];
      assert Ancestors(p) == {p} + Ancestors(q);
  }
}
