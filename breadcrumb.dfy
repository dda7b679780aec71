/**
 * The breadcrumb trail of a listing (`buildpath`): a synthetic "home" entry,
 * then one entry per segment of the path beyond the user's workspace root.
 */
module Breadcrumb {
  import opened PhpStrings

  /** One breadcrumb: its display name and the path it leads to. */
  datatype Crumb = Crumb(name: string, path: string)

  /** The `nuxeoRoot` label of the plugin's string table. */
  const NuxeoRoot: string := "home"

  /** The synthetic first entry of every trail. */
  const HomeCrumb: Crumb := Crumb(NuxeoRoot, "/")

  /** `substr($path, strlen($root))`: what lies beyond the workspace root. */
  function Suffix(root: string, path: string): string {
    Substr(path, |root|)
  }

  /** The segments the loop does not skip: those that are not `empty()`. */
  function Segments(parts: seq<string>): (segs: seq<string>)
    ensures |segs| <= |parts|
    ensures forall k :: 0 <= k < |segs| ==> !PhpEmpty(segs[k])
  {
    if parts == [] then []
    else if PhpEmpty(parts[0]) then Segments(parts[1..])
    else [parts[0]] + Segments(parts[1..])
  }

  /** A piece is kept exactly when it is not `empty()`. */
  lemma {:induction false} SegmentsKeepNonEmpty(parts: seq<string>)
    ensures forall x :: x in Segments(parts) <==> x in parts && !PhpEmpty(x)
  {
    if parts != [] {
      SegmentsKeepNonEmpty(parts[1..]);
      assert parts == [parts[0]] + parts[1..];
    }
  }

  /** "/" + s1 + "/" + s2 + ... : the accumulated trail after the given segments. */
  function JoinSlash(segs: seq<string>): string {
    if segs == [] then "" else "/" + segs[0] + JoinSlash(segs[1..])
  }

  /** The entries the loop appends, starting from the accumulated trail `trail`. */
  function Crumbs(trail: string, parts: seq<string>): seq<Crumb>
    decreases parts
  {
    if parts == [] then []
    else if PhpEmpty(parts[0]) then Crumbs(trail, parts[1..])
    else
      var next := trail + "/" + parts[0];
      [Crumb(parts[0], next)] + Crumbs(next, parts[1..])
  }

  /** The trail `buildpath` returns for `path` under the workspace root `root`. */
  function Trail(root: string, path: string): (t: seq<Crumb>)
    ensures |t| >= 1 && t[0] == HomeCrumb
  {
    var suffix := Suffix(root, path);
    if PhpEmpty(suffix) then [HomeCrumb]
    else
      var parts := Explode(suffix);
      if |parts| > 1 then [HomeCrumb] + Crumbs(root, parts)
      else [HomeCrumb, Crumb(suffix, suffix)]
  }

  /** `buildpath`: the loop over the exploded suffix that accumulates the trail. */
  method BuildPath(root: string, path: string) returns (pathbuild: seq<Crumb>)
    ensures pathbuild == Trail(root, path)
  {
    pathbuild := [HomeCrumb];
    var pathToTrail := Substr(path, |root|);
    var trail := root;
    if !PhpEmpty(pathToTrail) {
      var parts := Explode(pathToTrail);
      if |parts| > 1 {
        for i := 0 to |parts|
          invariant pathbuild + Crumbs(trail, parts[i..]) == [HomeCrumb] + Crumbs(root, parts)
        {
          assert parts[i..][1..] == parts[i + 1..];
          var part := parts[i];
          if !PhpEmpty(part) {
            trail := trail + "/" + part;
            pathbuild := pathbuild + [Crumb(part, trail)];
          }
        }
      } else {
        pathbuild := pathbuild + [Crumb(pathToTrail, pathToTrail)];
      }
    }
  }

  lemma {:induction false} CrumbsLength(trail: string, parts: seq<string>)
    ensures |Crumbs(trail, parts)| == |Segments(parts)|
    decreases parts
  {
    if parts != [] {
      if PhpEmpty(parts[0]) {
        CrumbsLength(trail, parts[1..]);
      } else {
        CrumbsLength(trail + "/" + parts[0], parts[1..]);
      }
    }
  }

  lemma {:induction false} CrumbAt(trail: string, parts: seq<string>, k: nat)
    requires k < |Segments(parts)|
    ensures |Crumbs(trail, parts)| == |Segments(parts)|
    ensures Crumbs(trail, parts)[k] == Crumb(Segments(parts)[k], trail + JoinSlash(Segments(parts)[..k + 1]))
    decreases parts
  {
    CrumbsLength(trail, parts);
    if PhpEmpty(parts[0]) {
      CrumbAt(trail, parts[1..], k);
    } else {
      var next := trail + "/" + parts[0];
      var segs := Segments(parts);
      var rest := Segments(parts[1..]);
      assert segs == [parts[0]] + rest;
      if k == 0 {
        assert segs[..1] == [parts[0]];
        assert JoinSlash(segs[..1]) == "/" + parts[0] + JoinSlash([]);
      } else {
        CrumbAt(next, parts[1..], k - 1);
        assert segs[..k + 1] == [parts[0]] + rest[..k];
        assert segs[..k + 1][1..] == rest[..k];
        assert JoinSlash(segs[..k + 1]) == "/" + parts[0] + JoinSlash(rest[..k]);
      }
    }
  }

  /** Entry k of the appended crumbs names the k-th non-empty segment and leads to the trail after it. */
  lemma CrumbsAt(trail: string, parts: seq<string>)
    ensures |Crumbs(trail, parts)| == |Segments(parts)|
    ensures forall k :: 0 <= k < |Segments(parts)| ==>
      Crumbs(trail, parts)[k] == Crumb(Segments(parts)[k], trail + JoinSlash(Segments(parts)[..k + 1]))
  {
    CrumbsLength(trail, parts);
    forall k | 0 <= k < |Segments(parts)|
      ensures Crumbs(trail, parts)[k] == Crumb(Segments(parts)[k], trail + JoinSlash(Segments(parts)[..k + 1]))
    {
      CrumbAt(trail, parts, k);
    }
  }

  /** A path no longer than the root, or whose suffix is `empty()`, has only the home entry. */
  lemma TrailOfRoot(root: string, path: string)
    requires PhpEmpty(Suffix(root, path))
    ensures Trail(root, path) == [HomeCrumb]
  {
  }

  /** With a slash in the suffix, one entry per non-empty segment, each leading to root + "/" + seg1 + ... + "/" + segk. */
  lemma TrailWithSlash(root: string, path: string)
    requires !PhpEmpty(Suffix(root, path)) && '/' in Suffix(root, path)
    ensures var segs := Segments(Explode(Suffix(root, path)));
      && |Trail(root, path)| == 1 + |segs|
      && forall k :: 0 <= k < |segs| ==>
           Trail(root, path)[k + 1] == Crumb(segs[k], root + JoinSlash(segs[..k + 1]))
  {
    ExplodeSplitsIffSlash(Suffix(root, path));
    CrumbsAt(root, Explode(Suffix(root, path)));
  }

  /** Without a slash in the suffix, exactly one entry is appended, named and leading to the bare suffix. */
  lemma TrailWithoutSlash(root: string, path: string)
    requires !PhpEmpty(Suffix(root, path)) && '/' !in Suffix(root, path)
    ensures Trail(root, path) == [HomeCrumb, Crumb(Suffix(root, path), Suffix(root, path))]
  {
    ExplodeSplitsIffSlash(Suffix(root, path));
  }

  /** The quirk: a single segment glued to the root is not prefixed by the root in its entry. */
  lemma TrailSingleSegmentNotPrefixed(root: string, seg: string)
    requires !PhpEmpty(seg) && '/' !in seg
    ensures Trail(root, root + seg) == [HomeCrumb, Crumb(seg, seg)]
  {
    assert Suffix(root, root + seg) == seg;
    TrailWithoutSlash(root, root + seg);
  }

  /** explode of "/" + s1 + ... + "/" + sk gives an empty piece, then the segments. */
  lemma {:induction false} ExplodeJoinSlash(segs: seq<string>)
    requires |segs| >= 1
    requires forall k :: 0 <= k < |segs| ==> '/' !in segs[k]
    ensures Explode(JoinSlash(segs)) == [""] + segs
  {
    var rest := segs[1..];
    ExplodeCons('/', segs[0]);
    ExplodeNoSlash(segs[0]);
    if rest == [] {
      assert JoinSlash(segs) == "/" + segs[0];
    } else {
      ExplodeJoinSlash(rest);
      var t := rest[0] + JoinSlash(rest[1..]);
      assert JoinSlash(rest) == "/" + t;
      ExplodeCons('/', t);
      assert ([""] + Explode(t))[1..] == Explode(t);
      assert ([""] + rest)[1..] == rest;
      assert Explode(t) == rest;
      assert JoinSlash(segs) == ("/" + segs[0]) + "/" + t;
      ExplodeConcat("/" + segs[0], t);
      assert segs == [segs[0]] + rest;
    }
  }

  lemma {:induction false} SegmentsOfNonEmpty(segs: seq<string>)
    requires forall k :: 0 <= k < |segs| ==> !PhpEmpty(segs[k])
    ensures Segments(segs) == segs
  {
    if segs != [] {
      SegmentsOfNonEmpty(segs[1..]);
    }
  }

  /**
   * For a descendant root + "/" + s1 + ... + "/" + sn of the root, one entry per
   * segment, entry k leading to root + "/" + s1 + ... + "/" + sk; the last entry
   * leads to the path itself.
   */
  lemma TrailOfDescendant(root: string, segs: seq<string>)
    requires |segs| >= 1
    requires forall k :: 0 <= k < |segs| ==> !PhpEmpty(segs[k]) && '/' !in segs[k]
    ensures |Trail(root, root + JoinSlash(segs))| == |segs| + 1
    ensures forall k :: 0 <= k < |segs| ==>
      Trail(root, root + JoinSlash(segs))[k + 1] == Crumb(segs[k], root + JoinSlash(segs[..k + 1]))
    ensures Trail(root, root + JoinSlash(segs))[|segs|].path == root + JoinSlash(segs)
  {
    var path := root + JoinSlash(segs);
    var suffix := JoinSlash(segs);
    assert path[|root|..] == suffix;
    assert suffix[0] == '/';
    ExplodeJoinSlash(segs);
    var parts := [""] + segs;
    assert parts[1..] == segs;
    assert Crumbs(root, parts) == Crumbs(root, segs);
    var t := Trail(root, path);
    assert t == [HomeCrumb] + Crumbs(root, segs);
    SegmentsOfNonEmpty(segs);
    CrumbsAt(root, segs);
    assert segs[..|segs|] == segs;
  }

  /** The two-level case: root + "/A/B" gives home, {A, root/A}, {B, root/A/B}. */
  lemma TrailOfTwoLevels(root: string, a: string, b: string)
    requires !PhpEmpty(a) && '/' !in a && !PhpEmpty(b) && '/' !in b
    ensures Trail(root, root + "/" + a + "/" + b) ==
      [HomeCrumb, Crumb(a, root + "/" + a), Crumb(b, root + "/" + a + "/" + b)]
  {
    var segs := [a, b];
    assert segs[1..] == [b];
    assert [b][1..] == [];
    assert JoinSlash([b]) == "/" + b;
    assert JoinSlash(segs) == "/" + a + "/" + b;
    var p := root + "/" + a + "/" + b;
    assert p == root + JoinSlash(segs);
    TrailOfDescendant(root, segs);
    var tr := Trail(root, p);
    assert segs[..1] == [a];
    assert [a][1..] == [];
    assert JoinSlash([a]) == "/" + a;
    assert tr[1] == Crumb(a, root + "/" + a);
    assert segs[..2] == segs;
    assert tr[2] == Crumb(b, p);
    assert tr == [tr[0], tr[1], tr[2]];
  }
}
