/**
 * The POSIX flavour of Node's `path` module as the generator uses it:
 * `normalize`, `join`, `resolve` against a working directory, and
 * `relative`. A path is read as its '/'-separated segments; normalisation
 * folds the segments left to right, dropping empty and `.` segments and
 * letting `..` cancel the segment before it.
 */
module Paths {
  import opened Strings

  /** A segment that names a directory entry: not empty, not `.` or `..`, free of '/'. */
  predicate IsName(seg: string)
  {
    seg != "" && seg != "." && seg != ".." && '/' !in seg
  }

  predicate AllNames(segs: seq<string>)
  {
    forall i :: 0 <= i < |segs| ==> IsName(segs[i])
  }

  /** No segment is empty or `.`: what normalisation leaves behind. */
  predicate Clean(segs: seq<string>)
  {
    forall i :: 0 <= i < |segs| ==> segs[i] != "" && segs[i] != "."
  }

  /** `k` parent-directory segments. */
  function Ups(k: nat): (r: seq<string>)
    ensures |r| == k && forall i :: 0 <= i < k ==> r[i] == ".."
  {
    seq(k, _ => "..")
  }

  /**
   * One segment of Node's `normalizeString`: `..` removes the last segment
   * unless that is itself `..`; above the root of an absolute path it is
   * dropped, in a relative path it is kept.
   */
  function Step(absolute: bool, acc: seq<string>, seg: string): seq<string>
  {
    if seg == "" || seg == "." then acc
    else if seg == ".." then
      if |acc| > 0 && acc[|acc| - 1] != ".." then acc[..|acc| - 1]
      else if absolute then acc
      else acc + [".."]
    else acc + [seg]
  }

  /** `Step` over `segs`, left to right, starting from `acc`. */
  function Fold(absolute: bool, acc: seq<string>, segs: seq<string>): seq<string>
    decreases |segs|
  {
    if segs == [] then acc else Fold(absolute, Step(absolute, acc, segs[0]), segs[1..])
  }

  /** A normalised path: whether it is absolute, and its segments. */
  datatype PathValue = PathValue(absolute: bool, segments: seq<string>)

  /**
   * A normalised path holds only names, except that a relative one may
   * start with `..` segments.
   */
  predicate WellFormed(p: PathValue)
  {
    (forall i :: 0 <= i < |p.segments| ==> IsName(p.segments[i]) || (!p.absolute && p.segments[i] == ".."))
    && (forall i, j :: 0 <= i < j < |p.segments| && p.segments[j] == ".." ==> p.segments[i] == "..")
  }

  /** `path.normalize(s)`, read as a path value. */
  function Normalize(s: string): (p: PathValue)
    ensures p.absolute == StartsWith(s, "/")
  {
    var absolute := StartsWith(s, "/");
    PathValue(absolute, Fold(absolute, [], Split(s, '/')))
  }

  /** The text of a normalised path: `.` for the empty relative path, `/` for the root. */
  function Render(p: PathValue): string
  {
    if p.absolute then "/" + JoinWith(p.segments, "/")
    else if p.segments == [] then "."
    else JoinWith(p.segments, "/")
  }

  /** The arguments of `path.join` that are not empty. */
  function NonEmpty(args: seq<string>): (r: seq<string>)
    ensures forall i :: 0 <= i < |r| ==> r[i] != ""
  {
    if args == [] then []
    else if args[0] == "" then NonEmpty(args[1..])
    else [args[0]] + NonEmpty(args[1..])
  }

  /** `path.join(...args)`: the non-empty arguments joined with '/', then normalised. */
  function Join(args: seq<string>): string
  {
    Render(Normalize(JoinWith(NonEmpty(args), "/")))
  }

  /** `path.resolve(s)` in the working directory `cwd`, given as its list of names. */
  function Resolve(cwd: seq<string>, s: string): seq<string>
  {
    Fold(true, if StartsWith(s, "/") then [] else cwd, Split(s, '/'))
  }

  /** The length of the longest common prefix of `a` and `b`. */
  function CommonPrefixLength(a: seq<string>, b: seq<string>): (n: nat)
    ensures n <= |a| && n <= |b| && a[..n] == b[..n]
    ensures n < |a| && n < |b| ==> a[n] != b[n]
  {
    if a == [] || b == [] || a[0] != b[0] then 0
    else
      var n := CommonPrefixLength(a[1..], b[1..]);
      assert a[..n + 1] == [a[0]] + a[1..][..n];
      assert b[..n + 1] == [b[0]] + b[1..][..n];
      n + 1
  }

  /** The segments of `path.relative(from, to)` once both differ: up to the common prefix, then down. */
  function RelativeSegments(f: seq<string>, t: seq<string>): seq<string>
  {
    var c := CommonPrefixLength(f, t);
    Ups(|f| - c) + t[c..]
  }

  /** `path.relative(from, to)` in the working directory `cwd`. */
  function Relative(cwd: seq<string>, from: string, to: string): string
  {
    var f := Resolve(cwd, from);
    var t := Resolve(cwd, to);
    if f == t then "" else JoinWith(RelativeSegments(f, t), "/")
  }

  // ---------------------------------------------------------------------
  // Folding segments

  /** Folding a concatenation folds its parts one after the other. */
  lemma {:induction false} FoldAppend(absolute: bool, acc: seq<string>, x: seq<string>, y: seq<string>)
    ensures Fold(absolute, acc, x + y) == Fold(absolute, Fold(absolute, acc, x), y)
    decreases |x|
  {
    if x != [] {
      assert (x + y)[0] == x[0];
      assert (x + y)[1..] == x[1..] + y;
      FoldAppend(absolute, Step(absolute, acc, x[0]), x[1..], y);
    } else {
      assert x + y == y;
    }
  }

  /** Names are appended as they are. */
  lemma {:induction false} FoldNames(absolute: bool, acc: seq<string>, names: seq<string>)
    requires AllNames(names)
    ensures Fold(absolute, acc, names) == acc + names
    decreases |names|
  {
    if names != [] {
      FoldNames(absolute, acc + [names[0]], names[1..]);
      assert acc + [names[0]] + names[1..] == acc + names;
    }
  }

  /** `k` parent segments climb `k` names up. */
  lemma {:induction false} FoldUps(acc: seq<string>, k: nat)
    requires AllNames(acc) && k <= |acc|
    ensures Fold(true, acc, Ups(k)) == acc[..|acc| - k]
    decreases k
  {
    if k > 0 {
      var up := acc[..|acc| - 1];
      assert Step(true, acc, "..") == up;
      assert Ups(k)[1..] == Ups(k - 1);
      FoldUps(up, k - 1);
      assert up[..|up| - (k - 1)] == acc[..|acc| - k];
    }
  }

  /** An absolute fold over '/'-free segments from names yields names. */
  lemma {:induction false} FoldAbsoluteNames(acc: seq<string>, segs: seq<string>)
    requires AllNames(acc)
    requires forall i :: 0 <= i < |segs| ==> '/' !in segs[i]
    ensures AllNames(Fold(true, acc, segs))
    decreases |segs|
  {
    if segs != [] {
      FoldAbsoluteNames(Step(true, acc, segs[0]), segs[1..]);
    }
  }

  /** A relative fold keeps its result clean. */
  lemma {:induction false} FoldRelativeClean(acc: seq<string>, segs: seq<string>)
    requires Clean(acc)
    ensures Clean(Fold(false, acc, segs))
    decreases |segs|
  {
    if segs != [] {
      FoldRelativeClean(Step(false, acc, segs[0]), segs[1..]);
    }
  }

  /** One relative step, resolved afterwards, is the same step taken on the resolved path. */
  lemma StepRelativeThenAbsolute(base: seq<string>, acc: seq<string>, seg: string)
    requires Clean(acc)
    ensures Fold(true, base, Step(false, acc, seg)) == Step(true, Fold(true, base, acc), seg)
  {
    if seg == "" || seg == "." {
    } else if seg == ".." && |acc| > 0 && acc[|acc| - 1] != ".." {
      var last := acc[|acc| - 1];
      assert acc == acc[..|acc| - 1] + [last];
      FoldAppend(true, base, acc[..|acc| - 1], [last]);
    } else {
      var added := if seg == ".." then ".." else seg;
      assert Step(false, acc, seg) == acc + [added];
      FoldAppend(true, base, acc, [added]);
    }
  }

  /** Normalising a relative path first does not change where it resolves to. */
  lemma {:induction false} FoldRelativeThenAbsolute(base: seq<string>, acc: seq<string>, segs: seq<string>)
    requires Clean(acc)
    ensures Fold(true, base, Fold(false, acc, segs)) == Fold(true, Fold(true, base, acc), segs)
    decreases |segs|
  {
    if segs != [] {
      var acc' := Step(false, acc, segs[0]);
      assert Clean(acc');
      FoldRelativeThenAbsolute(base, acc', segs[1..]);
      StepRelativeThenAbsolute(base, acc, segs[0]);
    }
  }

  /** A relative fold from nothing yields `..` segments followed by names. */
  lemma {:induction false} FoldRelativeWellFormed(acc: seq<string>, segs: seq<string>)
    requires WellFormed(PathValue(false, acc))
    requires forall i :: 0 <= i < |segs| ==> '/' !in segs[i]
    ensures WellFormed(PathValue(false, Fold(false, acc, segs)))
    decreases |segs|
  {
    if segs != [] {
      var next := Step(false, acc, segs[0]);
      assert WellFormed(PathValue(false, next)) by {
        if segs[0] == ".." && !(|acc| > 0 && acc[|acc| - 1] != "..") {
          assert next == acc + [".."];
          assert acc == [] || acc[|acc| - 1] == "..";
        }
      }
      FoldRelativeWellFormed(next, segs[1..]);
    }
  }

  // ---------------------------------------------------------------------
  // Normalising and rendering

  /** `path.normalize` yields a well-formed path. */
  lemma NormalizeWellFormed(s: string)
    ensures WellFormed(Normalize(s))
  {
    var p := Normalize(s);
    if p.absolute {
      FoldAbsoluteNames([], Split(s, '/'));
    } else {
      FoldRelativeWellFormed([], Split(s, '/'));
    }
  }

  /** The segments of a relative well-formed path: its `..` prefix, then names. */
  lemma RelativeSegmentsShape(segs: seq<string>) returns (m: nat)
    requires WellFormed(PathValue(false, segs))
    ensures m <= |segs| && segs == Ups(m) + segs[m..] && AllNames(segs[m..])
  {
    m := 0;
    while m < |segs| && segs[m] == ".."
      invariant m <= |segs| && forall i :: 0 <= i < m ==> segs[i] == ".."
    {
      m := m + 1;
    }
    assert segs == Ups(m) + segs[m..];
  }

  /** A relative fold from nothing keeps a `..` prefix followed by names as it is. */
  lemma {:induction false} FoldRelativeUps(m: nat)
    ensures Fold(false, [], Ups(m)) == Ups(m)
    decreases m
  {
    if m > 0 {
      FoldRelativeUps(m - 1);
      FoldAppend(false, [], Ups(m - 1), [".."]);
      assert Ups(m) == Ups(m - 1) + [".."];
    }
  }

  /** Splitting the text of a non-empty list of '/'-free segments gives the list back. */
  lemma SplitRendered(segs: seq<string>)
    requires |segs| > 0 && forall i :: 0 <= i < |segs| ==> '/' !in segs[i]
    ensures Split(JoinWith(segs, "/"), '/') == segs
  {
    assert "/" == ['/'];
    SplitJoin(segs, '/');
  }

  /** The root splits into two empty pieces. */
  lemma SplitRoot()
    ensures Split("/", '/') == ["", ""]
  {
    SplitCons("", '/', "");
    assert "" + ['/'] + "" == "/";
  }

  /** The rendered text of a path starts with '/' exactly when the path is absolute. */
  lemma RenderStartsWithSlash(p: PathValue)
    requires WellFormed(p)
    ensures StartsWith(Render(p), "/") == p.absolute
  {
    if p.absolute {
      assert Render(p)[..1] == "/";
    } else if p.segments == [] {
      assert Render(p)[..1] == ".";
    } else {
      JoinWithHead(p.segments, "/");
      var seg := p.segments[0];
      assert seg != "" && '/' !in seg;
      assert Render(p)[0] == seg[0];
      assert seg[0] in seg;
    }
  }

  /** `parts.join(sep)` starts with the first part. */
  lemma JoinWithHead(parts: seq<string>, sep: string)
    requires |parts| > 0
    ensures StartsWith(JoinWith(parts, sep), parts[0])
  {
  }

  /** Normalising the text of a normalised path gives the same path: `Render` loses nothing. */
  lemma NormalizeRender(p: PathValue)
    requires WellFormed(p)
    ensures Normalize(Render(p)) == p
  {
    RenderStartsWithSlash(p);
    var segs := p.segments;
    if p.absolute {
      assert AllNames(segs);
      if segs == [] {
        SplitRoot();
      } else {
        SplitRendered(segs);
        SplitCons("", '/', JoinWith(segs, "/"));
        assert "" + ['/'] + JoinWith(segs, "/") == Render(p);
        FoldNames(true, [], segs);
      }
    } else if segs == [] {
      SplitNoSeparator(".", '/');
    } else {
      SplitRendered(segs);
      var m := RelativeSegmentsShape(segs);
      FoldAppend(false, [], Ups(m), segs[m..]);
      FoldRelativeUps(m);
      FoldNames(false, Ups(m), segs[m..]);
    }
  }

  /** `path.normalize` is idempotent. */
  lemma NormalizeIdempotent(s: string)
    ensures Normalize(Render(Normalize(s))) == Normalize(s)
  {
    NormalizeWellFormed(s);
    NormalizeRender(Normalize(s));
  }

  // ---------------------------------------------------------------------
  // Resolving

  /** Every resolved path is a list of names. */
  lemma ResolveNames(cwd: seq<string>, s: string)
    requires AllNames(cwd)
    ensures AllNames(Resolve(cwd, s))
  {
    FoldAbsoluteNames(if StartsWith(s, "/") then [] else cwd, Split(s, '/'));
  }

  /** Normalising a path does not change where it resolves to. */
  lemma ResolveNormalized(cwd: seq<string>, s: string)
    requires AllNames(cwd)
    ensures Resolve(cwd, Render(Normalize(s))) == Resolve(cwd, s)
  {
    var p := Normalize(s);
    NormalizeWellFormed(s);
    RenderStartsWithSlash(p);
    var segs := p.segments;
    if p.absolute {
      if segs == [] {
        SplitRoot();
        assert Render(p) == "/";
        assert ["", ""][1..] == [""] && [""][1..] == [];
      } else {
        SplitRendered(segs);
        SplitCons("", '/', JoinWith(segs, "/"));
        assert "" + ['/'] + JoinWith(segs, "/") == Render(p);
        FoldNames(true, [], segs);
      }
    } else {
      FoldRelativeThenAbsolute(cwd, [], Split(s, '/'));
      if segs == [] {
        SplitNoSeparator(".", '/');
      } else {
        SplitRendered(segs);
      }
    }
  }

  /** `path.join(a, b)` resolves to `b`'s segments folded onto where `a` resolves. */
  lemma ResolveJoin(cwd: seq<string>, a: string, b: string)
    requires AllNames(cwd)
    ensures Resolve(cwd, Join([a, b])) ==
      if b == "" then Resolve(cwd, a)
      else if a == "" then Resolve(cwd, b)
      else Fold(true, Resolve(cwd, a), Split(b, '/'))
  {
    var raw := JoinWith(NonEmpty([a, b]), "/");
    ResolveNormalized(cwd, raw);
    assert [a, b][1..] == [b];
    if b == "" {
      assert NonEmpty([b]) == [];
      assert raw == (if a == "" then "" else a);
      if a == "" {
        assert Split("", '/') == [""];
      }
    } else if a == "" {
      assert NonEmpty([a, b]) == [b];
    } else {
      assert NonEmpty([a, b]) == [a, b];
      assert [a, b][1..] == [b];
      assert JoinWith([b], "/") == b;
      assert "/" == ['/'];
      assert raw == a + ['/'] + b;
      SplitAppend(a, '/', b);
      assert StartsWith(raw, "/") == StartsWith(a, "/");
      FoldAppend(true, if StartsWith(a, "/") then [] else cwd, Split(a, '/'), Split(b, '/'));
    }
  }

  /** A relative path of names resolves to those names under the working directory. */
  lemma ResolveRelativeNames(cwd: seq<string>, names: seq<string>)
    requires AllNames(cwd) && AllNames(names) && |names| > 0
    ensures Resolve(cwd, JoinWith(names, "/")) == cwd + names
  {
    var p := PathValue(false, names);
    assert Render(p) == JoinWith(names, "/");
    RenderStartsWithSlash(p);
    SplitRendered(names);
    FoldNames(true, cwd, names);
  }

  /** The empty path resolves to the working directory. */
  lemma ResolveEmpty(cwd: seq<string>)
    ensures Resolve(cwd, "") == cwd
  {
    assert Split("", '/') == [""];
    assert !StartsWith("", "/");
    assert [""][1..] == [];
  }

  // ---------------------------------------------------------------------
  // `path.relative`

  /** The result of `path.relative` is `..` segments and then names, separated by '/'. */
  lemma RelativeShape(cwd: seq<string>, from: string, to: string)
    requires AllNames(cwd)
    ensures var f := Resolve(cwd, from);
            var t := Resolve(cwd, to);
            var r := Relative(cwd, from, to);
            (r == "" <==> f == t)
            && !StartsWith(r, "/")
            && (f != t ==> Split(r, '/') == RelativeSegments(f, t)
                           && WellFormed(PathValue(false, Split(r, '/'))))
  {
    var f := Resolve(cwd, from);
    var t := Resolve(cwd, to);
    ResolveNames(cwd, from);
    ResolveNames(cwd, to);
    if f != t {
      var segs := RelativeSegments(f, t);
      RelativeSegmentsWellFormed(f, t);
      SplitRendered(segs);
      JoinWithHead(segs, "/");
      assert segs[0][0] in segs[0];
    }
  }

  /** Between two different paths of names, the way goes up by `..` and then down by names. */
  lemma RelativeSegmentsWellFormed(f: seq<string>, t: seq<string>)
    requires AllNames(f) && AllNames(t) && f != t
    ensures var segs := RelativeSegments(f, t);
            |segs| > 0 && segs[0] != ""
            && (forall i :: 0 <= i < |segs| ==> '/' !in segs[i])
            && WellFormed(PathValue(false, segs))
  {
    var c := CommonPrefixLength(f, t);
    var segs := RelativeSegments(f, t);
    assert segs == Ups(|f| - c) + t[c..];
    forall i | 0 <= i < |segs|
      ensures '/' !in segs[i] && (IsName(segs[i]) || segs[i] == "..")
    {
      if i >= |f| - c {
        assert segs[i] == t[c + i - (|f| - c)];
      }
    }
  }


  /**
   * The `path.relative` contract: joining `from` with `relative(from, to)`
   * resolves to where `to` resolves.
   */
  lemma RelativeRoundTrip(cwd: seq<string>, from: string, to: string)
    requires AllNames(cwd)
    ensures Resolve(cwd, Join([from, Relative(cwd, from, to)])) == Resolve(cwd, to)
  {
    var f := Resolve(cwd, from);
    var t := Resolve(cwd, to);
    var r := Relative(cwd, from, to);
    ResolveJoin(cwd, from, r);
    RelativeShape(cwd, from, to);
    if f != t {
      ResolveNames(cwd, from);
      ResolveNames(cwd, to);
      var c := CommonPrefixLength(f, t);
      var k := |f| - c;
      if from == "" {
        ResolveEmpty(cwd);
        assert Resolve(cwd, r) == Fold(true, f, Split(r, '/'));
      }
      FoldAppend(true, f, Ups(k), t[c..]);
      FoldUps(f, k);
      assert f[..|f| - k] == t[..c];
      FoldNames(true, t[..c], t[c..]);
      assert t[..c] + t[c..] == t;
    }
  }

  /** A path is zero steps away from itself. */
  lemma RelativeToSelf(cwd: seq<string>, p: string)
    ensures Relative(cwd, p, p) == ""
  {
  }
}
