/**
 The lexical part of path/filepath the syncer relies on, over component lists:
 Clean and Join on absolute paths, Rel, Ext, and the remover's sandbox test and
 sidecar naming (internal/sync/removal.go).
 */
module Paths {
  import opened Text

  /** An absolute path as its components; the root directory is []. */
  type Path = seq<Str>

  const DOTDOT: Str := [DOT, DOT]

  /** A component that Clean keeps. */
  predicate Name(c: Str) { c != [] && SLASH !in c && c != [DOT] && c != DOTDOT }

  predicate Clean(p: Path) { forall i | 0 <= i < |p| :: Name(p[i]) }

  function PathText(p: Path): Str { [SLASH] + Join(p, SLASH) }

  /** filepath.Clean on the components of a rooted path, `done` being cleaned already. */
  function CleanFrom(done: Path, raw: seq<Str>): Path
    decreases |raw|
  {
    if raw == [] then done
    else if raw[0] == [] || raw[0] == [DOT] then CleanFrom(done, raw[1..])
    else if raw[0] == DOTDOT then CleanFrom(if done == [] then [] else done[..|done| - 1], raw[1..])
    else CleanFrom(done + [raw[0]], raw[1..])
  }

  /** filepath.Join(root, rel) for an absolute root. */
  function JoinPath(root: Path, rel: Str): Path
  {
    CleanFrom([], Split(PathText(root) + [SLASH] + rel, SLASH))
  }

  /** How many leading components a and b share. */
  function Common(a: Path, b: Path): (k: nat)
    ensures k <= |a| && k <= |b| && a[..k] == b[..k]
    ensures k < |a| && k < |b| ==> a[k] != b[k]
  {
    if a != [] && b != [] && a[0] == b[0] then 1 + Common(a[1..], b[1..]) else 0
  }

  /** filepath.Rel(base, target) on clean absolute paths; "." is the empty list. */
  function Rel(base: Path, target: Path): seq<Str>
  {
    var k := Common(base, target);
    seq(|base| - k, i => DOTDOT) + target[k..]
  }

  /** Remover.withinMusic. */
  predicate WithinMusic(root: Path, path: Path)
  {
    var rel := Rel(root, path);
    !(|rel| > 0 && rel[0] == DOTDOT)
  }

  /** The sandbox admits exactly the paths below (or at) the music root. */
  lemma WithinExactly(root: Path, path: Path)
    requires Clean(path)
    ensures WithinMusic(root, path) <==> root <= path
    ensures root <= path ==> Rel(root, path) == path[|root|..]
  {
    var k := Common(root, path);
    var rel := Rel(root, path);
    if root <= path {
      assert k == |root|;
      assert rel == path[k..];
      if rel != [] {
        assert Name(path[k]);
      }
    } else {
      assert k < |root|;
      assert rel[0] == DOTDOT;
    }
  }

  // ----- Joining names below a root -----

  lemma {:induction false} SplitAppend(a: Str, b: Str, c: Byte)
    ensures Split(a + [c] + b, c) == Split(a, c) + Split(b, c)
    decreases |a|
  {
    hide Split;
    var s := a + [c] + b;
    var i := IndexByte(a, c);
    assert forall k | 0 <= k < |a| :: s[k] == a[k];
    if i < 0 {
      SplitAt(s, c, |a|);
      assert s[..|a|] == a && s[|a| + 1..] == b;
      SplitNone(a, c);
    } else {
      SplitAt(s, c, i);
      SplitAt(a, c, i);
      assert s[..i] == a[..i] && s[i + 1..] == a[i + 1..] + [c] + b;
      SplitAppend(a[i + 1..], b, c);
    }
  }

  /** The raw components Join sees below a root. */
  lemma RawComponents(root: Path, rel: Str)
    ensures Split(PathText(root) + [SLASH] + rel, SLASH)
         == [[]] + (Split(Join(root, SLASH), SLASH) + Split(rel, SLASH))
  {
    hide Split, Join;
    SplitAppend(PathText(root), rel, SLASH);
    SplitNone([], SLASH);
    assert PathText(root) == [] + [SLASH] + Join(root, SLASH);
    SplitAppend([], Join(root, SLASH), SLASH);
  }

  lemma {:induction false} CleanNames(done: Path, raw: seq<Str>)
    requires forall i | 0 <= i < |raw| :: Name(raw[i])
    ensures CleanFrom(done, raw) == done + raw
    decreases |raw|
  {
    if raw == [] {
      assert done + raw == done;
    } else {
      assert Name(raw[0]);
      CleanNames(done + [raw[0]], raw[1..]);
      assert done + [raw[0]] + raw[1..] == done + raw;
    }
  }

  lemma {:induction false} CleanSkipsEmpty(done: Path, raw: seq<Str>)
    ensures CleanFrom(done, [[]] + raw) == CleanFrom(done, raw)
  {
    assert ([[]] + raw)[1..] == raw;
  }

  /** Joining a path of proper names to a clean root appends those names. */
  lemma JoinNames(root: Path, names: seq<Str>)
    requires Clean(root) && names != [] && forall i | 0 <= i < |names| :: Name(names[i])
    ensures JoinPath(root, Join(names, SLASH)) == root + names
    ensures Clean(root + names)
  {
    hide Split, Join, CleanFrom, Name;
    var inner := Split(Join(root, SLASH), SLASH);
    NamesSplit(names);
    RawComponents(root, Join(names, SLASH));
    CleanSkipsEmpty([], inner + names);
    if root == [] {
      JoinNone();
      SplitNone([], SLASH);
      CleanSkipsEmpty([], names);
      CleanNames([], names);
      assert [] + names == root + names;
    } else {
      NamesSplit(root);
      CleanNames([], root + names);
      assert [] + (root + names) == root + names;
    }
  }

  lemma JoinNone()
    ensures Join([], SLASH) == []
  {
  }

  lemma NamesSplit(names: seq<Str>)
    requires names != [] && forall i | 0 <= i < |names| :: Name(names[i])
    ensures Split(Join(names, SLASH), SLASH) == names
  {
    hide Split, Join;
    forall n | n in names ensures SLASH !in n {
      var i :| 0 <= i < |names| && names[i] == n;
      assert Name(names[i]);
    }
    SplitJoin(names, SLASH);
  }

  // ----- Extensions and the lyrics sidecar -----

  /** The position of the last dot of c, or |c|. */
  function LastDot(c: Str): (i: nat)
    ensures i <= |c|
    ensures i < |c| ==> c[i] == DOT
    ensures forall k | i < k < |c| :: c[k] != DOT
    ensures i == |c| ==> forall k | 0 <= k < |c| :: c[k] != DOT
  {
    if c == [] then 0
    else if c[|c| - 1] == DOT then |c| - 1
    else
      var j := LastDot(c[..|c| - 1]);
      if j == |c| - 1 then |c| else j
  }

  const LRC: Str := Ascii(".lrc")
  const FLAC: Str := Ascii(".flac")

  /** lrcSidecar: the extension of the last element replaced by ".lrc". */
  function LrcSidecar(path: Path): Path
  {
    if path == [] then [LRC]
    else
      var base := path[|path| - 1];
      path[..|path| - 1] + [base[..LastDot(base)] + LRC]
  }

  /** A recorded audio file: its last element ends in ".flac". */
  predicate IsFlac(path: Path)
  {
    path != [] && var base := path[|path| - 1]; |base| >= 5 && base[|base| - 5..] == FLAC
  }

  lemma FlacDot(base: Str)
    requires |base| >= 5 && base[|base| - 5..] == FLAC
    ensures LastDot(base) == |base| - 5
  {
    var n := |base| - 5;
    assert forall k | 0 <= k < 5 :: base[n + k] == base[n..][k];
    assert base[n] == FLAC[0] && base[n + 1] == FLAC[1] && base[n + 2] == FLAC[2]
      && base[n + 3] == FLAC[3] && base[n + 4] == FLAC[4];
  }

  /** The sidecar of an audio file sits beside it and is never an audio file. */
  lemma SidecarBeside(path: Path)
    requires IsFlac(path)
    ensures |LrcSidecar(path)| == |path| && LrcSidecar(path)[..|path| - 1] == path[..|path| - 1]
    ensures !IsFlac(LrcSidecar(path))
    ensures Clean(path) ==> Clean(LrcSidecar(path))
  {
    var base := path[|path| - 1];
    FlacDot(base);
    SidecarName(base);
  }

  lemma SidecarName(base: Str)
    requires |base| >= 5 && base[|base| - 5..] == FLAC
    ensures var side := base[..|base| - 5] + LRC;
      && (|side| >= 5 ==> side[|side| - 5..] != FLAC)
      && (Name(base) ==> Name(side))
  {
    var side := base[..|base| - 5] + LRC;
    assert side[|side| - 2] == LRC[2] == 114;
    assert FLAC[3] == 97;
    assert |side| >= 5 ==> side[|side| - 5..][3] == side[|side| - 2];
    assert SLASH !in LRC;
    assert forall b | b in base[..|base| - 5] :: b in base;
  }

  /** Different audio files have different sidecars. */
  lemma SidecarInjective(a: Path, b: Path)
    requires IsFlac(a) && IsFlac(b) && LrcSidecar(a) == LrcSidecar(b)
    ensures a == b
  {
    hide LastDot, Clean, Name;
    var x, y := a[|a| - 1], b[|b| - 1];
    FlacDot(x);
    FlacDot(y);
    SidecarBeside(a);
    SidecarBeside(b);
    var sx, sy := x[..|x| - 5], y[..|y| - 5];
    assert sx + LRC == sy + LRC;
    assert sx == (sx + LRC)[..|sx|] && sy == (sy + LRC)[..|sy|];
    assert x == sx + FLAC && y == sy + FLAC;
    assert a == a[..|a| - 1] + [x] && b == b[..|b| - 1] + [y];
  }

  /** A parent reference takes the name before it away, and does nothing at the root. */
  lemma {:induction false} ParentsCancel(root: Path, name: Str, rest: seq<Str>)
    requires Clean(root) && Name(name)
    ensures CleanFrom(root, [name, DOTDOT] + rest) == CleanFrom(root, rest)
    ensures CleanFrom([], [DOTDOT] + rest) == CleanFrom([], rest)
  {
    var raw := [name, DOTDOT] + rest;
    assert raw[1..] == [DOTDOT] + rest && ([DOTDOT] + rest)[1..] == rest;
    assert CleanFrom(root, raw) == CleanFrom(root + [name], [DOTDOT] + rest);
    assert (root + [name])[..|root|] == root;
    assert DOTDOT[0] == DOT && |DOTDOT| == 2;
  }
}
