/**
 internal/namer: rendering a compiled template to a relative path, and the proof
 that every rendered path is one the remover's sandbox accepts.
 */
module Render {
  import opened Wrappers
  import opened Text
  import opened Utf8
  import opened Sanitizer
  import opened Template
  import opened Paths

  datatype RenderError = EmptyTemplate

  type Nfc = seq<Rune> -> seq<Rune>

  /** The sanitized non-empty segments, by the substitution they mean. */
  function Components(segs: seq<Str>, m: TrackMeta, nfc: Nfc): seq<Str>
  {
    if segs == [] then []
    else
      var text := Substitute(segs[0], m);
      (if text == [] then [] else [Sanitize(text, nfc)]) + Components(segs[1..], m, nfc)
  }

  function DiscDir(disc: int, nfc: Nfc): Str { Sanitize(Ascii("Disc ") + Itoa(disc), nfc) }

  /** Where a rendered track belongs, said without reference to compiled parts. */
  function RenderMeaning(tmpl: Str, m: TrackMeta, nfc: Nfc): Result<Str, RenderError>
  {
    var comps := Components(Split(tmpl, SLASH), m, nfc);
    if comps == [] then Err(EmptyTemplate)
    else if m.discCount > 1 then
      var last := |comps| - 1;
      Ok(Join(comps[..last] + [DiscDir(m.disc, nfc)] + [comps[last]], SLASH))
    else Ok(Join(comps, SLASH))
  }

  /** segments is what Compile produces for tmpl. */
  ghost predicate Compiled(tmpl: Str, segments: seq<seq<Part>>)
  {
    var raw := Split(tmpl, SLASH);
    && |segments| == |raw|
    && forall i | 0 <= i < |raw| :: segments[i] == Scan(raw[i], [])
  }

  method Compile(tmpl: Str) returns (segments: seq<seq<Part>>)
    ensures Compiled(tmpl, segments)
    ensures forall i | 0 <= i < |segments| ::
              PrintParts(segments[i]) == Split(tmpl, SLASH)[i] && Normal(segments[i])
  {
    hide Scan, Split, PrintParts, Normal, Substitute;
    var raw := Split(tmpl, SLASH);
    segments := [];
    for i := 0 to |raw|
      invariant |segments| == i
      invariant forall k | 0 <= k < i ::
        segments[k] == Scan(raw[k], []) && PrintParts(segments[k]) == raw[k] && Normal(segments[k])
    {
      var parts := CompileSegment(raw[i]);
      segments := segments + [parts];
    }
  }

  method InsertDiscDir(components: seq<Str>, disc: int, nfc: Nfc) returns (result: seq<Str>)
    requires components != []
    ensures var last := |components| - 1;
      result == components[..last] + [DiscDir(disc, nfc)] + [components[last]]
  {
    hide DiscDir;
    var last := |components| - 1;
    result := [];
    result := result + components[..last];
    assert result == components[..last];
    result := result + [DiscDir(disc, nfc)];
    result := result + [components[last]];
  }

  lemma ComponentsEnds(raw: seq<Str>, m: TrackMeta, nfc: Nfc)
    ensures [] + Components(raw[0..], m, nfc) == Components(raw, m, nfc) && Components(raw[|raw|..], m, nfc) == []
  {
    assert raw[0..] == raw && raw[|raw|..] == [];
    assert [] + Components(raw, m, nfc) == Components(raw, m, nfc);
  }

  /** One more segment: nothing if it expands to nothing, else its sanitized text. */
  lemma ComponentsStep(done: seq<Str>, raw: seq<Str>, i: nat, m: TrackMeta, nfc: Nfc)
    requires i < |raw|
    ensures var text := Substitute(raw[i], m);
      done + Components(raw[i..], m, nfc) ==
        (if text == [] then done else done + [Sanitize(text, nfc)]) + Components(raw[i + 1..], m, nfc)
  {
    hide Substitute, Sanitize;
    assert raw[i..][1..] == raw[i + 1..];
    assert [] + Components(raw[i + 1..], m, nfc) == Components(raw[i + 1..], m, nfc);
  }

  /** Template.Render. */
  method RenderPath(ghost tmpl: Str, segments: seq<seq<Part>>, m: TrackMeta, nfc: Nfc)
    returns (res: Result<Str, RenderError>)
    requires Compiled(tmpl, segments)
    ensures res == RenderMeaning(tmpl, m, nfc)
  {
    hide Scan, Substitute, Split, Sanitize, Join, Values, DiscDir, Components;
    ghost var raw := Split(tmpl, SLASH);
    var components: seq<Str> := [];
    ComponentsEnds(raw, m, nfc);
    for i := 0 to |segments|
      invariant components + Components(raw[i..], m, nfc) == Components(raw, m, nfc)
    {
      var expanded := Expand(segments[i], m);
      ScanMeans(raw[i], [], m);
      NilLeft(Substitute(raw[i], m));
      ComponentsStep(components, raw, i, m, nfc);
      if expanded == [] {
        continue;
      }
      components := components + [Sanitize(expanded, nfc)];
    }
    assert components + [] == components;
    if |components| == 0 {
      return Err(EmptyTemplate);
    }
    if m.discCount > 1 {
      components := InsertDiscDir(components, m.disc, nfc);
    }
    return Ok(Join(components, SLASH));
  }

  // ----- Every rendered path is removable and sandboxed -----

  lemma {:induction false} ComponentsSafe(segs: seq<Str>, m: TrackMeta, nfc: Nfc)
    requires NfcSafe(nfc)
    ensures forall i | 0 <= i < |Components(segs, m, nfc)| ::
              SafeComponent(Components(segs, m, nfc)[i]) && Name(Components(segs, m, nfc)[i])
    decreases |segs|
  {
    if segs != [] {
      ComponentsSafe(segs[1..], m, nfc);
      SanitizeIsSafe(Substitute(segs[0], m), nfc);
    }
  }

  lemma SafeIsName(c: Str)
    requires SafeComponent(c)
    ensures Name(c)
  {
  }

  lemma NamesBelowRoot(root: Path, comps: seq<Str>)
    requires Clean(root) && comps != [] && forall i | 0 <= i < |comps| :: Name(comps[i])
    ensures Split(Join(comps, SLASH), SLASH) == comps
    ensures JoinPath(root, Join(comps, SLASH)) == root + comps && Clean(root + comps)
    ensures WithinMusic(root, root + comps) && root + comps != root
  {
    hide Split, Join, JoinPath, WithinMusic;
    forall c | c in comps ensures SLASH !in c {
      var i :| 0 <= i < |comps| && comps[i] == c;
      assert Name(comps[i]);
    }
    SplitJoin(comps, SLASH);
    JoinNames(root, comps);
    WithinExactly(root, root + comps);
    assert |root + comps| > |root|;
  }

  /**
   For any template and metadata, a rendered path splits back into its
   components; each is one safe name; a multi-disc album adds exactly one of
   them, before the last; and joined to a clean root the path lies strictly
   inside it.
   */
  lemma RenderedPathIsSandboxed(tmpl: Str, m: TrackMeta, nfc: Nfc, root: Path)
    requires NfcSafe(nfc) && Clean(root)
    requires RenderMeaning(tmpl, m, nfc).Ok?
    ensures var rel := RenderMeaning(tmpl, m, nfc).value;
      var comps := Split(rel, SLASH);
      var plain := Components(Split(tmpl, SLASH), m, nfc);
      var dest := JoinPath(root, rel);
      && (forall i | 0 <= i < |comps| :: SafeComponent(comps[i]) && Name(comps[i]))
      && Join(comps, SLASH) == rel
      && (m.discCount <= 1 ==> comps == plain)
      && (m.discCount > 1 ==> |comps| == |plain| + 1 && comps[..|plain| - 1] == plain[..|plain| - 1]
                              && comps[|plain| - 1] == DiscDir(m.disc, nfc) && comps[|plain|] == plain[|plain| - 1])
      && dest == root + comps && Clean(dest)
      && WithinMusic(root, dest) && dest != root
  {
    hide Components, Substitute, Sanitize, Split, Join, JoinPath, WithinMusic, SafeComponent, Name;
    var plain := Components(Split(tmpl, SLASH), m, nfc);
    ComponentsSafe(Split(tmpl, SLASH), m, nfc);
    SanitizeIsSafe(Ascii("Disc ") + Itoa(m.disc), nfc);
    SafeIsName(DiscDir(m.disc, nfc));
    var comps := if m.discCount > 1
      then plain[..|plain| - 1] + [DiscDir(m.disc, nfc)] + [plain[|plain| - 1]]
      else plain;
    NamesBelowRoot(root, comps);
  }

  /** Rendering fails exactly when every segment of the template expands to nothing. */
  lemma {:induction false} EmptyExactly(segs: seq<Str>, m: TrackMeta, nfc: Nfc)
    ensures Components(segs, m, nfc) == [] <==>
              forall i | 0 <= i < |segs| :: Substitute(segs[i], m) == []
    decreases |segs|
  {
    hide Substitute, Sanitize;
    if segs != [] {
      EmptyExactly(segs[1..], m, nfc);
      var rest := segs[1..];
      assert forall i | 0 <= i < |rest| :: rest[i] == segs[i + 1];
      assert forall i | 1 <= i < |segs| :: segs[i] == rest[i - 1];
    }
  }
}
