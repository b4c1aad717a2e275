/**
 When the paths the engine records are ones that removal treats well: outside the trash
 folder, and .flac files, so that sidecars never collide (internal/sync/process.go,
 downloadOne; internal/sync/removal.go). Templates and metadata can break both.
 */
module Records {
  import opened Text
  import opened Utf8
  import opened Sanitizer
  import opened Template
  import opened Render
  import opened Paths
  import opened Removal

  predicate Ends(s: Str, suffix: Str) { |s| >= |suffix| && s[|s| - |suffix|..] == suffix }

  /** s is name and then only dots and spaces. */
  predicate NameAndPadding(s: Str, name: Str) { name <= s && forall j | |name| <= j < |s| :: Trailing(s[j]) }

  /** Which components come out as a given name that needs no trimming and is not the placeholder. */
  lemma SanitizesTo(c: Str, nfc: Nfc, name: Str)
    requires name != [] && name != [UNDERSCORE] && !Trailing(name[|name| - 1])
    ensures Sanitize(c, nfc) == name <==> NameAndPadding(Truncate(Prepare(c, nfc), MAX_COMPONENT_BYTES), name)
  {
    hide Prepare, CutPoint, Truncate, TrimRight;
    var t := Truncate(Prepare(c, nfc), MAX_COMPONENT_BYTES);
    if NameAndPadding(t, name) {
      TrimIs(t, |name|);
    }
  }

  /** The text of a component before reserved names are looked for. */
  function Folded(c: Str, nfc: Nfc): Str { TrimRight(EncodeAll(nfc(MapRunes(DecodeAll(c))))) }

  /** A reserved-name suffix goes before the extension. */
  lemma SuffixKeepsExtension(name: Str)
    ensures Ends(SuffixIfReserved(name), FLAC) <==> Ends(name, FLAC)
  {
    hide Reserved;
    assert FLAC[0] == DOT;
    var n, p := |Stem(name)|, SuffixIfReserved(name);
    if Reserved(name) {
      assert p[n + 1..] == name[n..];
      assert forall i | 0 <= i <= n :: p[i] != DOT;
      assert forall i | 0 <= i < n :: name[i] == Stem(name)[i] != DOT;
      if |name| - n >= 5 {
        assert p[|p| - 5..] == name[|name| - 5..];
      }
      if Ends(name, FLAC) {
        assert name[|name| - 5] == FLAC[0];
      }
      if Ends(p, FLAC) {
        assert p[|p| - 5] == FLAC[0];
      }
    }
  }

  /** Unless it is over-long, a component keeps a .flac ending, and gains none. */
  lemma KeepsExtension(c: Str, nfc: Nfc)
    requires |Prepare(c, nfc)| <= MAX_COMPONENT_BYTES
    ensures Ends(Sanitize(c, nfc), FLAC) <==> Ends(Folded(c, nfc), FLAC)
  {
    hide CutPoint, TrimRight, SuffixIfReserved, MapRunes, EncodeAll, DecodeAll;
    SuffixKeepsExtension(Folded(c, nfc));
    PrepareTrimmed(c, nfc);
    ShortKeeps(Prepare(c, nfc));
  }

  /** A long enough name without dots loses its extension: 251 letters and ".flac". */
  lemma LongNameLosesExtension(s: Str, nfc: Nfc)
    requires KeepsAscii(nfc)
    requires |s| > MAX_COMPONENT_BYTES && Ends(s, FLAC)
    requires forall i | 0 <= i < |s| :: s[i] < 0x80 && Legal(s[i]) && (i < |s| - 5 ==> s[i] != DOT)
    ensures !Ends(Sanitize(s, nfc), FLAC)
  {
    hide Prepare, TrimRight, Reserved, Truncate;
    var n := |s| - 5;
    assert s[n..][0] == FLAC[0] && s[n..][4] == FLAC[4];
    assert !Reserved(s) by { LateDot(s, n); }
    PlainName(s, nfc);
    FlacDotAt(TrimRight(Truncate(s, MAX_COMPONENT_BYTES)));
  }

  lemma FlacDotAt(s: Str)
    ensures Ends(s, FLAC) ==> s[|s| - 5] == DOT
  {
    if Ends(s, FLAC) {
      assert s[|s| - 5] == s[|s| - 5..][0] == FLAC[0];
    }
  }

  lemma LateDot(s: Str, n: nat)
    requires MAX_RESERVED_LEN < n < |s| && s[n] == DOT && DOT !in s[..n]
    ensures !Reserved(s)
  {
    StemIs(s, n);
  }

  /** ".trash" is a component like any other. */
  lemma TrashIsKept(nfc: Nfc)
    requires KeepsAscii(nfc)
    ensures Sanitize(TRASH, nfc) == TRASH
  {
    hide TrimRight, CutPoint, Prepare;
    assert Stem(TRASH) == [] by { StemIs(TRASH, 0); }
    PlainName(TRASH, nfc);
    ShortKeeps(TRASH);
  }

  // ----- From templates and metadata to recorded paths -----

  /** The texts that become components: what the segments expand to, but for empty ones. */
  function Texts(segs: seq<Str>, m: TrackMeta): seq<Str>
  {
    if segs == [] then []
    else
      var text := Substitute(segs[0], m);
      (if text == [] then [] else [text]) + Texts(segs[1..], m)
  }

  lemma {:induction false} ComponentsOfTexts(segs: seq<Str>, m: TrackMeta, nfc: Nfc)
    ensures var comps, texts := Components(segs, m, nfc), Texts(segs, m);
      |comps| == |texts| && forall i | 0 <= i < |texts| :: comps[i] == Sanitize(texts[i], nfc)
  {
    hide Substitute, Sanitize;
    if segs != [] {
      ComponentsOfTexts(segs[1..], m, nfc);
    }
  }

  lemma {:induction false} TextsAppend(a: seq<Str>, b: seq<Str>, m: TrackMeta)
    ensures Texts(a + b, m) == Texts(a, m) + Texts(b, m)
  {
    hide Substitute;
    if a == [] {
      assert a + b == b;
    } else {
      assert (a + b)[1..] == a[1..] + b;
      TextsAppend(a[1..], b, m);
    }
  }

  function TemplateTexts(tmpl: Str, m: TrackMeta): seq<Str> { Texts(Split(tmpl, SLASH), m) }

  function DiscText(m: TrackMeta): Str { Ascii("Disc ") + Itoa(m.disc) }

  /** What the topmost name of a path is made from: of a lone file on a multi-disc album, its disc directory. */
  function TopText(tmpl: Str, m: TrackMeta): Str
    requires TemplateTexts(tmpl, m) != []
  {
    if m.discCount > 1 && |TemplateTexts(tmpl, m)| == 1 then DiscText(m) else TemplateTexts(tmpl, m)[0]
  }

  function FileText(tmpl: Str, m: TrackMeta): Str
    requires TemplateTexts(tmpl, m) != []
  {
    TemplateTexts(tmpl, m)[|TemplateTexts(tmpl, m)| - 1]
  }

  /** The text comes out as ".trash". */
  predicate MakesTrash(text: Str, nfc: Nfc) { NameAndPadding(Truncate(Prepare(text, nfc), MAX_COMPONENT_BYTES), TRASH) }

  /** The text comes out as a .flac name. */
  predicate MakesFlac(text: Str, nfc: Nfc) { Ends(TrimRight(Truncate(Prepare(text, nfc), MAX_COMPONENT_BYTES)), FLAC) }

  lemma RenderedEnds(tmpl: Str, m: TrackMeta, nfc: Nfc)
    requires NfcSafe(nfc)
    ensures RenderMeaning(tmpl, m, nfc).Ok? <==> TemplateTexts(tmpl, m) != []
    ensures RenderMeaning(tmpl, m, nfc).Ok? ==>
      var comps := Split(RenderMeaning(tmpl, m, nfc).value, SLASH);
      && comps != [] && comps[0] == Sanitize(TopText(tmpl, m), nfc)
      && comps[|comps| - 1] == Sanitize(FileText(tmpl, m), nfc)
  {
    hide Split, Join, Sanitize, Components, Texts, JoinPath, WithinMusic, SafeComponent, Name;
    ComponentsOfTexts(Split(tmpl, SLASH), m, nfc);
    if RenderMeaning(tmpl, m, nfc).Ok? {
      RenderedPathIsSandboxed(tmpl, m, nfc, []);
    }
  }

  lemma BelowRoot(root: Path, comps: seq<Str>)
    requires comps != []
    ensures Trashable(root, root + comps) <==> comps[0] != TRASH
    ensures IsFlac(root + comps) <==> Ends(comps[|comps| - 1], FLAC)
  {
    hide UnderTrash;
    UnderTrashByName(root, root + comps);
  }

  lemma TopName(text: Str, nfc: Nfc)
    ensures Sanitize(text, nfc) == TRASH <==> MakesTrash(text, nfc)
  {
    SanitizesTo(text, nfc, TRASH);
  }

  lemma FileName(text: Str, nfc: Nfc)
    ensures Ends(Sanitize(text, nfc), FLAC) <==> MakesFlac(text, nfc)
    ensures |Prepare(text, nfc)| <= MAX_COMPONENT_BYTES ==> (MakesFlac(text, nfc) <==> Ends(Folded(text, nfc), FLAC))
  {
    hide Prepare, TrimRight, Truncate, Folded;
    if |Prepare(text, nfc)| <= MAX_COMPONENT_BYTES {
      KeepsExtension(text, nfc);
    }
  }

  /** A disc directory is never the trash folder. */
  lemma DiscIsNotTrash(m: TrackMeta, nfc: Nfc)
    requires KeepsAscii(nfc)
    ensures !MakesTrash(DiscText(m), nfc)
  {
    hide Prepare, Truncate, Digits, Reserved;
    var s, head := DiscText(m), Ascii("Disc ");
    assert forall b | b in Itoa(m.disc) :: b == 45 || 48 <= b <= 57;
    forall i | 0 <= i < |s| ensures s[i] < 0x80 && Legal(s[i]) && s[i] != DOT && (i == |s| - 1 ==> s[i] != SPACE) {
      assert if i < 5 then s[i] == head[i] else s[i] in Itoa(m.disc);
    }
    LongStem(s);
    PlainName(s, nfc);
    assert s[0] == head[0] == 68 && TRASH[0] == DOT;
  }

  /**
   What a template and metadata record. The destination lies outside the trash folder exactly
   when the text its topmost name is made from does not come out as ".trash", and is a .flac
   file exactly when the text of its file name comes out as one; a file name that is not
   over-long does when its folded text ends in ".flac". Only the first text that is not empty
   can lead into the trash folder: a disc directory never does.
   */
  lemma RecordExactly(tmpl: Str, m: TrackMeta, nfc: Nfc, root: Path)
    requires NfcSafe(nfc) && Clean(root) && RenderMeaning(tmpl, m, nfc).Ok?
    ensures TemplateTexts(tmpl, m) != []
    ensures var dest, file := JoinPath(root, RenderMeaning(tmpl, m, nfc).value), FileText(tmpl, m);
      && (Trashable(root, dest) <==> !MakesTrash(TopText(tmpl, m), nfc))
      && (IsFlac(dest) <==> MakesFlac(file, nfc))
      && (|Prepare(file, nfc)| <= MAX_COMPONENT_BYTES ==> (IsFlac(dest) <==> Ends(Folded(file, nfc), FLAC)))
    ensures KeepsAscii(nfc) && m.discCount > 1 && |TemplateTexts(tmpl, m)| == 1 ==>
      Trashable(root, JoinPath(root, RenderMeaning(tmpl, m, nfc).value))
  {
    hide RenderMeaning, Split, JoinPath, Trashable, Clean, Components, SafeComponent, Name, WithinMusic, Join, IsFlac;
    hide Ends, MakesTrash, MakesFlac, Sanitize, Prepare, Folded, DiscText, KeepsAscii, NfcSafe, Texts;
    RenderedPathIsSandboxed(tmpl, m, nfc, root);
    RenderedEnds(tmpl, m, nfc);
    BelowRoot(root, Split(RenderMeaning(tmpl, m, nfc).value, SLASH));
    TopName(TopText(tmpl, m), nfc);
    FileName(FileText(tmpl, m), nfc);
    if KeepsAscii(nfc) {
      DiscIsNotTrash(m, nfc);
    }
  }

  /**
   An album artist called ".trash" under a template that opens with "{albumartist}/", as the
   documented one does, is recorded inside the trash folder.
   */
  lemma TrashArtistIsRecordedInTrash(rest: Str, m: TrackMeta, nfc: Nfc, root: Path)
    requires NfcSafe(nfc) && KeepsAscii(nfc) && Clean(root) && m.albumArtist == TRASH
    requires m.discCount <= 1 || TemplateTexts(rest, m) != []
    ensures var tmpl := TokenText(AlbumArtist) + [SLASH] + rest;
      RenderMeaning(tmpl, m, nfc).Ok? && !Trashable(root, JoinPath(root, RenderMeaning(tmpl, m, nfc).value))
  {
    hide RenderMeaning, Split, JoinPath, Trashable, Clean, MakesTrash, Sanitize, NfcSafe, KeepsAscii, Substitute;
    hide TokenName;
    var token := TokenText(AlbumArtist);
    var tmpl := token + [SLASH] + rest;
    NamesAreWords(AlbumArtist);
    SplitNone(token, SLASH);
    SplitAppend(token, rest, SLASH);
    TextsAppend([token], Split(rest, SLASH), m);
    OneTokenText(AlbumArtist, m);
    assert Texts([token], m) == [TRASH];
    RenderedEnds(tmpl, m, nfc);
    RecordExactly(tmpl, m, nfc, root);
    TrashIsKept(nfc);
    TopName(TRASH, nfc);
  }

  lemma OneTokenText(id: TokenID, m: TrackMeta)
    requires id != NoToken
    ensures Substitute(TokenText(id), m) == TokenValue(id, m)
  {
    hide TokenText, TokenValue;
    TokenFirst(id, [], m);
    assert TokenText(id) + [] == TokenText(id) && Substitute([], m) == [];
    assert TokenValue(id, m) + [] == TokenValue(id, m);
  }

  /** "{title}.{ext}" */
  const FILE: Str := TokenText(Title) + ([DOT] + TokenText(Ext))

  lemma FileIsTitleAndExt(m: TrackMeta)
    ensures Substitute(FILE, m) == m.title + [DOT] + m.ext
  {
    hide TokenName, TokenIDAt;
    var tail := [DOT] + TokenText(Ext);
    TokenFirst(Title, tail, m);
    OneTokenText(Ext, m);
    assert tail[1..] == TokenText(Ext);
    StepByte(tail, [], m);
    NilLeft(Substitute(tail, m));
    NilLeft([DOT] + Substitute(tail[1..], m));
  }

  /**
   Under a template that ends in "/{title}.{ext}", a title of more than 250 letters without
   dots is recorded as a file that is no .flac file.
   */
  lemma LongTitleIsNoFlac(dirs: Str, m: TrackMeta, nfc: Nfc, root: Path)
    requires NfcSafe(nfc) && KeepsAscii(nfc) && Clean(root) && m.ext == Ascii("flac")
    requires |m.title| > 250 && forall i | 0 <= i < |m.title| :: m.title[i] < 0x80 && Legal(m.title[i])
    requires DOT !in m.title
    ensures var tmpl := dirs + [SLASH] + FILE;
      RenderMeaning(tmpl, m, nfc).Ok? && !IsFlac(JoinPath(root, RenderMeaning(tmpl, m, nfc).value))
  {
    hide RenderMeaning, Split, JoinPath, Clean, Sanitize, NfcSafe, KeepsAscii, Substitute, IsFlac, MakesFlac, TokenName;
    var tmpl, name := dirs + [SLASH] + FILE, m.title + [DOT] + m.ext;
    NamesAreWords(Title);
    NamesAreWords(Ext);
    SplitNone(FILE, SLASH);
    SplitAppend(dirs, FILE, SLASH);
    TextsAppend(Split(dirs, SLASH), [FILE], m);
    FileIsTitleAndExt(m);
    assert Texts([FILE], m) == [name];
    RenderedEnds(tmpl, m, nfc);
    RecordExactly(tmpl, m, nfc, root);
    TitleEnds(m, name);
    LongNameLosesExtension(name, nfc);
    FileName(name, nfc);
  }

  lemma TitleEnds(m: TrackMeta, name: Str)
    requires m.ext == Ascii("flac") && name == m.title + [DOT] + m.ext
    requires forall i | 0 <= i < |m.title| :: m.title[i] < 0x80 && Legal(m.title[i])
    requires DOT !in m.title
    ensures Ends(name, FLAC) && |name| == |m.title| + 5
    ensures forall i | 0 <= i < |name| :: name[i] < 0x80 && Legal(name[i]) && (i < |name| - 5 ==> name[i] != DOT)
  {
    hide Legal;
    var n := |m.title|;
    assert name[n..] == FLAC;
    FlacIsLegal();
    forall i | 0 <= i < |name| ensures name[i] < 0x80 && Legal(name[i]) && (i < |name| - 5 ==> name[i] != DOT) {
      assert name[i] == if i < n then m.title[i] else FLAC[i - n];
    }
  }

  lemma FlacIsLegal()
    ensures forall i | 0 <= i < |FLAC| :: FLAC[i] < 0x80 && Legal(FLAC[i])
  {
  }
}
