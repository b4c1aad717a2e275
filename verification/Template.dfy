/**
 internal/namer/template.go: compiling a path template into literal and token
 parts, and expanding those parts. Its meaning is the one-pass substitution
 `Substitute`, which copies inserted values without ever scanning them.
 */
module Template {
  import opened Text

  const OPEN: Byte := 123
  const CLOSE: Byte := 125

  datatype TokenID =
    | NoToken | AlbumArtist | Artist | Album | Title | Track | Disc | Year | Ext | ISRC

  datatype TrackMeta = TrackMeta(
    albumArtist: Str, artist: Str, album: Str, title: Str, track: int,
    disc: int, year: Str, ext: Str, isrc: Str, discCount: int)

  /** A literal run of text, or one token substituted at render time. */
  datatype Part = Literal(text: Str) | Token(id: TokenID)

  // ----- Token names -----

  /** The name between the braces of a known token. */
  function TokenName(id: TokenID): Str
  {
    match id
    case NoToken => []
    case AlbumArtist => Ascii("albumartist")
    case Artist => Ascii("artist")
    case Album => Ascii("album")
    case Title => Ascii("title")
    case Track => Ascii("track")
    case Disc => Ascii("disc")
    case Year => Ascii("year")
    case Ext => Ascii("ext")
    case ISRC => Ascii("isrc")
  }

  function TokenText(id: TokenID): Str { [OPEN] + TokenName(id) + [CLOSE] }

  function TokenIDOf(token: Str): TokenID
  {
    if token == TokenText(AlbumArtist) then AlbumArtist
    else if token == TokenText(Artist) then Artist
    else if token == TokenText(Album) then Album
    else if token == TokenText(Title) then Title
    else if token == TokenText(Track) then Track
    else if token == TokenText(Disc) then Disc
    else if token == TokenText(Year) then Year
    else if token == TokenText(Ext) then Ext
    else if token == TokenText(ISRC) then ISRC
    else NoToken
  }

  /** What a "{token}" at the front of s is, and how many bytes it takes. */
  function TokenIDAt(s: Str): (t: (TokenID, nat))
    ensures t.0 != NoToken ==> t.1 > 0
    ensures t.1 <= |s|
  {
    var end := IndexByte(s, CLOSE);
    if end < 0 then (NoToken, 0)
    else if TokenIDOf(s[..end + 1]) == NoToken then (NoToken, 0)
    else (TokenIDOf(s[..end + 1]), end + 1)
  }

  /** Whether raw opens with a known token. */
  predicate TokenHere(raw: Str) { raw != [] && raw[0] == OPEN && TokenIDAt(raw).0 != NoToken }

  /** TokenIDOf inverts TokenText: the nine names are distinct. */
  lemma TokenTextKnown(id: TokenID)
    requires id != NoToken
    ensures TokenIDOf(TokenText(id)) == id
  {
    var n := TokenName(id);
    assert TokenText(id)[1..|n| + 1] == n;
    forall other: TokenID | other != NoToken && TokenText(other) == TokenText(id)
      ensures other == id
    {
      assert TokenText(other)[1..|n| + 1] == TokenName(other);
      NamesDistinct(other, id);
    }
  }

  lemma NamesDistinct(a: TokenID, b: TokenID)
    requires TokenName(a) == TokenName(b)
    ensures a == b
  {
    var x, y := TokenName(a), TokenName(b);
    assert |x| == |y|;
    assert |x| > 2 ==> x[0] == y[0] && x[1] == y[1];
  }

  lemma TokenIDOfText(token: Str)
    ensures TokenIDOf(token) != NoToken ==> token == TokenText(TokenIDOf(token))
  {
  }

  /** Known names hold no brace and no slash, so a token never spans segments. */
  lemma NamesAreWords(id: TokenID)
    ensures forall i | 0 <= i < |TokenName(id)| :: 97 <= TokenName(id)[i] <= 122
    ensures id != NoToken ==> TokenName(id) != []
  {
  }

  // ----- Values -----

  function PadTrack(n: int): Str
  {
    var s := Itoa(n);
    if |s| < 2 then [48] + s else s
  }

  function TokenValue(id: TokenID, m: TrackMeta): Str
  {
    match id
    case AlbumArtist => m.albumArtist
    case Artist => m.artist
    case Album => m.album
    case Title => m.title
    case Track => PadTrack(m.track)
    case Disc => Itoa(m.disc)
    case Year => m.year
    case Ext => m.ext
    case ISRC => m.isrc
    case NoToken => []
  }

  function Value(p: Part, m: TrackMeta): Str
  {
    match p
    case Literal(text) => text
    case Token(id) => TokenValue(id, m)
  }

  function Values(parts: seq<Part>, m: TrackMeta): Str
  {
    if parts == [] then [] else Value(parts[0], m) + Values(parts[1..], m)
  }

  /** The template text a list of parts stands for. */
  function PrintParts(parts: seq<Part>): Str
  {
    if parts == [] then []
    else
      (match parts[0] case Literal(text) => text case Token(id) => TokenText(id)) + PrintParts(parts[1..])
  }

  // ----- Meaning -----

  /** One pass from left to right: known tokens become values, all else is copied. */
  function Substitute(raw: Str, m: TrackMeta): Str
    decreases |raw|
  {
    if raw == [] then []
    else if TokenHere(raw) then
      TokenValue(TokenIDAt(raw).0, m) + Substitute(raw[TokenIDAt(raw).1..], m)
    else [raw[0]] + Substitute(raw[1..], m)
  }

  function Flush(lit: Str): seq<Part> { if lit == [] then [] else [Literal(lit)] }

  /** The parts of raw when the literal run lit is already pending. */
  function Scan(raw: Str, lit: Str): seq<Part>
    decreases |raw|
  {
    if raw == [] then Flush(lit)
    else if TokenHere(raw) then
      Flush(lit) + [Token(TokenIDAt(raw).0)] + Scan(raw[TokenIDAt(raw).1..], [])
    else Scan(raw[1..], lit + [raw[0]])
  }

  /** No empty literal, no two adjacent literals, no placeholder token. */
  predicate Normal(parts: seq<Part>)
  {
    && (forall i | 0 <= i < |parts| ::
          match parts[i] case Literal(text) => text != [] case Token(id) => id != NoToken)
    && forall i | 0 <= i < |parts| - 1 :: parts[i].Literal? ==> parts[i + 1].Token?
  }

  // ----- Compilation preserves meaning -----

  lemma {:induction false} ValuesAppend(a: seq<Part>, b: seq<Part>, m: TrackMeta)
    ensures Values(a + b, m) == Values(a, m) + Values(b, m)
    decreases |a|
  {
    if a == [] {
      assert a + b == b;
    } else {
      assert (a + b)[0] == a[0] && (a + b)[1..] == a[1..] + b;
      ValuesAppend(a[1..], b, m);
    }
  }

  lemma FlushValues(lit: Str, m: TrackMeta)
    ensures Values(Flush(lit), m) == lit
    ensures PrintParts(Flush(lit)) == lit
  {
  }

  lemma {:induction false} PrintAppend(a: seq<Part>, b: seq<Part>)
    ensures PrintParts(a + b) == PrintParts(a) + PrintParts(b)
    decreases |a|
  {
    if a == [] {
      assert a + b == b;
    } else {
      assert (a + b)[0] == a[0] && (a + b)[1..] == a[1..] + b;
      PrintAppend(a[1..], b);
    }
  }

  lemma ConsValues(lit: Str, id: TokenID, rest: seq<Part>, m: TrackMeta)
    ensures Values(Flush(lit) + [Token(id)] + rest, m) == lit + TokenValue(id, m) + Values(rest, m)
    ensures PrintParts(Flush(lit) + [Token(id)] + rest) == lit + TokenText(id) + PrintParts(rest)
  {
    hide TokenText, TokenValue, Values, PrintParts, Flush;
    FlushValues(lit, m);
    OneToken(id, m);
    ValuesAppend(Flush(lit) + [Token(id)], rest, m);
    ValuesAppend(Flush(lit), [Token(id)], m);
    PrintAppend(Flush(lit) + [Token(id)], rest);
    PrintAppend(Flush(lit), [Token(id)]);
  }

  lemma OneToken(id: TokenID, m: TrackMeta)
    ensures Values([Token(id)], m) == TokenValue(id, m) && PrintParts([Token(id)]) == TokenText(id)
  {
    hide TokenText, TokenValue;
    assert Values([], m) == [] && PrintParts([]) == [];
    assert [Token(id)][1..] == [];
  }

  lemma StepToken(raw: Str, lit: Str, m: TrackMeta)
    requires TokenHere(raw)
    ensures var (id, width) := TokenIDAt(raw);
      && Scan(raw, lit) == Flush(lit) + [Token(id)] + Scan(raw[width..], [])
      && Substitute(raw, m) == TokenValue(id, m) + Substitute(raw[width..], m)
  {
    hide TokenIDAt, TokenValue;
  }

  /** A known token at the front is replaced by its value. */
  lemma TokenFirst(id: TokenID, rest: Str, m: TrackMeta)
    requires id != NoToken
    ensures Substitute(TokenText(id) + rest, m) == TokenValue(id, m) + Substitute(rest, m)
  {
    hide TokenName, TokenValue;
    var raw, n := TokenText(id) + rest, |TokenText(id)|;
    NamesAreWords(id);
    assert forall k | 1 <= k < n - 1 :: raw[k] == TokenName(id)[k - 1];
    IndexByteIs(raw, CLOSE, n - 1);
    assert raw[..n] == TokenText(id) && raw[n..] == rest;
    TokenTextKnown(id);
    StepToken(raw, [], m);
  }

  lemma StepByte(raw: Str, lit: Str, m: TrackMeta)
    requires raw != [] && !TokenHere(raw)
    ensures Scan(raw, lit) == Scan(raw[1..], lit + [raw[0]])
    ensures lit + Substitute(raw, m) == lit + [raw[0]] + Substitute(raw[1..], m)
  {
    hide TokenIDAt;
  }

  lemma StepEnd(lit: Str, m: TrackMeta)
    ensures Values(Scan([], lit), m) == lit + Substitute([], m)
    ensures PrintParts(Scan([], lit)) == lit
  {
    FlushValues(lit, m);
  }

  lemma {:induction false} ScanMeans(raw: Str, lit: Str, m: TrackMeta)
    ensures Values(Scan(raw, lit), m) == lit + Substitute(raw, m)
    decreases |raw|
  {
    hide Scan, Substitute, Values, Flush, TokenIDAt, TokenValue;
    if raw == [] {
      StepEnd(lit, m);
    } else if TokenHere(raw) {
      var (id, width) := TokenIDAt(raw);
      var tail := raw[width..];
      StepToken(raw, lit, m);
      ScanMeans(tail, [], m);
      ConsValues(lit, id, Scan(tail, []), m);
      NilLeft(Substitute(tail, m));
      Assoc(lit, TokenValue(id, m), Substitute(tail, m));
    } else {
      StepByte(raw, lit, m);
      ScanMeans(raw[1..], lit + [raw[0]], m);
    }
  }

  lemma {:induction false} ScanPrints(raw: Str, lit: Str, m: TrackMeta)
    ensures PrintParts(Scan(raw, lit)) == lit + raw
    decreases |raw|
  {
    hide Scan, PrintParts, Flush, TokenIDOf, TokenText;
    if raw == [] {
      StepEnd(lit, m);
      assert lit + raw == lit;
    } else if TokenHere(raw) {
      var (id, width) := TokenIDAt(raw);
      var token, tail := raw[..width], raw[width..];
      StepToken(raw, lit, m);
      TokenIDOfText(token);
      ScanPrints(tail, [], m);
      ConsValues(lit, id, Scan(tail, []), m);
      assert lit + token + ([] + tail) == lit + raw;
    } else {
      StepByte(raw, lit, m);
      ScanPrints(raw[1..], lit + [raw[0]], m);
      assert lit + [raw[0]] + raw[1..] == lit + raw;
    }
  }

  /** Putting a token, and perhaps a literal before it, in front of normal parts. */
  lemma NormalCons(lit: Str, id: TokenID, rest: seq<Part>)
    requires id != NoToken && Normal(rest)
    ensures Normal(Flush(lit) + [Token(id)] + rest)
  {
    var parts := Flush(lit) + [Token(id)] + rest;
    var n := |Flush(lit)| + 1;
    assert forall i | n <= i < |parts| :: parts[i] == rest[i - n];
  }

  lemma {:induction false} ScanNormal(raw: Str, lit: Str)
    ensures Normal(Scan(raw, lit))
    decreases |raw|
  {
    hide TokenIDAt, Normal;
    if raw == [] {
      FlushNormal(lit);
    } else if TokenHere(raw) {
      var (id, width) := TokenIDAt(raw);
      ScanNormal(raw[width..], []);
      NormalCons(lit, id, Scan(raw[width..], []));
    } else {
      ScanNormal(raw[1..], lit + [raw[0]]);
    }
  }

  lemma FlushNormal(lit: Str)
    ensures Normal(Flush(lit))
  {
  }

  /**
   compileSegment. The parts mean the one-pass substitution, print back as the
   raw segment, and are in normal form.
   */
  method CompileSegment(raw: Str) returns (parts: seq<Part>)
    ensures parts == Scan(raw, [])
    ensures forall m :: Values(parts, m) == Substitute(raw, m)
    ensures PrintParts(parts) == raw
    ensures Normal(parts)
  {
    hide TokenIDAt, TokenText, Normal, PrintParts, Values, Substitute;
    parts := [];
    var lit: Str := [];
    var i := 0;
    while i < |raw|
      invariant 0 <= i <= |raw|
      invariant parts + Scan(raw[i..], lit) == Scan(raw, [])
      decreases |raw| - i
    {
      assert raw[i..][1..] == raw[i + 1..];
      if raw[i] != OPEN {
        lit := lit + [raw[i]];
        i := i + 1;
        continue;
      }
      var (id, width) := TokenIDAt(raw[i..]);
      if id == NoToken {
        lit := lit + [OPEN];
        i := i + 1;
        continue;
      }
      assert raw[i..][width..] == raw[i + width..];
      assert parts + (Flush(lit) + [Token(id)] + Scan(raw[i + width..], []))
        == (parts + Flush(lit) + [Token(id)]) + Scan(raw[i + width..], []);
      if |lit| > 0 {
        parts := parts + [Literal(lit)];
        lit := [];
      }
      parts := parts + [Token(id)];
      i := i + width;
    }
    assert raw[i..] == [];
    if |lit| > 0 {
      parts := parts + [Literal(lit)];
    }
    assert parts == Scan(raw, []);
    forall m: TrackMeta ensures Values(parts, m) == Substitute(raw, m) {
      ScanMeans(raw, [], m);
      NilLeft(Substitute(raw, m));
    }
    ScanPrints(raw, [], TrackMeta([], [], [], [], 0, 0, [], [], [], 0));
    assert [] + raw == raw;
    ScanNormal(raw, []);
  }

  /** segment.expand, including its one-part shortcut. */
  method Expand(parts: seq<Part>, m: TrackMeta) returns (r: Str)
    ensures r == Values(parts, m)
  {
    if |parts| == 0 {
      return [];
    }
    if |parts| == 1 {
      return Value(parts[0], m);
    }
    r := [];
    for i := 0 to |parts|
      invariant r == Values(parts[..i], m)
    {
      r := r + Value(parts[i], m);
      assert parts[..i + 1] == parts[..i] + [parts[i]];
      ValuesAppend(parts[..i], [parts[i]], m);
      assert Values([parts[i]], m) == Value(parts[i], m) + Values([], m);
    }
    assert parts[..|parts|] == parts;
  }

  // ----- The tokens, spelled out -----

  /** What each of the nine tokens renders to; a track number is padded to two digits. */
  lemma TokensRender(m: TrackMeta)
    ensures Substitute(TokenText(AlbumArtist), m) == m.albumArtist
    ensures Substitute(TokenText(Artist), m) == m.artist
    ensures Substitute(TokenText(Album), m) == m.album
    ensures Substitute(TokenText(Title), m) == m.title
    ensures Substitute(TokenText(Track), m) == if 0 <= m.track < 10 then [48, 48 + m.track] else Itoa(m.track)
    ensures Substitute(TokenText(Disc), m) == Itoa(m.disc)
    ensures Substitute(TokenText(Year), m) == m.year
    ensures Substitute(TokenText(Ext), m) == m.ext
    ensures Substitute(TokenText(ISRC), m) == m.isrc
  {
    hide Substitute, TokenText, TokenValue, Itoa;
    forall id | id != NoToken ensures Substitute(TokenText(id), m) == TokenValue(id, m) {
      TokenAlone(id, m);
    }
    TokenValues(m);
  }

  lemma TokenAlone(id: TokenID, m: TrackMeta)
    requires id != NoToken
    ensures Substitute(TokenText(id), m) == TokenValue(id, m)
  {
    hide TokenText, TokenValue;
    TokenFirst(id, [], m);
    assert TokenText(id) + [] == TokenText(id) && Substitute([], m) == [];
    assert TokenValue(id, m) + [] == TokenValue(id, m);
  }

  /** The texts of the nine tokens. */
  lemma TokenTexts()
    ensures TokenText(AlbumArtist) == Ascii("{albumartist}") && TokenText(Artist) == Ascii("{artist}")
    ensures TokenText(Album) == Ascii("{album}") && TokenText(Title) == Ascii("{title}")
    ensures TokenText(Track) == Ascii("{track}") && TokenText(Disc) == Ascii("{disc}")
    ensures TokenText(Year) == Ascii("{year}") && TokenText(Ext) == Ascii("{ext}")
    ensures TokenText(ISRC) == Ascii("{isrc}")
  {
  }

  lemma TokenValues(m: TrackMeta)
    ensures TokenValue(AlbumArtist, m) == m.albumArtist && TokenValue(Artist, m) == m.artist
    ensures TokenValue(Album, m) == m.album && TokenValue(Title, m) == m.title
    ensures TokenValue(Track, m) == if 0 <= m.track < 10 then [48, 48 + m.track] else Itoa(m.track)
    ensures TokenValue(Disc, m) == Itoa(m.disc) && TokenValue(Year, m) == m.year
    ensures TokenValue(Ext, m) == m.ext && TokenValue(ISRC, m) == m.isrc
  {
    OneDigit(m.track);
  }

  lemma OneDigit(n: int)
    ensures |Itoa(n)| < 2 <==> 0 <= n < 10
    ensures 0 <= n < 10 ==> Itoa(n) == [48 + n]
  {
    assert n >= 10 ==> |Digits(n / 10)| >= 1;
  }
}
