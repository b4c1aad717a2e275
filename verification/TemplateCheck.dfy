/**
 The path-template parser of internal/config/validate.go, written separately from
 the namer's compiler, and the proof that the two read the same placeholders.
 */
module TemplateCheck {
  import opened Wrappers
  import opened Text
  import opened Utf8
  import opened Template

  datatype ParseError =
    | NestedOpen(pos: nat)
    | UnmatchedClose(pos: nat)
    | EmptyPlaceholder(pos: nat)
    | Unterminated

  type Parsed = Result<seq<Str>, ParseError>

  function Prepend(names: seq<Str>, p: Parsed): Parsed
  {
    match p case Ok(more) => Ok(names + more) case Err(e) => Err(e)
  }

  /** The parse of s, which starts at byte pos, with name pending when inside a placeholder. */
  function Parse(s: Str, pos: nat, inside: bool, name: Str): Parsed
    decreases |s|
  {
    if s == [] then
      if inside then Err(Unterminated) else Ok([])
    else
      var (r, width) := DecodeRune(s);
      var rest, at := s[width..], pos + width;
      if r == OPEN then
        if inside then Err(NestedOpen(pos)) else Parse(rest, at, true, [])
      else if r == CLOSE then
        if !inside then Err(UnmatchedClose(pos))
        else if name == [] then Err(EmptyPlaceholder(pos))
        else Prepend([name], Parse(rest, at, false, []))
      else Parse(rest, at, inside, if inside then name + Encode(r) else [])
  }

  /** parseTemplate: a loop over the runes of the template. */
  method ParseTemplate(tmpl: Str) returns (res: Parsed)
    ensures res == Parse(tmpl, 0, false, [])
  {
    var placeholders: seq<Str> := [];
    var name: Str := [];
    var inPlaceholder := false;
    var i := 0;
    assert tmpl[i..] == tmpl;
    PrependNone(Parse(tmpl, 0, false, []));
    while i < |tmpl|
      invariant 0 <= i <= |tmpl|
      invariant Prepend(placeholders, Parse(tmpl[i..], i, inPlaceholder, if inPlaceholder then name else []))
        == Parse(tmpl, 0, false, [])
    {
      var (r, width) := DecodeRune(tmpl[i..]);
      assert tmpl[i..][width..] == tmpl[i + width..];
      if r == OPEN {
        if inPlaceholder {
          return Err(NestedOpen(i));
        }
        inPlaceholder := true;
        name := [];
      } else if r == CLOSE {
        if !inPlaceholder {
          return Err(UnmatchedClose(i));
        }
        if name == [] {
          return Err(EmptyPlaceholder(i));
        }
        PrependPrepend(placeholders, [name], Parse(tmpl[i + width..], i + width, false, []));
        placeholders := placeholders + [name];
        inPlaceholder := false;
      } else if inPlaceholder {
        name := name + Encode(r);
      }
      i := i + width;
    }
    assert tmpl[i..] == [];
    if inPlaceholder {
      return Err(Unterminated);
    }
    assert placeholders + [] == placeholders;
    return Ok(placeholders);
  }

  lemma PrependNone(p: Parsed)
    ensures Prepend([], p) == p
  {
    if p.Ok? {
      assert [] + p.value == p.value;
    }
  }

  lemma PrependPrepend(a: seq<Str>, b: seq<Str>, p: Parsed)
    ensures Prepend(a, Prepend(b, p)) == Prepend(a + b, p)
  {
    if p.Ok? {
      assert a + (b + p.value) == a + b + p.value;
    }
  }

  // ----- The tokens a template mentions, as the compiler sees them -----

  function TokensOf(parts: seq<Part>): seq<TokenID>
  {
    if parts == [] then []
    else (match parts[0] case Literal(_) => [] case Token(id) => [id]) + TokensOf(parts[1..])
  }

  /** The token parts of a compiled template, left to right across its segments. */
  function CompiledTokens(segments: seq<Str>): seq<TokenID>
  {
    if segments == [] then []
    else TokensOf(Scan(segments[0], [])) + CompiledTokens(segments[1..])
  }

  /** The tokens met by one pass over raw that knows nothing of segments. */
  function ScanTokens(raw: Str): seq<TokenID>
    decreases |raw|
  {
    if raw == [] then []
    else if TokenHere(raw) then
      [TokenIDAt(raw).0] + ScanTokens(raw[TokenIDAt(raw).1..])
    else ScanTokens(raw[1..])
  }

  function Known(name: Str): TokenID { TokenIDOf([OPEN] + name + [CLOSE]) }

  /** The validator's placeholders, filtered to the names the compiler knows. */
  function FilterKnown(names: seq<Str>): seq<TokenID>
  {
    if names == [] then []
    else (if Known(names[0]) == NoToken then [] else [Known(names[0])]) + FilterKnown(names[1..])
  }

  lemma {:induction false} TokensAppend(a: seq<Part>, b: seq<Part>)
    ensures TokensOf(a + b) == TokensOf(a) + TokensOf(b)
    decreases |a|
  {
    if a == [] {
      assert a + b == b;
    } else {
      assert (a + b)[0] == a[0] && (a + b)[1..] == a[1..] + b;
      TokensAppend(a[1..], b);
    }
  }

  lemma {:induction false} TokensCons(lit: Str, id: TokenID, rest: seq<Part>)
    ensures TokensOf(Flush(lit) + [Token(id)] + rest) == [id] + TokensOf(rest)
  {
    TokensAppend(Flush(lit) + [Token(id)], rest);
    TokensAppend(Flush(lit), [Token(id)]);
    assert TokensOf([Token(id)]) == [id] + TokensOf([]);
  }

  lemma {:induction false} ScanHasTokens(raw: Str, lit: Str)
    ensures TokensOf(Scan(raw, lit)) == ScanTokens(raw)
    decreases |raw|
  {
    hide TokenIDAt;
    if raw == [] {
    } else if TokenHere(raw) {
      var (id, width) := TokenIDAt(raw);
      ScanHasTokens(raw[width..], []);
      TokensCons(lit, id, Scan(raw[width..], []));
    } else {
      ScanHasTokens(raw[1..], lit + [raw[0]]);
    }
  }

  /** A known token holds lower-case letters between its braces, and nothing else. */
  lemma KnownIsWord(token: Str)
    requires TokenIDOf(token) != NoToken
    ensures |token| >= 3 && token[0] == OPEN && token[|token| - 1] == CLOSE
    ensures forall i | 0 < i < |token| - 1 :: 97 <= token[i] <= 122
  {
    var id := TokenIDOf(token);
    TokenIDOfText(token);
    NamesAreWords(id);
    forall i | 0 < i < |token| - 1 ensures 97 <= token[i] <= 122 {
      assert token[i] == TokenName(id)[i - 1];
    }
  }

  /** Where no "{" opens a token, the scan moves on byte by byte. */
  lemma {:induction false} SkipText(text: Str, rest: Str)
    requires OPEN !in text
    ensures ScanTokens(text + rest) == ScanTokens(rest)
    decreases |text|
  {
    hide TokenIDAt;
    if text == [] {
      assert text + rest == rest;
    } else {
      assert text[0] in text;
      assert (text + rest)[0] == text[0] && (text + rest)[1..] == text[1..] + rest;
      assert forall b | b in text[1..] :: b in text;
      SkipText(text[1..], rest);
    }
  }

  /** A "/" never falls inside a token. */
  lemma SlashEndsToken(seg: Str, rest: Str)
    requires SLASH !in seg && seg != [] && seg[0] == OPEN
    ensures TokenIDAt(seg + [SLASH] + rest) == TokenIDAt(seg)
  {
    hide TokenIDOf;
    var whole := seg + [SLASH] + rest;
    assert forall k | 0 <= k < |seg| :: whole[k] == seg[k];
    var end, end' := IndexByte(seg, CLOSE), IndexByte(whole, CLOSE);
    if end >= 0 {
      IndexByteIs(whole, CLOSE, end);
      assert whole[..end + 1] == seg[..end + 1];
    } else if end' >= 0 {
      var token := whole[..end' + 1];
      assert end' > |seg| && token[|seg|] == SLASH;
      if TokenIDOf(token) != NoToken {
        KnownIsWord(token);
      }
    }
  }

  lemma {:induction false} SegmentsScanAlone(seg: Str, rest: Str)
    requires SLASH !in seg
    ensures ScanTokens(seg + [SLASH] + rest) == ScanTokens(seg) + ScanTokens(rest)
    decreases |seg|
  {
    var whole := seg + [SLASH] + rest;
    if seg == [] {
      assert whole[1..] == rest;
    } else {
      var (id, width) := if seg[0] == OPEN then TokenIDAt(seg) else (NoToken, 0);
      var step := if id == NoToken then 1 else width;
      if seg[0] == OPEN {
        SlashEndsToken(seg, rest);
      }
      hide TokenIDAt;
      assert whole[0] == seg[0];
      assert whole[step..] == seg[step..] + [SLASH] + rest;
      assert forall b | b in seg[step..] :: b in seg;
      SegmentsScanAlone(seg[step..], rest);
    }
  }

  /** Splitting a template into segments loses no token and invents none. */
  lemma {:induction false} AcrossSegments(tmpl: Str)
    ensures CompiledTokens(Split(tmpl, SLASH)) == ScanTokens(tmpl)
    decreases |tmpl|
  {
    hide Scan, ScanTokens, Split, IndexByte, TokensOf, CompiledTokens;
    var i := IndexByte(tmpl, SLASH);
    if i < 0 {
      SplitNone(tmpl, SLASH);
      ScanHasTokens(tmpl, []);
      CompiledCons(tmpl, []);
      CompiledNone();
      assert [tmpl] + [] == [tmpl];
      assert ScanTokens(tmpl) + [] == ScanTokens(tmpl);
    } else {
      var seg, rest := tmpl[..i], tmpl[i + 1..];
      SplitAt(tmpl, SLASH, i);
      CompiledCons(seg, Split(rest, SLASH));
      ScanHasTokens(seg, []);
      AcrossSegments(rest);
      assert tmpl == seg + [SLASH] + rest;
      SegmentsScanAlone(seg, rest);
    }
  }

  lemma CompiledCons(seg: Str, more: seq<Str>)
    ensures CompiledTokens([seg] + more) == TokensOf(Scan(seg, [])) + CompiledTokens(more)
  {
    hide Scan, TokensOf;
    assert ([seg] + more)[1..] == more;
  }

  lemma CompiledNone()
    ensures CompiledTokens([]) == []
  {
  }

  // ----- The two parsers agree -----

  predicate AllAscii(s: Str) { forall i | 0 <= i < |s| :: s[i] < 0x80 }

  /**
   How the name the validator rebuilds relates to the bytes it read: equal when
   they are ASCII, and otherwise neither can be a known name.
   */
  predicate SameName(name: Str, bytes: Str)
  {
    if AllAscii(bytes) then name == bytes else !AllAscii(name)
  }

  lemma SameNameSameToken(name: Str, bytes: Str)
    requires SameName(name, bytes)
    ensures Known(name) == Known(bytes)
  {
    if !AllAscii(bytes) {
      NotAsciiUnknown(name);
      NotAsciiUnknown(bytes);
    }
  }

  lemma NotAsciiUnknown(name: Str)
    requires !AllAscii(name)
    ensures Known(name) == NoToken
  {
    var token := [OPEN] + name + [CLOSE];
    var i :| 0 <= i < |name| && name[i] >= 0x80;
    assert token[i + 1] == name[i];
    if TokenIDOf(token) != NoToken {
      KnownIsWord(token);
    }
  }

  lemma SameNameExtends(name: Str, bytes: Str, s: Str)
    requires SameName(name, bytes) && s != []
    ensures var (r, width) := DecodeRune(s); SameName(name + Encode(r), bytes + s[..width])
  {
    var (r, width) := DecodeRune(s);
    var name', bytes' := name + Encode(r), bytes + s[..width];
    if s[0] < 0x80 {
      assert s[..width] == [s[0]] == Encode(r);
      if !AllAscii(bytes) {
        var i :| 0 <= i < |bytes| && bytes[i] >= 0x80;
        var j :| 0 <= j < |name| && name[j] >= 0x80;
        assert bytes'[i] == bytes[i] && name'[j] == name[j];
      }
    } else {
      assert bytes'[|bytes|] == s[0];
      assert name'[|name|] == Encode(r)[0];
    }
  }

  /** A decoded rune other than a brace covers no brace byte. */
  lemma NoBraceInside(s: Str)
    requires s != []
    requires DecodeRune(s).0 != OPEN && DecodeRune(s).0 != CLOSE
    ensures OPEN !in s[..DecodeRune(s).1] && CLOSE !in s[..DecodeRune(s).1]
  {
  }

  lemma {:induction false} AgreeOutside(s: Str, pos: nat)
    ensures var p := Parse(s, pos, false, []); p.Ok? ==> ScanTokens(s) == FilterKnown(p.value)
    decreases |s|
  {
    hide DecodeRune, Encode, ScanTokens, FilterKnown;
    if s == [] {
      NothingToScan();
    } else {
      var (r, width) := DecodeRune(s);
      if r == OPEN {
        AgreeInside(s[1..], pos + 1, [], []);
        assert [OPEN] + [] + s[1..] == s;
      } else if r != CLOSE {
        NoBraceInside(s);
        SkipText(s[..width], s[width..]);
        assert s == s[..width] + s[width..];
        AgreeOutside(s[width..], pos + width);
      }
    }
  }

  lemma NothingToScan()
    ensures ScanTokens([]) == [] && FilterKnown([]) == []
  {
  }

  lemma {:induction false} AgreeInside(s: Str, pos: nat, name: Str, bytes: Str)
    requires SameName(name, bytes) && OPEN !in bytes && CLOSE !in bytes
    ensures var p := Parse(s, pos, true, name);
      p.Ok? ==> ScanTokens([OPEN] + bytes + s) == FilterKnown(p.value)
    decreases |s|
  {
    hide DecodeRune, Encode, ScanTokens, FilterKnown, SameName;
    if s != [] {
      var (r, width) := DecodeRune(s);
      if r == CLOSE {
        AgreeOutside(s[1..], pos + 1);
        if name != [] && Parse(s[1..], pos + 1, false, []).Ok? {
          CloseAgrees(s[1..], name, bytes, Parse(s[1..], pos + 1, false, []).value);
          assert s == [CLOSE] + s[1..];
        }
      } else if r != OPEN {
        NoBraceInside(s);
        SameNameExtends(name, bytes, s);
        AgreeInside(s[width..], pos + width, name + Encode(r), bytes + s[..width]);
        assert [OPEN] + bytes + s == [OPEN] + (bytes + s[..width]) + s[width..];
      }
    }
  }

  lemma CloseAgrees(rest: Str, name: Str, bytes: Str, more: seq<Str>)
    requires SameName(name, bytes) && OPEN !in bytes && CLOSE !in bytes
    requires ScanTokens(rest) == FilterKnown(more)
    ensures ScanTokens([OPEN] + bytes + ([CLOSE] + rest)) == FilterKnown([name] + more)
  {
    hide TokenIDOf, ScanTokens;
    CloseToken(bytes, rest);
    assert [OPEN] + bytes + ([CLOSE] + rest) == [OPEN] + bytes + [CLOSE] + rest;
    SameNameSameToken(name, bytes);
    assert ([name] + more)[1..] == more;
  }

  /** What the compiler's scan makes of one complete placeholder. */
  lemma CloseToken(bytes: Str, rest: Str)
    requires OPEN !in bytes && CLOSE !in bytes
    ensures ScanTokens([OPEN] + bytes + [CLOSE] + rest)
         == (if Known(bytes) == NoToken then [] else [Known(bytes)]) + ScanTokens(rest)
  {
    hide TokenIDOf;
    var token := [OPEN] + bytes + [CLOSE];
    var raw := token + rest;
    var n := |bytes| + 1;
    assert forall k | 0 < k < n :: raw[k] == bytes[k - 1] && bytes[k - 1] in bytes;
    IndexByteIs(raw, CLOSE, n);
    assert raw[..n + 1] == token && raw[n + 1..] == rest;
    if Known(bytes) == NoToken {
      var text := bytes + [CLOSE];
      SkipText(text, rest);
      assert raw[1..] == text + rest;
    }
  }

  /**
   Whenever the validator accepts a template, the compiler's token parts read
   left to right are the validator's placeholders filtered to the known names.
   */
  lemma ParsersAgree(tmpl: Str)
    requires Parse(tmpl, 0, false, []).Ok?
    ensures CompiledTokens(Split(tmpl, SLASH)) == FilterKnown(Parse(tmpl, 0, false, []).value)
  {
    AcrossSegments(tmpl);
    AgreeOutside(tmpl, 0);
  }

  lemma {:induction false} FilterKeeps(names: seq<Str>, id: TokenID)
    requires id != NoToken
    ensures id in FilterKnown(names) <==> TokenName(id) in names
    decreases |names|
  {
    hide TokenIDOf;
    if names != [] {
      FilterKeeps(names[1..], id);
      TokenTextKnown(id);
      assert names == [names[0]] + names[1..];
      if Known(names[0]) == id {
        var token := [OPEN] + names[0] + [CLOSE];
        TokenIDOfText(token);
        assert names[0] == token[1..|token| - 1] == TokenText(id)[1..|TokenText(id)| - 1] == TokenName(id);
      }
    }
  }

  // ----- validatePathTemplate -----

  datatype TemplateError = Malformed(e: ParseError) | MissingTitle | MissingExt

  method ValidatePathTemplate(tmpl: Str) returns (res: Result<(), TemplateError>)
    ensures res.Ok? <==>
      && Parse(tmpl, 0, false, []).Ok?
      && Title in CompiledTokens(Split(tmpl, SLASH))
      && Ext in CompiledTokens(Split(tmpl, SLASH))
    ensures res.Err? ==> match res.error
      case Malformed(e) => Parse(tmpl, 0, false, []) == Err(e)
      case MissingTitle => Parse(tmpl, 0, false, []).Ok? && Title !in CompiledTokens(Split(tmpl, SLASH))
      case MissingExt => Parse(tmpl, 0, false, []).Ok? && Ext !in CompiledTokens(Split(tmpl, SLASH))
  {
    var parsed := ParseTemplate(tmpl);
    match parsed {
      case Err(e) => return Err(Malformed(e));
      case Ok(placeholders) =>
        ParsersAgree(tmpl);
        FilterKeeps(placeholders, Title);
        FilterKeeps(placeholders, Ext);
        if TokenName(Title) !in placeholders {
          return Err(MissingTitle);
        }
        if TokenName(Ext) !in placeholders {
          return Err(MissingExt);
        }
        return Ok(());
    }
  }

  // ----- An independent account of which templates are accepted -----

  /** A template as text, hole, text, hole, ... , text. */
  datatype Shape = Tail(text: Str) | Hole(text: Str, name: Str, rest: Shape)

  predicate NoBraces(s: Str) { OPEN !in s && CLOSE !in s }

  predicate Bracketed(sh: Shape)
  {
    match sh
    case Tail(text) => NoBraces(text)
    case Hole(text, name, rest) => NoBraces(text) && NoBraces(name) && name != [] && Bracketed(rest)
  }

  function Unparse(sh: Shape): Str
  {
    match sh
    case Tail(text) => text
    case Hole(text, name, rest) => text + [OPEN] + name + [CLOSE] + Unparse(rest)
  }

  /** The names of the holes, as runes written back in UTF-8. */
  function Names(sh: Shape): seq<Str>
  {
    match sh
    case Tail(_) => []
    case Hole(_, name, rest) => [EncodeAll(DecodeAll(name))] + Names(rest)
  }

  /** An ASCII byte after s, or the end of input, never changes how s decodes. */
  lemma DecodeStops(s: Str, after: Str)
    requires s != [] && (after == [] || after[0] < 0x80)
    ensures DecodeRune(s + after) == DecodeRune(s)
  {
    var t := s + after;
    assert forall i | 0 <= i < |s| :: t[i] == s[i];
    assert after != [] ==> t[|s|] == after[0];
  }

  lemma {:induction false} ParseText(text: Str, after: Str, pos: nat)
    requires NoBraces(text) && (after == [] || after[0] < 0x80)
    ensures Parse(text + after, pos, false, []) == Parse(after, pos + |text|, false, [])
    decreases |text|
  {
    if text == [] {
      assert text + after == after;
    } else {
      DecodeStops(text, after);
      var (r, width) := DecodeRune(text);
      assert text[0] in text;
      assert (text + after)[width..] == text[width..] + after;
      assert forall b | b in text[width..] :: b in text;
      ParseText(text[width..], after, pos + width);
    }
  }

  /** One step of the parser over a rune that is no brace. */
  lemma ParseStep(s: Str, pos: nat, inside: bool, name: Str)
    requires s != [] && s[0] != OPEN && s[0] != CLOSE
    ensures var (r, width) := DecodeRune(s);
      Parse(s, pos, inside, name) == Parse(s[width..], pos + width, inside, if inside then name + Encode(r) else [])
  {
    hide DecodeRune, Encode;
  }

  lemma DecodeAllStep(s: Str)
    requires s != []
    ensures var (r, width) := DecodeRune(s);
      EncodeAll(DecodeAll(s)) == Encode(r) + EncodeAll(DecodeAll(s[width..]))
  {
    hide DecodeRune, Encode;
    assert DecodeAll(s)[1..] == DecodeAll(s[DecodeRune(s).1..]);
  }

  lemma {:induction false} ParseName(name: Str, after: Str, pos: nat, acc: Str)
    requires NoBraces(name) && after != [] && after[0] == CLOSE
    ensures Parse(name + after, pos, true, acc)
         == Parse(after, pos + |name|, true, acc + EncodeAll(DecodeAll(name)))
    decreases |name|
  {
    hide DecodeRune, Encode, Parse, EncodeAll;
    if name == [] {
      assert EncodeAll([]) == [] by { EncodeNothing(); }
      assert name + after == after && acc + [] == acc;
    } else {
      DecodeStops(name, after);
      var (r, width) := DecodeRune(name);
      assert name[0] in name;
      ParseStep(name + after, pos, true, acc);
      assert (name + after)[width..] == name[width..] + after;
      assert forall b | b in name[width..] :: b in name;
      ParseName(name[width..], after, pos + width, acc + Encode(r));
      DecodeAllStep(name);
      assert acc + Encode(r) + EncodeAll(DecodeAll(name[width..])) == acc + EncodeAll(DecodeAll(name));
    }
  }

  lemma EncodeNothing()
    ensures EncodeAll([]) == []
  {
  }

  /** The parser reads back the names of any well-bracketed template. */
  lemma {:induction false} ParseUnparse(sh: Shape, pos: nat)
    requires Bracketed(sh)
    ensures Parse(Unparse(sh), pos, false, []) == Ok(Names(sh))
    decreases sh
  {
    hide DecodeRune, Encode, DecodeAll, EncodeAll, Parse;
    match sh
    case Tail(text) =>
      ParseText(text, [], pos);
      assert text + [] == text;
      ParseEnd(pos + |text|);
    case Hole(text, name, rest) =>
      var close := [CLOSE] + Unparse(rest);
      var canon := EncodeAll(DecodeAll(name));
      var at := pos + |text| + 1 + |name|;
      UnparseHole(text, name, rest);
      ParseText(text, [OPEN] + (name + close), pos);
      ParseOpen(name + close, pos + |text|);
      ParseName(name, close, pos + |text| + 1, []);
      NilLeft(canon);
      NameNonempty(name);
      ParseClose(Unparse(rest), at, canon);
      ParseUnparse(rest, at + 1);
  }

  lemma UnparseHole(text: Str, name: Str, rest: Shape)
    ensures Unparse(Hole(text, name, rest)) == text + ([OPEN] + (name + ([CLOSE] + Unparse(rest))))
  {
  }

  lemma ParseEnd(pos: nat)
    ensures Parse([], pos, false, []) == Ok([])
  {
  }

  lemma ParseOpen(s: Str, pos: nat)
    ensures Parse([OPEN] + s, pos, false, []) == Parse(s, pos + 1, true, [])
  {
    hide DecodeRune, Encode;
    assert ([OPEN] + s)[1..] == s;
  }

  lemma ParseClose(s: Str, pos: nat, name: Str)
    requires name != []
    ensures Parse([CLOSE] + s, pos, true, name) == Prepend([name], Parse(s, pos + 1, false, []))
  {
    hide DecodeRune, Encode;
    assert ([CLOSE] + s)[1..] == s;
  }

  lemma NameNonempty(name: Str)
    requires name != []
    ensures EncodeAll(DecodeAll(name)) != []
  {
  }

  /** The shape behind an accepted parse; text and name hold the bytes read so far. */
  lemma {:induction false} ShapeOf(s: Str, pos: nat, inside: bool, name: Str, bytes: Str) returns (sh: Shape)
    requires NoBraces(bytes)
    requires inside ==> (name == [] <==> bytes == [])
    requires Parse(s, pos, inside, name).Ok?
    ensures !inside ==> Bracketed(sh) && Unparse(sh) == bytes + s
    ensures inside ==> sh.Hole? && sh.text == [] && Bracketed(sh) && Unparse(sh) == [OPEN] + bytes + s
    decreases |s|
  {
    hide DecodeRune, Encode, NoBraces, Unparse;
    if s == [] {
      sh := Tail(bytes);
      UnparseTail(bytes);
    } else {
      var (r, width) := DecodeRune(s);
      if r == OPEN {
        NoBracesNone();
        var hole := ShapeOf(s[1..], pos + 1, true, [], []);
        sh := hole.(text := bytes);
        OpenShape(bytes, hole, s);
      } else if r == CLOSE {
        NoBracesNone();
        var rest := ShapeOf(s[1..], pos + 1, false, [], []);
        sh := Hole([], bytes, rest);
        CloseShape(bytes, rest, s);
      } else {
        NoBraceInside(s);
        NoBracesAppend(bytes, s[..width]);
        ParseStep(s, pos, inside, name);
        var name' := if inside then name + Encode(r) else [];
        sh := ShapeOf(s[width..], pos + width, inside, name', bytes + s[..width]);
        Regroup(bytes, s, width);
      }
    }
  }

  lemma NoBracesNone()
    ensures NoBraces([])
  {
  }

  lemma NoBracesAppend(a: Str, b: Str)
    requires NoBraces(a) && OPEN !in b && CLOSE !in b
    ensures NoBraces(a + b)
  {
  }

  lemma UnparseTail(text: Str)
    ensures Unparse(Tail(text)) == text + []
  {
  }

  lemma OpenShape(bytes: Str, hole: Shape, s: Str)
    requires s != [] && s[0] == OPEN
    requires hole.Hole? && hole.text == [] && Unparse(hole) == [OPEN] + [] + s[1..]
    ensures Unparse(hole.(text := bytes)) == bytes + s
  {
    UnparseHole([], hole.name, hole.rest);
    UnparseHole(bytes, hole.name, hole.rest);
    var tail := [OPEN] + (hole.name + ([CLOSE] + Unparse(hole.rest)));
    assert [] + tail == tail;
    assert [OPEN] + [] + s[1..] == s;
  }

  lemma CloseShape(bytes: Str, rest: Shape, s: Str)
    requires s != [] && s[0] == CLOSE && Unparse(rest) == [] + s[1..]
    ensures Unparse(Hole([], bytes, rest)) == [OPEN] + bytes + s
  {
    UnparseHole([], bytes, rest);
    assert [] + s[1..] == s[1..];
    assert [CLOSE] + s[1..] == s;
  }

  lemma Regroup(bytes: Str, s: Str, width: nat)
    requires width <= |s|
    ensures bytes + s == bytes + s[..width] + s[width..]
    ensures [OPEN] + bytes + s == [OPEN] + (bytes + s[..width]) + s[width..]
  {
  }

  /** A template is accepted exactly when it is well bracketed. */
  lemma AcceptedExactly(tmpl: Str)
    ensures Parse(tmpl, 0, false, []).Ok? <==> exists sh :: Bracketed(sh) && Unparse(sh) == tmpl
  {
    if Parse(tmpl, 0, false, []).Ok? {
      var sh := ShapeOf(tmpl, 0, false, [], []);
      assert [] + tmpl == tmpl;
    }
    forall sh | Bracketed(sh) && Unparse(sh) == tmpl ensures Parse(tmpl, 0, false, []).Ok? {
      ParseUnparse(sh, 0);
    }
  }

  lemma TitleAndExtText()
    ensures [DOT] + [OPEN] + Ascii("ext") + [CLOSE] == Ascii(".{ext}")
    ensures [OPEN] + Ascii("title") + [CLOSE] + Ascii(".{ext}") == Ascii("{title}.{ext}")
    ensures NoBraces(Ascii("title")) && NoBraces(Ascii("ext")) && NoBraces([DOT])
  {
    var ext, all := [DOT] + [OPEN] + Ascii("ext") + [CLOSE], Ascii("{title}.{ext}");
    assert |ext| == 6 && forall i | 0 <= i < 6 :: ext[i] == Ascii(".{ext}")[i];
    var whole := [OPEN] + Ascii("title") + [CLOSE] + Ascii(".{ext}");
    assert |whole| == |all| && forall i | 0 <= i < |all| :: whole[i] == all[i];
  }

  /** "{title}.{ext}" as a bracketed template. */
  lemma TitleAndExtShape() returns (sh: Shape)
    ensures Bracketed(sh) && Unparse(sh) == Ascii("{title}.{ext}") && Names(sh) == [Ascii("title"), Ascii("ext")]
  {
    hide NoBraces, DecodeAll, EncodeAll;
    TitleAndExtText();
    AsciiText(Ascii("title"));
    AsciiText(Ascii("ext"));
    var inner := Hole([DOT], Ascii("ext"), Tail([]));
    assert NoBraces([]) by { NoBracesNone(); }
    assert |Ascii("ext")| == 3 && |Ascii("title")| == 5;
    assert Bracketed(Tail([]));
    assert Bracketed(inner);
    assert Unparse(inner) == [DOT] + [OPEN] + Ascii("ext") + [CLOSE] + [];
    assert Names(inner) == [Ascii("ext")];
    sh := Hole([], Ascii("title"), inner);
    assert Unparse(sh) == [] + [OPEN] + Ascii("title") + [CLOSE] + Unparse(inner);
  }

  /** The shortest template of all is accepted: it parses, and compiles to one with title and ext. */
  lemma TitleAndExtAccepted()
    ensures var tmpl := Ascii("{title}.{ext}");
      && Parse(tmpl, 0, false, []) == Ok([Ascii("title"), Ascii("ext")])
      && Title in CompiledTokens(Split(tmpl, SLASH)) && Ext in CompiledTokens(Split(tmpl, SLASH))
  {
    hide Parse, CompiledTokens, Split, FilterKnown, Unparse, Names, Bracketed;
    var names := [Ascii("title"), Ascii("ext")];
    var sh := TitleAndExtShape();
    ParseUnparse(sh, 0);
    ParsersAgree(Ascii("{title}.{ext}"));
    FilterKeeps(names, Title);
    FilterKeeps(names, Ext);
    assert names[0] == TokenName(Title) && names[1] == TokenName(Ext);
  }
}
