/**
 internal/namer/sanitize.go: turning an arbitrary byte string into one safe path
 component. NFC folding is the parameter `nfc`, assumed only to introduce no
 illegal or control character (NfcSafe).
 */
module Sanitizer {
  import opened Text
  import opened Utf8

  const MAX_COMPONENT_BYTES: nat := 255
  const MAX_RESERVED_LEN: nat := 4

  predicate IsControl(r: Rune) { r < 0x20 || 0x7F <= r < 0xA0 }

  /** One of  / \ : * ? " < > |  */
  predicate IsIllegal(r: Rune)
  {
    r == 47 || r == 92 || r == 58 || r == 42 || r == 63 || r == 34 || r == 60 || r == 62 || r == 124
  }

  predicate Legal(r: Rune) { !IsControl(r) && !IsIllegal(r) }

  ghost predicate AllLegal(rs: seq<Rune>) { forall i | 0 <= i < |rs| :: Legal(rs[i]) }

  ghost predicate NfcSafe(nfc: seq<Rune> -> seq<Rune>)
  {
    forall rs :: AllLegal(rs) ==> AllLegal(nfc(rs))
  }

  /** Normalisation leaves plain ASCII alone. */
  ghost predicate KeepsAscii(nfc: seq<Rune> -> seq<Rune>)
  {
    forall rs | (forall i | 0 <= i < |rs| :: rs[i] < 0x80) :: nfc(rs) == rs
  }

  function SanitizeRune(r: Rune): Rune { if Legal(r) then r else UNDERSCORE }

  /** strings.Map(sanitizeRune, s), undecodable bytes having become U+FFFD. */
  function MapRunes(rs: seq<Rune>): (out: seq<Rune>)
    ensures |out| == |rs|
  {
    if rs == [] then [] else [SanitizeRune(rs[0])] + MapRunes(rs[1..])
  }

  predicate Trailing(b: Byte) { b == DOT || b == SPACE }

  /** strings.TrimRight(s, ". "). */
  function TrimRight(s: Str): (t: Str)
    ensures t <= s
    ensures t == [] || !Trailing(t[|t| - 1])
    ensures forall j | |t| <= j < |s| :: Trailing(s[j])
  {
    if s != [] && Trailing(s[|s| - 1]) then TrimRight(s[..|s| - 1]) else s
  }

  function Upper(s: Str): (u: Str)
    ensures |u| == |s|
  {
    seq(|s|, i requires 0 <= i < |s| => if 97 <= s[i] <= 122 then s[i] - 32 else s[i])
  }

  predicate BaseDevice(u: Str)
  {
    u == Ascii("CON") || u == Ascii("PRN") || u == Ascii("AUX") || u == Ascii("NUL")
  }

  /** COM1 .. or LPT1 .. up to, but not including, index limit. */
  predicate PortBelow(u: Str, limit: int)
  {
    |u| == 4 && (u[..3] == Ascii("COM") || u[..3] == Ascii("LPT")) && 49 <= u[3] < 48 + limit
  }

  /** Membership in the set of upper-cased Windows device names. */
  predicate DeviceName(u: Str) { BaseDevice(u) || PortBelow(u, 10) }

  lemma NextPort(u: Str, i: nat)
    requires 1 <= i < 10
    ensures PortBelow(u, i + 1) <==>
              PortBelow(u, i) || u == Ascii("COM") + Itoa(i) || u == Ascii("LPT") + Itoa(i)
  {
    DigitText(i);
    if |u| == 4 {
      assert u == u[..3] + [u[3]];
    }
  }

  /** The reserved-name table as sanitize.go builds it. */
  method BuildReservedNames() returns (names: set<Str>)
    ensures forall u :: u in names <==> DeviceName(u)
  {
    names := {Ascii("CON"), Ascii("PRN"), Ascii("AUX"), Ascii("NUL")};
    hide PortBelow;
    assert forall u :: u in names <==> BaseDevice(u) || PortBelow(u, 1) by {
      forall u: Str ensures !PortBelow(u, 1) {
        NoPort(u);
      }
    }
    hide BaseDevice;
    for i := 1 to 10
      invariant forall u :: u in names <==> BaseDevice(u) || PortBelow(u, i)
    {
      forall u: Str
        ensures PortBelow(u, i + 1) <==>
          PortBelow(u, i) || u == Ascii("COM") + Itoa(i) || u == Ascii("LPT") + Itoa(i)
      {
        NextPort(u, i);
      }
      names := names + {Ascii("COM") + Itoa(i), Ascii("LPT") + Itoa(i)};
    }
  }

  lemma NoPort(u: Str)
    ensures !PortBelow(u, 1)
  {
  }

  lemma DigitText(i: nat)
    requires i < 10
    ensures Itoa(i) == [48 + i]
  {
  }

  /** strings.Cut(name, "."): the text before the first dot. */
  function Stem(name: Str): (stem: Str)
    ensures stem <= name
    ensures DOT !in stem
    ensures |stem| < |name| ==> name[|stem|] == DOT
  {
    var i := IndexByte(name, DOT);
    if i < 0 then name else name[..i]
  }

  lemma StemIs(name: Str, n: nat)
    requires n <= |name| && DOT !in name[..n] && (n < |name| ==> name[n] == DOT)
    ensures Stem(name) == name[..n]
  {
    assert forall k | 0 <= k < n :: name[k] == name[..n][k];
    if n < |name| {
      IndexByteIs(name, DOT, n);
    } else {
      assert IndexByte(name, DOT) < 0;
    }
  }

  predicate Reserved(name: Str)
  {
    var stem := Stem(name);
    0 < |stem| <= MAX_RESERVED_LEN && DeviceName(Upper(stem))
  }

  function SuffixIfReserved(name: Str): Str
  {
    var stem := Stem(name);
    if Reserved(name) then stem + [UNDERSCORE] + name[|stem|..] else name
  }

  /** Where the backward scan of truncateToBytes stops. */
  function CutPoint(s: Str, n: nat): (cut: nat)
    requires n < |s|
    ensures cut <= n
    ensures cut == 0 || RuneStart(s[cut])
    ensures forall j | cut < j <= n :: !RuneStart(s[j])
  {
    if n > 0 && !RuneStart(s[n]) then CutPoint(s, n - 1) else n
  }

  function Truncate(s: Str, maxBytes: nat): (r: Str)
    ensures r <= s && |r| <= maxBytes
    ensures |s| <= maxBytes ==> r == s
  {
    if |s| <= maxBytes then s else s[..CutPoint(s, maxBytes)]
  }

  method TruncateToBytes(s: Str, maxBytes: nat) returns (r: Str)
    ensures r == Truncate(s, maxBytes)
  {
    if |s| <= maxBytes {
      return s;
    }
    var cut := maxBytes;
    while cut > 0 && !RuneStart(s[cut])
      invariant 0 <= cut <= maxBytes
      invariant CutPoint(s, cut) == CutPoint(s, maxBytes)
    {
      cut := cut - 1;
    }
    r := s[..cut];
  }

  /** Everything Sanitize does before truncating. */
  function Prepare(component: Str, nfc: seq<Rune> -> seq<Rune>): Str
  {
    SuffixIfReserved(TrimRight(EncodeAll(nfc(MapRunes(DecodeAll(component))))))
  }

  function Sanitize(component: Str, nfc: seq<Rune> -> seq<Rune>): Str
  {
    var cleaned := TrimRight(Truncate(Prepare(component, nfc), MAX_COMPONENT_BYTES));
    if cleaned == [] then [UNDERSCORE] else cleaned
  }

  // ----- Truncation keeps the longest rune prefix that fits -----

  /** The number of leading runes of rs whose encoding fits in room bytes. */
  function Fit(rs: seq<Rune>, room: nat): (k: nat)
    ensures k <= |rs|
  {
    if rs == [] || |Encode(rs[0])| > room then 0
    else 1 + Fit(rs[1..], room - |Encode(rs[0])|)
  }

  lemma {:induction false} FitIsLongest(rs: seq<Rune>, room: nat)
    ensures |EncodeAll(rs[..Fit(rs, room)])| <= room
    ensures forall k | Fit(rs, room) < k <= |rs| :: |EncodeAll(rs[..k])| > room
    ensures Fit(rs, room) < |rs| ==> room <= |EncodeAll(rs[..Fit(rs, room)])| + 3
    decreases |rs|
  {
    if rs == [] {
    } else if |Encode(rs[0])| > room {
      forall k | 0 < k <= |rs| ensures |EncodeAll(rs[..k])| > room {
        assert rs[..k][0] == rs[0];
      }
    } else {
      var r, rest := room - |Encode(rs[0])|, rs[1..];
      FitIsLongest(rest, r);
      forall k | 1 <= k <= |rs|
        ensures |EncodeAll(rs[..k])| == |Encode(rs[0])| + |EncodeAll(rest[..k - 1])|
      {
        assert rs[..k][0] == rs[0] && rs[..k][1..] == rest[..k - 1];
      }
    }
  }

  /**
   For valid UTF-8, truncateToBytes returns the encoding of the longest rune
   prefix that fits, and gives up at most three bytes.
   */
  lemma {:induction false} TruncateOptimal(rs: seq<Rune>, maxBytes: nat)
    ensures Truncate(EncodeAll(rs), maxBytes) == EncodeAll(rs[..Fit(rs, maxBytes)])
    ensures forall k | 0 <= k <= |rs| && |EncodeAll(rs[..k])| <= maxBytes :: k <= Fit(rs, maxBytes)
    ensures Truncate(EncodeAll(rs), maxBytes) != EncodeAll(rs) ==>
              maxBytes - 3 <= |Truncate(EncodeAll(rs), maxBytes)| <= maxBytes
  {
    hide Fit, CutPoint, Encode, EncodeAll;
    var s, k := EncodeAll(rs), Fit(rs, maxBytes);
    FitIsLongest(rs, maxBytes);
    assert rs[..|rs|] == rs;
    if |s| <= maxBytes {
      assert k == |rs|;
    } else {
      assert k < |rs|;
      EncodeAllAt(rs, k);
      var b, e := |EncodeAll(rs[..k])|, Encode(rs[k]);
      assert |EncodeAll(rs[..k + 1])| > maxBytes;
      assert forall j | 0 <= j < |e| :: s[b + j] == e[j];
      assert RuneStart(s[b]);
      assert forall j | b < j <= maxBytes :: !RuneStart(s[j]) by {
        forall j | b < j <= maxBytes ensures !RuneStart(s[j]) {
          assert s[b + (j - b)] == e[j - b];
        }
      }
      assert CutPoint(s, maxBytes) == b;
      assert s[..b] == EncodeAll(rs[..k]);
    }
  }

  // ----- What a sanitized component looks like -----

  /** b is valid UTF-8 free of illegal and control characters. */
  ghost predicate LegalText(b: Str)
  {
    exists rs :: AllLegal(rs) && EncodeAll(rs) == b
  }

  lemma {:induction false} MapRunesLegal(rs: seq<Rune>)
    ensures AllLegal(MapRunes(rs))
    ensures AllLegal(rs) ==> MapRunes(rs) == rs
    decreases |rs|
  {
    if rs != [] {
      MapRunesLegal(rs[1..]);
      assert AllLegal(rs) ==> AllLegal(rs[1..]);
      assert rs == [rs[0]] + rs[1..];
    }
  }

  lemma {:induction false} TrimKeepsLegal(b: Str)
    requires LegalText(b)
    ensures LegalText(TrimRight(b))
    decreases |b|
  {
    hide Encode;
    if b != [] && Trailing(b[|b| - 1]) {
      var rs :| AllLegal(rs) && EncodeAll(rs) == b;
      var k := |rs| - 1;
      EncodeAllAt(rs, k);
      assert rs[k + 1..] == [];
      assert b == EncodeAll(rs[..k]) + Encode(rs[k]);
      assert b[|b| - 1] == Encode(rs[k])[|Encode(rs[k])| - 1];
      assert b[..|b| - 1] == EncodeAll(rs[..k]);
      assert AllLegal(rs[..k]);
      TrimKeepsLegal(b[..|b| - 1]);
    }
  }

  lemma {:induction false} TruncateKeepsLegal(b: Str, maxBytes: nat)
    requires LegalText(b)
    ensures LegalText(Truncate(b, maxBytes))
  {
    var rs :| AllLegal(rs) && EncodeAll(rs) == b;
    TruncateOptimal(rs, maxBytes);
    assert AllLegal(rs[..Fit(rs, maxBytes)]);
  }

  /** ASCII bytes at the front of an encoding are its first runes. */
  lemma {:induction false} AsciiPrefix(rs: seq<Rune>, n: nat)
    requires n <= |EncodeAll(rs)|
    requires forall i | 0 <= i < n :: EncodeAll(rs)[i] < 0x80
    ensures n <= |rs|
    ensures EncodeAll(rs)[..n] == EncodeAll(rs[..n]) && EncodeAll(rs)[n..] == EncodeAll(rs[n..])
    decreases n
  {
    hide Encode;
    if n > 0 {
      var s := EncodeAll(rs);
      assert s[0] == Encode(rs[0])[0];
      assert rs[0] < 0x80 && s == [rs[0]] + EncodeAll(rs[1..]);
      assert forall i | 0 <= i < n - 1 :: EncodeAll(rs[1..])[i] == s[i + 1];
      AsciiPrefix(rs[1..], n - 1);
      assert rs[..n][0] == rs[0] && rs[..n][1..] == rs[1..][..n - 1] && rs[1..][n - 1..] == rs[n..];
      assert s[..n] == [rs[0]] + EncodeAll(rs[1..])[..n - 1];
    }
  }

  /** A device name is ASCII, whatever its case. */
  lemma DeviceNameAscii(stem: Str)
    requires DeviceName(Upper(stem))
    ensures forall i | 0 <= i < |stem| :: stem[i] < 0x80 && stem[i] != DOT && stem[i] != SPACE
    ensures 3 <= |stem| <= 4
  {
    var u := Upper(stem);
    forall i | 0 <= i < |stem| ensures stem[i] < 0x80 && stem[i] != DOT && stem[i] != SPACE {
      assert i < 3 ==> u[..3][i] == u[i];
    }
  }

  /** Inserting a legal ASCII mark between two runes. */
  lemma {:induction false} InsertMark(rs: seq<Rune>, n: nat, mark: Rune)
    requires AllLegal(rs) && n <= |rs| && Legal(mark) && mark < 0x80
    ensures LegalText(EncodeAll(rs[..n]) + [mark] + EncodeAll(rs[n..]))
  {
    var front: seq<Rune> := rs[..n] + [mark];
    EncodeAllAppend(front, rs[n..]);
    EncodeAllAppend(rs[..n], [mark]);
    EncodeOne(mark);
    assert AllLegal(front + rs[n..]);
  }

  lemma {:induction false} SuffixKeepsLegal(b: Str)
    requires LegalText(b)
    ensures LegalText(SuffixIfReserved(b))
  {
    hide DeviceName, Upper, Stem, EncodeAll;
    if Reserved(b) {
      var rs :| AllLegal(rs) && EncodeAll(rs) == b;
      var n := |Stem(b)|;
      ReservedStem(b);
      AsciiPrefix(rs, n);
      InsertMark(rs, n, UNDERSCORE);
    }
  }

  /** The stem of a reserved name. */
  lemma ReservedStem(name: Str)
    requires Reserved(name)
    ensures var n := |Stem(name)|;
      && 3 <= n <= 4 && n <= |name| && name[..n] == Stem(name)
      && DeviceName(Upper(name[..n]))
      && forall i | 0 <= i < n :: name[i] < 0x80 && !Trailing(name[i])
  {
    var stem := Stem(name);
    DeviceNameAscii(stem);
    assert forall i | 0 <= i < |stem| :: name[i] == stem[i];
  }

  lemma PrepareLegal(component: Str, nfc: seq<Rune> -> seq<Rune>)
    requires NfcSafe(nfc)
    ensures LegalText(Prepare(component, nfc))
  {
    hide TrimRight, SuffixIfReserved, EncodeAll, MapRunes, DecodeAll;
    var rs := nfc(MapRunes(DecodeAll(component)));
    MapRunesLegal(DecodeAll(component));
    assert LegalText(EncodeAll(rs));
    TrimKeepsLegal(EncodeAll(rs));
    SuffixKeepsLegal(TrimRight(EncodeAll(rs)));
  }

  lemma {:induction false} LegalTextHasNoSlash(b: Str)
    requires LegalText(b)
    ensures SLASH !in b
  {
    var rs :| AllLegal(rs) && EncodeAll(rs) == b;
    LegalRunesHaveNoSlash(rs);
  }

  lemma {:induction false} LegalRunesHaveNoSlash(rs: seq<Rune>)
    requires AllLegal(rs)
    ensures SLASH !in EncodeAll(rs)
    decreases |rs|
  {
    if rs != [] {
      assert Legal(rs[0]);
      assert SLASH !in Encode(rs[0]);
      LegalRunesHaveNoSlash(rs[1..]);
    }
  }

  /** A component the tree can hold: one name, neither "." nor "..". */
  ghost predicate SafeComponent(c: Str)
  {
    && 0 < |c| <= MAX_COMPONENT_BYTES
    && SLASH !in c
    && !Trailing(c[|c| - 1])
    && LegalText(c)
  }

  /** Whatever the input bytes, the result is one safe path component. */
  lemma SanitizeIsSafe(component: Str, nfc: seq<Rune> -> seq<Rune>)
    requires NfcSafe(nfc)
    ensures SafeComponent(Sanitize(component, nfc))
    ensures Sanitize(component, nfc) != [DOT] && Sanitize(component, nfc) != [DOT, DOT]
  {
    hide Prepare, CutPoint, TrimRight, Truncate;
    var p := Prepare(component, nfc);
    PrepareLegal(component, nfc);
    TruncateKeepsLegal(p, MAX_COMPONENT_BYTES);
    TrimKeepsLegal(Truncate(p, MAX_COMPONENT_BYTES));
    assert AllLegal([UNDERSCORE]);
    EncodeOne(UNDERSCORE);
    LegalTextHasNoSlash(Sanitize(component, nfc));
  }

  // ----- Reserved device names -----

  lemma SuffixFreesName(name: Str)
    ensures !Reserved(SuffixIfReserved(name))
  {
    if Reserved(name) {
      var stem := Stem(name);
      var out := SuffixIfReserved(name);
      var n := |stem| + 1;
      DeviceNameAscii(stem);
      assert out[..n] == stem + [UNDERSCORE];
      StemIs(out, n);
      if n == 4 {
        assert Upper(out[..n])[3] == UNDERSCORE;
        assert Ascii("CON")[0] == 67;
      }
    }
  }

  /** s is longer than a component may be and is a device name padded with spaces and dots up to the cut. */
  predicate PaddedDevice(s: Str)
  {
    && |s| > MAX_COMPONENT_BYTES
    && exists n | 3 <= n <= 4 ::
         && DeviceName(Upper(s[..n]))
         && forall j | n <= j < CutPoint(s, MAX_COMPONENT_BYTES) :: Trailing(s[j])
  }

  /**
   The result names a Windows device exactly when the prepared name is over-long
   and is a device name padded with spaces and dots up to the cut: truncation
   runs after the reserved-name check.
   */
  lemma ReservedExactly(component: Str, nfc: seq<Rune> -> seq<Rune>)
    requires NfcSafe(nfc)
    ensures Reserved(Sanitize(component, nfc)) <==> PaddedDevice(Prepare(component, nfc))
  {
    hide DeviceName, Upper, CutPoint, TrimRight, Truncate, Stem, SuffixIfReserved, Reserved, LegalText, DecodeAll;
    hide MapRunes, EncodeAll;
    var p := Prepare(component, nfc);
    SuffixFreesName(TrimRight(EncodeAll(nfc(MapRunes(DecodeAll(component))))));
    PrepareLegal(component, nfc);
    PrepareTrimmed(component, nfc);
    PlaceholderNotReserved();
    EmptyNotReserved();
    if Reserved(Sanitize(component, nfc)) {
      TrimmedReserved(p);
    }
    if PaddedDevice(p) {
      var n :| 3 <= n <= 4 && DeviceName(Upper(p[..n]))
        && forall j | n <= j < CutPoint(p, MAX_COMPONENT_BYTES) :: Trailing(p[j]);
      PaddedReserved(p, n);
    }
  }

  lemma PlaceholderNotReserved()
    ensures !Reserved([UNDERSCORE])
  {
    StemIs([UNDERSCORE], 1);
    assert [UNDERSCORE][..1] == [UNDERSCORE];
  }

  lemma EmptyNotReserved()
    ensures !Reserved([])
  {
  }

  lemma PrepareTrimmed(component: Str, nfc: seq<Rune> -> seq<Rune>)
    ensures var p := Prepare(component, nfc); p == [] || !Trailing(p[|p| - 1])
  {
  }

  /** The cut of an over-long valid string falls within the last four positions. */
  lemma {:induction false} LateCut(p: Str)
    requires LegalText(p) && |p| > MAX_COMPONENT_BYTES
    ensures CutPoint(p, MAX_COMPONENT_BYTES) >= MAX_COMPONENT_BYTES - 3
  {
    var rs :| AllLegal(rs) && EncodeAll(rs) == p;
    TruncateOptimal(rs, MAX_COMPONENT_BYTES);
  }

  lemma ShortKeeps(p: Str)
    requires |p| <= MAX_COMPONENT_BYTES && (p == [] || !Trailing(p[|p| - 1]))
    ensures TrimRight(Truncate(p, MAX_COMPONENT_BYTES)) == p
  {
  }

  lemma TrimmedReserved(p: Str)
    requires LegalText(p) && !Reserved(p)
    requires p == [] || !Trailing(p[|p| - 1])
    requires Reserved(TrimRight(Truncate(p, MAX_COMPONENT_BYTES)))
    ensures PaddedDevice(p)
  {
    hide DeviceName, Upper, CutPoint, TrimRight, Stem, LegalText;
    var t := Truncate(p, MAX_COMPONENT_BYTES);
    var r := TrimRight(t);
    var n := |Stem(r)|;
    ReservedStem(r);
    if |p| <= MAX_COMPONENT_BYTES {
      ShortKeeps(p);
    }
    LateCut(p);
    assert r[..n] == p[..n];
    NotFollowedByDot(p, n);
    forall j | n <= j < CutPoint(p, MAX_COMPONENT_BYTES) ensures Trailing(p[j]) {
      assert t[j] == p[j];
    }
  }

  lemma NotFollowedByDot(p: Str, n: nat)
    requires n < |p| && 0 < n <= MAX_RESERVED_LEN && DeviceName(Upper(p[..n])) && DOT !in p[..n]
    requires !Reserved(p)
    ensures p[n] != DOT
  {
    if p[n] == DOT {
      StemIs(p, n);
    }
  }

  /** TrimRight stops at the last byte that is neither a dot nor a space. */
  lemma {:induction false} TrimIs(s: Str, n: nat)
    requires 0 < n <= |s| && !Trailing(s[n - 1])
    requires forall j | n <= j < |s| :: Trailing(s[j])
    ensures TrimRight(s) == s[..n]
    decreases |s|
  {
    if n < |s| {
      TrimIs(s[..|s| - 1], n);
      assert s[..|s| - 1][..n] == s[..n];
    } else {
      assert s[..n] == s;
    }
  }

  lemma PaddedReserved(p: Str, n: nat)
    requires LegalText(p) && |p| > MAX_COMPONENT_BYTES && 3 <= n <= 4
    requires DeviceName(Upper(p[..n]))
    requires forall j | n <= j < CutPoint(p, MAX_COMPONENT_BYTES) :: Trailing(p[j])
    ensures Reserved(TrimRight(Truncate(p, MAX_COMPONENT_BYTES)))
  {
    hide DeviceName, Upper, CutPoint, TrimRight, Stem;
    var t := Truncate(p, MAX_COMPONENT_BYTES);
    LateCut(p);
    DeviceNameAscii(p[..n]);
    assert p[..n][n - 1] == p[n - 1];
    TrimIs(t, n);
    assert t[..n] == p[..n];
    StemIs(p[..n], n);
    assert p[..n][..n] == p[..n];
  }

  // ----- Idempotence -----

  /** Of a safe component in normal form only the reserved-name suffix is new to Prepare. */
  lemma PrepareSafe(r: Str, nfc: seq<Rune> -> seq<Rune>)
    requires SafeComponent(r) && nfc(DecodeAll(r)) == DecodeAll(r)
    ensures Prepare(r, nfc) == SuffixIfReserved(r)
  {
    hide SuffixIfReserved;
    var rs :| AllLegal(rs) && EncodeAll(rs) == r;
    DecodeAllEncodeAll(rs);
    MapRunesLegal(rs);
    assert TrimRight(r) == r;
  }

  /** Sanitizing a reserved name again suffixes it, and the suffix survives truncation. */
  lemma ReservedChanges(r: Str, nfc: seq<Rune> -> seq<Rune>)
    requires SafeComponent(r) && Reserved(r) && Prepare(r, nfc) == SuffixIfReserved(r)
    ensures Sanitize(r, nfc) != r
  {
    hide Prepare, TrimRight, CutPoint, LegalText, Reserved;
    var p, n := SuffixIfReserved(r), |Stem(r)|;
    ReservedStem(r);
    assert p[n] == UNDERSCORE && |p| == |r| + 1;
    SuffixKeepsLegal(r);
    if |p| > MAX_COMPONENT_BYTES {
      LateCut(p);
    }
    var t := Truncate(p, MAX_COMPONENT_BYTES);
    assert |t| > n && t[n] == UNDERSCORE;
    assert |TrimRight(t)| > n && TrimRight(t)[n] == UNDERSCORE;
    assert n < |r| ==> r[n] == DOT;
  }

  /**
   Sanitizing a sanitized component changes nothing exactly when the prepared name was not
   an over-long padded device name; the result is assumed to be in NFC already.
   */
  lemma SanitizeIdempotent(component: Str, nfc: seq<Rune> -> seq<Rune>)
    requires NfcSafe(nfc)
    requires var rs := DecodeAll(Sanitize(component, nfc)); nfc(rs) == rs
    ensures Sanitize(Sanitize(component, nfc), nfc) == Sanitize(component, nfc) <==>
      !PaddedDevice(Prepare(component, nfc))
  {
    hide Prepare, CutPoint, Reserved, PaddedDevice, LegalText, TrimRight;
    var r := Sanitize(component, nfc);
    SanitizeIsSafe(component, nfc);
    ReservedExactly(component, nfc);
    PrepareSafe(r, nfc);
    if Reserved(r) {
      ReservedChanges(r, nfc);
    } else {
      ShortKeeps(r);
    }
  }

  /** Legal ASCII that is neither reserved nor padded reaches truncation unchanged. */
  lemma PlainName(s: Str, nfc: seq<Rune> -> seq<Rune>)
    requires KeepsAscii(nfc)
    requires |s| > 0 && forall i | 0 <= i < |s| :: s[i] < 0x80 && Legal(s[i])
    requires !Trailing(s[|s| - 1]) && !Reserved(s)
    ensures Prepare(s, nfc) == s
  {
    hide DecodeAll, EncodeAll, MapRunes, TrimRight, Reserved, Legal;
    var rs := DecodeAll(s);
    AsciiText(s);
    MapRunesLegal(rs);
    assert nfc(rs) == rs;
    TrimIs(s, |s|);
    assert s[..|s|] == s;
  }

  /** Past the length limit a reserved name does get through: "CON", spaces, then "x". */
  lemma ReservedSlipsThrough(s: Str, nfc: seq<Rune> -> seq<Rune>)
    requires KeepsAscii(nfc)
    requires |s| > 256 && s[..3] == Ascii("CON") && s[|s| - 1] == 120
    requires forall i | 3 <= i < |s| - 1 :: s[i] == SPACE
    ensures Sanitize(s, nfc) == Ascii("CON")
  {
    hide Prepare, TrimRight, CutPoint, Reserved, Truncate;
    var head := s[..3];
    forall i | 0 <= i < |s| ensures s[i] < 0x80 && Legal(s[i]) && s[i] != DOT {
      assert i < 3 ==> s[i] == head[i];
    }
    LongStem(s);
    PlainName(s, nfc);
    PaddedTruncates(s, MAX_COMPONENT_BYTES);
  }

  lemma LongStem(s: Str)
    requires |s| > MAX_RESERVED_LEN && forall i | 0 <= i < |s| :: s[i] != DOT
    ensures !Reserved(s)
  {
    StemIs(s, |s|);
  }

  lemma PaddedTruncates(s: Str, room: nat)
    requires 3 <= room < |s| && RuneStart(s[room]) && !Trailing(s[2])
    requires forall i | 3 <= i < room :: s[i] == SPACE
    ensures TrimRight(Truncate(s, room)) == s[..3]
  {
    var t := Truncate(s, room);
    TrimIs(t, 3);
  }

  // ----- In plain characters -----

  /** The printable characters that no component may hold, and the placeholder put for each, in plain text. */
  lemma NeverInComponent(component: Str, nfc: seq<Rune> -> seq<Rune>, i: nat)
    requires NfcSafe(nfc) && i < |Sanitize(component, nfc)|
    ensures |Sanitize(component, nfc)| <= 255
    ensures var b := Sanitize(component, nfc)[i];
      b >= 32 && b != 127 && b !in Ascii("/\\:*?\"<>|")
  {
    hide Sanitize, LegalText;
    var r := Sanitize(component, nfc);
    SanitizeIsSafe(component, nfc);
    LegalBytes(r, i);
    ForbiddenText(r[i]);
  }

  lemma ForbiddenText(b: Byte)
    ensures b in Ascii("/\\:*?\"<>|") ==> IsIllegal(b)
  {
  }

  lemma {:induction false} LegalBytes(b: Str, i: nat)
    requires LegalText(b) && i < |b|
    ensures b[i] < 0x80 ==> Legal(b[i])
  {
    var rs :| AllLegal(rs) && EncodeAll(rs) == b;
    LegalRuneBytes(rs, i);
  }

  lemma {:induction false} LegalRuneBytes(rs: seq<Rune>, i: nat)
    requires AllLegal(rs) && i < |EncodeAll(rs)|
    ensures EncodeAll(rs)[i] < 0x80 ==> Legal(EncodeAll(rs)[i])
    decreases |rs|
  {
    hide Encode, Legal;
    if i >= |Encode(rs[0])| {
      LegalRuneBytes(rs[1..], i - |Encode(rs[0])|);
    } else {
      assert Legal(rs[0]);
    }
  }

  /** A control character and each of  / \ : * ? " < > |  becomes "_", and nothing else changes. */
  lemma {:induction false} MappedRunes(rs: seq<Rune>, i: nat)
    requires i < |rs|
    ensures MapRunes(rs)[i] ==
      if rs[i] < 32 || 127 <= rs[i] < 160 || (rs[i] < 128 && rs[i] in Ascii("/\\:*?\"<>|")) then 95 else rs[i]
  {
    if i > 0 {
      MappedRunes(rs[1..], i - 1);
    } else {
      IllegalText(rs[0]);
    }
  }

  lemma IllegalText(r: Rune)
    ensures IsIllegal(r) <==> r < 128 && r in Ascii("/\\:*?\"<>|")
  {
    var text := Ascii("/\\:*?\"<>|");
    assert text[0] == 47 && text[1] == 92 && text[2] == 58 && text[3] == 42 && text[4] == 63;
    assert text[5] == 34 && text[6] == 60 && text[7] == 62 && text[8] == 124;
  }

  /** A name that needs nothing done to it comes out as it is. */
  lemma UnchangedName(rs: seq<Rune>, nfc: seq<Rune> -> seq<Rune>)
    requires AllLegal(rs) && nfc(rs) == rs
    requires var s := EncodeAll(rs); 0 < |s| <= 255 && !Trailing(s[|s| - 1]) && !Reserved(s)
    ensures Sanitize(EncodeAll(rs), nfc) == EncodeAll(rs)
  {
    hide Reserved, TrimRight, CutPoint, EncodeAll, DecodeAll, MapRunes, Legal;
    var s := EncodeAll(rs);
    DecodeAllEncodeAll(rs);
    MapRunesLegal(rs);
    TrimIs(s, |s|);
    assert s[..|s|] == s;
    ShortKeeps(s);
  }

  /** a is the upper-case text d, in any mixture of cases. */
  predicate SameLetters(a: Str, d: Str)
  {
    |a| == |d| && forall i | 0 <= i < |a| :: a[i] == d[i] || (65 <= d[i] <= 90 && a[i] == d[i] + 32)
  }

  lemma UpperIs(a: Str, d: Str)
    requires forall i | 0 <= i < |d| :: 65 <= d[i] <= 90 || 48 <= d[i] <= 57
    ensures Upper(a) == d <==> SameLetters(a, d)
  {
    if Upper(a) == d {
      assert forall i | 0 <= i < |a| :: Upper(a)[i] == d[i];
    }
    if SameLetters(a, d) {
      assert forall i | 0 <= i < |a| :: Upper(a)[i] == d[i];
    }
  }

  lemma DeviceLetters(d: Str)
    requires DeviceName(d)
    ensures 3 <= |d| <= 4 && forall i | 0 <= i < |d| :: 65 <= d[i] <= 90 || 48 <= d[i] <= 57
  {
    if |d| == 4 {
      assert d == d[..3] + [d[3]];
      assert forall i | 0 <= i < 3 :: d[i] == d[..3][i];
    }
  }

  /** A name is reserved exactly when what comes before its first dot is a device name in any case. */
  lemma ReservedInAnyCase(name: Str)
    ensures Reserved(name) <==> exists d :: DeviceName(d) && SameLetters(Stem(name), d)
  {
    hide DeviceName, Stem, Upper;
    var stem := Stem(name);
    if Reserved(name) {
      DeviceLetters(Upper(stem));
      UpperIs(stem, Upper(stem));
    }
    forall d | DeviceName(d) && SameLetters(stem, d) ensures Reserved(name) {
      DeviceLetters(d);
      UpperIs(stem, d);
    }
  }
}
