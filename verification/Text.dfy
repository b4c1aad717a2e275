/**
 Go strings as byte sequences, with the few strings and strconv functions the
 modelled code relies on: IndexByte, Split, Join and Itoa.
 */
module Text {

  type Byte = b: int | 0 <= b < 256

  /** A Go string: bytes, not characters. */
  type Str = seq<Byte>

  const SLASH: Byte := 47
  const DOT: Byte := 46
  const SPACE: Byte := 32
  const UNDERSCORE: Byte := 95

  /** The bytes of an ASCII literal. */
  function Ascii(s: string): (r: Str)
    requires forall i | 0 <= i < |s| :: s[i] < 128 as char
    ensures |r| == |s|
    ensures forall i | 0 <= i < |s| :: r[i] == s[i] as int
  {
    seq(|s|, i requires 0 <= i < |s| => s[i] as int)
  }

  lemma Assoc(a: Str, b: Str, c: Str)
    ensures a + b + c == a + (b + c)
  {
  }

  lemma NilLeft(a: Str)
    ensures [] + a == a
  {
  }

  /** strings.IndexByte: the first position of c, or -1. */
  function IndexByte(s: Str, c: Byte): (i: int)
    ensures -1 <= i < |s|
    ensures i >= 0 ==> s[i] == c
    ensures forall k | 0 <= k < (if i < 0 then |s| else i) :: s[k] != c
  {
    if s == [] then -1
    else if s[0] == c then 0
    else
      var j := IndexByte(s[1..], c);
      if j < 0 then -1 else j + 1
  }

  /** IndexByte is determined by where c first occurs. */
  lemma IndexByteIs(s: Str, c: Byte, i: nat)
    requires i < |s| && s[i] == c && forall k | 0 <= k < i :: s[k] != c
    ensures IndexByte(s, c) == i
  {
    var j := IndexByte(s, c);
    assert j >= 0;
  }

  /** strings.Split on a one-byte separator. */
  function Split(s: Str, c: Byte): (parts: seq<Str>)
    ensures |parts| >= 1
    decreases |s|
  {
    var i := IndexByte(s, c);
    if i < 0 then [s] else [s[..i]] + Split(s[i + 1..], c)
  }

  /** strings.Join on a one-byte separator. */
  function Join(parts: seq<Str>, c: Byte): Str
  {
    if |parts| == 0 then []
    else if |parts| == 1 then parts[0]
    else parts[0] + [c] + Join(parts[1..], c)
  }

  /** Split unfolded at the first separator. */
  lemma {:induction false} SplitAt(s: Str, c: Byte, i: nat)
    requires i < |s| && s[i] == c && forall k | 0 <= k < i :: s[k] != c
    ensures Split(s, c) == [s[..i]] + Split(s[i + 1..], c)
  {
    hide IndexByte;
    IndexByteIs(s, c, i);
  }

  lemma {:induction false} SplitNone(s: Str, c: Byte)
    requires forall k | 0 <= k < |s| :: s[k] != c
    ensures Split(s, c) == [s]
  {
    hide IndexByte;
  }

  lemma {:induction false} JoinCons(p: Str, rest: seq<Str>, c: Byte)
    requires rest != []
    ensures Join([p] + rest, c) == p + [c] + Join(rest, c)
  {
    assert ([p] + rest)[1..] == rest;
  }

  lemma {:induction false} JoinOne(p: Str, c: Byte)
    ensures Join([p], c) == p
  {
  }

  /** Splitting undoes joining when no part contains the separator. */
  lemma {:induction false} SplitJoin(parts: seq<Str>, c: Byte)
    requires |parts| >= 1
    requires forall p | p in parts :: c !in p
    ensures Split(Join(parts, c), c) == parts
    decreases |parts|
  {
    hide Split, Join;
    var p, rest := parts[0], parts[1..];
    assert p in parts && parts == [p] + rest;
    if rest == [] {
      assert parts == [p];
      JoinOne(p, c);
      SplitNone(p, c);
    } else {
      JoinCons(p, rest, c);
      SplitJoin(rest, c);
      SplitFront(p, Join(rest, c), c);
    }
  }

  lemma {:induction false} SplitFront(p: Str, rest: Str, c: Byte)
    requires c !in p
    ensures Split(p + [c] + rest, c) == [p] + Split(rest, c)
  {
    hide Split;
    var s := p + [c] + rest;
    assert forall k | 0 <= k < |p| :: s[k] == p[k] && p[k] in p;
    SplitAt(s, c, |p|);
    assert s[..|p|] == p && s[|p| + 1..] == rest;
  }

  /** Decimal digits of a natural number, most significant first. */
  function Digits(n: nat): (r: Str)
    ensures |r| >= 1
    ensures forall b | b in r :: 48 <= b <= 57
  {
    if n < 10 then [48 + n] else Digits(n / 10) + [48 + n % 10]
  }

  /** strconv.Itoa. */
  function Itoa(n: int): (r: Str)
    ensures |r| >= 1
    ensures SLASH !in r
  {
    if n < 0 then [45] + Digits(-n) else Digits(n)
  }

  /** The number a digit string denotes. */
  function DigitsValue(s: Str): int
  {
    if s == [] then 0 else 10 * DigitsValue(s[..|s| - 1]) + (s[|s| - 1] as int - 48)
  }

  lemma {:induction false} DigitsRoundTrip(n: nat)
    ensures DigitsValue(Digits(n)) == n
    decreases n
  {
    var d := Digits(n);
    if n < 10 {
      assert d[..|d| - 1] == [];
    } else {
      DigitsRoundTrip(n / 10);
      assert d[..|d| - 1] == Digits(n / 10);
    }
  }

  /** Two numbers with the same decimal text are the same number. */
  lemma ItoaInjective(m: int, n: int)
    ensures Itoa(m) == Itoa(n) ==> m == n
  {
    hide Digits, DigitsValue;
    assert m >= 0 ==> Digits(m)[0] in Digits(m);
    assert n >= 0 ==> Digits(n)[0] in Digits(n);
    if Itoa(m) == Itoa(n) {
      if m < 0 && n < 0 {
        assert Digits(-m) == Itoa(m)[1..] == Digits(-n);
        DigitsRoundTrip(-m);
        DigitsRoundTrip(-n);
      } else if m >= 0 && n >= 0 {
        DigitsRoundTrip(m);
        DigitsRoundTrip(n);
      }
    }
  }
}
