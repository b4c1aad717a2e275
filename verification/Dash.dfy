/**
 pkg/tidal/manifest/dash.go: from a decoded MPD to the ordered list of segment
 URLs (ISO/IEC 23009-1, sections 5.3.9.4.4 and 5.3.9.6).
 */
module Dash {
  import opened Wrappers
  import opened Text

  datatype SegmentTemplate = SegmentTemplate(
    initialization: Str, media: Str, startNumber: Option<int>, repeats: seq<int>)

  datatype AdaptationSet = AdaptationSet(mimeType: Str, representations: seq<SegmentTemplate>)

  datatype Period = Period(sets: seq<AdaptationSet>)

  datatype Dash = Dash(
    mimeType: Str, initialization: Str, media: Str, startNumber: int, segmentCount: int)

  datatype ManifestError = NoRepresentation | IncompleteTemplate | NoMediaSegments

  const NUMBER: Str := Ascii("$Number$")

  // ----- Selecting the representation -----

  function FirstInSets(sets: seq<AdaptationSet>): Option<(Str, SegmentTemplate)>
  {
    if sets == [] then None
    else if sets[0].representations != [] then Some((sets[0].mimeType, sets[0].representations[0]))
    else FirstInSets(sets[1..])
  }

  /** firstRepresentation: the first pair in document order. */
  function FirstRepresentation(periods: seq<Period>): Option<(Str, SegmentTemplate)>
  {
    if periods == [] then None
    else
      var f := FirstInSets(periods[0].sets);
      if f.Some? then f else FirstRepresentation(periods[1..])
  }

  /** Every set/representation pair of a document, in document order. */
  function Pairs(mimeType: Str, reps: seq<SegmentTemplate>): seq<(Str, SegmentTemplate)>
  {
    if reps == [] then [] else [(mimeType, reps[0])] + Pairs(mimeType, reps[1..])
  }

  function SetPairs(sets: seq<AdaptationSet>): seq<(Str, SegmentTemplate)>
  {
    if sets == [] then [] else Pairs(sets[0].mimeType, sets[0].representations) + SetPairs(sets[1..])
  }

  function AllPairs(periods: seq<Period>): seq<(Str, SegmentTemplate)>
  {
    if periods == [] then [] else SetPairs(periods[0].sets) + AllPairs(periods[1..])
  }

  function Head<T>(s: seq<T>): Option<T> { if s == [] then None else Some(s[0]) }

  lemma {:induction false} FirstInSetsIsHead(sets: seq<AdaptationSet>)
    ensures FirstInSets(sets) == Head(SetPairs(sets))
    decreases |sets|
  {
    if sets != [] {
      FirstInSetsIsHead(sets[1..]);
    }
  }

  /** Early return from three nested loops finds the head of the flattened document. */
  lemma {:induction false} FirstIsHead(periods: seq<Period>)
    ensures FirstRepresentation(periods) == Head(AllPairs(periods))
    decreases |periods|
  {
    if periods != [] {
      FirstInSetsIsHead(periods[0].sets);
      FirstIsHead(periods[1..]);
    }
  }

  // ----- Counting segments -----

  /** Each <S> stands for one segment and its repeats. */
  function SegmentSum(repeats: seq<int>): int
  {
    if repeats == [] then 0 else SegmentSum(repeats[..|repeats| - 1]) + 1 + repeats[|repeats| - 1]
  }

  /** mpdTimeline.totalSegments. */
  method TotalSegments(repeats: seq<int>) returns (total: int)
    ensures total == SegmentSum(repeats)
  {
    total := 0;
    for i := 0 to |repeats|
      invariant total == SegmentSum(repeats[..i])
    {
      total := total + (1 + repeats[i]);
      assert repeats[..i + 1][..i] == repeats[..i];
    }
    assert repeats[..|repeats|] == repeats;
  }

  function Copies(x: nat, n: nat): (copies: seq<nat>)
    ensures |copies| == n && forall i | 0 <= i < n :: copies[i] == x
  {
    seq(n, i => x)
  }

  /** The timeline written out: entry k of the timeline names the <S> it came from. */
  function Timeline(repeats: seq<int>): seq<nat>
    requires forall i | 0 <= i < |repeats| :: repeats[i] >= 0
  {
    if repeats == [] then []
    else Timeline(repeats[..|repeats| - 1]) + Copies(|repeats| - 1, 1 + repeats[|repeats| - 1])
  }

  /** With no negative repeat, the total is the length of the written-out timeline. */
  lemma {:induction false} TotalIsTimeline(repeats: seq<int>)
    requires forall i | 0 <= i < |repeats| :: repeats[i] >= 0
    ensures SegmentSum(repeats) == |Timeline(repeats)| && |repeats| <= SegmentSum(repeats)
    decreases |repeats|
  {
    if repeats != [] {
      TotalIsTimeline(repeats[..|repeats| - 1]);
    }
  }

  /** Entry k of the timeline names the <S> whose segments, counted through, include the k-th. */
  lemma {:induction false} TimelineAt(repeats: seq<int>, k: nat)
    requires forall j | 0 <= j < |repeats| :: repeats[j] >= 0
    requires k < |Timeline(repeats)|
    ensures var i := Timeline(repeats)[k];
      i < |repeats| && SegmentSum(repeats[..i]) <= k < SegmentSum(repeats[..i]) + 1 + repeats[i]
    decreases |repeats|
  {
    hide SegmentSum;
    var n := |repeats| - 1;
    TotalIsTimeline(repeats[..n]);
    if k < |Timeline(repeats[..n])| {
      TimelineAt(repeats[..n], k);
      var i := Timeline(repeats[..n])[k];
      assert repeats[..n][..i] == repeats[..i];
    }
  }

  method ToDASH(periods: seq<Period>) returns (res: Result<Dash, ManifestError>)
    ensures var first := Head(AllPairs(periods));
      match res
      case Err(NoRepresentation) => first == None
      case Err(IncompleteTemplate) =>
        first.Some? && (first.value.1.initialization == [] || first.value.1.media == [])
      case Err(NoMediaSegments) => first.Some? && SegmentSum(first.value.1.repeats) == 0
      case Ok(d) =>
        && first.Some? && d.mimeType == first.value.0
        && d.initialization == first.value.1.initialization != []
        && d.media == first.value.1.media != []
        && d.segmentCount == SegmentSum(first.value.1.repeats) != 0
        && d.startNumber == (match first.value.1.startNumber case Some(n) => n case None => 1)
  {
    FirstIsHead(periods);
    var first := FirstRepresentation(periods);
    if first == None {
      return Err(NoRepresentation);
    }
    var (mimeType, tmpl) := first.value;
    if tmpl.initialization == [] || tmpl.media == [] {
      return Err(IncompleteTemplate);
    }
    var segmentCount := TotalSegments(tmpl.repeats);
    if segmentCount == 0 {
      return Err(NoMediaSegments);
    }
    var startNumber := 1;
    if tmpl.startNumber.Some? {
      startNumber := tmpl.startNumber.value;
    }
    return Ok(Dash(mimeType, tmpl.initialization, tmpl.media, startNumber, segmentCount));
  }

  // ----- Substituting $Number$ -----

  /** strings.ReplaceAll for a non-empty pattern. */
  function ReplaceAll(s: Str, pat: Str, val: Str): Str
    requires pat != []
    decreases |s|
  {
    if |s| < |pat| then s
    else if s[..|pat|] == pat then val + ReplaceAll(s[|pat|..], pat, val)
    else [s[0]] + ReplaceAll(s[1..], pat, val)
  }

  /** How many replacements ReplaceAll makes. */
  function Count(s: Str, pat: Str): nat
    requires pat != []
    decreases |s|
  {
    if |s| < |pat| then 0
    else if s[..|pat|] == pat then 1 + Count(s[|pat|..], pat)
    else Count(s[1..], pat)
  }

  /** Whether sub occurs somewhere in s. */
  ghost predicate Contains(s: Str, sub: Str)
  {
    exists i :: MatchAt(s, i, sub)
  }

  predicate MatchAt(s: Str, i: int, sub: Str) { 0 <= i <= |s| - |sub| && s[i..i + |sub|] == sub }

  lemma {:induction false} CountPositive(s: Str, pat: Str)
    requires pat != []
    ensures Count(s, pat) > 0 <==> Contains(s, pat)
    decreases |s|
  {
    if |s| < |pat| {
    } else if s[..|pat|] == pat {
      assert MatchAt(s, 0, pat);
    } else {
      CountPositive(s[1..], pat);
      MatchShift(s, pat);
    }
  }

  lemma MatchShift(s: Str, pat: Str)
    requires 0 < |pat| <= |s| && s[..|pat|] != pat
    ensures Contains(s, pat) <==> Contains(s[1..], pat)
  {
    var rest := s[1..];
    forall i | 0 <= i <= |rest| - |pat| ensures MatchAt(rest, i, pat) <==> MatchAt(s, i + 1, pat) {
      assert rest[i..i + |pat|] == s[i + 1..i + 1 + |pat|];
    }
    if Contains(s, pat) {
      var i :| MatchAt(s, i, pat);
      assert i != 0;
      assert MatchAt(rest, i - 1, pat);
    }
    if Contains(rest, pat) {
      var i :| MatchAt(rest, i, pat);
      assert MatchAt(s, i + 1, pat);
    }
  }

  lemma {:induction false} ReplaceLength(s: Str, pat: Str, val: Str)
    requires pat != []
    ensures |ReplaceAll(s, pat, val)| == |s| + Count(s, pat) * (|val| - |pat|)
    decreases |s|
  {
    if |s| < |pat| {
      NoScale(|val| - |pat|);
    } else if s[..|pat|] == pat {
      var rest := s[|pat|..];
      ReplaceLength(rest, pat, val);
      OneMore(Count(rest, pat), |val| - |pat|);
    } else {
      ReplaceLength(s[1..], pat, val);
    }
  }

  lemma NoScale(d: int)
    ensures 0 * d == 0
  {
  }

  lemma OneMore(c: int, d: int)
    ensures (1 + c) * d == d + c * d
  {
  }

  lemma {:induction false} ReplaceEqual(s: Str, pat: Str, a: Str, b: Str)
    requires pat != [] && |a| == |b| && Count(s, pat) > 0
    requires ReplaceAll(s, pat, a) == ReplaceAll(s, pat, b)
    ensures a == b
    decreases |s|
  {
    var x, y := ReplaceAll(s, pat, a), ReplaceAll(s, pat, b);
    if s[..|pat|] == pat {
      assert x[..|a|] == a && y[..|b|] == b;
    } else {
      assert x[1..] == ReplaceAll(s[1..], pat, a);
      assert y[1..] == ReplaceAll(s[1..], pat, b);
      ReplaceEqual(s[1..], pat, a, b);
    }
  }

  lemma {:induction false} ReplaceNothing(s: Str, pat: Str, val: Str)
    requires pat != [] && Count(s, pat) == 0
    ensures ReplaceAll(s, pat, val) == s
    decreases |s|
  {
    if |s| >= |pat| {
      ReplaceNothing(s[1..], pat, val);
    }
  }

  function MediaURL(media: Str, number: int): Str { ReplaceAll(media, NUMBER, Itoa(number)) }

  /** Two numbers get different URLs exactly when the template mentions $Number$. */
  lemma MediaDistinct(media: Str, m: int, n: int)
    requires m != n
    ensures MediaURL(media, m) != MediaURL(media, n) <==> Contains(media, NUMBER)
  {
    hide ReplaceAll, Count, Itoa, Contains;
    CountPositive(media, NUMBER);
    var a, b, k := Itoa(m), Itoa(n), Count(media, NUMBER);
    if k == 0 {
      ReplaceNothing(media, NUMBER, a);
      ReplaceNothing(media, NUMBER, b);
    } else if MediaURL(media, m) == MediaURL(media, n) {
      ReplaceLength(media, NUMBER, a);
      ReplaceLength(media, NUMBER, b);
      EqualScale(k, |a| - |NUMBER|, |b| - |NUMBER|);
      ReplaceEqual(media, NUMBER, a, b);
      ItoaInjective(m, n);
    }
  }

  lemma EqualScale(k: int, x: int, y: int)
    requires k > 0 && k * x == k * y
    ensures x == y
  {
    assert k * (x - y) == 0;
  }

  // ----- The URL list -----

  /**
   DASH.SegmentURLs; maxCap is the most strings the runtime can make room for. None is the
   panic of make: the capacity is negative, which takes negative repeats, or beyond maxCap.
   */
  method SegmentURLs(d: Dash, maxCap: nat) returns (res: Option<seq<Str>>)
    ensures res == None <==> d.segmentCount < -1 || 1 + d.segmentCount > maxCap
    ensures res.Some? ==>
      && |res.value| == 1 + (if d.segmentCount < 0 then 0 else d.segmentCount)
      && res.value[0] == d.initialization
      && forall i | 1 <= i < |res.value| :: res.value[i] == MediaURL(d.media, d.startNumber + i - 1)
  {
    if 1 + d.segmentCount < 0 || 1 + d.segmentCount > maxCap {
      return None;
    }
    var urls := [d.initialization];
    var i := 0;
    while i < d.segmentCount
      invariant 0 <= i && (i <= d.segmentCount || i == 0)
      invariant |urls| == 1 + i && urls[0] == d.initialization
      invariant forall k | 1 <= k < |urls| :: urls[k] == MediaURL(d.media, d.startNumber + k - 1)
    {
      urls := urls + [MediaURL(d.media, d.startNumber + i)];
      i := i + 1;
    }
    return Some(urls);
  }

  /** The URL list a timeline calls for: init, then one URL per timeline entry. */
  predicate UrlsFor(tmpl: SegmentTemplate, urls: seq<Str>)
    requires forall i | 0 <= i < |tmpl.repeats| :: tmpl.repeats[i] >= 0
  {
    var first := match tmpl.startNumber case Some(n) => n case None => 1;
    && |urls| == 1 + |Timeline(tmpl.repeats)|
    && urls[0] == tmpl.initialization
    && forall i | 1 <= i < |urls| :: urls[i] == MediaURL(tmpl.media, first + i - 1)
  }

  /**
   For a document without negative repeats: parsing and expanding yields the URL
   list of its first representation's timeline, with pairwise distinct media URLs
   exactly when $Number$ occurs or there is only one segment. It panics (None) exactly
   when that list is longer than the runtime can make room for.
   */
  method Expand(periods: seq<Period>, maxCap: nat) returns (out: Option<Result<seq<Str>, ManifestError>>)
    requires var first := Head(AllPairs(periods));
      first.Some? ==> forall i | 0 <= i < |first.value.1.repeats| :: first.value.1.repeats[i] >= 0
    ensures out == None || out.value.Ok? <==> var first := Head(AllPairs(periods));
      && first.Some? && first.value.1.initialization != [] && first.value.1.media != []
      && first.value.1.repeats != []
    ensures out == None || out.value.Ok? ==>
      (out == None <==> 1 + |Timeline(Head(AllPairs(periods)).value.1.repeats)| > maxCap)
    ensures out.Some? && out.value.Ok? ==> var urls := out.value.value;
      && UrlsFor(Head(AllPairs(periods)).value.1, urls)
      && ((forall i, j | 1 <= i < j < |urls| :: urls[i] != urls[j]) <==>
          (Contains(Head(AllPairs(periods)).value.1.media, NUMBER) || |urls| == 2))
  {
    hide AllPairs, MediaURL, Contains;
    ghost var first := Head(AllPairs(periods));
    if first.Some? {
      TotalIsTimeline(first.value.1.repeats);
    }
    var dash := ToDASH(periods);
    if dash.Err? {
      return Some(Err(dash.error));
    }
    var d := dash.value;
    var urls := SegmentURLs(d, maxCap);
    if urls == None {
      return None;
    }
    DistinctUrls(d.media, d.startNumber, urls.value);
    return Some(Ok(urls.value));
  }

  lemma DistinctUrls(media: Str, start: int, urls: seq<Str>)
    requires |urls| >= 2
    requires forall i | 1 <= i < |urls| :: urls[i] == MediaURL(media, start + i - 1)
    ensures (forall i, j | 1 <= i < j < |urls| :: urls[i] != urls[j]) <==>
              (Contains(media, NUMBER) || |urls| == 2)
  {
    hide MediaURL, Contains;
    forall i, j | 1 <= i < j < |urls|
      ensures urls[i] != urls[j] <==> Contains(media, NUMBER)
    {
      MediaDistinct(media, start + i - 1, start + j - 1);
    }
    if |urls| > 2 {
      assert urls[1] != urls[2] <==> Contains(media, NUMBER);
    }
  }

  // ----- Which number goes where -----

  /** With one placeholder in the template, the number's decimal text stands in its place. */
  lemma MediaNumber(a: Str, b: Str, number: int)
    requires forall k | 0 <= k < |a| :: !MatchAt(a + Ascii("$Number$") + b, k, Ascii("$Number$"))
    requires !Contains(b, Ascii("$Number$"))
    ensures MediaURL(a + Ascii("$Number$") + b, number) == a + Itoa(number) + b
  {
    hide Itoa;
    ReplaceOnce(a, NUMBER, b, Itoa(number));
  }

  lemma {:induction false} ReplaceOnce(a: Str, pat: Str, b: Str, val: Str)
    requires pat != [] && !Contains(b, pat)
    requires forall k | 0 <= k < |a| :: !MatchAt(a + pat + b, k, pat)
    ensures ReplaceAll(a + pat + b, pat, val) == a + val + b
    decreases |a|
  {
    var s := a + pat + b;
    if a == [] {
      assert s[..|pat|] == pat && s[|pat|..] == b;
      CountPositive(b, pat);
      ReplaceNothing(b, pat, val);
    } else {
      assert !MatchAt(s, 0, pat);
      assert s[0..0 + |pat|] == s[..|pat|];
      var rest := a[1..];
      assert s[1..] == rest + pat + b;
      forall k | 0 <= k < |rest| ensures !MatchAt(rest + pat + b, k, pat) {
        assert !MatchAt(s, k + 1, pat);
        assert s[k + 1..k + 1 + |pat|] == s[1..][k..k + |pat|];
      }
      ReplaceOnce(rest, pat, b, val);
      assert a + val + b == [a[0]] + (rest + val + b);
    }
  }
}
