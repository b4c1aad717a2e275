/**
 Audio tiers (pkg/tidal/quality.go) and how one download picks its tier and fails:
 fetchManifest, producerFor and Download (pkg/tidal/download/download.go).
 */
module Download {
  import opened Wrappers
  import opened Failure

  /** A tier; the wire strings outside the four known ones are Unrecognized. */
  datatype Tier = HiResLossless | Lossless | High | Low | Unrecognized(wire: string)

  function Rank(q: Tier): nat
  {
    match q
    case HiResLossless => 4
    case Lossless => 3
    case High => 2
    case Low => 1
    case Unrecognized(_) => 0
  }

  predicate MeetsLosslessFloor(q: Tier) { q == Lossless || q == HiResLossless }

  /** quality.floor and quality.request as the config validator accepts them. */
  predicate ValidQuality(request: Tier, floor: Tier)
  {
    MeetsLosslessFloor(floor) && MeetsLosslessFloor(request) && Rank(floor) <= Rank(request)
  }

  /** What base64, JSON and XML make of a manifest; Malformed(n) is the n-th of their errors. */
  datatype Manifest = Bts | Dash | EncryptedBts | Malformed(n: int) | UnknownMimeType

  datatype ManifestKind = KindBTS | KindDASH

  datatype Playback = Playback(granted: Tier, manifest: Manifest)

  /** What the provider answers for one tier; `cancelled` is ctx.Err() right after a refusal. */
  datatype Answer = Granted(playback: Playback) | Refused(error: Err, cancelled: Option<Err>)

  /** The tiers fetchManifest walks, best first. */
  const LADDER: seq<Tier> := [HiResLossless, Lossless]

  predicate InBand(q: Tier, request: Tier, floor: Tier) { Rank(floor) <= Rank(q) <= Rank(request) }

  predicate Accepted(a: Answer, floor: Tier) { a.Granted? && Rank(a.playback.granted) >= Rank(floor) }

  predicate Aborts(a: Answer) { a.Refused? && a.cancelled.Some? }

  /** The i-th tier is the first one asked for that settles the matter. */
  ghost predicate Settles(provider: Tier -> Answer, request: Tier, floor: Tier, i: int)
  {
    && 0 <= i < |LADDER| && InBand(LADDER[i], request, floor)
    && (Accepted(provider(LADDER[i]), floor) || Aborts(provider(LADDER[i])))
    && forall j | 0 <= j < i && InBand(LADDER[j], request, floor) ::
         !Accepted(provider(LADDER[j]), floor) && !Aborts(provider(LADDER[j]))
  }

  ghost predicate SawSubFloor(provider: Tier -> Answer, request: Tier, floor: Tier)
  {
    exists i | 0 <= i < |LADDER| :: InBand(LADDER[i], request, floor) && provider(LADDER[i]).Granted?
  }

  /** The error when no tier of the band settles the matter: the last refusal, unless a lossy grant hides it. */
  ghost function Exhausted(provider: Tier -> Answer, request: Tier, floor: Tier): Err
  {
    if SawSubFloor(provider, request, floor) then Wrap(Leaf(BelowFloor))
    else if InBand(Lossless, request, floor) && provider(Lossless).Refused? then Wrap(provider(Lossless).error)
    else if InBand(HiResLossless, request, floor) && provider(HiResLossless).Refused?
    then Wrap(provider(HiResLossless).error)
    else Wrap(Leaf(BelowFloor))
  }

  ghost predicate Unsettled(provider: Tier -> Answer, request: Tier, floor: Tier)
  {
    forall i :: !Settles(provider, request, floor, i)
  }

  /**
   The first tier of the band granted at or above the floor, whatever lower tiers
   would answer. When none is, a lossy grant or an empty band is a below-floor error,
   which hides every other tier's own error; else the last tier's error is reported.
   */
  method FetchManifest(provider: Tier -> Answer, request: Tier, floor: Tier) returns (r: Result<Playback, Err>)
    ensures r.Ok? ==> exists i :: Settles(provider, request, floor, i) && provider(LADDER[i]) == Granted(r.value)
    ensures forall i | Settles(provider, request, floor, i) ::
      r == match provider(LADDER[i]) case Granted(p) => Ok(p) case Refused(_, c) => Err(Wrap(c.value))
    ensures Unsettled(provider, request, floor) ==> r == Err(Exhausted(provider, request, floor))
  {
    hide Settles, SawSubFloor, Unsettled, Exhausted, Accepted, Aborts, InBand;
    var lastErr: Option<Err> := None;
    var sawSubFloor := false;
    for k := 0 to |LADDER|
      invariant forall j | 0 <= j < k :: PassedOver(provider, request, floor, LADDER[j])
      invariant sawSubFloor == SubFloorBefore(provider, request, floor, k)
      invariant lastErr == RefusedBefore(provider, request, floor, k)
    {
      var quality := LADDER[k];
      BandIs(quality, request, floor);
      if Rank(quality) > Rank(request) || Rank(quality) < Rank(floor) {
        continue;
      }
      AnswerIs(provider(quality), floor);
      SettlesAt(provider, request, floor, k);
      match provider(quality)
      case Refused(error, cancelled) =>
        if cancelled.Some? {
          return Err(Wrap(cancelled.value));
        }
        lastErr := Some(error);
      case Granted(playback) =>
        if Rank(playback.granted) >= Rank(floor) {
          return Ok(playback);
        }
        sawSubFloor := true;
    }
    NeverSettles(provider, request, floor);
    if sawSubFloor {
      return Err(Wrap(Leaf(BelowFloor)));
    }
    if lastErr.Some? {
      return Err(Wrap(lastErr.value));
    }
    return Err(Wrap(Leaf(BelowFloor)));
  }

  predicate PassedOver(provider: Tier -> Answer, request: Tier, floor: Tier, q: Tier)
  {
    InBand(q, request, floor) ==> !Accepted(provider(q), floor) && !Aborts(provider(q))
  }

  predicate SubFloorBefore(provider: Tier -> Answer, request: Tier, floor: Tier, k: nat)
    requires k <= |LADDER|
  {
    if k == 0 then false
    else SubFloorBefore(provider, request, floor, k - 1)
         || (InBand(LADDER[k - 1], request, floor) && provider(LADDER[k - 1]).Granted?)
  }

  function RefusedBefore(provider: Tier -> Answer, request: Tier, floor: Tier, k: nat): Option<Err>
    requires k <= |LADDER|
  {
    if k == 0 then None
    else if InBand(LADDER[k - 1], request, floor) && provider(LADDER[k - 1]).Refused?
    then Some(provider(LADDER[k - 1]).error)
    else RefusedBefore(provider, request, floor, k - 1)
  }

  lemma BandIs(q: Tier, request: Tier, floor: Tier)
    ensures InBand(q, request, floor) <==> !(Rank(q) > Rank(request) || Rank(q) < Rank(floor))
  {
  }

  lemma AnswerIs(a: Answer, floor: Tier)
    ensures Accepted(a, floor) <==> a.Granted? && Rank(a.playback.granted) >= Rank(floor)
    ensures Aborts(a) <==> a.Refused? && a.cancelled.Some?
  {
  }

  /** The first tier in the band that is not passed over settles the matter, and no other does. */
  lemma SettlesAt(provider: Tier -> Answer, request: Tier, floor: Tier, k: nat)
    requires k < |LADDER| && forall j | 0 <= j < k :: PassedOver(provider, request, floor, LADDER[j])
    ensures InBand(LADDER[k], request, floor) && !PassedOver(provider, request, floor, LADDER[k]) ==>
      && Settles(provider, request, floor, k) && !Unsettled(provider, request, floor)
      && forall i | Settles(provider, request, floor, i) :: i == k
  {
    hide Accepted, Aborts, InBand;
  }

  lemma NeverSettles(provider: Tier -> Answer, request: Tier, floor: Tier)
    requires forall j | 0 <= j < |LADDER| :: PassedOver(provider, request, floor, LADDER[j])
    ensures Unsettled(provider, request, floor) && forall i :: !Settles(provider, request, floor, i)
    ensures Exhausted(provider, request, floor) ==
      if SubFloorBefore(provider, request, floor, |LADDER|) then Wrap(Leaf(BelowFloor))
      else match RefusedBefore(provider, request, floor, |LADDER|)
           case Some(e) => Wrap(e)
           case None => Wrap(Leaf(BelowFloor))
  {
    hide Accepted, Aborts, InBand;
    forall i ensures !Settles(provider, request, floor, i) {
      if 0 <= i < |LADDER| {
        assert PassedOver(provider, request, floor, LADDER[i]);
      }
    }
    assert LADDER[0] == HiResLossless && LADDER[1] == Lossless;
    assert SubFloorBefore(provider, request, floor, 1) <==>
      InBand(HiResLossless, request, floor) && provider(HiResLossless).Granted?;
    assert SubFloorBefore(provider, request, floor, 2) <==> SawSubFloor(provider, request, floor);
    assert RefusedBefore(provider, request, floor, 0) == None;
  }

  /** manifest.Parse, as far as its kinds and errors go. */
  function Parse(m: Manifest): Result<ManifestKind, Err>
  {
    match m
    case Bts => Ok(KindBTS)
    case Dash => Ok(KindDASH)
    case EncryptedBts => Err(Wrap(Leaf(Encrypted)))
    case Malformed(n) => Err(Wrap(Leaf(Other(n))))
    case UnknownMimeType => Err(Leaf(UnknownMime))
  }

  /** producerFor: by the time it runs the manifest is one of the two kinds Parse knows. */
  function ProducerFor(kind: ManifestKind): Result<ManifestKind, Err>
  {
    if kind == KindBTS then Ok(KindBTS)
    else if kind == KindDASH then Ok(KindDASH)
    else Err(Wrap(Leaf(UnsupportedManifest)))
  }

  /** What Download reports for a manifest it can make nothing of. */
  function ManifestError(m: Manifest): Err
    requires !m.Bts? && !m.Dash?
  {
    match m
    case EncryptedBts => Wrap(Leaf(EncryptedSkip))
    case UnknownMimeType => Wrap(Leaf(UnknownMime))
    case Malformed(n) => Wrap(Wrap(Leaf(Other(n))))
  }

  lemma OnlyEncryptedIsPermanent(m: Manifest)
    requires !m.Bts? && !m.Dash?
    ensures PermanentFailure(ManifestError(m)) <==> m.EncryptedBts?
  {
    PermanentExactly(ManifestError(m));
    match m
    case EncryptedBts => assert Causes(Wrap(Leaf(EncryptedSkip))) == [Leaf(EncryptedSkip)];
    case UnknownMimeType => assert Causes(Wrap(Leaf(UnknownMime))) == [Leaf(UnknownMime)];
    case Malformed(n) =>
      assert Causes(Wrap(Wrap(Leaf(Other(n))))) == Causes(Wrap(Leaf(Other(n)))) == [Leaf(Other(n))];
  }

  /** What the answer that settles the matter makes of a download. */
  ghost function MadeOf(a: Answer, write: ManifestKind -> Option<Err>): Result<Tier, Err>
    requires a.Granted? || a.cancelled.Some?
  {
    match a
    case Refused(_, cancelled) => Err(Wrap(cancelled.value))
    case Granted(playback) =>
      if !playback.manifest.Bts? && !playback.manifest.Dash? then Err(ManifestError(playback.manifest))
      else
        var failed := write(if playback.manifest.Bts? then KindBTS else KindDASH);
        if failed.Some? then Err(failed.value) else Ok(playback.granted)
  }

  /** What a download comes to, said without walking the tiers. */
  ghost function Delivery(
    provider: Tier -> Answer, request: Tier, floor: Tier, write: ManifestKind -> Option<Err>): Result<Tier, Err>
  {
    if i :| Settles(provider, request, floor, i) then MadeOf(provider(LADDER[i]), write)
    else Err(Exhausted(provider, request, floor))
  }

  /** Only one tier settles the matter. */
  lemma SettlesOnce(provider: Tier -> Answer, request: Tier, floor: Tier, i: int, j: int)
    requires Settles(provider, request, floor, i) && Settles(provider, request, floor, j)
    ensures i == j
  {
    hide InBand, Accepted, Aborts;
  }

  lemma DeliveryIs(
    provider: Tier -> Answer, request: Tier, floor: Tier, write: ManifestKind -> Option<Err>, i: int)
    requires Settles(provider, request, floor, i)
    ensures Delivery(provider, request, floor, write) == MadeOf(provider(LADDER[i]), write)
  {
    forall j | Settles(provider, request, floor, j) ensures j == i {
      SettlesOnce(provider, request, floor, i, j);
    }
  }

  lemma NotDelivered(provider: Tier -> Answer, request: Tier, floor: Tier, write: ManifestKind -> Option<Err>)
    requires Unsettled(provider, request, floor)
    ensures Delivery(provider, request, floor, write) == Err(Exhausted(provider, request, floor))
  {
  }

  /** What is delivered honours the floor, and is the tier granted by the answer that settled the matter. */
  lemma DeliveredTier(provider: Tier -> Answer, request: Tier, floor: Tier, write: ManifestKind -> Option<Err>)
    requires Delivery(provider, request, floor, write).Ok?
    ensures var q := Delivery(provider, request, floor, write).value;
      && Rank(q) >= Rank(floor)
      && exists i ::
           && Settles(provider, request, floor, i) && provider(LADDER[i]).Granted?
           && provider(LADDER[i]).playback.granted == q
           && var m := provider(LADDER[i]).playback.manifest;
              (m.Bts? && write(KindBTS).None?) || (m.Dash? && write(KindDASH).None?)
  {
    if i :| Settles(provider, request, floor, i) {
      DeliveryIs(provider, request, floor, write, i);
    } else {
      NotDelivered(provider, request, floor, write);
    }
  }

  /**
   Download; `write` is what writeAtomic reports for the chosen producer. Of the granted
   manifests that cannot be downloaded only an encrypted one is a permanent failure: an
   unknown MIME type, documented as unsupported and permanent, is retried every cycle,
   because Parse rejects it before producerFor can.
   */
  method DownloadTrack(provider: Tier -> Answer, request: Tier, floor: Tier, write: ManifestKind -> Option<Err>)
    returns (r: Result<Tier, Err>)
    ensures r == Delivery(provider, request, floor, write)
    ensures r.Ok? ==> exists i ::
      && Settles(provider, request, floor, i) && provider(LADDER[i]).Granted?
      && provider(LADDER[i]).playback.granted == r.value && Rank(r.value) >= Rank(floor)
    ensures r.Ok? && ValidQuality(request, floor) ==> MeetsLosslessFloor(r.value)
    ensures forall i | Settles(provider, request, floor, i) && provider(LADDER[i]).Granted? ::
      var playback := provider(LADDER[i]).playback;
      if playback.manifest.Bts? || playback.manifest.Dash? then
        var failed := write(if playback.manifest.Bts? then KindBTS else KindDASH);
        r == if failed.Some? then Err(failed.value) else Ok(playback.granted)
      else
        r == Err(ManifestError(playback.manifest)) && (PermanentFailure(r.error) <==> playback.manifest.EncryptedBts?)
    ensures Unsettled(provider, request, floor) ==> r == Err(Exhausted(provider, request, floor))
  {
    if i :| Settles(provider, request, floor, i) {
      DeliveryIs(provider, request, floor, write, i);
    } else {
      NotDelivered(provider, request, floor, write);
    }
    var fetched := FetchManifest(provider, request, floor);
    if fetched.Err? {
      return Err(fetched.error);
    }
    var playback := fetched.value;
    var parsed := Parse(playback.manifest);
    if parsed.Err? {
      OnlyEncryptedIsPermanent(playback.manifest);
      assert forall n :: !Is(Leaf(Other(n)), Encrypted);
      if Is(parsed.error, Encrypted) {
        return Err(Wrap(Leaf(EncryptedSkip)));
      }
      return Err(Wrap(parsed.error));
    }
    var produce := ProducerFor(parsed.value);
    match produce
    case Err(e) => return Err(e);
    case Ok(kind) =>
      var failed := write(kind);
      if failed.Some? {
        return Err(failed.value);
      }
      return Ok(playback.granted);
  }

  /** A lossy grant on the higher tier makes the track a permanent failure, however briefly the lower one failed. */
  lemma LossyGrantHidesTransient(provider: Tier -> Answer, request: Tier, floor: Tier)
    requires Unsettled(provider, request, floor)
    ensures PermanentFailure(Exhausted(provider, request, floor)) <==>
      || SawSubFloor(provider, request, floor)
      || (!InBand(Lossless, request, floor) && !InBand(HiResLossless, request, floor))
      || (InBand(Lossless, request, floor) && provider(Lossless).Refused? && PermanentFailure(provider(Lossless).error))
      || (!InBand(Lossless, request, floor) && provider(HiResLossless).Refused? &&
            PermanentFailure(provider(HiResLossless).error))
  {
    assert LADDER[0] == HiResLossless && LADDER[1] == Lossless;
    assert Is(Wrap(Leaf(BelowFloor)), BelowFloor);
    assert forall e :: PermanentFailure(Wrap(e)) == PermanentFailure(e);
  }

  /**
   Under the documented quality settings: the best tier is downloaded whenever it is granted
   losslessly, the next one only when the best one is not to be had, and no lossy grant ever.
   */
  lemma BestTierFirst(provider: Tier -> Answer, write: ManifestKind -> Option<Err>)
    ensures var best, next := provider(HiResLossless), provider(Lossless);
      var r := Delivery(provider, HiResLossless, Lossless, write);
      && (r.Ok? ==> r.value == HiResLossless || r.value == Lossless)
      && (best.Granted? && (best.playback.granted == HiResLossless || best.playback.granted == Lossless) ==>
            r == MadeOf(best, write))
      && (if best.Granted? then best.playback.granted != HiResLossless && best.playback.granted != Lossless
          else best.cancelled.None?) ==>
         next.Granted? && (next.playback.granted == HiResLossless || next.playback.granted == Lossless) ==>
         r == MadeOf(next, write)
  {
    var best, next := provider(HiResLossless), provider(Lossless);
    assert LADDER[0] == HiResLossless && LADDER[1] == Lossless;
    if Delivery(provider, HiResLossless, Lossless, write).Ok? {
      DeliveredTier(provider, HiResLossless, Lossless, write);
    }
    if Accepted(best, Lossless) {
      assert Settles(provider, HiResLossless, Lossless, 0);
      DeliveryIs(provider, HiResLossless, Lossless, write, 0);
    } else if !Aborts(best) && Accepted(next, Lossless) {
      assert Settles(provider, HiResLossless, Lossless, 1);
      DeliveryIs(provider, HiResLossless, Lossless, write, 1);
    }
  }

  /** Best first; what is not one of the four ranks below them all. */
  lemma TiersRanked(wire: string)
    ensures Rank(HiResLossless) > Rank(Lossless) > Rank(High) > Rank(Low) > Rank(Unrecognized(wire))
  {
  }

  /** A request for LOSSLESS never asks for the tier above it. */
  lemma RequestIsCeiling(a: Tier -> Answer, b: Tier -> Answer, write: ManifestKind -> Option<Err>)
    requires a(Lossless) == b(Lossless)
    ensures Delivery(a, Lossless, Lossless, write) == Delivery(b, Lossless, Lossless, write)
  {
    assert LADDER[0] == HiResLossless && LADDER[1] == Lossless;
    if Accepted(a(Lossless), Lossless) || Aborts(a(Lossless)) {
      assert Settles(a, Lossless, Lossless, 1) && Settles(b, Lossless, Lossless, 1);
      DeliveryIs(a, Lossless, Lossless, write, 1);
      DeliveryIs(b, Lossless, Lossless, write, 1);
    } else {
      NotDelivered(a, Lossless, Lossless, write);
      NotDelivered(b, Lossless, Lossless, write);
    }
  }

  /** The quality settings the validator accepts, all of them. */
  lemma ValidSettings(request: Tier, floor: Tier)
    ensures ValidQuality(request, floor) <==>
      (request, floor) in {(HiResLossless, HiResLossless), (HiResLossless, Lossless), (Lossless, Lossless)}
    ensures MeetsLosslessFloor(request) <==> request in {HiResLossless, Lossless}
  {
  }
}
