/**
 Error causes and their classification: permanentFailure (internal/sync/failure.go)
 and the cancellation test of markFailed (internal/sync/process.go), over the trees
 that fmt.Errorf("%w") builds.
 */
module Failure {
  import opened Wrappers

  /** The sentinel errors the syncer tells apart; Other stands for every remaining one. */
  datatype Sentinel =
    | BelowFloor | EncryptedSkip | UnsupportedManifest | TrackUnavailable
    | Canceled | DeadlineExceeded | Encrypted | UnknownMime | Other(n: int)

  datatype Err =
    | Leaf(sentinel: Sentinel)
    | Api(status: int)               // a *tidal.APIError
    | Wrap(inner: Err)               // fmt.Errorf with one %w
    | Both(first: Err, second: Err)  // fmt.Errorf with two %w

  const NOT_FOUND := 404

  /** errors.Is(e, s). */
  predicate Is(e: Err, s: Sentinel)
  {
    match e
    case Leaf(t) => t == s
    case Api(_) => false
    case Wrap(inner) => Is(inner, s)
    case Both(a, b) => Is(a, s) || Is(b, s)
  }

  /** errors.As to *APIError: the first one met, depth first. */
  function AsApi(e: Err): Option<int>
  {
    match e
    case Leaf(_) => None
    case Api(status) => Some(status)
    case Wrap(inner) => AsApi(inner)
    case Both(a, b) => if AsApi(a).Some? then AsApi(a) else AsApi(b)
  }

  predicate PermanentFailure(cause: Err)
  {
    if Is(cause, BelowFloor) || Is(cause, EncryptedSkip) || Is(cause, UnsupportedManifest) ||
      Is(cause, TrackUnavailable)
    then true
    else match AsApi(cause)
         case Some(status) => status == NOT_FOUND
         case None => false
  }

  /** A cancellation is neither counted nor recorded. */
  predicate Cancellation(cause: Err) { Is(cause, Canceled) || Is(cause, DeadlineExceeded) }

  // ----- What the classification means -----

  /** The errors at the leaves, in the order a reader of the message meets them. */
  function Causes(e: Err): seq<Err>
  {
    match e
    case Leaf(_) => [e]
    case Api(_) => [e]
    case Wrap(inner) => Causes(inner)
    case Both(a, b) => Causes(a) + Causes(b)
  }

  ghost predicate FirstApiAt(causes: seq<Err>, i: int)
  {
    0 <= i < |causes| && causes[i].Api? && forall j | 0 <= j < i :: !causes[j].Api?
  }

  lemma {:induction false} IsMeansCause(e: Err, s: Sentinel)
    ensures Is(e, s) <==> Leaf(s) in Causes(e)
  {
    match e
    case Leaf(_) =>
    case Api(_) =>
    case Wrap(inner) => IsMeansCause(inner, s);
    case Both(a, b) => IsMeansCause(a, s); IsMeansCause(b, s);
  }

  lemma {:induction false} AsApiMeansFirst(e: Err)
    ensures AsApi(e).Some? ==> exists i :: FirstApiAt(Causes(e), i) && Causes(e)[i] == Api(AsApi(e).value)
    ensures AsApi(e).None? ==> forall i | 0 <= i < |Causes(e)| :: !Causes(e)[i].Api?
  {
    match e
    case Leaf(_) =>
    case Api(_) => assert FirstApiAt(Causes(e), 0);
    case Wrap(inner) =>
      AsApiMeansFirst(inner);
      if AsApi(inner).Some? {
        var i :| FirstApiAt(Causes(inner), i) && Causes(inner)[i] == Api(AsApi(inner).value);
        assert FirstApiAt(Causes(e), i);
      }
    case Both(a, b) =>
      AsApiMeansFirst(a);
      AsApiMeansFirst(b);
      var causes := Causes(a) + Causes(b);
      assert Causes(e) == causes;
      if AsApi(a).Some? {
        var i :| FirstApiAt(Causes(a), i) && Causes(a)[i] == Api(AsApi(a).value);
        assert FirstApiAt(causes, i) && causes[i] == Causes(a)[i];
      } else if AsApi(b).Some? {
        var i :| FirstApiAt(Causes(b), i) && Causes(b)[i] == Api(AsApi(b).value);
        assert FirstApiAt(causes, |Causes(a)| + i);
      }
  }

  /**
   A failure is permanent exactly when one of its causes is hopeless, or the first
   API error among them is a 404; how the causes are wrapped does not matter.
   */
  lemma PermanentExactly(e: Err)
    ensures PermanentFailure(e) <==>
      || (exists s | s in {BelowFloor, EncryptedSkip, UnsupportedManifest, TrackUnavailable} :: Leaf(s) in Causes(e))
      || (exists i :: FirstApiAt(Causes(e), i) && Causes(e)[i] == Api(404))
  {
    IsMeansCause(e, BelowFloor);
    IsMeansCause(e, EncryptedSkip);
    IsMeansCause(e, UnsupportedManifest);
    IsMeansCause(e, TrackUnavailable);
    AsApiMeansFirst(e);
    if AsApi(e).Some? {
      var i :| FirstApiAt(Causes(e), i) && Causes(e)[i] == Api(AsApi(e).value);
      assert forall j | FirstApiAt(Causes(e), j) :: j == i;
    }
  }
}
