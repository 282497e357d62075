/** The retry loop of `OpenAIImageEditAdapter.edit_image` in app/ai_adapters.py, and its batch. */
module RetryBackoff {
  import opened Options

  /** What one POST comes to: 429, an image, a timeout, or any other error. */
  datatype Outcome = RateLimited | Image(bytes: string) | TimedOut | Failed(message: string)

  datatype Error = RetriesUsedUp | TimeoutAfterRetries | LastError(message: string)

  datatype Reply = Done(bytes: string) | Raised(error: Error)

  function Pow2(n: nat): (power: nat)
    ensures power > n
  {
    if n == 0 then 1 else 2 * Pow2(n - 1)
  }

  /** The attempts before `n` brought no image. */
  predicate NoneBefore(outcomes: nat -> Outcome, n: nat) {
    forall k: nat | k < n :: !outcomes(k).Image?
  }

  /** Attempt `k` is the first to bring an image. */
  predicate FirstImage(outcomes: nat -> Outcome, k: nat) {
    outcomes(k).Image? && NoneBefore(outcomes, k)
  }

  /** What is raised when none of `retries` attempts brought an image. */
  function FinalError(outcomes: nat -> Outcome, retries: nat): Error {
    if retries == 0 then RetriesUsedUp
    else
      match outcomes(retries - 1)
      case TimedOut => TimeoutAfterRetries
      case Failed(message) => LastError(message)
      case _ => RetriesUsedUp
  }

  /** Only a final 429 waits before giving up. */
  function TotalWait(outcomes: nat -> Outcome, retries: nat): nat {
    if retries == 0 then 0
    else if outcomes(retries - 1).RateLimited? then Pow2(retries) - 1
    else Pow2(retries - 1) - 1
  }

  /** `maxRetries` may be negative: the loop then does not run. */
  method EditImage(outcomes: nat -> Outcome, maxRetries: int) returns (reply: Reply, posts: nat, slept: nat)
    ensures forall k: nat | k < maxRetries && FirstImage(outcomes, k) ::
      reply == Done(outcomes(k).bytes) && posts == k + 1 && slept == Pow2(k) - 1
    ensures maxRetries >= 0 && NoneBefore(outcomes, maxRetries) ==>
      reply == Raised(FinalError(outcomes, maxRetries)) && posts == maxRetries
          && slept == TotalWait(outcomes, maxRetries)
    ensures maxRetries < 0 ==> reply == Raised(RetriesUsedUp) && posts == 0 && slept == 0
    ensures posts <= if maxRetries < 0 then 0 else maxRetries
  {
    posts, slept := 0, 0;
    var attempt := 0;
    while attempt < maxRetries
      invariant 0 <= attempt && (attempt <= maxRetries || attempt == 0)
      invariant posts == attempt && NoneBefore(outcomes, attempt)
      invariant slept == Pow2(attempt) - 1
      invariant attempt > 0 && attempt == maxRetries ==> outcomes(attempt - 1).RateLimited?
    {
      posts := posts + 1;
      match outcomes(attempt) {
        case RateLimited =>
          slept := slept + Pow2(attempt);
        case Image(bytes) =>
          return Done(bytes), posts, slept;
        case TimedOut =>
          if attempt < maxRetries - 1 {
            slept := slept + Pow2(attempt);
          } else {
            return Raised(TimeoutAfterRetries), posts, slept;
          }
        case Failed(message) =>
          if attempt < maxRetries - 1 {
            slept := slept + Pow2(attempt);
          } else {
            return Raised(LastError(message)), posts, slept;
          }
      }
      attempt := attempt + 1;
    }
    return Raised(RetriesUsedUp), posts, slept;
  }

  /** The first image is unique, so the contract of `EditImage` determines every call. */
  lemma EditImageIsDetermined(outcomes: nat -> Outcome, retries: nat)
    ensures NoneBefore(outcomes, retries) || exists k: nat :: k < retries && FirstImage(outcomes, k)
    ensures forall j: nat, k: nat | FirstImage(outcomes, j) && FirstImage(outcomes, k) :: j == k
  {
    if retries > 0 && !NoneBefore(outcomes, retries) {
      EditImageIsDetermined(outcomes, retries - 1);
      if NoneBefore(outcomes, retries - 1) {
        assert FirstImage(outcomes, retries - 1);
      }
    }
  }

  /** Some attempt below the limit brings an image. */
  predicate Succeeds(outcomes: nat -> Outcome, maxRetries: int) {
    maxRetries > 0 && !NoneBefore(outcomes, maxRetries)
  }

  function FirstBytes(outcomes: nat -> Outcome, retries: nat): (bytes: string)
    requires Succeeds(outcomes, retries)
    ensures exists k: nat :: k < retries && FirstImage(outcomes, k) && bytes == outcomes(k).bytes
  {
    if NoneBefore(outcomes, retries - 1) then
      assert FirstImage(outcomes, retries - 1);
      outcomes(retries - 1).bytes
    else FirstBytes(outcomes, retries - 1)
  }

  /** All variants in order, or an error at the first variant that brings no image. */
  method BatchEditImages(outcomes: nat -> (nat -> Outcome), variants: nat, maxRetries: int)
    returns (results: seq<string>, error: Option<Error>, posts: nat)
    ensures error.None? <==> forall i: nat | i < variants :: Succeeds(outcomes(i), maxRetries)
    ensures |results| <= variants && (error.None? ==> |results| == variants)
    ensures forall i: nat | i < |results| ::
        Succeeds(outcomes(i), maxRetries) && results[i] == FirstBytes(outcomes(i), maxRetries)
    ensures error.Some? ==> |results| < variants && !Succeeds(outcomes(|results|), maxRetries)
    ensures error.Some? ==> error.value == FinalError(outcomes(|results|), if maxRetries < 0 then 0 else maxRetries)
    ensures posts <= if maxRetries < 0 then 0 else variants * maxRetries
  {
    results, error, posts := [], None, 0;
    var budget := if maxRetries < 0 then 0 else maxRetries;
    for i := 0 to variants
      invariant |results| == i
      invariant forall j: nat | j < i ::
          Succeeds(outcomes(j), maxRetries) && results[j] == FirstBytes(outcomes(j), maxRetries)
      invariant posts <= i * budget
    {
      var reply, tries, _ := EditImage(outcomes(i), maxRetries);
      EditImageIsDetermined(outcomes(i), budget);
      posts := posts + tries;
      assert posts <= (i + 1) * budget;
      ProductGrows(i + 1, variants, budget);
      if reply.Raised? {
        return results, Some(reply.error), posts;
      }
      results := results + [reply.bytes];
    }
  }

  lemma ProductGrows(a: nat, b: nat, c: nat)
    requires a <= b
    ensures a * c <= b * c
  {
  }
}
