/** Retryable errors, the retry policy and its bounded exponential backoff. */
module Retry {
  import opened Wrappers
  import Ordering

  newtype int64 = x: int | -0x8000_0000_0000_0000 <= x < 0x8000_0000_0000_0000

  /** A time span in nanoseconds. */
  type Duration = int64

  const DEFAULT_MAX_ATTEMPTS: int64 := 5
  const DEFAULT_INITIAL_DELAY: Duration := 500_000_000
  const DEFAULT_MAX_DELAY: Duration := 30_000_000_000

  // ----- the error tree -----

  /** An error that wraps one error, joins several, marks one as retryable, or is a leaf. */
  datatype Error =
    | Leaf(text: string)
    | Wrap(text: string, inner: Error)
    | Join(errors: seq<Error>)
    | Retryable(err: Error, retryAfter: Duration)

  function Mark(err: Error, retryAfter: Duration): Error {
    Retryable(err, if retryAfter < 0 then 0 else retryAfter)
  }

  function AfterAny(errors: seq<Error>): Option<Duration> {
    if errors == [] then None
    else
      var first := After(errors[0]);
      if first.Some? then first else AfterAny(errors[1..])
  }

  /** The first retryable error of the tree, depth first, as errors.As finds it. */
  function After(err: Error): Option<Duration> {
    match err
    case Leaf(_) => None
    case Wrap(_, inner) => After(inner)
    case Join(errors) => AfterAny(errors)
    case Retryable(_, retryAfter) => Some(retryAfter)
  }

  function MarksAll(errors: seq<Error>): seq<Duration> {
    if errors == [] then [] else Marks(errors[0]) + MarksAll(errors[1..])
  }

  /** All the marks of the tree, from the root down and from left to right. */
  function Marks(err: Error): seq<Duration> {
    match err
    case Leaf(_) => []
    case Wrap(_, inner) => Marks(inner)
    case Join(errors) => MarksAll(errors)
    case Retryable(inner, retryAfter) => [retryAfter] + Marks(inner)
  }

  lemma {:induction false} AfterAnyIsFirstMark(errors: seq<Error>)
    ensures AfterAny(errors) == if MarksAll(errors) == [] then None else Some(MarksAll(errors)[0])
  {
    if errors != [] {
      AfterIsFirstMark(errors[0]);
      AfterAnyIsFirstMark(errors[1..]);
    }
  }

  lemma {:induction false} AfterIsFirstMark(err: Error)
    ensures After(err) == if Marks(err) == [] then None else Some(Marks(err)[0])
  {
    match err
    case Leaf(_) =>
    case Wrap(_, inner) => AfterIsFirstMark(inner);
    case Join(errors) => AfterAnyIsFirstMark(errors);
    case Retryable(_, _) =>
  }

  /** The error reached from the tree's root by choosing a child at every step. */
  ghost function Sub(err: Error, path: seq<nat>): Option<Error> {
    if path == [] then Some(err)
    else match err
      case Leaf(_) => None
      case Wrap(_, inner) => if path[0] == 0 then Sub(inner, path[1..]) else None
      case Join(errors) => if path[0] < |errors| then Sub(errors[path[0]], path[1..]) else None
      case Retryable(inner, _) => if path[0] == 0 then Sub(inner, path[1..]) else None
  }

  ghost predicate MarkedAt(err: Error, path: seq<nat>) {
    Sub(err, path).Some? && Sub(err, path).value.Retryable?
  }

  /** In a walk down the tree that takes children from left to right, the first path is met before the second. */
  ghost predicate Earlier(one: seq<nat>, other: seq<nat>) {
    Ordering.LexLess((a: nat, b: nat) => a < b, one, other)
  }

  /** The mark at the path is the one that a depth-first search meets first. */
  ghost predicate FirstMarkAt(err: Error, path: seq<nat>, retryAfter: Duration) {
    && MarkedAt(err, path) && Sub(err, path).value.retryAfter == retryAfter
    && forall other :: MarkedAt(err, other) ==> !Earlier(other, path)
  }

  lemma StepDown(err: Error, i: nat, path: seq<nat>)
    ensures Sub(err, [i] + path) ==
      match err
      case Leaf(_) => None
      case Wrap(_, inner) => if i == 0 then Sub(inner, path) else None
      case Join(errors) => if i < |errors| then Sub(errors[i], path) else None
      case Retryable(inner, _) => if i == 0 then Sub(inner, path) else None
  {
    assert ([i] + path)[1..] == path;
  }

  lemma Under(err: Error, inner: Error, below: seq<nat>, path: seq<nat>)
    requires err.Wrap? && err.inner == inner && path == [0] + below
    ensures (exists p :: MarkedAt(err, p)) ==> exists p :: MarkedAt(inner, p)
    ensures forall d :: FirstMarkAt(inner, below, d) ==> FirstMarkAt(err, path, d)
  {
    StepDown(err, 0, below);
    assert path[1..] == below;
    forall p | MarkedAt(err, p) ensures MarkedAt(inner, p[1..]) {}
    forall d, p | FirstMarkAt(inner, below, d) && MarkedAt(err, p) ensures !Earlier(p, path) {
      assert MarkedAt(inner, p[1..]) && !Earlier(p[1..], below);
    }
  }

  /** Of the errors from the given one on. */
  lemma {:induction false} AfterAnyFindsFirst(err: Error, errors: seq<Error>, from: nat) returns (path: seq<nat>)
    requires err.Join? && err.errors == errors && from <= |errors|
    ensures AfterAny(errors[from..]).None? ==> forall p :: MarkedAt(err, p) ==> p[0] < from
    ensures AfterAny(errors[from..]).Some? ==>
      && MarkedAt(err, path) && Sub(err, path).value.retryAfter == AfterAny(errors[from..]).value
      && forall p :: MarkedAt(err, p) && p[0] >= from ==> !Earlier(p, path)
    decreases err, |errors| - from
  {
    path := [];
    if from < |errors| {
      assert errors[from..][0] == errors[from] && errors[from..][1..] == errors[from + 1..];
      var below := AfterFindsFirst(errors[from]);
      forall p | MarkedAt(err, p) && p[0] == from ensures MarkedAt(errors[from], p[1..]) {}
      if After(errors[from]).Some? {
        path := [from] + below;
        StepDown(err, from, below);
        assert path[1..] == below;
      } else {
        path := AfterAnyFindsFirst(err, errors, from + 1);
      }
    }
  }

  /** The search finds the mark that comes first in the tree, and none only if there is none. */
  lemma {:induction false} AfterFindsFirst(err: Error) returns (path: seq<nat>)
    ensures After(err).None? ==> forall other :: !MarkedAt(err, other)
    ensures After(err).Some? ==> FirstMarkAt(err, path, After(err).value)
    decreases err, if err.Join? then |err.errors| + 1 else 0
  {
    match err
    case Leaf(_) => path := [];
    case Wrap(_, inner) =>
      var below := AfterFindsFirst(inner);
      path := [0] + below;
      Under(err, inner, below, path);
    case Join(errors) =>
      path := AfterAnyFindsFirst(err, errors, 0);
    case Retryable(_, _) => path := [];
  }

  // ----- the policy -----

  /** The settings; the sleep and the source of random numbers are supplied where they are used. */
  datatype Policy = Policy(maxAttempts: int64, initialDelay: Duration, maxDelay: Duration)

  function Normalized(p: Policy): (n: Policy)
    ensures n.maxAttempts > 0 && 0 < n.initialDelay <= n.maxDelay
  {
    var initial := if p.initialDelay <= 0 then DEFAULT_INITIAL_DELAY else p.initialDelay;
    var longest := if p.maxDelay <= 0 then DEFAULT_MAX_DELAY else p.maxDelay;
    Policy(if p.maxAttempts <= 0 then DEFAULT_MAX_ATTEMPTS else p.maxAttempts, initial,
           if longest < initial then initial else longest)
  }

  method Normalize(p: Policy) returns (n: Policy)
    ensures n == Normalized(p)
  {
    n := p;
    if n.maxAttempts <= 0 {
      n := n.(maxAttempts := DEFAULT_MAX_ATTEMPTS);
    }
    if n.initialDelay <= 0 {
      n := n.(initialDelay := DEFAULT_INITIAL_DELAY);
    }
    if n.maxDelay <= 0 {
      n := n.(maxDelay := DEFAULT_MAX_DELAY);
    }
    if n.maxDelay < n.initialDelay {
      n := n.(maxDelay := n.initialDelay);
    }
  }

  /** Settings that are given and in order are kept; the others are five attempts, half a second, thirty seconds. */
  lemma NormalizedMeans(p: Policy)
    ensures var n := Normalized(p);
      && n.maxAttempts == (if p.maxAttempts > 0 then p.maxAttempts else 5)
      && (p.initialDelay > 0 ==> n.initialDelay == p.initialDelay)
      && (p.initialDelay <= 0 ==> n.initialDelay == 500_000_000)
      && (p.maxDelay >= n.initialDelay ==> n.maxDelay == p.maxDelay)
      && (p.maxDelay <= 0 && n.initialDelay <= 30_000_000_000 ==> n.maxDelay == 30_000_000_000)
      && (0 < p.maxDelay < n.initialDelay || n.initialDelay > 30_000_000_000 > p.maxDelay ==>
           n.maxDelay == n.initialDelay)
    ensures 0 < p.maxAttempts && 0 < p.initialDelay <= p.maxDelay ==> Normalized(p) == p
  {
  }

  function CanRetry(p: Policy, attempt: int64, err: Error): Option<Duration> {
    match After(err)
    case None => None
    case Some(retryAfter) => if attempt >= Normalized(p).maxAttempts then None else Some(retryAfter)
  }

  /** An error is retried exactly if it holds a mark and attempts are left, and then the first mark is read back. */
  lemma RetriedMeans(p: Policy, attempt: int64, err: Error)
    ensures CanRetry(p, attempt, err).None? <==>
      || Marks(err) == []
      || attempt >= if p.maxAttempts > 0 then p.maxAttempts else 5
    ensures CanRetry(p, attempt, err).Some? ==> CanRetry(p, attempt, err).value == Marks(err)[0]
    ensures Marks(err) == [] <==> forall path :: !MarkedAt(err, path)
    ensures Marks(err) != [] ==> exists path :: FirstMarkAt(err, path, Marks(err)[0])
  {
    AfterIsFirstMark(err);
    NormalizedMeans(p);
    var path := AfterFindsFirst(err);
  }

  // ----- backoff -----

  /** Doubling, one attempt after the other, until the limit is near. */
  function Backoff(initial: nat, limit: nat, doublings: nat): nat
    decreases doublings
  {
    if doublings == 0 then initial
    else if initial >= limit / 2 then limit
    else Backoff(2 * initial, limit, doublings - 1)
  }

  function Pow2(n: nat): nat {
    if n == 0 then 1 else 2 * Pow2(n - 1)
  }

  function Min(a: int, b: int): int {
    if a < b then a else b
  }

  function Max(a: int, b: int): int {
    if a < b then b else a
  }

  function Doublings(attempt: int64): nat {
    if attempt <= 1 then 0 else attempt as int - 1
  }

  lemma {:induction false} PowAtLeastOne(n: nat)
    ensures Pow2(n) >= 1
  {
    if n > 0 {
      PowAtLeastOne(n - 1);
    }
  }

  lemma ScaledAtLeast(a: nat, k: nat)
    requires k >= 1
    ensures a * k >= a
  {
    assert a * k == a + a * (k - 1);
  }

  /**
    The loop computes min(limit, initial * 2^n), except that it yields an odd
    limit where the doubled delay is one below it.
  */
  lemma {:induction false} BackoffIsCappedPower(initial: nat, limit: nat, n: nat)
    requires 0 < initial <= limit
    ensures Backoff(initial, limit, n) ==
      if n > 0 && initial * Pow2(n) == limit - 1 then limit else Min(limit, initial * Pow2(n))
    decreases n
  {
    if n > 0 {
      assert initial * Pow2(n) == (2 * initial) * Pow2(n - 1);
      if initial >= limit / 2 {
        PowAtLeastOne(n - 1);
        ScaledAtLeast(2 * initial, Pow2(n - 1));
        if initial * Pow2(n) < limit {
          assert 2 * initial >= limit - 1;
        }
      } else {
        BackoffIsCappedPower(2 * initial, limit, n - 1);
      }
    }
  }

  /** Two nanoseconds after doubling once, below a limit of three: the loop says three. */
  lemma BackoffExceedsPower()
    ensures Backoff(1, 3, 1) == 3 && Min(3, 1 * Pow2(1)) == 2
  {
    assert Pow2(1) == 2 * Pow2(0);
  }

  lemma ScaledEven(initial: nat, n: nat)
    ensures n > 0 ==> initial * Pow2(n) % 2 == 0
  {
    if n > 0 {
      assert initial * Pow2(n) == 2 * (initial * Pow2(n - 1));
    }
  }

  lemma {:induction false} PowersGrow(initial: nat, n: nat, m: nat)
    requires n <= m
    ensures initial * Pow2(n) <= initial * Pow2(m)
    ensures n < m && initial > 0 ==> initial * Pow2(n) < initial * Pow2(m)
    decreases m - n
  {
    if n < m {
      PowersGrow(initial, n + 1, m);
      assert initial * Pow2(n + 1) == 2 * (initial * Pow2(n));
      PowAtLeastOne(n);
      ScaledAtLeast(initial, Pow2(n));
    }
  }

  /** Exact when the limit is even, never off by more than one, and monotone in the attempt. */
  lemma BackoffShape(initial: nat, limit: nat, n: nat, m: nat)
    requires 0 < initial <= limit && n <= m
    ensures initial <= Backoff(initial, limit, n) <= Backoff(initial, limit, m) <= limit
    ensures 0 <= Backoff(initial, limit, n) - Min(limit, initial * Pow2(n)) <= 1
    ensures limit % 2 == 0 ==> Backoff(initial, limit, n) == Min(limit, initial * Pow2(n))
  {
    hide Pow2, Backoff;
    BackoffIsCappedPower(initial, limit, n);
    BackoffIsCappedPower(initial, limit, m);
    PowAtLeastOne(n);
    ScaledAtLeast(initial, Pow2(n));
    PowersGrow(initial, n, m);
    ScaledEven(initial, n);
  }

  lemma {:induction false} PowersMultiply(n: nat, m: nat)
    ensures Pow2(n + m) == Pow2(n) * Pow2(m)
    ensures Pow2(1) == 2
  {
    if n > 0 {
      PowersMultiply(n - 1, m);
      assert Pow2(n + m) == 2 * Pow2(n - 1 + m);
      assert 2 * (Pow2(n - 1) * Pow2(m)) == 2 * Pow2(n - 1) * Pow2(m);
    } else {
      assert Pow2(1) == 2 * Pow2(0);
    }
  }

  /** The fraction of the delay kept by the jitter, truncated to whole nanoseconds. */
  function Jittered(delay: nat, random: real): int {
    (delay as real * (0.5 + random * 0.5)).Floor
  }

  /** Random zero keeps half of the delay, one keeps all of it. */
  lemma JitterEnds(delay: nat)
    ensures Jittered(delay, 0.0) == delay / 2 && Jittered(delay, 1.0) == delay
  {
    assert delay as real * (0.5 + 0.0 * 0.5) == delay as real / 2.0;
    assert delay as real == (2 * (delay / 2) + delay % 2) as real;
    assert delay as real * (0.5 + 1.0 * 0.5) == delay as real;
  }

  lemma FractionOf(d: real, f: real)
    requires 0.0 <= d && 0.0 <= f <= 1.0
    ensures 0.0 <= d * f <= d
  {
    assert d - d * f == d * (1.0 - f);
  }

  lemma HalfAndFraction(d: real, f: real)
    ensures d * (0.5 + f * 0.5) == d / 2.0 + d / 2.0 * f
  {
    assert d * (0.5 + f * 0.5) == d * 0.5 + d * (f * 0.5);
    assert d * (f * 0.5) == d * 0.5 * f;
  }

  lemma FloorBetween(delay: nat, x: real)
    requires delay as real / 2.0 <= x <= delay as real
    ensures delay / 2 <= x.Floor <= delay
  {
    assert delay as real == (2 * (delay / 2) + delay % 2) as real;
    assert (delay / 2) as real <= x;
  }

  lemma JitterBounds(delay: nat, random: real)
    requires 0.0 <= random <= 1.0
    ensures delay / 2 <= Jittered(delay, random) <= delay
  {
    var half := delay as real / 2.0;
    FractionOf(half, random);
    HalfAndFraction(delay as real, random);
    FloorBetween(delay, half + half * random);
  }

  /** The delay before the next attempt, as a function of what decides it. */
  function Waited(p: Policy, attempt: int64, retryAfter: Duration, random: real): int {
    var n := Normalized(p);
    var delay := Backoff(n.initialDelay as int, n.maxDelay as int, Doublings(attempt));
    Min(n.maxDelay as int, Max(retryAfter as int, Jittered(delay, random)))
  }

  ghost function CappedDelay(initial: nat, limit: nat, doublings: nat): nat {
    var power := initial * Pow2(doublings);
    if (doublings > 0 && power == limit - 1) || power >= limit then limit else power
  }

  ghost predicate WaitFrom(limit: int, delay: nat, asked: Duration, wait: Duration, random: real) {
    var jittered := (delay as real * (0.5 + random * 0.5)).Floor;
    wait as int == if jittered >= limit || asked as int >= limit then limit
      else if asked as int >= jittered then asked as int else jittered
  }

  /**
    What a wait after the given attempt may be: the first delay doubled once for
    each earlier attempt and capped, a random half or more of it, but no less than
    the server asks for and no more than the limit.
  */
  ghost predicate RightWait(p: Policy, attempt: int, asked: Duration, wait: Duration, random: real)
    requires attempt >= 1
  {
    var limit := Normalized(p).maxDelay as int;
    && 0.0 <= random <= 1.0
    && WaitFrom(limit, CappedDelay(Normalized(p).initialDelay as int, limit, attempt - 1), asked, wait, random)
  }

  lemma DelayIsCapped(initial: nat, limit: nat, doublings: nat)
    requires 0 < initial <= limit
    ensures Backoff(initial, limit, doublings) == CappedDelay(initial, limit, doublings)
  {
    hide Backoff, Pow2;
    BackoffIsCappedPower(initial, limit, doublings);
  }

  lemma WaitIsRight(p: Policy, attempt: int64, asked: Duration, wait: Duration, random: real)
    requires attempt >= 1 && 0.0 <= random <= 1.0 && wait as int == Waited(p, attempt, asked, random)
    ensures RightWait(p, attempt as int, asked, wait, random)
  {
    hide Backoff, Pow2, CappedDelay;
    var n, doublings := Normalized(p), attempt as int - 1;
    assert Backoff(n.initialDelay as int, n.maxDelay as int, doublings) ==
      CappedDelay(n.initialDelay as int, n.maxDelay as int, doublings) by {
      DelayIsCapped(n.initialDelay as int, n.maxDelay as int, doublings);
    }
  }

  /** Whatever the settings, the wait is neither too short nor too long, and honours the server up to the limit. */
  lemma WaitBounds(p: Policy, attempt: int64, retryAfter: Duration, random: real)
    requires 0.0 <= random <= 1.0
    ensures var n := Normalized(p);
      var delay := Backoff(n.initialDelay as int, n.maxDelay as int, Doublings(attempt));
      && n.initialDelay as int / 2 <= delay / 2 <= Waited(p, attempt, retryAfter, random) <= n.maxDelay as int
      && Waited(p, attempt, retryAfter, random) >= Min(retryAfter as int, n.maxDelay as int)
  {
    hide Backoff, Jittered;
    var n := Normalized(p);
    var initial, limit := n.initialDelay as int, n.maxDelay as int;
    BackoffShape(initial, limit, 0, Doublings(attempt));
    BackoffShape(initial, limit, Doublings(attempt), Doublings(attempt));
    assert Backoff(initial, limit, 0) == initial by {
      BackoffIsCappedPower(initial, limit, 0);
    }
    JitterBounds(Backoff(initial, limit, Doublings(attempt)), random);
  }

  /**
    The delay before the next attempt. Arithmetic is on 64-bit integers: that
    the doubling never overflows is part of what is verified.
  */
  method Delay(p: Policy, attempt: int64, retryAfter: Duration, random: real) returns (wait: Duration)
    requires 0.0 <= random <= 1.0
    ensures wait as int == Waited(p, attempt, retryAfter, random)
    ensures Normalized(p).initialDelay as int / 2 <= wait as int <= Normalized(p).maxDelay as int
    ensures wait as int >= Min(retryAfter as int, Normalized(p).maxDelay as int)
  {
    WaitBounds(p, attempt, retryAfter, random);
    var normalized := Normalize(p);
    var delay := normalized.initialDelay;
    var currentAttempt: int64 := 1;
    ghost var expected := Backoff(delay as int, normalized.maxDelay as int, Doublings(attempt));
    while currentAttempt < attempt
      invariant 1 <= currentAttempt && (currentAttempt <= attempt || attempt <= 1)
      invariant 0 < delay <= normalized.maxDelay
      invariant Backoff(delay as int, normalized.maxDelay as int,
                        if attempt <= 1 then 0 else (attempt - currentAttempt) as int) == expected
    {
      if delay >= normalized.maxDelay / 2 {
        delay := normalized.maxDelay;
        break;
      }
      delay := delay * 2;
      currentAttempt := currentAttempt + 1;
    }
    assert delay as int == expected;
    BackoffShape(normalized.initialDelay as int, normalized.maxDelay as int, 0, Doublings(attempt));
    BackoffShape(normalized.initialDelay as int, normalized.maxDelay as int, Doublings(attempt), Doublings(attempt));
    JitterBounds(delay as int, random);

    var jittered := delay;
    if delay > 0 {
      jittered := Jittered(delay as int, random) as Duration;
    }
    if retryAfter > jittered {
      jittered := retryAfter;
    }
    if jittered > normalized.maxDelay {
      return normalized.maxDelay;
    }
    return jittered;
  }

  // ----- Retry-After in seconds -----

  /** Two's complement reduction to 64 bits. */
  function Wrap64(x: int): int64 {
    var m := x % 0x1_0000_0000_0000_0000;
    if m < 0x8000_0000_0000_0000 then m as int64 else (m - 0x1_0000_0000_0000_0000) as int64
  }

  /** The delay a number of seconds stands for, with the wrap of the 64-bit product. */
  function SecondsDelay(seconds: int64): Option<Duration> {
    if seconds < 0 then None else Some(Wrap64(seconds as int * 1_000_000_000))
  }

  /** The wrapped value is the one 64-bit integer that differs by a multiple of 2^64. */
  lemma WrapMeans(x: int, w: int64)
    ensures w == Wrap64(x) <==> exists k :: x == w as int + k * 0x1_0000_0000_0000_0000
  {
    var m := 0x1_0000_0000_0000_0000;
    assert x == Wrap64(x) as int + (x / m + if x % m < m / 2 then 0 else 1) * m;
  }

  /** What a retry reads back of the server's seconds. */
  function SecondsKept(err: Error, seconds: int64): Option<Duration>
    requires seconds >= 0
  {
    After(Mark(err, SecondsDelay(seconds).value))
  }

  /**
    For every number of seconds: what is read back is the wrapped product, or no
    wait where that is negative; it is the product itself exactly as long as
    that fits 64 bits, and then the wait is at least as long, up to the limit.
  */
  lemma SecondsHonoured(p: Policy, attempt: int64, err: Error, seconds: int64, random: real)
    requires seconds >= 0 && 0.0 <= random <= 1.0
    ensures SecondsKept(err, seconds).Some?
    ensures var kept, asked := SecondsKept(err, seconds).value, seconds as int * 1_000_000_000;
      && kept as int == Max(0, Wrap64(asked) as int)
      && (kept as int == asked <==> seconds <= 9_223_372_036)
      && (seconds <= 9_223_372_036 ==>
           Waited(p, attempt, kept, random) >= Min(asked, Normalized(p).maxDelay as int))
  {
    hide Waited;
    WaitBounds(p, attempt, SecondsKept(err, seconds).value, random);
  }

  /** The first number of seconds whose product wraps is read back as no wait at all. */
  lemma SecondsLost(err: Error)
    ensures SecondsKept(err, 9_223_372_037) == Some(0)
  {
  }
}
