/**
 Go error values as the delete handler sees them, and Go's `errors.Is`.

 A non-nil error is a tree: a sentinel or an ad-hoc leaf, a one-cause wrap
 (`fmt.Errorf("%s: %w", fn, err)`, the wrapping idiom this repository
 uses), or a join of several causes (`errors.Join`, or
 `fmt.Errorf` with more than one `%w`). A nil error is `None` in an
 `Option<Error>`.
 */
module GoErrors {
  import opened Wrappers

  /** The storage layer's package-level sentinel errors, compared by identity. */
  datatype SentinelId = ErrURLNotFound | ErrURLExists

  /** A non-nil Go error value. */
  datatype Error =
    | Sentinel(id: SentinelId)
      /** An `errors.New(text)` made at the call site. Go compares such values
          by pointer, so one is never equal to a sentinel, whatever its text. */
    | Plain(text: string)
    | Wrapped(prefix: string, cause: Error)
    | Joined(errs: seq<Error>)

  /** The errors `e` unwraps to directly: the result of its `Unwrap() error`
      or `Unwrap() []error` method, in order; none for a leaf. */
  function Causes(e: Error): (cs: seq<Error>)
    ensures forall c :: c in cs ==> c < e
    ensures e.Sentinel? || e.Plain? ==> cs == []
    ensures e.Wrapped? ==> cs == [e.cause]
  {
    match e
    case Sentinel(_) => []
    case Plain(_) => []
    case Wrapped(_, c) => [c]
    case Joined(es) => es
  }

  /** `errors.Is(e, target)` for a non-nil `e` and a sentinel target: the
      walk tests `e` itself, then follows a single `Unwrap`, or tries every
      cause of a multi-cause error in order and stops at the first hit. */
  function Matches(e: Error, target: SentinelId): bool
    decreases e
  {
    match e
    case Sentinel(id) => id == target
    case Plain(_) => false
    case Wrapped(_, c) => Matches(c, target)
    case Joined(es) => exists i | 0 <= i < |es| :: Matches(es[i], target)
  }

  /** `errors.Is(err, target)`: a nil `err` is never a (non-nil) sentinel. */
  function Is(err: Option<Error>, target: SentinelId): bool
  {
    match err
    case None => false
    case Some(e) => Matches(e, target)
  }

  /** Reference definition of the unwrap tree: the error reached from `e` by
      taking, at each step, the cause whose index `path` names. */
  function Follow(e: Error, path: seq<nat>): Option<Error>
    decreases |path|
  {
    if path == [] then Some(e)
    else
      var cs := Causes(e);
      if path[0] < |cs| then Follow(cs[path[0]], path[1..]) else None
  }

  /** The sentinel `target` occurs somewhere in the unwrap tree of `e`. */
  ghost predicate InTree(e: Error, target: SentinelId)
  {
    exists path :: Follow(e, path) == Some(Sentinel(target))
  }

  /** Every hit of the `errors.Is` walk is witnessed by a path to the sentinel. */
  lemma {:induction false} MatchesWitness(e: Error, target: SentinelId) returns (path: seq<nat>)
    requires Matches(e, target)
    ensures Follow(e, path) == Some(Sentinel(target))
    decreases e
  {
    match e
    case Sentinel(id) =>
      path := [];
    case Wrapped(_, c) =>
      var p := MatchesWitness(c, target);
      path := [0] + p;
      assert path[1..] == p;
    case Joined(es) =>
      var i :| 0 <= i < |es| && Matches(es[i], target);
      var p := MatchesWitness(es[i], target);
      path := [i] + p;
      assert path[1..] == p;
  }

  /** Every path to the sentinel is found by the `errors.Is` walk. */
  lemma {:induction false} FollowFindsMatch(e: Error, target: SentinelId, path: seq<nat>)
    requires Follow(e, path) == Some(Sentinel(target))
    ensures Matches(e, target)
    decreases |path|
  {
    if path != [] {
      var cs := Causes(e);
      var c := cs[path[0]];
      FollowFindsMatch(c, target, path[1..]);
      match e
      case Wrapped(_, _) =>
      case Joined(es) =>
        assert Matches(es[path[0]], target);
    }
  }

  /** `errors.Is` holds exactly when the sentinel is in the unwrap tree. */
  lemma MatchesIffInTree(e: Error, target: SentinelId)
    ensures Matches(e, target) <==> InTree(e, target)
  {
    if Matches(e, target) {
      var p := MatchesWitness(e, target);
    }
    if InTree(e, target) {
      var p :| Follow(e, p) == Some(Sentinel(target));
      FollowFindsMatch(e, target, p);
    }
  }

  /** `errors.Is(err, target)` holds exactly when `err` is non-nil and the
      sentinel is in its unwrap tree. */
  lemma IsIffInTree(err: Option<Error>, target: SentinelId)
    ensures Is(err, target) <==> err.Some? && InTree(err.value, target)
  {
    if err.Some? {
      MatchesIffInTree(err.value, target);
    }
  }

  /** `e` wrapped by each prefix in turn, innermost first, as each layer's
      `fmt.Errorf("%s: %w", fn, err)` does on the way up. */
  function WrapChain(e: Error, prefixes: seq<string>): Error
    decreases |prefixes|
  {
    if prefixes == [] then e
    else Wrapped(prefixes[|prefixes| - 1], WrapChain(e, prefixes[..|prefixes| - 1]))
  }

  /** Wrapping, however deep, neither hides nor invents a sentinel. */
  lemma {:induction false} WrapChainPreservesMatches(e: Error, prefixes: seq<string>, target: SentinelId)
    ensures Matches(WrapChain(e, prefixes), target) == Matches(e, target)
    decreases |prefixes|
  {
    if prefixes != [] {
      WrapChainPreservesMatches(e, prefixes[..|prefixes| - 1], target);
    }
  }
}
