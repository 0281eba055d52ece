/** Error values, the unwrap chain, matching and classification (pkg/broker/errors.go). */
module Errors {

  /** Codes are plain strings in the source, so any string is a code. */
  type ErrorCode = string

  const CODE_CONNECTION_FAILED: ErrorCode := "CONNECTION_FAILED"
  const CODE_CONNECTION_CLOSED: ErrorCode := "CONNECTION_CLOSED"
  const CODE_CONNECTION_TIMEOUT: ErrorCode := "CONNECTION_TIMEOUT"
  const CODE_AUTH_FAILED: ErrorCode := "AUTHENTICATION_FAILED"
  const CODE_PUBLISH_TIMEOUT: ErrorCode := "PUBLISH_TIMEOUT"
  const CODE_BROKER_UNAVAILABLE: ErrorCode := "BROKER_UNAVAILABLE"

  /** `Nil` is Go's nil error. `ref` is the address of the error object: Go compares
      the pointers, never the contents. */
  datatype Error =
    | Nil
    | Sentinel(ref: nat)
    | Wrapped(ref: nat, cause: Error)
    | BrokerErr(ref: nat, code: ErrorCode, message: string, cause: Error, retryable: bool)
    | Multi(ref: nat, errors: seq<Error>)

  const ErrConnectionFailed := Sentinel(0)
  const ErrConnectionClosed := Sentinel(1)
  const ErrConnectionTimeout := Sentinel(2)
  const ErrNotConnected := Sentinel(4)

  /** `a == b` on Go error values: same dynamic type and same address. */
  predicate Same(a: Error, b: Error) {
    if a.Nil? || b.Nil? then a.Nil? && b.Nil?
    else
      && a.ref == b.ref
      && a.Sentinel? == b.Sentinel? && a.Wrapped? == b.Wrapped?
      && a.BrokerErr? == b.BrokerErr? && a.Multi? == b.Multi?
  }

  /** The `Unwrap` methods; a `Multi` contributes its first error only. */
  function Unwrap(e: Error): Error {
    match e
    case Wrapped(_, c) => c
    case BrokerErr(_, _, _, c, _) => c
    case Multi(_, es) => if |es| > 0 then es[0] else Nil
    case _ => Nil
  }

  function Depth(e: Error): (d: nat)
    ensures d == 0 <==> e.Nil?
  {
    match e
    case Nil => 0
    case Sentinel(_) => 1
    case Wrapped(_, c) => 1 + Depth(c)
    case BrokerErr(_, _, _, c, _) => 1 + Depth(c)
    case Multi(_, es) => if |es| > 0 then 1 + Depth(es[0]) else 1
  }

  /** All errors reached by unwrapping, outermost first. */
  function Chain(e: Error): (c: seq<Error>)
    ensures |c| == 0 <==> e.Nil?
    ensures |c| > 0 ==> c[0] == e
    decreases Depth(e)
  {
    if e.Nil? then [] else [e] + Chain(Unwrap(e))
  }

  lemma ChainStep(e: Error)
    requires !e.Nil?
    ensures Chain(e) == [e] + Chain(Unwrap(e))
    ensures Chain(e)[1..] == Chain(Unwrap(e))
  {
  }

  // ------------------------------------------------------------------ matching

  predicate NodeMatches(node: Error, target: Error) {
    Same(node, target) || (node.BrokerErr? && target.BrokerErr? && node.code == target.code)
  }

  /** The linear search `errors.Is` is meant to be. */
  ghost predicate Matches(e: Error, target: Error) {
    if e.Nil? || target.Nil? then e.Nil? && target.Nil?
    else exists i :: 0 <= i < |Chain(e)| && NodeMatches(Chain(e)[i], target)
  }

  lemma MatchesStep(e: Error, target: Error)
    requires !e.Nil? && !target.Nil?
    ensures Matches(e, target) <==> NodeMatches(e, target) || Matches(Unwrap(e), target)
  {
    ChainStep(e);
    var c, rest := Chain(e), Chain(Unwrap(e));
    if Matches(Unwrap(e), target) {
      var i :| 0 <= i < |rest| && NodeMatches(rest[i], target);
      assert NodeMatches(c[i + 1], target);
    }
    if Matches(e, target) && !NodeMatches(e, target) {
      var i :| 0 <= i < |c| && NodeMatches(c[i], target);
      assert NodeMatches(rest[i - 1], target);
    }
  }

  /** What a match is, in terms of addresses and codes alone: some node of the chain is the target
      object itself, or both are broker errors with equal codes; nil matches only nil. */
  lemma MatchesMeans(e: Error, target: Error)
    ensures Matches(e, target) <==>
            || (e.Nil? && target.Nil?)
            || exists i ::
                 && 0 <= i < |Chain(e)|
                 && match (Chain(e)[i], target)
                    case (Sentinel(a), Sentinel(b)) => a == b
                    case (Wrapped(a, _), Wrapped(b, _)) => a == b
                    case (Multi(a, _), Multi(b, _)) => a == b
                    case (BrokerErr(a, c, _, _, _), BrokerErr(b, d, _, _, _)) => a == b || c == d
                    case _ => false
  {
    forall i | 0 <= i < |Chain(e)| ensures !Chain(e)[i].Nil? {
      ChainHasNoNil(e, i);
    }
  }

  lemma {:induction false} ChainHasNoNil(e: Error, i: nat)
    requires i < |Chain(e)|
    ensures !Chain(e)[i].Nil?
    decreases i
  {
    if i > 0 {
      ChainStep(e);
      ChainHasNoNil(Unwrap(e), i - 1);
    }
  }

  /** How many chain nodes the walk looks at when nothing matches: `BrokerError.Is` searches
      the cause once, and the walk then unwraps to that same cause and searches it again. */
  function Visits(e: Error, target: Error): nat
    decreases Depth(e)
  {
    if e.Nil? then 0
    else 1 + (if e.BrokerErr? && !target.BrokerErr? then Visits(e.cause, target) else 0)
           + Visits(Unwrap(e), target)
  }

  /** The walk of the standard `errors.Is`, which calls `BrokerError.Is` at every broker error. */
  method Is(e: Error, target: Error) returns (matched: bool, ghost visits: nat)
    ensures matched == Matches(e, target)
    ensures visits <= Visits(e, target)
    ensures !target.Nil? && !matched ==> visits == Visits(e, target)
    decreases |Chain(e)|, 1
  {
    visits := 0;
    if e.Nil? || target.Nil? {
      return Same(e, target), visits;
    }
    var cur := e;
    while true
      invariant !cur.Nil? && |Chain(cur)| <= |Chain(e)|
      invariant Matches(e, target) == Matches(cur, target)
      invariant visits + Visits(cur, target) == Visits(e, target)
      decreases |Chain(cur)|
    {
      ChainStep(cur);
      MatchesStep(cur, target);
      visits := visits + 1;
      if Same(cur, target) {
        return true, visits;
      }
      if cur.BrokerErr? {
        var inner, v := BrokerErrorIs(cur, target);
        visits := visits + v;
        if inner {
          return true, visits;
        }
      }
      cur := Unwrap(cur);
      if cur.Nil? {
        return false, visits;
      }
    }
  }

  /** `BrokerError.Is`: equal codes, or the cause matches. */
  method BrokerErrorIs(e: Error, target: Error) returns (matched: bool, ghost visits: nat)
    requires e.BrokerErr? && !target.Nil?
    ensures matched == if target.BrokerErr? then e.code == target.code else Matches(e.cause, target)
    ensures visits <= if target.BrokerErr? then 0 else Visits(e.cause, target)
    ensures !matched && !target.BrokerErr? ==> visits == Visits(e.cause, target)
    decreases |Chain(e)|, 0
  {
    ChainStep(e);
    if target.BrokerErr? {
      return e.code == target.code, 0;
    }
    matched, visits := Is(e.cause, target);
  }

  function Pow2(n: nat): nat { if n == 0 then 1 else 2 * Pow2(n - 1) }

  /** A miss on a chain of n broker errors costs 2^n - 1 visits, not n. */
  lemma {:induction false} DoubledWalkIsExponential(e: Error, target: Error)
    requires !target.BrokerErr?
    requires forall i :: 0 <= i < |Chain(e)| ==> Chain(e)[i].BrokerErr?
    ensures Visits(e, target) == Pow2(|Chain(e)|) - 1
    decreases |Chain(e)|
  {
    if !e.Nil? {
      ChainStep(e);
      assert Chain(e)[0].BrokerErr?;
      DoubledWalkIsExponential(Unwrap(e), target);
    }
  }

  // ------------------------------------------------------------ classification

  predicate IsRetryableCode(code: ErrorCode) {
    || code == CODE_CONNECTION_FAILED || code == CODE_CONNECTION_TIMEOUT
    || code == CODE_PUBLISH_TIMEOUT || code == CODE_BROKER_UNAVAILABLE
  }

  predicate IsConnectionCode(code: ErrorCode) {
    || code == CODE_CONNECTION_FAILED || code == CODE_CONNECTION_CLOSED
    || code == CODE_CONNECTION_TIMEOUT || code == CODE_AUTH_FAILED
  }

  function NewBrokerError(ref: nat, code: ErrorCode, message: string, cause: Error): Error {
    BrokerErr(ref, code, message, cause, IsRetryableCode(code))
  }

  /** `errors.As` for a broker error: unwrap until one is met. */
  function GetBrokerError(e: Error): (b: Error)
    ensures b.Nil? || b.BrokerErr?
    decreases Depth(e)
  {
    if e.Nil? || e.BrokerErr? then e else GetBrokerError(Unwrap(e))
  }

  /** It finds the outermost broker error, and nothing exactly when there is none. */
  lemma {:induction false} GetBrokerErrorIsOutermost(e: Error)
    ensures var b := GetBrokerError(e);
            && (b.Nil? <==> forall i :: 0 <= i < |Chain(e)| ==> !Chain(e)[i].BrokerErr?)
            && (!b.Nil? ==> exists i :: 0 <= i < |Chain(e)| && IsOutermostBroker(e, i) && Chain(e)[i] == b)
    decreases Depth(e)
  {
    if e.BrokerErr? {
      assert IsOutermostBroker(e, 0);
    } else if !e.Nil? {
      ChainStep(e);
      var b, rest := GetBrokerError(e), Unwrap(e);
      GetBrokerErrorIsOutermost(rest);
      forall i | 0 <= i < |Chain(rest)| ensures Chain(e)[i + 1] == Chain(rest)[i] {
      }
      if b.Nil? {
        forall i | 0 <= i < |Chain(e)| ensures !Chain(e)[i].BrokerErr? {
          assert i > 0 ==> Chain(e)[i] == Chain(rest)[i - 1];
        }
      } else {
        var i :| 0 <= i < |Chain(rest)| && IsOutermostBroker(rest, i) && Chain(rest)[i] == b;
        assert IsOutermostBroker(e, i + 1) && Chain(e)[i + 1] == b;
      }
    }
  }

  ghost predicate IsOutermostBroker(e: Error, i: nat) {
    && i < |Chain(e)| && Chain(e)[i].BrokerErr?
    && forall j :: 0 <= j < i ==> !Chain(e)[j].BrokerErr?
  }

  predicate IsRetryableError(e: Error) {
    var b := GetBrokerError(e);
    b.BrokerErr? && b.retryable
  }

  ghost predicate IsConnectionError(e: Error) {
    var b := GetBrokerError(e);
    || (b.BrokerErr? && IsConnectionCode(b.code))
    || Matches(e, ErrConnectionFailed) || Matches(e, ErrConnectionClosed) || Matches(e, ErrConnectionTimeout)
  }

  /** Every broker error on the chain came out of `NewBrokerError`. */
  ghost predicate Constructed(e: Error) {
    forall i :: 0 <= i < |Chain(e)| && Chain(e)[i].BrokerErr? ==>
      Chain(e)[i].retryable == IsRetryableCode(Chain(e)[i].code)
  }

  lemma RetryableIffOutermostCode(e: Error)
    requires Constructed(e)
    ensures IsRetryableError(e) <==>
            exists i :: 0 <= i < |Chain(e)| && IsOutermostBroker(e, i)
              && Chain(e)[i].code
                 in {"CONNECTION_FAILED", "CONNECTION_TIMEOUT", "PUBLISH_TIMEOUT", "BROKER_UNAVAILABLE"}
  {
    var b := GetBrokerError(e);
    GetBrokerErrorIsOutermost(e);
    if b.BrokerErr? {
      var i :| 0 <= i < |Chain(e)| && IsOutermostBroker(e, i) && Chain(e)[i] == b;
      forall j | 0 <= j < |Chain(e)| && IsOutermostBroker(e, j) ensures j == i {
        assert !(j < i) && !(i < j);
      }
    }
  }

  /** One more layer around an error that is not itself a broker error:
      `fmt.Errorf("...%w", e)`, or first place in a MultiError. */
  datatype Layer = TextLayer(ref: nat) | MultiLayer(ref: nat, others: seq<Error>)

  function Wrap(e: Error, layers: seq<Layer>): Error {
    if layers == [] then e
    else match layers[0]
      case TextLayer(r) => Wrapped(r, Wrap(e, layers[1..]))
      case MultiLayer(r, es) => Multi(r, [Wrap(e, layers[1..])] + es)
  }

  /** Wrapping any number of times changes neither classification, and loses no match. */
  lemma {:induction false} ClassificationSurvivesWrapping(e: Error, layers: seq<Layer>)
    ensures GetBrokerError(Wrap(e, layers)) == GetBrokerError(e)
    ensures IsRetryableError(Wrap(e, layers)) == IsRetryableError(e)
    ensures IsConnectionError(Wrap(e, layers)) == IsConnectionError(e)
    ensures forall t: Error :: !e.Nil? && Matches(e, t) ==> Matches(Wrap(e, layers), t)
    ensures !Wrap(e, layers).Nil? <==> !e.Nil? || layers != []
  {
    if layers != [] {
      var inner, outer := Wrap(e, layers[1..]), Wrap(e, layers);
      ClassificationSurvivesWrapping(e, layers[1..]);
      assert Unwrap(outer) == inner;
      forall t: Error | !t.Nil?
        ensures Matches(outer, t) <==> NodeMatches(outer, t) || Matches(inner, t)
      {
        MatchesStep(outer, t);
      }
      assert forall s: nat :: !NodeMatches(outer, Sentinel(s));
    }
  }

  /** A broker error built around a cause hides the cause's classification: only the new code
      decides retryability, while sentinel matches still reach through it. */
  lemma BrokerLayerDecides(ref: nat, code: ErrorCode, message: string, cause: Error)
    ensures var e := NewBrokerError(ref, code, message, cause);
            && (IsRetryableError(e) <==>
                  code in {"CONNECTION_FAILED", "CONNECTION_TIMEOUT", "PUBLISH_TIMEOUT", "BROKER_UNAVAILABLE"})
            && (IsConnectionError(e) <==>
                  || code in {"CONNECTION_FAILED", "CONNECTION_CLOSED", "CONNECTION_TIMEOUT", "AUTHENTICATION_FAILED"}
                  || Matches(cause, ErrConnectionFailed)
                  || Matches(cause, ErrConnectionClosed) || Matches(cause, ErrConnectionTimeout))
  {
    var e := NewBrokerError(ref, code, message, cause);
    forall s: nat ensures Matches(e, Sentinel(s)) <==> Matches(cause, Sentinel(s)) {
      MatchesStep(e, Sentinel(s));
    }
  }

  // ---------------------------------------------------------------- MultiError

  function NonNil(es: seq<Error>): seq<Error> {
    if es == [] then []
    else NonNil(es[..|es| - 1]) + (if es[|es| - 1].Nil? then [] else [es[|es| - 1]])
  }

  class MultiError {
    const ref: nat
    var errors: seq<Error>

    constructor (ref: nat, errs: seq<Error>)
      ensures this.ref == ref && errors == errs
    {
      this.ref := ref;
      errors := errs;
    }

    method Add(e: Error)
      modifies this
      ensures errors == if e.Nil? then old(errors) else old(errors) + [e]
    {
      if !e.Nil? {
        errors := errors + [e];
      }
    }

    function ErrorOrNil(): (r: Error)
      reads this
      ensures r.Nil? <==> errors == []
      ensures Unwrap(r) == if errors == [] then Nil else errors[0]
    {
      if |errors| > 0 then Multi(ref, errors) else Nil
    }
  }

  lemma NonNilAppend(es: seq<Error>, e: Error)
    ensures NonNil(es + [e]) == NonNil(es) + NonNil([e])
  {
    assert (es + [e])[..|es|] == es && [e][..0] == [];
    assert NonNil([]) == [];
  }

  lemma NonNilLast(es: seq<Error>)
    requires es != []
    ensures var last := es[|es| - 1];
            NonNil(es) == if last.Nil? then NonNil(es[..|es| - 1]) else NonNil(es[..|es| - 1]) + [last]
  {
  }

  /** The non-nil ones, all of them, each once and in order: `at` lists their positions. */
  lemma {:induction false} NonNilKeeps(es: seq<Error>) returns (at: seq<nat>)
    ensures |at| == |NonNil(es)|
    ensures forall j :: 0 <= j < |at| ==> at[j] < |es| && NonNil(es)[j] == es[at[j]] && !es[at[j]].Nil?
    ensures forall j, k :: 0 <= j < k < |at| ==> at[j] < at[k]
    ensures forall i :: 0 <= i < |es| && !es[i].Nil? ==> i in at
  {
    if es == [] {
      at := [];
    } else {
      NonNilLast(es);
      hide NonNil;
      var n := |es| - 1;
      var init := es[..n];
      at := NonNilKeeps(init);
      forall i | 0 <= i < n && !es[i].Nil? ensures i in at {
        assert init[i] == es[i];
      }
      if !es[n].Nil? {
        at := at + [n];
        assert at[|at| - 1] == n;
      }
    }
  }

  /** Adding results one by one to an empty MultiError yields nil exactly when every result
      was nil, and otherwise an error that unwraps to a non-nil result. */
  method Collect(ref: nat, results: seq<Error>) returns (r: Error)
    ensures r.Nil? <==> forall i :: 0 <= i < |results| ==> results[i].Nil?
    ensures !r.Nil? ==> r.Multi? && r.errors == NonNil(results) && !Unwrap(r).Nil?
  {
    var m := new MultiError(ref, []);
    for i := 0 to |results|
      invariant m.ref == ref && m.errors == NonNil(results[..i])
      invariant m.errors == [] <==> forall k :: 0 <= k < i ==> results[k].Nil?
      invariant forall k :: 0 <= k < |m.errors| ==> !m.errors[k].Nil?
    {
      assert results[..i + 1] == results[..i] + [results[i]];
      NonNilAppend(results[..i], results[i]);
      assert NonNil([]) == [] && [results[i]][..0] == [];
      m.Add(results[i]);
    }
    assert results[..|results|] == results;
    r := m.ErrorOrNil();
  }
}
