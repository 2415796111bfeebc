/** The multi-container fallback strategy of `_try_resolve_sync` and
    `_try_resolve_async`, stated as a function of what happens at each container. */
module Fallback {
  import opened Outcomes

  /** What happens when the resolver reaches one container: building the wrapper
      raised (this happens outside the `try`), or calling the wrapper returned or raised. */
  datatype Step = WrapRaised(error: Error) | CallReturned(value: Value) | CallRaised(error: Error)

  /** The two exceptions after which the next container is tried. */
  predicate Recoverable(e: Error) {
    e.DependencyNotFound? || e.InvalidProvider?
  }

  /** A step after which the resolver moves on to the next container. */
  predicate MovesOn(s: Step) {
    s.CallRaised? && Recoverable(s.error)
  }

  /** What a step that ends the search produces. */
  function Decide(s: Step): (r: Outcome<Value>)
    requires !MovesOn(s)
    ensures r.Returned? <==> s.CallReturned?
    ensures s.CallReturned? ==> r.value == s.value
    ensures !s.CallReturned? ==> r.error == s.error
  {
    match s
    case CallReturned(v) => Returned(v)
    case WrapRaised(e) => Raised(e)
    case CallRaised(e) => Raised(e)
  }

  /** The error raised for an empty container list. */
  const NothingToTry: Error := DependencyNotFound(ObjectType)

  /** The outcome of the resolver over the remaining steps, given the last recoverable
      exception seen so far (`last_exc`). */
  function Resolve(steps: seq<Step>, last: Option<Error>): Outcome<Value>
  {
    if steps == [] then Raised(if last.Some? then last.value else NothingToTry)
    else if MovesOn(steps[0]) then Resolve(steps[1..], Some(steps[0].error))
    else Decide(steps[0])
  }

  /** How many containers the resolver reaches: every container up to and including
      the first one whose step does not move on. */
  function Attempts(steps: seq<Step>): (n: nat)
    ensures n <= |steps|
    ensures steps != [] ==> n >= 1
  {
    if steps == [] then 0
    else if MovesOn(steps[0]) then 1 + Attempts(steps[1..])
    else 1
  }

  /** Every step in `steps[..k]` moves on. */
  predicate AllMoveOn(steps: seq<Step>, k: nat)
    requires k <= |steps|
  {
    forall i :: 0 <= i < k ==> MovesOn(steps[i])
  }

  /** The first container whose step does not move on decides the outcome, and no
      container after it is reached. */
  lemma {:induction false} FirstDecisiveWins(steps: seq<Step>, last: Option<Error>, k: nat)
    requires k < |steps| && AllMoveOn(steps, k) && !MovesOn(steps[k])
    ensures Resolve(steps, last) == Decide(steps[k])
    ensures Attempts(steps) == k + 1
  {
    if k > 0 {
      assert MovesOn(steps[0]);
      assert AllMoveOn(steps[1..], k - 1) by {
        forall i | 0 <= i < k - 1 ensures MovesOn(steps[1..][i]) {
          assert steps[1..][i] == steps[i + 1];
        }
      }
      FirstDecisiveWins(steps[1..], Some(steps[0].error), k - 1);
    }
  }

  /** When every container fails recoverably, the exception of the last one is raised
      and every container is reached; with no container at all, `DependencyNotFound(object)`
      is raised. */
  lemma {:induction false} AllRecoverableRaisesLast(steps: seq<Step>, last: Option<Error>)
    requires AllMoveOn(steps, |steps|)
    ensures steps != [] ==> Resolve(steps, last) == Raised(steps[|steps| - 1].error)
    ensures steps == [] ==> Resolve(steps, last) == Raised(if last.Some? then last.value else NothingToTry)
    ensures Attempts(steps) == |steps|
  {
    if steps != [] {
      assert MovesOn(steps[0]);
      assert AllMoveOn(steps[1..], |steps| - 1) by {
        forall i | 0 <= i < |steps| - 1 ensures MovesOn(steps[1..][i]) {
          assert steps[1..][i] == steps[i + 1];
        }
      }
      AllRecoverableRaisesLast(steps[1..], Some(steps[0].error));
      if |steps| > 1 {
        assert steps[1..][|steps[1..]| - 1] == steps[|steps| - 1];
      }
    }
  }

  /** The resolver returns exactly when some container returns and every container
      before it failed recoverably; the value is that container's. */
  lemma {:induction false} ReturnsIffSomeContainerReturns(steps: seq<Step>, last: Option<Error>)
    ensures Resolve(steps, last).Returned? <==>
      exists k :: 0 <= k < |steps| && AllMoveOn(steps, k) && steps[k].CallReturned?
    ensures forall k :: 0 <= k < |steps| && AllMoveOn(steps, k) && steps[k].CallReturned? ==>
      Resolve(steps, last) == Returned(steps[k].value)
  {
    forall k | 0 <= k < |steps| && AllMoveOn(steps, k) && steps[k].CallReturned?
      ensures Resolve(steps, last) == Returned(steps[k].value)
    {
      FirstDecisiveWins(steps, last, k);
    }
    if Resolve(steps, last).Returned? {
      var k := FirstDecisiveIndex(steps);
      if k == |steps| {
        AllRecoverableRaisesLast(steps, last);
      } else {
        FirstDecisiveWins(steps, last, k);
      }
    }
  }

  /** One turn of the resolver: a step that moves on hands over to the rest, with its
      exception as the last one seen. */
  lemma ResolveMovesOn(steps: seq<Step>, i: nat, last: Option<Error>)
    requires i < |steps| && MovesOn(steps[i])
    ensures Resolve(steps[i..], last) == Resolve(steps[i + 1..], Some(steps[i].error))
    ensures Attempts(steps[i..]) == 1 + Attempts(steps[i + 1..])
  {
    assert steps[i..][0] == steps[i] && steps[i..][1..] == steps[i + 1..];
  }

  /** A step that does not move on ends the search. */
  lemma ResolveStops(steps: seq<Step>, i: nat, last: Option<Error>)
    requires i < |steps| && !MovesOn(steps[i])
    ensures Resolve(steps[i..], last) == Decide(steps[i])
    ensures Attempts(steps[i..]) == 1
  {
    assert steps[i..][0] == steps[i];
  }

  /** The index of the first step that does not move on, or `|steps|` when there is none. */
  function FirstDecisiveIndex(steps: seq<Step>): (k: nat)
    ensures k <= |steps| && AllMoveOn(steps, k)
    ensures k < |steps| ==> !MovesOn(steps[k])
  {
    if steps == [] then 0
    else if MovesOn(steps[0]) then
      var k := 1 + FirstDecisiveIndex(steps[1..]);
      assert forall i :: 1 <= i < k ==> steps[i] == steps[1..][i - 1];
      k
    else 0
  }

  /** A recoverable exception escapes the resolver only when every container failed
      recoverably (or there was none), and a non-recoverable one only when it came
      from some container reached after recoverable failures. */
  lemma {:induction false} RaisedErrorOrigin(steps: seq<Step>)
    ensures Resolve(steps, None).Raised? && Recoverable(Resolve(steps, None).error) ==>
      AllMoveOn(steps, |steps|) || exists k :: 0 <= k < |steps| && AllMoveOn(steps, k) && steps[k].WrapRaised?
    ensures Resolve(steps, None).Raised? && !Recoverable(Resolve(steps, None).error) ==>
      exists k :: 0 <= k < |steps| && AllMoveOn(steps, k) && !MovesOn(steps[k]) &&
        !steps[k].CallReturned? && steps[k].error == Resolve(steps, None).error
  {
    var k := FirstDecisiveIndex(steps);
    if k == |steps| {
      AllRecoverableRaisesLast(steps, None);
      if steps != [] {
        assert MovesOn(steps[|steps| - 1]);
      }
    } else {
      FirstDecisiveWins(steps, None, k);
    }
  }
}
