/** The residual signature that `inject` gives the wrapped callable: the callable's
    own parameters without the ones resolved from the container. */
module Signatures {
  import opened Outcomes

  /** One parameter of a callable's signature. */
  datatype Param = Param(name: string, annotation: string)

  /** The parameters whose names are not dependencies, in their original order. */
  function Residual(params: seq<Param>, deps: set<string>): (r: seq<Param>)
    ensures |r| <= |params|
    ensures forall p :: p in r <==> p in params && p.name !in deps
  {
    if params == [] then []
    else if params[0].name in deps then Residual(params[1..], deps)
    else [params[0]] + Residual(params[1..], deps)
  }

  /** `a` can be obtained from `b` by deleting elements: the relative order is kept. */
  predicate SubsequenceOf<T(==)>(a: seq<T>, b: seq<T>)
    decreases |b|
  {
    if a == [] then true
    else if b == [] then false
    else if a[0] == b[0] then SubsequenceOf(a[1..], b[1..])
    else SubsequenceOf(a, b[1..])
  }

  /** The residual signature keeps the surviving parameters in their original order. */
  lemma {:induction false} ResidualKeepsOrder(params: seq<Param>, deps: set<string>)
    ensures SubsequenceOf(Residual(params, deps), params)
  {
    if params != [] {
      ResidualKeepsOrder(params[1..], deps);
      var rest := Residual(params[1..], deps);
      if params[0].name !in deps {
        assert ([params[0]] + rest)[1..] == rest;
      } else if rest != [] {
        assert rest[0] in params[1..];
        assert rest[0].name !in deps;
        assert rest[0] != params[0];
      }
    }
  }

  /** Filtering distributes over concatenation: each part is filtered in place. */
  lemma {:induction false} ResidualOfConcat(a: seq<Param>, b: seq<Param>, deps: set<string>)
    ensures Residual(a + b, deps) == Residual(a, deps) + Residual(b, deps)
  {
    if a != [] {
      assert (a + b)[1..] == a[1..] + b;
      ResidualOfConcat(a[1..], b, deps);
    } else {
      assert a + b == b;
    }
  }

  /** Each parameter appears as often as in the original signature, unless its name is
      a dependency, in which case it does not appear at all. */
  lemma {:induction false} ResidualMultiplicity(params: seq<Param>, deps: set<string>, p: Param)
    ensures multiset(Residual(params, deps))[p] == if p.name in deps then 0 else multiset(params)[p]
  {
    if params != [] {
      ResidualMultiplicity(params[1..], deps, p);
      assert params == [params[0]] + params[1..];
      assert multiset(params) == multiset([params[0]]) + multiset(params[1..]);
    }
  }

  /** Removing the dependencies a second time changes nothing. */
  lemma {:induction false} ResidualIdempotent(params: seq<Param>, deps: set<string>)
    ensures Residual(Residual(params, deps), deps) == Residual(params, deps)
  {
    if params != [] {
      ResidualIdempotent(params[1..], deps);
    }
  }

  /** A callable without dependencies keeps its whole signature. */
  lemma {:induction false} ResidualWithoutDeps(params: seq<Param>)
    ensures Residual(params, {}) == params
  {
    if params != [] {
      ResidualWithoutDeps(params[1..]);
    }
  }

  /** The one-slot list `_sig_cache` of one `inject` call, with the signature and the
      dependency names of the wrapped callable that it is computed from. */
  class SignatureCache {
    const params: seq<Param>
    const deps: set<string>
    var slot: Option<seq<Param>>
    /** How many times the residual signature has been computed. */
    ghost var computations: nat

    ghost predicate Valid()
      reads this
    {
      computations == (if slot.None? then 0 else 1) &&
      (slot.Some? ==> slot.value == Residual(params, deps))
    }

    /** `_sig_cache = [None]`. */
    constructor (params: seq<Param>, deps: set<string>)
      ensures Valid()
      ensures this.params == params && this.deps == deps
      ensures slot == None && computations == 0
    {
      this.params := params;
      this.deps := deps;
      slot := None;
      computations := 0;
    }

    /** `_get_new_signature`: computes the residual signature on first use and returns
        the cached one afterwards, so it is computed at most once. */
    method Get() returns (sig: seq<Param>)
      requires Valid()
      modifies this
      ensures Valid()
      ensures sig == Residual(params, deps) && slot == Some(sig)
      ensures computations == 1
      ensures old(slot).Some? ==> sig == old(slot).value && computations == old(computations)
    {
      if slot.None? {
        slot := Some(Residual(params, deps));
        computations := computations + 1;
      }
      sig := slot.value;
    }
  }
}
