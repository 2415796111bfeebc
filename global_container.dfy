/** The process-wide default container(s), the per-(container, callable) wrapper cache,
    and the `inject` decorator that ties them to the fallback resolver. */
module GlobalContainer {
  import opened Outcomes
  import opened Fallback
  import opened Signatures

  /** A `Container` instance, known by its identity. */
  datatype Container = Container(id: nat)
  /** A user callable, known by its identity. */
  datatype Func = Func(id: nat)

  /** The argument of `init`: one container, or a list or tuple of containers. */
  datatype Activation = Single(container: Container) | Many(containers: seq<Container>)

  /** What `init` accepts: anything but an empty list or tuple. */
  predicate Activatable(a: Activation) {
    !(a.Many? && a.containers == [])
  }

  const EmptySequenceMessage: string := "Container sequence cannot be empty"
  const NoContainerMessage: string := "No global container is set. Call spritze.init(container) first."

  /** `_normalize_containers`: a sequence is kept as it is, a single container becomes a
      one-element sequence; the result is empty exactly for what `init` rejects. */
  function Normalize(a: Activation): (r: seq<Container>)
    ensures a.Single? ==> r == [a.container]
    ensures a.Many? ==> r == a.containers
    ensures r != [] <==> Activatable(a)
  {
    match a
    case Single(c) => [c]
    case Many(cs) => cs
  }

  /** The inner callable `container.injector()(func)` builds: a fresh closure object. */
  class Wrapper {
    const container: Container
    const func: Func

    constructor (container: Container, func: Func)
      ensures this.container == container && this.func == func
    {
      this.container := container;
      this.func := func;
    }
  }

  /** The wrapped callable `inject` returns: it remembers the original callable,
      whether it is a coroutine function, and the signature it exposes. */
  datatype Injected = Injected(func: Func, isAsync: bool, signature: seq<Param>)

  /** Every cached inner was built by the injector for its own (container, callable)
      pair, and the injector has built at most one wrapper per pair: `built` lists each
      pair once, and exactly the cached pairs. */
  ghost predicate CacheInvariant(cache: map<Container, map<Func, Wrapper>>, built: seq<(Container, Func)>,
                                 injector: (Container, Func) -> Option<Error>)
  {
    (forall c, f :: c in cache && f in cache[c] ==>
      cache[c][f].container == c && cache[c][f].func == f &&
      injector(c, f).None? && (c, f) in built) &&
    (forall i :: 0 <= i < |built| ==> built[i].0 in cache && built[i].1 in cache[built[i].0]) &&
    (forall i, j :: 0 <= i < j < |built| ==> built[i] != built[j])
  }

  /** Giving a container an empty mapping when it has none keeps the invariant. */
  lemma EnsureMappingKeepsInvariant(cache: map<Container, map<Func, Wrapper>>, built: seq<(Container, Func)>,
                                    injector: (Container, Func) -> Option<Error>, c: Container)
    requires CacheInvariant(cache, built, injector) && c !in cache
    ensures CacheInvariant(cache[c := map[]], built, injector)
  {
  }

  /** Caching a wrapper the injector has just built for a new pair keeps the invariant. */
  lemma InsertKeepsInvariant(cache: map<Container, map<Func, Wrapper>>, built: seq<(Container, Func)>,
                             injector: (Container, Func) -> Option<Error>, c: Container, f: Func, w: Wrapper)
    requires CacheInvariant(cache, built, injector)
    requires c in cache && f !in cache[c] && injector(c, f).None? && w.container == c && w.func == f
    ensures CacheInvariant(cache[c := cache[c][f := w]], built + [(c, f)], injector)
  {
  }

  /** `built` extends `before` only with wrappers for `f` built at containers in `cs`. */
  ghost predicate BuiltOnlyFor(before: seq<(Container, Func)>, built: seq<(Container, Func)>, cs: seq<Container>, f: Func)
  {
    |before| <= |built| && built[..|before|] == before &&
    forall k :: |before| <= k < |built| ==> built[k].0 in cs && built[k].1 == f
  }

  /** Reaching one more container `c` builds at most the wrapper for `(c, f)`. */
  lemma BuiltOnlyForStep(before: seq<(Container, Func)>, mid: seq<(Container, Func)>, after: seq<(Container, Func)>,
                         cs: seq<Container>, c: Container, f: Func)
    requires BuiltOnlyFor(before, mid, cs, f)
    requires after == mid || after == mid + [(c, f)]
    ensures BuiltOnlyFor(before, after, cs + [c], f)
  {
    if after != mid {
      assert after[..|before|] == mid[..|before|];
      forall k | |before| <= k < |after| ensures after[k].0 in cs + [c] && after[k].1 == f {
        if k < |mid| {
          assert after[k] == mid[k];
        }
      }
    }
  }

  /** No cached entry is removed or replaced. */
  ghost predicate CacheGrows(before: map<Container, map<Func, Wrapper>>, after: map<Container, map<Func, Wrapper>>)
  {
    forall c, f :: c in before && f in before[c] ==> c in after && f in after[c] && after[c][f] == before[c][f]
  }

  /** Entries of containers outside `cs` are as they were. */
  ghost predicate ChangedOnlyAt(before: map<Container, map<Func, Wrapper>>, after: map<Container, map<Func, Wrapper>>,
                                cs: seq<Container>)
  {
    forall c :: c !in cs ==> (c in after <==> c in before) && (c in after ==> after[c] == before[c])
  }

  /** Replacing the mapping of `c` by one that extends it grows the cache and changes it
      at `c` only. */
  lemma GrowAt(cache: map<Container, map<Func, Wrapper>>, c: Container, m: map<Func, Wrapper>)
    requires c in cache ==> forall f :: f in cache[c] ==> f in m && m[f] == cache[c][f]
    ensures CacheGrows(cache, cache[c := m]) && ChangedOnlyAt(cache, cache[c := m], [c])
  {
  }

  /** Growth of the cache composes. */
  lemma CacheGrowsTransitive(a: map<Container, map<Func, Wrapper>>, b: map<Container, map<Func, Wrapper>>,
                             c: map<Container, map<Func, Wrapper>>)
    requires CacheGrows(a, b) && CacheGrows(b, c)
    ensures CacheGrows(a, c)
  {
  }

  /** A step that changes the cache only at `c`, and only by growing it, extends a run
      that changed it only at `cs` and only by growing it. */
  lemma CacheFrameStep(start: map<Container, map<Func, Wrapper>>, mid: map<Container, map<Func, Wrapper>>,
                       after: map<Container, map<Func, Wrapper>>, cs: seq<Container>, c: Container)
    requires ChangedOnlyAt(start, mid, cs) && CacheGrows(start, mid)
    requires ChangedOnlyAt(mid, after, [c]) && CacheGrows(mid, after)
    ensures ChangedOnlyAt(start, after, cs + [c]) && CacheGrows(start, after)
  {
    CacheGrowsTransitive(start, mid, after);
  }

  /** Each container of `cs` whose injector builds a wrapper for `f` has it cached. */
  ghost predicate ReachedCached(cache: map<Container, map<Func, Wrapper>>, cs: seq<Container>, f: Func,
                                injector: (Container, Func) -> Option<Error>)
  {
    forall j :: 0 <= j < |cs| && injector(cs[j], f).None? ==> cs[j] in cache && f in cache[cs[j]]
  }

  /** Reaching one more container keeps every reached wrapper cached. */
  lemma ReachedCachedStep(before: map<Container, map<Func, Wrapper>>, after: map<Container, map<Func, Wrapper>>,
                          cs: seq<Container>, c: Container, f: Func, injector: (Container, Func) -> Option<Error>)
    requires ReachedCached(before, cs, f, injector) && CacheGrows(before, after)
    requires injector(c, f).None? ==> c in after && f in after[c]
    ensures ReachedCached(after, cs + [c], f, injector)
  {
    forall j | 0 <= j < |cs| + 1 && injector((cs + [c])[j], f).None?
      ensures (cs + [c])[j] in after && f in after[(cs + [c])[j]]
    {
      if j < |cs| {
        assert (cs + [c])[j] == cs[j];
      }
    }
  }

  /** What resolving `f` across the containers `cs` may do to the cache and the injector
      log: the cache only grows and changes only at containers of `cs`, the injector only
      builds wrappers for `f` at containers of `cs`, and every container of `cs` whose
      injector builds has its wrapper for `f` cached. */
  ghost predicate Reached(cache0: map<Container, map<Func, Wrapper>>, cache: map<Container, map<Func, Wrapper>>,
                          built0: seq<(Container, Func)>, built: seq<(Container, Func)>,
                          cs: seq<Container>, f: Func, injector: (Container, Func) -> Option<Error>)
  {
    ChangedOnlyAt(cache0, cache, cs) && CacheGrows(cache0, cache) &&
    BuiltOnlyFor(built0, built, cs, f) && ReachedCached(cache, cs, f, injector)
  }

  /** Reaching one more container `c` extends `Reached` from `cs` to `cs + [c]`. */
  lemma ReachedStep(cache0: map<Container, map<Func, Wrapper>>, cacheMid: map<Container, map<Func, Wrapper>>,
                    cache: map<Container, map<Func, Wrapper>>,
                    built0: seq<(Container, Func)>, builtMid: seq<(Container, Func)>, built: seq<(Container, Func)>,
                    cs: seq<Container>, c: Container, f: Func, injector: (Container, Func) -> Option<Error>)
    requires Reached(cache0, cacheMid, built0, builtMid, cs, f, injector)
    requires ChangedOnlyAt(cacheMid, cache, [c]) && CacheGrows(cacheMid, cache)
    requires built == builtMid || built == builtMid + [(c, f)]
    requires injector(c, f).None? ==> c in cache && f in cache[c]
    ensures Reached(cache0, cache, built0, built, cs + [c], f, injector)
  {
    CacheFrameStep(cache0, cacheMid, cache, cs, c);
    BuiltOnlyForStep(built0, builtMid, built, cs, c, f);
    ReachedCachedStep(cacheMid, cache, cs, c, f, injector);
  }

  /** The module-level state of `global_container.py`. */
  class Runtime {
    /** Whether `container.injector()(func)` raises (`Some`) or builds a wrapper (`None`). */
    const injector: (Container, Func) -> Option<Error>
    /** `_default_container`. */
    var default: Option<Activation>
    /** `_WRAPPER_CACHE`: container -> (callable -> inner). */
    var cache: map<Container, map<Func, Wrapper>>
    /** Every pair for which the injector has built a wrapper, in order. */
    ghost var built: seq<(Container, Func)>

    predicate Cached(c: Container, f: Func)
      reads this
    {
      c in cache && f in cache[c]
    }

    /** The inner mapping of a container, empty when it has none yet. */
    function MappingOf(c: Container): map<Func, Wrapper>
      reads this
    {
      if c in cache then cache[c] else map[]
    }

    ghost predicate Valid()
      reads this
    {
      (default.Some? ==> Activatable(default.value)) && CacheInvariant(cache, built, injector)
    }

    constructor (injector: (Container, Func) -> Option<Error>)
      ensures Valid()
      ensures this.injector == injector
      ensures default == None && cache == map[] && built == []
    {
      this.injector := injector;
      default := None;
      cache := map[];
      built := [];
    }

    /** `init`: an empty list or tuple raises `ValueError` and changes nothing; anything
        else replaces the default. The wrapper cache is left as it is. */
    method Init(a: Activation) returns (raised: Option<Error>)
      requires Valid()
      modifies this
      ensures Valid()
      ensures cache == old(cache) && built == old(built)
      ensures !Activatable(a) ==> raised == Some(ValueError(EmptySequenceMessage)) && default == old(default)
      ensures Activatable(a) ==> raised == None && default == Some(a)
    {
      if a.Many? && a.containers == [] {
        return Some(ValueError(EmptySequenceMessage));
      }
      default := Some(a);
      raised := None;
    }

    /** `_get_container`: raises `RuntimeError` exactly when no default was set, and
        otherwise returns the stored default unchanged. */
    function GetContainer(): (r: Outcome<Activation>)
      reads this
      ensures r.Raised? <==> default.None?
      ensures r.Raised? ==> r.error == RuntimeError(NoContainerMessage)
      ensures r.Returned? ==> default == Some(r.value)
    {
      if default.None? then Raised(RuntimeError(NoContainerMessage)) else Returned(default.value)
    }

    /** `_get_inner`: returns the cached inner of `(c, f)` without running the injector,
        or runs the injector once and caches what it builds. The container's mapping is
        created before the injector runs, so it exists even when the injector raises. */
    method GetInner(c: Container, f: Func) returns (r: Outcome<Wrapper>)
      requires Valid()
      modifies this
      ensures Valid() && default == old(default)
      ensures c in cache
      ensures old(Cached(c, f)) ==>
        r == Returned(old(cache[c][f])) && cache == old(cache) && built == old(built)
      ensures !old(Cached(c, f)) && injector(c, f).Some? ==>
        r == Raised(injector(c, f).value) && built == old(built) &&
        cache == if c in old(cache) then old(cache) else old(cache)[c := map[]]
      ensures !old(Cached(c, f)) && injector(c, f).None? ==>
        r.Returned? && fresh(r.value) && r.value.container == c && r.value.func == f &&
        built == old(built) + [(c, f)] &&
        cache == old(cache)[c := old(MappingOf(c))[f := r.value]]
      ensures r.Returned? ==> Cached(c, f) && cache[c][f] == r.value
      ensures r.Returned? <==> injector(c, f).None?
      ensures CacheGrows(old(cache), cache) && ChangedOnlyAt(old(cache), cache, [c])
    {
      var mapping: map<Func, Wrapper> := MappingOf(c);
      if c !in cache {
        EnsureMappingKeepsInvariant(cache, built, injector, c);
        GrowAt(cache, c, mapping);
        cache := cache[c := mapping];
      }
      if f in mapping {
        return Returned(mapping[f]);
      }
      var failure := injector(c, f);
      if failure.Some? {
        return Raised(failure.value);
      }
      var inner := new Wrapper(c, f);
      InsertKeepsInvariant(cache, built, injector, c, f, inner);
      GrowAt(cache, c, mapping[f := inner]);
      cache := cache[c := mapping[f := inner]];
      built := built + [(c, f)];
      r := Returned(inner);
    }

    /** What happens at container `c` when resolving `f`: building its wrapper raises, or
        calling the wrapper gives `invoke(c, f)`. */
    function StepOf(c: Container, f: Func, invoke: (Container, Func) -> Outcome<Value>): Step
    {
      if injector(c, f).Some? then WrapRaised(injector(c, f).value)
      else match invoke(c, f)
        case Returned(v) => CallReturned(v)
        case Raised(e) => CallRaised(e)
    }

    function Steps(cs: seq<Container>, f: Func, invoke: (Container, Func) -> Outcome<Value>): (s: seq<Step>)
      ensures |s| == |cs|
      ensures forall i :: 0 <= i < |cs| ==> s[i] == StepOf(cs[i], f, invoke)
    {
      seq(|cs|, i requires 0 <= i < |cs| => StepOf(cs[i], f, invoke))
    }

    /** One turn of the resolver's loop at container `c`: get the inner (which may raise,
        outside the `try`) and call it. The resulting step is `StepOf(c, f, invoke)`, and
        `c` joins the containers reached since the cache was `cache0` and the log `built0`. */
    method AttemptAt(c: Container, f: Func, invoke: (Container, Func) -> Outcome<Value>,
                     ghost cache0: map<Container, map<Func, Wrapper>>, ghost built0: seq<(Container, Func)>,
                     ghost reached: seq<Container>)
      returns (step: Step)
      requires Valid()
      requires Reached(cache0, cache, built0, built, reached, f, injector)
      modifies this
      ensures Valid() && default == old(default)
      ensures step == StepOf(c, f, invoke)
      ensures Reached(cache0, cache, built0, built, reached + [c], f, injector)
      ensures CacheGrows(old(cache), cache) && ChangedOnlyAt(old(cache), cache, [c])
      ensures built == old(built) || built == old(built) + [(c, f)]
    {
      ghost var cacheBefore, builtBefore := cache, built;
      var got := GetInner(c, f);
      ReachedStep(cache0, cacheBefore, cache, built0, builtBefore, built, reached, c, f, injector);
      if got.Raised? {
        return WrapRaised(got.error);
      }
      var inner := got.value;
      var out := invoke(inner.container, inner.func);
      step := if out.Returned? then CallReturned(out.value) else CallRaised(out.error);
    }

    /** `_try_resolve_sync` and `_try_resolve_async`: tries the containers in order and
        produces what `Resolve` says; `tried` counts the containers reached, and the cache
        changes only at those. `invoke(c, f)` is the outcome of calling the inner that
        container `c` built for `f` with the call's arguments. */
    method TryResolve(containers: seq<Container>, f: Func, invoke: (Container, Func) -> Outcome<Value>)
      returns (r: Outcome<Value>, ghost tried: nat)
      requires Valid()
      modifies this
      ensures Valid() && default == old(default)
      ensures r == Resolve(Steps(containers, f, invoke), None)
      ensures tried == Attempts(Steps(containers, f, invoke)) && tried <= |containers|
      ensures Reached(old(cache), cache, old(built), built, containers[..tried], f, injector)
    {
      ghost var steps := Steps(containers, f, invoke);
      var last: Option<Error> := None;
      var i := 0;
      while i < |containers|
        invariant 0 <= i <= |containers|
        invariant Valid() && default == old(default)
        invariant AllMoveOn(steps, i)
        invariant Resolve(steps, None) == Resolve(steps[i..], last)
        invariant Attempts(steps) == i + Attempts(steps[i..])
        invariant Reached(old(cache), cache, old(built), built, containers[..i], f, injector)
      {
        var c := containers[i];
        assert containers[..i + 1] == containers[..i] + [c];
        var step := AttemptAt(c, f, invoke, old(cache), old(built), containers[..i]);
        if !MovesOn(step) {
          ResolveStops(steps, i, last);
          r, tried := Decide(step), i + 1;
          return;
        }
        ResolveMovesOn(steps, i, last);
        last := Some(step.error);
        i := i + 1;
      }
      r := Raised(if last.Some? then last.value else NothingToTry);
      tried := i;
    }

    /** Calling a wrapped callable (`_swrapper`, or `_awrapper` without its suspension):
        with no default the call raises `RuntimeError` and touches no cache; otherwise it
        resolves across the normalized default containers, building wrappers only for
        `w.func` at those containers and keeping every wrapper already cached. */
    method Call(w: Injected, invoke: (Container, Func) -> Outcome<Value>) returns (r: Outcome<Value>)
      requires Valid()
      modifies this
      ensures Valid() && default == old(default)
      ensures old(default).None? ==>
        r == Raised(RuntimeError(NoContainerMessage)) && cache == old(cache) && built == old(built)
      ensures old(default).Some? ==> r == Resolve(Steps(Normalize(old(default).value), w.func, invoke), None)
      ensures old(default).Some? ==> Reached(old(cache), cache, old(built), built,
        Normalize(old(default).value)[..Attempts(Steps(Normalize(old(default).value), w.func, invoke))],
        w.func, injector)
    {
      var active := GetContainer();
      if active.Raised? {
        return Raised(active.error);
      }
      var containers := Normalize(active.value);
      ghost var tried;
      r, tried := TryResolve(containers, w.func, invoke);
    }
  }

  /** The default stored by a successful `init` normalizes to a non-empty list (as long
      as that list is not mutated afterwards, which this model does not capture). */
  lemma ActiveContainersNonEmpty(rt: Runtime)
    requires rt.Valid() && rt.default.Some?
    ensures Normalize(rt.default.value) != []
  {
  }

  /** `inject`: wraps `func` and sets the exposed signature, computed once through the
      one-slot cache, to the parameters that are not dependencies. */
  method Inject(func: Func, params: seq<Param>, deps: set<string>, isCoroutine: bool) returns (w: Injected)
    ensures w.func == func && w.isAsync == isCoroutine
    ensures w.signature == Residual(params, deps)
  {
    var sigCache := new SignatureCache(params, deps);
    var sig := sigCache.Get();
    w := Injected(func, isCoroutine, sig);
  }
}
