# spritze global container, modelled in Dafny

This project models the outer layer of the spritze dependency-injection runtime,
`spritze/application/global_container.py`. That layer does four things:

- it keeps the process-wide default: one container, or a list or tuple of containers (`init`, `_get_container`);
- it keeps a two-level wrapper cache `_WRAPPER_CACHE`, mapping a container to a mapping from callable to inner wrapper (`_get_inner`);
- it runs the multi-container fallback resolver (`_try_resolve_sync` / `_try_resolve_async`);
- it computes, once per decorated callable, the residual signature that `inject` exposes.

Files:

- `outcomes.dfy` (module `Outcomes`): the exceptions seen at this layer, and `Outcome` (a value returned or an exception raised).
- `fallback.dfy` (module `Fallback`): the fallback strategy as a pure function `Resolve` over the `Step` taken at each container, with lemmas saying which container decides and which error surfaces.
- `signatures.dfy` (module `Signatures`): the residual-signature filter `Residual`, its lemmas, and the class `SignatureCache` for the one-slot list `_sig_cache`.
- `global_container.dfy` (module `GlobalContainer`): the module state as the class `Runtime`. Its fields are `default`, `cache`, and a ghost log `built` of every wrapper the injector built. It also holds `Normalize`, the loop `TryResolve`, which is proved against `Fallback.Resolve`, the wrapped call `Call`, and `Inject`.

Modelling choices:

- Containers and callables are identities.
- An inner wrapper is an object of class `Wrapper`. The model assumes that each successful `container.injector()(func)` call returns a new object; this is what `fresh(r.value)` in `GetInner` expresses. `Container.injector` is not part of this model.
- `container.injector()(func)` is an oracle: the constant `Runtime.injector` says whether it raises, and if so which exception. Otherwise it builds a wrapper for that pair.
- Calling an inner wrapper with the call's arguments is an oracle parameter `invoke(container, func)`.
- The weak-keyed dictionary is an ordinary map.

Behaviour of the code that is easy to miss:

- `_get_inner` is called outside the `try`. An exception raised while a wrapper is being built therefore ends the fallback at once, even when it is `DependencyNotFound` or `InvalidProvider` (`Step.WrapRaised`).
- `_get_inner` stores an empty mapping for a container before the injector runs. That mapping stays even when the injector raises.
- An empty container list given straight to the resolver raises `DependencyNotFound(object)`. `init` refuses an empty list or tuple, but it stores the caller's list object itself (line 30), and `_normalize_containers` returns that object as is (lines 99-100). If the caller later empties the list, the next wrapped call iterates an empty list and raises `DependencyNotFound(object)` without trying any container. The model stores the default as a value, so it does not capture this (see `ActiveContainersNonEmpty` under "## Left out").
- The wrapper cache is keyed by each container tried, not by the active default. `init` leaves the cache as it is.

## Model

| member | source | states |
|---|---|---|
| `GlobalContainer.Runtime.constructor` | spritze/application/global_container.py:18-21 | No default is set and the wrapper cache starts empty. |
| `GlobalContainer.Runtime.Init` | spritze/application/global_container.py:24-30 | An empty list or tuple raises `ValueError` and leaves the old default in place. Anything else becomes the default exactly (a later `init` replaces it). The cache is untouched. In the model the stored default is never an empty sequence; the source stores a list by reference, so this holds only while its owner does not mutate it. |
| `GlobalContainer.Runtime.GetContainer` | spritze/application/global_container.py:33-39 | Raises `RuntimeError` with the source's message if and only if no default is set; otherwise returns the stored default unchanged. |
| `GlobalContainer.Normalize` | spritze/application/global_container.py:95-102 | A sequence is returned as is and a single container becomes a one-element sequence. The result is empty exactly for the argument `init` rejects. |
| `GlobalContainer.ActiveContainersNonEmpty` | spritze/application/global_container.py:24-30 | After a successful `init`, the normalized default holds at least one container, provided the stored list is not mutated later. |
| `GlobalContainer.Runtime.GetInner` | spritze/application/global_container.py:42-53 | A cached pair returns the identical inner, does not run the injector, and changes nothing. A container with no mapping gets an empty one first, and only then. An uncached pair runs the injector once: it caches a fresh inner for exactly that pair and leaves every other entry as it was, or it raises the injector's exception after storing the container's (possibly empty) mapping. Afterwards a returned inner is the cache entry for the pair. The call returns exactly when the injector builds for that pair. No existing entry is ever removed or replaced. |
| `GlobalContainer.EnsureMappingKeepsInvariant` | spritze/application/global_container.py:45-48 | Creating a missing container mapping keeps the cache invariant: every cached inner belongs to its own pair, and each pair was built at most once. |
| `GlobalContainer.InsertKeepsInvariant` | spritze/application/global_container.py:49-52 | Caching the inner just built for an uncached pair keeps that invariant and logs the pair once. |
| `GlobalContainer.Runtime.AttemptAt` | spritze/application/global_container.py:64-66 | One turn of the loop: getting the inner (outside the `try`) and calling it gives exactly `StepOf` for that container. In this turn the cache only grows and changes only at that container, and the injector log gains at most the pair (container, func). From the start of the run, the `Reached` frame extends to that container. |
| `GlobalContainer.Runtime.TryResolve` | spritze/application/global_container.py:56-92 | The loop's outcome equals `Fallback.Resolve` over the containers' steps. The number of containers reached equals `Fallback.Attempts`. The cache only grows: no cached inner is removed or replaced. It changes only at containers reached. The injector log only grows, and only with pairs (reached container, func). Every reached container that can build a wrapper afterwards has it cached, so a later call through the same container does not run its injector again. |
| `GlobalContainer.Runtime.Call` | spritze/application/global_container.py:119-138 | With no default the wrapped call raises `RuntimeError` and leaves the cache and the injector log alone. Otherwise its outcome is `Fallback.Resolve` over the normalized default containers. The cache only grows and changes only at the containers reached. The injector builds only for `w.func` at those containers, and each of them that can build has its wrapper cached, so a later call does not run the injector again for that pair. Sync and async wrappers behave the same. |
| `GlobalContainer.Inject` | spritze/application/global_container.py:105-145 | The wrapped callable keeps the original callable and its coroutine tag. It exposes the original parameters minus the dependency names. |
| `Fallback.Decide` | spritze/application/global_container.py:64-71 | A step that stops the search returns the container's value if the call returned, and otherwise raises the step's own exception unchanged. |
| `Fallback.FirstDecisiveWins` | spritze/application/global_container.py:63-69 | Take the first container whose step is not a recoverable failure. Its result or exception is the outcome, and no container after it is reached. |
| `Fallback.AllRecoverableRaisesLast` | spritze/application/global_container.py:67-72 | When every container fails recoverably, all of them are tried and the last one's exception is raised. An empty list raises `DependencyNotFound(object)`. |
| `Fallback.ReturnsIffSomeContainerReturns` | spritze/application/global_container.py:63-69 | The resolver returns if and only if some container returns after only recoverable failures before it. The value is that container's. |
| `Fallback.FirstDecisiveIndex` | spritze/application/global_container.py:63-69 | The index of the first step that does not move on. Every earlier step is a recoverable failure. |
| `Fallback.RaisedErrorOrigin` | spritze/application/global_container.py:62-72 | A recoverable exception escapes only if every container failed recoverably, or if a wrapper build raised it. A non-recoverable exception is always the one raised at the container where the search stopped. |
| `Signatures.Residual` | spritze/application/global_container.py:113-115 | A parameter is in the residual signature if and only if it is an original parameter whose name is not a dependency. |
| `Signatures.ResidualKeepsOrder` | spritze/application/global_container.py:113-115 | The residual parameters keep their original relative order (a subsequence). |
| `Signatures.ResidualOfConcat` | spritze/application/global_container.py:113-115 | The filter works element by element: filtering a concatenation concatenates the filtered parts. |
| `Signatures.ResidualMultiplicity` | spritze/application/global_container.py:113-115 | A parameter occurs as often as in the original, or not at all if its name is a dependency. |
| `Signatures.ResidualIdempotent` | spritze/application/global_container.py:113-115 | Removing the dependencies twice gives the same signature as removing them once. |
| `Signatures.ResidualWithoutDeps` | spritze/application/global_container.py:113-115 | With no dependencies the signature is unchanged. |
| `Signatures.SignatureCache.constructor` | spritze/application/global_container.py:106 | The one-slot cache starts empty, and nothing has been computed yet. |
| `Signatures.SignatureCache.Get` | spritze/application/global_container.py:108-117 | Always returns the residual signature, and fills the slot with it. It is computed on the first call only; later calls return the cached value and compute nothing. |

## Left out

- TryResolve and Call: in the model, calling an inner (`invoke`) has no effect on module state. The user's callable runs inside the loop (lines 66 and 86). A wrapped callable it calls in turn may add wrapper-cache entries for other callables, possibly at containers this call never reached, and an `init` it calls replaces the default. Neither is modelled. The cache frame and `default == old(default)` cover only this call's own `_get_inner` steps.
- ActiveContainersNonEmpty (and `Init`): the source stores a list passed to `init` by reference, and its owner may empty it later, after which a wrapped call raises `DependencyNotFound(object)` without trying any container. The model stores the default as a value and does not capture later mutation of that list.
- The bodies of `Container`, `Container.injector()` and `ResolutionService` (scopes, instance caching, cycles, teardown) are not part of this model. Building an inner and calling it are oracles.
- `inspect.signature`, `get_type_hints` and `extract_dependencies_from_signature` are reflection. A signature is given as a list of parameters, and the dependencies as a set of names.
- `functools.wraps` and the `setattr(__signature__)` under `suppress` are reflection. The model records the signature in the `Injected` value and does not model an attribute assignment that fails.
- The weak-reference behaviour of `WeakKeyDictionary` is not modelled. Dropping entries only discards memoised wrappers.
- `async`/`await` suspension is not modelled: `_try_resolve_async` is modelled by the same `TryResolve` loop as `_try_resolve_sync`. `inspect.iscoroutinefunction` is modelled only as the `isAsync` tag.
- `Init` and `Normalize` handle only a single container or a list/tuple. A `Sequence` that is neither a list nor a tuple is not modelled. The source would not reject it when empty, and `_normalize_containers` would wrap it as one container.
- The positional and keyword arguments of a wrapped call are passed unchanged to every inner. They are folded into the `invoke` oracle.
- Concurrent use of the module globals is not modelled.
