/**
 * Inference tips: a process-wide memo table for explicit inference functions,
 * and the transform that installs a memoised inference function in a node's
 * single `_explicit_inference` slot.
 *
 * The Python module keeps its state in globals and node attributes; here that
 * state is explicit. The `_cache` dictionary is a `Cache` value threaded
 * through the operations, and the `_explicit_inference` attribute of every
 * node is a side table `Slots` from node identity to slot content.
 */
module InferenceTip {
  import opened Wrappers
  import opened Inference

  /** Identity of an inference function object. */
  type ProviderId = nat

  /** The behaviour of an inference function when it is invoked as `func(node, context)`. */
  type Provider = (NodeId, Option<ContextId>) -> Outcome

  /** `(func, node, context)`: the key of the memo table. */
  datatype Key = Key(func: ProviderId, node: NodeId, context: Option<ContextId>)

  /**
   * `entries` is the memo table. `invoked` lists, in order, the key of every
   * call that actually invoked an inference function; it is not state of the
   * analyzer, it exists so that contracts can count invocations.
   */
  datatype Cache = Cache(entries: map<Key, Answer>, invoked: seq<Key>)

  /** The memo table after a call, and what the call returned or raised. */
  datatype Call = Call(cache: Cache, outcome: Outcome)

  /** The memo table as the process starts. */
  const EmptyCache := Cache(map[], [])

  /** How often `k` occurs in a log of invocations. */
  function Occurrences(keys: seq<Key>, k: Key): (r: nat)
  {
    multiset(keys)[k]
  }

  // ---------------------------------------------------------------------------
  // The memo table
  // ---------------------------------------------------------------------------

  /** `clear_inference_tip_cache()`: drop every entry. */
  function ClearInferenceTipCache(c: Cache): (r: Cache)
    ensures r.entries == map[]
    ensures r.invoked == c.invoked
  {
    Cache(map[], c.invoked)
  }

  /**
   * The wrapper `_inference_tip_cached(func)` called as `inner(node, context)`;
   * `run` is what `func` does if it is invoked now. On a hit the stored answer
   * is returned and `func` is not invoked. On a miss `func` is invoked once;
   * what it returns is stored under exactly this key, and an exception it
   * raises propagates and stores nothing.
   */
  function InferenceTipCached(c: Cache, func: ProviderId, run: Provider, node: NodeId, context: Option<ContextId>): (r: Call)
    ensures Key(func, node, context) in c.entries ==>
              r.cache == c && r.outcome == Success(c.entries[Key(func, node, context)])
    ensures Key(func, node, context) !in c.entries ==>
              r.cache.invoked == c.invoked + [Key(func, node, context)] && r.outcome == run(node, context)
    ensures r.outcome.Success? ==>
              r.cache.entries == c.entries[Key(func, node, context) := r.outcome.value]
    ensures r.outcome.Failure? ==> r.cache.entries == c.entries
  {
    var key := Key(func, node, context);
    if key in c.entries then
      Call(c, Success(c.entries[key]))
    else
      var invoked := c.invoked + [key];
      match run(node, context)
      case Success(answer) => Call(Cache(c.entries[key := answer], invoked), Success(answer))
      case Failure(e) => Call(Cache(c.entries, invoked), Failure(e))
  }

  /** Once a call has stored an answer, the next call for the same key returns it without invoking anything, whatever the function would now do. */
  lemma RepeatedCallIsHit(c: Cache, func: ProviderId, run: Provider, later: Provider, node: NodeId, context: Option<ContextId>)
    requires InferenceTipCached(c, func, run, node, context).outcome.Success?
    ensures var first := InferenceTipCached(c, func, run, node, context);
            var second := InferenceTipCached(first.cache, func, later, node, context);
            second.cache == first.cache && second.outcome == first.outcome
  {
  }

  /** A call for one key neither adds, removes nor overwrites the entry of any other key. */
  lemma OtherKeysUnaffected(c: Cache, func: ProviderId, run: Provider, node: NodeId, context: Option<ContextId>, other: Key)
    requires other != Key(func, node, context)
    ensures var r := InferenceTipCached(c, func, run, node, context);
            (other in r.cache.entries <==> other in c.entries) &&
            (other in c.entries ==> r.cache.entries[other] == c.entries[other])
  {
  }

  /** A call reads only its own key's entry: two tables that agree there give the same outcome. */
  lemma OutcomeReadsOnlyOwnEntry(c1: Cache, c2: Cache, func: ProviderId, run: Provider, node: NodeId, context: Option<ContextId>)
    requires Key(func, node, context) in c1.entries <==> Key(func, node, context) in c2.entries
    requires Key(func, node, context) in c1.entries ==>
               c1.entries[Key(func, node, context)] == c2.entries[Key(func, node, context)]
    ensures InferenceTipCached(c1, func, run, node, context).outcome ==
            InferenceTipCached(c2, func, run, node, context).outcome
  {
  }

  /** After the table is cleared, the next call for any key invokes its function again. */
  lemma ClearThenRecompute(c: Cache, func: ProviderId, run: Provider, node: NodeId, context: Option<ContextId>)
    ensures var r := InferenceTipCached(ClearInferenceTipCache(c), func, run, node, context);
            r.cache.invoked == c.invoked + [Key(func, node, context)] && r.outcome == run(node, context)
  {
  }

  /**
   * A raising call is not remembered: the exception propagates before the table
   * is written, so the next call for the same key invokes the function
   * again.
   */
  lemma FailedCallIsRetried(c: Cache, func: ProviderId, run: Provider, node: NodeId, context: Option<ContextId>)
    requires Key(func, node, context) !in c.entries
    requires run(node, context).Failure?
    ensures var first := InferenceTipCached(c, func, run, node, context);
            var second := InferenceTipCached(first.cache, func, run, node, context);
            second.cache.invoked == c.invoked + [Key(func, node, context), Key(func, node, context)] &&
            second.cache.entries == c.entries && second.outcome == first.outcome
  {
  }

  // ---------------------------------------------------------------------------
  // Sequences of calls
  // ---------------------------------------------------------------------------

  /** The memo table after a sequence of calls, and the outcome of each call. */
  datatype Replayed = Replayed(cache: Cache, outcomes: seq<Outcome>)

  /**
   * Calls the wrapper once per key of `requests`, in order, where `world(f)`
   * is what function `f` does when invoked. The table only grows: an entry,
   * once stored, keeps its answer, and the invocation log is only appended to.
   */
  function Replay(c: Cache, world: ProviderId -> Provider, requests: seq<Key>): (r: Replayed)
    ensures |r.outcomes| == |requests|
    ensures |c.invoked| <= |r.cache.invoked| && r.cache.invoked[..|c.invoked|] == c.invoked
    ensures forall k :: k in c.entries ==> k in r.cache.entries && r.cache.entries[k] == c.entries[k]
    decreases |requests|
  {
    if |requests| == 0 then
      Replayed(c, [])
    else
      var k := requests[0];
      var first := InferenceTipCached(c, k.func, world(k.func), k.node, k.context);
      var rest := Replay(first.cache, world, requests[1..]);
      assert rest.cache.invoked[..|c.invoked|] == rest.cache.invoked[..|first.cache.invoked|][..|c.invoked|];
      Replayed(rest.cache, [first.outcome] + rest.outcomes)
  }

  /** Every stored answer is what its function returns when invoked. */
  ghost predicate Faithful(c: Cache, world: ProviderId -> Provider)
  {
    forall k :: k in c.entries ==> world(k.func)(k.node, k.context) == Success(c.entries[k])
  }

  /**
   * Memoisation is invisible for functions that always give the same answer
   * and return a re-iterable value such as a list: starting from a faithful
   * table, every call of a sequence returns what invoking the function
   * directly would, and the table stays faithful. An answer is a sequence
   * here, so the model does not see that a stored iterator is consumed.
   */
  lemma {:induction false} ReplayIsTransparent(c: Cache, world: ProviderId -> Provider, requests: seq<Key>)
    requires Faithful(c, world)
    ensures Faithful(Replay(c, world, requests).cache, world)
    ensures forall i :: 0 <= i < |requests| ==>
              Replay(c, world, requests).outcomes[i] == world(requests[i].func)(requests[i].node, requests[i].context)
    decreases |requests|
  {
    if |requests| > 0 {
      var k := requests[0];
      var first := InferenceTipCached(c, k.func, world(k.func), k.node, k.context);
      assert first.outcome == world(k.func)(k.node, k.context);
      assert Faithful(first.cache, world);
      ReplayIsTransparent(first.cache, world, requests[1..]);
      var r := Replay(c, world, requests);
      var rest := Replay(first.cache, world, requests[1..]);
      assert r.outcomes == [first.outcome] + rest.outcomes;
      forall i | 0 < i < |requests|
        ensures r.outcomes[i] == world(requests[i].func)(requests[i].node, requests[i].context)
      {
        assert r.outcomes[i] == rest.outcomes[i - 1];
        assert requests[i] == requests[1..][i - 1];
      }
    }
  }

  /**
   * What the first call of a sequence adds to the log, and which keys are
   * stored after it when `k`'s function succeeds.
   */
  lemma FirstCallStep(c: Cache, world: ProviderId -> Provider, k0: Key, k: Key)
    requires world(k.func)(k.node, k.context).Success?
    ensures var first := InferenceTipCached(c, k0.func, world(k0.func), k0.node, k0.context);
            first.cache.invoked == c.invoked + (if k0 in c.entries then [] else [k0]) &&
            (k in first.cache.entries <==> k in c.entries || k == k0)
  {
  }

  /**
   * Across any sequence of calls with no clear in between, a function whose
   * invocation succeeds is invoked for a key exactly once if the key is
   * requested and not yet stored, and never otherwise.
   */
  lemma {:induction false} ReplayInvokesAtMostOnce(c: Cache, world: ProviderId -> Provider, requests: seq<Key>, k: Key)
    requires world(k.func)(k.node, k.context).Success?
    ensures var r := Replay(c, world, requests);
            Occurrences(r.cache.invoked[|c.invoked|..], k) == if k !in c.entries && k in requests then 1 else 0
    decreases |requests|
  {
    var r := Replay(c, world, requests);
    if |requests| == 0 {
      assert r.cache.invoked[|c.invoked|..] == [];
    } else {
      var k0 := requests[0];
      var first := InferenceTipCached(c, k0.func, world(k0.func), k0.node, k0.context);
      var rest := Replay(first.cache, world, requests[1..]);
      FirstCallStep(c, world, k0, k);
      ReplayInvokesAtMostOnce(first.cache, world, requests[1..], k);
      var mine: seq<Key> := if k0 in c.entries then [] else [k0];
      var theirs := rest.cache.invoked[|first.cache.invoked|..];
      assert r.cache.invoked[|c.invoked|..] == mine + theirs by {
        assert r.cache == rest.cache;
        assert rest.cache.invoked == first.cache.invoked + theirs;
      }
      assert Occurrences(mine + theirs, k) == Occurrences(mine, k) + Occurrences(theirs, k);
      assert Occurrences(mine, k) == if k == k0 && k0 !in c.entries then 1 else 0;
      assert k in requests <==> k == k0 || k in requests[1..] by {
        assert requests == [k0] + requests[1..];
      }
    }
  }

  /**
   * A sequence of calls never invokes a function for a key whose answer was
   * already stored when the sequence started, whatever the functions do.
   */
  lemma {:induction false} ReplayNeverRecomputesStored(c: Cache, world: ProviderId -> Provider, requests: seq<Key>, i: nat)
    requires |c.invoked| <= i < |Replay(c, world, requests).cache.invoked|
    ensures Replay(c, world, requests).cache.invoked[i] !in c.entries
    decreases |requests|
  {
    if |requests| > 0 {
      var k0 := requests[0];
      var first := InferenceTipCached(c, k0.func, world(k0.func), k0.node, k0.context);
      var rest := Replay(first.cache, world, requests[1..]);
      assert Replay(c, world, requests).cache == rest.cache;
      if i < |first.cache.invoked| {
        assert rest.cache.invoked[i] == first.cache.invoked[i];
      } else {
        ReplayNeverRecomputesStored(first.cache, world, requests[1..], i);
      }
    }
  }

  /**
   * From the table as the process starts, with functions that return
   * normally, each key is invoked exactly once if it is requested at all,
   * however often it is requested, and never otherwise.
   */
  lemma FreshProcessInvokesOncePerKey(world: ProviderId -> Provider, requests: seq<Key>, k: Key)
    requires world(k.func)(k.node, k.context).Success?
    ensures Occurrences(Replay(EmptyCache, world, requests).cache.invoked, k) == if k in requests then 1 else 0
  {
    var log := Replay(EmptyCache, world, requests).cache.invoked;
    ReplayInvokesAtMostOnce(EmptyCache, world, requests, k);
    assert log[|EmptyCache.invoked|..] == log;
  }

  // ---------------------------------------------------------------------------
  // The explicit-inference slot and the registration transform
  // ---------------------------------------------------------------------------

  /**
   * Content of a node's `_explicit_inference` slot when it is not `None`.
   * `Cached(f)` is the wrapper `_inference_tip_cached(f)`: a new function
   * object, never the same object as `f`. `Raw(f)` is the function object `f`
   * itself, installed by code outside this module.
   */
  datatype Override = Cached(func: ProviderId) | Raw(func: ProviderId)

  /** The `_explicit_inference` slot of every node; a node that is absent holds `None`. */
  type Slots = map<NodeId, Override>

  /** `InferenceOverwriteError`: the node, what its slot held, and the function that was refused. */
  datatype OverwriteError = InferenceOverwriteError(node: NodeId, existing: Override, attempted: ProviderId)

  /** The slots after applying a transform, and the node it returned or the error it raised. */
  datatype Applied = Applied(slots: Slots, outcome: Result<NodeId, OverwriteError>)

  /**
   * The transform built by `inference_tip(inferFunction, raiseOnOverwrite)`,
   * applied to `node`. In strict mode it refuses a slot that holds anything
   * other than the very object `inferFunction`; otherwise the slot receives a
   * new wrapper of `inferFunction` and the same node is returned.
   */
  function InferenceTipTransform(slots: Slots, inferFunction: ProviderId, raiseOnOverwrite: bool, node: NodeId): (r: Applied)
    ensures r.outcome.Failure? <==> raiseOnOverwrite && node in slots && slots[node] != Raw(inferFunction)
    ensures r.outcome.Failure? ==> r.slots == slots && r.outcome.error.node == node
    ensures r.outcome.Success? ==> r.outcome.value == node && r.slots == slots[node := Cached(inferFunction)]
  {
    if raiseOnOverwrite && node in slots && slots[node] != Raw(inferFunction) then
      Applied(slots, Failure(InferenceOverwriteError(node, slots[node], inferFunction)))
    else
      Applied(slots[node := Cached(inferFunction)], Success(node))
  }

  /**
   * The guard as written never recognises its own earlier work: once a strict
   * transform has installed a wrapper of `f`, applying the same transform to
   * the same node again raises, although nothing different would be installed.
   */
  lemma StrictReapplyRaises(slots: Slots, f: ProviderId, node: NodeId)
    requires node !in slots || slots[node] == Raw(f)
    ensures var first := InferenceTipTransform(slots, f, true, node);
            first.outcome.Success? &&
            InferenceTipTransform(first.slots, f, true, node).outcome == Failure(InferenceOverwriteError(node, Cached(f), f))
  {
  }

  /**
   * The corrected guard: strict mode refuses only a slot that holds
   * a different inference function, whether wrapped or not.
   */
  function InferenceTipTransformCorrected(slots: Slots, inferFunction: ProviderId, raiseOnOverwrite: bool, node: NodeId): (r: Applied)
    ensures r.outcome.Failure? <==> raiseOnOverwrite && node in slots && slots[node].func != inferFunction
    ensures r.outcome.Failure? ==> r.slots == slots && r.outcome.error.node == node
    ensures r.outcome.Success? ==> r.outcome.value == node && r.slots == slots[node := Cached(inferFunction)]
  {
    if raiseOnOverwrite && node in slots && slots[node].func != inferFunction then
      Applied(slots, Failure(InferenceOverwriteError(node, slots[node], inferFunction)))
    else
      Applied(slots[node := Cached(inferFunction)], Success(node))
  }

  /** The two guards disagree only when a strict transform meets a wrapper of its own function. */
  lemma CorrectedDiffersOnlyOnOwnWrapper(slots: Slots, f: ProviderId, raiseOnOverwrite: bool, node: NodeId)
    ensures InferenceTipTransformCorrected(slots, f, raiseOnOverwrite, node) != InferenceTipTransform(slots, f, raiseOnOverwrite, node)
            <==> raiseOnOverwrite && node in slots && slots[node] == Cached(f)
  {
  }

  /** With the corrected guard, applying the same transform twice is the same as applying it once. */
  lemma CorrectedReapplyIsIdempotent(slots: Slots, f: ProviderId, raiseOnOverwrite: bool, node: NodeId)
    ensures var first := InferenceTipTransformCorrected(slots, f, raiseOnOverwrite, node);
            InferenceTipTransformCorrected(first.slots, f, raiseOnOverwrite, node) == first
  {
  }

  /** Which overwrite guard a transform applies: the one in the source, or the corrected one. */
  datatype Guard = AsWritten | Corrected

  /** One application of the transform under the chosen guard. */
  function Transform(guard: Guard, slots: Slots, inferFunction: ProviderId, raiseOnOverwrite: bool, node: NodeId): (r: Applied)
  {
    match guard
    case AsWritten => InferenceTipTransform(slots, inferFunction, raiseOnOverwrite, node)
    case Corrected => InferenceTipTransformCorrected(slots, inferFunction, raiseOnOverwrite, node)
  }

  /**
   * Applies the transforms for `funcs`, in order, to one node under `guard`.
   * An `InferenceOverwriteError` stops the sequence, as a raised exception
   * would, keeping what the earlier transforms installed.
   */
  function RegisterEach(guard: Guard, slots: Slots, node: NodeId, funcs: seq<ProviderId>, raiseOnOverwrite: bool): (r: Applied)
    decreases |funcs|
  {
    if |funcs| == 0 then
      Applied(slots, Success(node))
    else
      var first := Transform(guard, slots, funcs[0], raiseOnOverwrite, node);
      if first.outcome.Failure? then first
      else RegisterEach(guard, first.slots, node, funcs[1..], raiseOnOverwrite)
  }

  /**
   * In the default lenient mode every registration succeeds and the last one
   * wins, under either guard; no other node changes.
   */
  lemma {:induction false} LenientLastRegistrationWins(guard: Guard, slots: Slots, node: NodeId, funcs: seq<ProviderId>)
    requires |funcs| > 0
    ensures RegisterEach(guard, slots, node, funcs, false) == Applied(slots[node := Cached(funcs[|funcs| - 1])], Success(node))
    decreases |funcs|
  {
    var first := Transform(guard, slots, funcs[0], false, node);
    if |funcs| > 1 {
      LenientLastRegistrationWins(guard, first.slots, node, funcs[1..]);
      assert first.slots[node := Cached(funcs[|funcs| - 1])] == slots[node := Cached(funcs[|funcs| - 1])];
    }
  }

  /**
   * With the guard as written, a strict sequence on a node whose slot holds
   * any wrapper fails at its first registration and changes nothing, and a
   * strict sequence of two or more registrations never succeeds.
   */
  lemma StrictAsWrittenRefusesWrappedSlot(slots: Slots, node: NodeId, funcs: seq<ProviderId>)
    requires |funcs| > 0
    ensures node in slots && slots[node].Cached? ==>
              RegisterEach(AsWritten, slots, node, funcs, true) ==
              Applied(slots, Failure(InferenceOverwriteError(node, slots[node], funcs[0])))
    ensures |funcs| >= 2 ==> RegisterEach(AsWritten, slots, node, funcs, true).outcome.Failure?
  {
    var first := Transform(AsWritten, slots, funcs[0], true, node);
    if |funcs| >= 2 && first.outcome.Success? {
      var second := Transform(AsWritten, first.slots, funcs[1], true, node);
      assert second.outcome.Failure?;
      assert funcs[1..][0] == funcs[1];
    }
  }

  /**
   * Corrected guard: in strict mode a node that already has an inference
   * function keeps it. A sequence of registrations succeeds exactly when
   * every one of them is for that same function, and the slot never holds
   * another one.
   */
  lemma {:induction false} StrictKeepsInstalledProvider(slots: Slots, node: NodeId, funcs: seq<ProviderId>)
    requires node in slots
    ensures var r := RegisterEach(Corrected, slots, node, funcs, true);
            && (r.outcome.Success? <==> forall i :: 0 <= i < |funcs| ==> funcs[i] == slots[node].func)
            && node in r.slots && r.slots[node].func == slots[node].func
            && r.slots - {node} == slots - {node}
    decreases |funcs|
  {
    if |funcs| > 0 {
      var first := Transform(Corrected, slots, funcs[0], true, node);
      if first.outcome.Success? {
        StrictKeepsInstalledProvider(first.slots, node, funcs[1..]);
        assert first.slots - {node} == slots - {node};
        assert forall i :: 1 <= i < |funcs| ==> funcs[i] == funcs[1..][i - 1];
      }
    }
  }
}
