# Inference tips and numpy member heuristics of astroid, in Dafny

astroid computes the possible values of Python AST nodes. An *inference tip*
lets a specialised inference function override that computation for one node:
`inference_tip(f)` builds a transform that puts a memoising wrapper of `f` into
the node's single `_explicit_inference` slot. The wrapper keeps a process-wide
table keyed by `(f, node, context)`, so that `f` runs once per key, as long
as it returns normally, until the table is cleared. A call that raises stores
nothing, and the next call for that key runs `f` again. The numpy brains
register such tips through predicates that decide whether a `Name` or
`Attribute` reference really denotes a numpy member.
Those predicates resolve import aliases through scope lookup, check the root
module's name, and look up a stand-in source snippet per member. A version
probe decides whether numpy is recent enough for class subscripts in type
hints.

The model is functional:

- `InferenceTip` (`inference_tip.dfy`): the memo table is a `Cache` value
  threaded through the calls. It holds the entries and a log of the keys for
  which an inference function was actually invoked. The `_explicit_inference`
  attributes form a side table `Slots` from node identity to slot content. A
  slot holds either a wrapper `Cached(f)` or a bare function `Raw(f)`. An
  inference function is a Dafny function value giving its results or the
  exception it raises.
- `NumpyVersion` (`numpy_version.dfy`): the outcome of importing numpy and
  reading `numpy.version.version` is an `Option<string>` input. The version is
  that string split on `"."`, and it is compared under Python's tuple-of-strings
  order.
- `NumpyUtils` (`numpy_utils.dfy`): `Name`, `Attribute` and `Import` nodes form
  a tagged union. A `Name` carries what `lookup` of its identifier returns and
  its root module's name. Parsing and inferring a snippet is a function
  parameter.
- `Strings` (`strings.dfy`): `str.split`, `str.join`, `str.startswith` and
  Python's lexicographic `<` on strings and tuples.
- `Wrappers` and `Inference` hold `Option`/`Result` and the opaque node,
  context and result types.

Two behaviours of the code are worth stating up front:

- The wrapper stores whatever the inference function returns and hands back
  `iter()` of it. The model only claims that the stored value is returned.
- Strict mode also refuses a node that already holds a wrapper of the same
  function (first row of "## Findings").

## Model

| member | source | states |
|---|---|---|
| `InferenceTip.InferenceTipCached` | astroid/inference_tip.py:27-44 | On a hit, the stored answer is returned, the table is unchanged and nothing is invoked. On a miss, the function is invoked once and logged. Its answer is stored under exactly that key. An exception it raises propagates and stores nothing. |
| `InferenceTip.ClearInferenceTipCache` | astroid/inference_tip.py:22-24 | Clearing leaves the table with no entry at all. |
| `InferenceTip.RepeatedCallIsHit` | astroid/inference_tip.py:37-40 | After a call stores an answer, the next call for the same key returns that answer and invokes nothing. This holds whatever the function would do now. |
| `InferenceTip.OtherKeysUnaffected` | astroid/inference_tip.py:17-19 | A call for one key never adds, removes or overwrites another key's entry. |
| `InferenceTip.OutcomeReadsOnlyOwnEntry` | astroid/inference_tip.py:37-42 | A call's outcome depends only on its own key's entry. Two tables that agree on that key give the same outcome. |
| `InferenceTip.FailedCallIsRetried` | astroid/inference_tip.py:37-40 | A call whose function raises stores nothing, so the next call for the same key invokes the function again and raises the same way. |
| `InferenceTip.ClearThenRecompute` | astroid/inference_tip.py:22-40 | After a clear, the next call for any key invokes its function again and returns what that invocation returns. |
| `InferenceTip.Replay` | astroid/inference_tip.py:37-42 | Over any sequence of calls, stored entries keep their answers and the invocation log is only appended to. |
| `InferenceTip.ReplayNeverRecomputesStored` | astroid/inference_tip.py:37-40 | Over any sequence of calls, whatever the functions do, no invocation is for a key that was already stored when the sequence started. |
| `InferenceTip.ReplayIsTransparent` | astroid/inference_tip.py:37-42 | For functions that always answer the same and return a re-iterable value such as a list, every call of a sequence returns what direct invocation would. The table stays consistent with the functions. |
| `InferenceTip.ReplayInvokesAtMostOnce` | astroid/inference_tip.py:37-40 | Take a successful function and any sequence of calls. It is invoked for a key exactly once if the key is requested and not yet stored, and never otherwise. |
| `InferenceTip.FreshProcessInvokesOncePerKey` | astroid/inference_tip.py:17-40 | From the empty table the process starts with, a function that returns normally is invoked once for each requested key, however often it is requested, and never for an unrequested key. |
| `InferenceTip.InferenceTipTransform` | astroid/inference_tip.py:71-86 | Strict mode raises iff the slot is non-empty and not the function object itself, and the slots are then unchanged. Otherwise the slot gets a new wrapper of the function. Only that slot changes, and the same node is returned. |
| `InferenceTip.StrictReapplyRaises` | astroid/inference_tip.py:72-85 | Applying a strict transform twice to one node raises the second time, because the slot then holds its own wrapper. |
| `InferenceTip.InferenceTipTransformCorrected` | astroid/inference_tip.py:72-85 | Corrected guard: strict mode raises iff the slot holds a different function, wrapped or not. On an error the slots are unchanged. |
| `InferenceTip.CorrectedDiffersOnlyOnOwnWrapper` | astroid/inference_tip.py:72-85 | The corrected and the written guard differ exactly when a strict transform meets a wrapper of its own function. |
| `InferenceTip.CorrectedReapplyIsIdempotent` | astroid/inference_tip.py:71-86 | With the corrected guard, applying the same transform twice equals applying it once. |
| `InferenceTip.LenientLastRegistrationWins` | astroid/inference_tip.py:63-86 | `RegisterEach` applies the transforms in turn. In the default mode, under the guard as written and under the corrected one, any non-empty sequence of registrations on a node succeeds and installs a wrapper of the last function. No other node changes. |
| `InferenceTip.StrictAsWrittenRefusesWrappedSlot` | astroid/inference_tip.py:72-85 | Guard as written: a strict sequence on a node whose slot holds any wrapper fails at its first registration and changes nothing. A strict sequence of two or more registrations never succeeds. |
| `InferenceTip.StrictKeepsInstalledProvider` | astroid/inference_tip.py:72-86 | Corrected guard: in strict mode a node that already has a function keeps it. A sequence of registrations succeeds iff every one is for that function, and no other node changes. |
| `Strings.Split` | astroid/brain/brain_numpy_utils.py:32 | Splitting yields at least one part, and no part contains the separator. |
| `Strings.JoinSplit` | astroid/brain/brain_numpy_utils.py:32 | Joining the split parts with `"."` gives back the original string. |
| `Strings.SplitJoin` | astroid/brain/brain_numpy_utils.py:32 | Splitting a join of dot-free parts gives back the parts. |
| `Strings.LexLessCharacterised` | astroid/brain/brain_numpy_utils.py:20 | Python's sequence `<` holds iff the left side is a proper prefix, or the first position where they differ has the smaller element on the left. |
| `Strings.LexLessIrreflexive` | astroid/brain/brain_numpy_utils.py:20 | No tuple is smaller than itself. |
| `Strings.TupleLessAsymmetric` | astroid/brain/brain_numpy_utils.py:20 | Tuple-of-strings `<` never holds in both directions. |
| `NumpyVersion.GetNumpyVersion` | astroid/brain/brain_numpy_utils.py:23-34 | A failed import or attribute access gives the sentinel `("0","0","0")` rather than an error. Otherwise the tuple's components are dot-free and join back to the version string. |
| `NumpyVersion.NumpySupportsTypeHints` | astroid/brain/brain_numpy_utils.py:17-20 | Type hints are supported iff the version tuple is strictly greater than `("1","20","0")`. The truthiness test never decides. |
| `NumpyVersion.VersionComponentsRoundTrip` | astroid/brain/brain_numpy_utils.py:32 | A version string made of dot-free components is read back as exactly those components. |
| `NumpyVersion.ThresholdIsNotSupported` | astroid/brain/brain_numpy_utils.py:14-20 | Version `1.20.0` itself is not supported. |
| `NumpyVersion.UnknownVersionIsNotSupported` | astroid/brain/brain_numpy_utils.py:29-34 | A failed probe, like an installed `0.0.0`, is never supported. |
| `NumpyVersion.VersionExamples` | astroid/brain/brain_numpy_utils.py:14-20 | `1.19.2` is not supported. `1.21.0` and `2.0` are supported. |
| `NumpyVersion.ComponentsCompareAsStrings` | astroid/brain/brain_numpy_utils.py:17-20 | Components compare as strings: `1.3.0` counts as supported and `1.100.0` does not. |
| `NumpyUtils.AnyImportsNumpyAs` | astroid/brain/brain_numpy_utils.py:70-76 | The scan finds a match iff some binding passes `ImportsNumpyAs`: it is an import listing `("numpy", nickname)` or `("numpy", None)`. |
| `NumpyUtils.IsANumpyModule` | astroid/brain/brain_numpy_utils.py:57-76 | A name is the numpy module iff some binding from lookup is such an import. Every binding counts, not only the innermost. |
| `NumpyUtils.NonImportBindingsIgnored` | astroid/brain/brain_numpy_utils.py:70-72 | Inserting a non-import binding anywhere in the lookup result never changes the verdict. |
| `NumpyUtils.SiblingOfUnaliasedNumpyMatches` | astroid/brain/brain_numpy_utils.py:73-76 | After `import numpy, scipy`, the name `scipy` is taken for numpy. |
| `NumpyUtils.BindsNumpyAsMeansBoundName` | astroid/brain/brain_numpy_utils.py:74 | The corrected membership test holds iff some import entry for module `numpy` binds exactly the nickname. The bound name is the alias, else the module's first component. |
| `NumpyUtils.AnyBindsNumpyAs` | astroid/brain/brain_numpy_utils.py:73-76 | The corrected scan finds a match iff some binding passes the corrected test. |
| `NumpyUtils.IsBoundToNumpy` | astroid/brain/brain_numpy_utils.py:57-76 | Corrected resolver: some binding from lookup binds the name to numpy. It accepts no more than the resolver as written. |
| `NumpyUtils.IsBoundToNumpyMeansBoundName` | astroid/brain/brain_numpy_utils.py:69-76 | The corrected resolver holds iff some import entry found by lookup binds the name to module `numpy`. |
| `NumpyUtils.IsBoundToNumpyExamples` | astroid/brain/brain_numpy_utils.py:61-64 | The corrected resolver rejects `scipy` after `import numpy, scipy`. It accepts `numpy`, and `np` after `import numpy as np`. |
| `NumpyUtils.MemberNameMatch` | astroid/brain/brain_numpy_utils.py:79-85 | `MemberNameLooksLikeNumpyMember`: a name is a numpy member iff it is listed and its root module's name is `numpy` followed by anything. |
| `NumpyUtils.AttributeNameMatch` | astroid/brain/brain_numpy_utils.py:88-98 | `AttributeNameLooksLikeNumpyMember`: an attribute is a numpy member iff it is listed, its object is a bare name, and some import found by lookup has an entry for module `numpy` whose alias is that name or absent. An unlisted attribute never matches. |
| `NumpyUtils.AttributeMatchExamples` | astroid/brain/brain_numpy_utils.py:88-98 | `np.linspace` matches after `import numpy as np`. It does not match when `np` is bound otherwise, or when `linspace` is not listed. |
| `NumpyUtils.NameLooksLikeNumpyMember` | astroid/brain/brain_numpy_utils.py:101-107 | The single-name variant equals the set-based predicate applied to `{member_name}`. |
| `NumpyUtils.AttributeLooksLikeNumpyMember` | astroid/brain/brain_numpy_utils.py:110-120 | The single-name variant equals the set-based predicate applied to `{member_name}`. |
| `NumpyUtils.AttributeRefersToNumpyMember` | astroid/brain/brain_numpy_utils.py:94-98 | Corrected attribute predicate, built on the corrected resolver. It implies the predicate as written. |
| `NumpyUtils.InferSnippet` | astroid/brain/brain_numpy_utils.py:40 | A member without a snippet is a lookup error, with no default. Otherwise the snippet's own inference outcome is returned, and its exceptions propagate. |
| `NumpyUtils.InferNumpyName` | astroid/brain/brain_numpy_utils.py:37-41 | Fails with a missing-snippet error iff the name has no snippet. Otherwise it infers the snippet keyed by the name. |
| `NumpyUtils.InferNumpyAttribute` | astroid/brain/brain_numpy_utils.py:44-48 | Fails with a missing-snippet error iff the attribute name has no snippet. Otherwise it infers the snippet keyed by the attribute name. |
| `NumpyUtils.InferNumpyMember` | astroid/brain/brain_numpy_utils.py:52-54 | Infers the given snippet text regardless of the node. It succeeds iff the snippet's inference does, and returns the same results or exception. |
| `NumpyUtils.InferNumpyMemberIgnoresNode` | astroid/brain/brain_numpy_utils.py:52-54 | The node argument is shadowed: any two nodes give the same outcome for the same snippet. |
| `NumpyUtils.NameAndAttributeAgree` | astroid/brain/brain_numpy_utils.py:37-48 | A name and an attribute with the same identifier infer the same snippet. |

## Left out

- Importing numpy and reading `numpy.version.version` are not modelled. Their outcome is the `Option<string>` input of `GetNumpyVersion`. `None` stands for `ImportError` or `AttributeError`. Any other exception raised while importing numpy propagates out of `_get_numpy_version`; the input cannot express that case.
- The parser (`extract_node`), general inference (`.infer`), scope lookup (`lookup`) and `root()` are not modelled. A `NameNode` carries its lookup result and root module name, and snippet inference is a function parameter.
- InferenceTipCached: returns the stored value rather than `iter()` of it. A stored generator would be exhausted after its first use; lazy iteration is not modelled.
- ReplayIsTransparent: holds only for functions that return a re-iterable value. The numpy providers return `extracted_node.infer(context=context)`, an iterator. A hit hands back `iter()` of that stored iterator, which the first caller has already consumed, whereas a direct invocation would yield the results again. Answers are sequences in the model, so this gap is not modelled.
- Keyword arguments passed through the wrapper to the inference function are not modelled; they do not take part in the key.
- The wording of the `InferenceOverwriteError` message is not modelled. The message swaps the existing and the new function; the error only carries the node, the slot content and the refused function.
- Re-entrant calls for a key whose computation is still running are not modelled. The source has no policy for them, and the model's calls are atomic.
- Concurrency is not modelled: the source is single-threaded.
- Which host transforms call the registration, and how the host dispatches a node's slot during inference, are not part of this model.

## Findings

| source | as written | input that shows it | evidently intended | confidence | as-written member | corrected member |
|---|---|---|---|---|---|---|
| astroid/inference_tip.py:72-85 | The strict guard compares the slot with the bare `infer_function`. The slot only ever receives `_inference_tip_cached(infer_function)`, a new wrapper object, so the identity test never succeeds for a slot this transform filled. | Apply the transform of `inference_tip(f, raise_on_overwrite=True)` to the same node twice. The second application raises `InferenceOverwriteError`, although it would install the same function. | Refuse only a slot holding a different function, whether wrapped or bare. | medium; not executed | `InferenceTip.StrictReapplyRaises` | `InferenceTip.InferenceTipTransformCorrected` |
| astroid/brain/brain_numpy_utils.py:73-76 | `("numpy", None)` in the import's names is accepted whatever the looked-up name is. | `import numpy, scipy` followed by `scipy.linspace`: lookup of `scipy` returns that import, whose names contain `("numpy", None)`, so `scipy` is taken for numpy. | An unaliased numpy entry only makes the name `numpy` itself refer to numpy. | medium; not executed | `NumpyUtils.SiblingOfUnaliasedNumpyMatches` | `NumpyUtils.IsBoundToNumpy` |
