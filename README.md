# svelte-apollo: the store adapter, modelled in Dafny

svelte-apollo turns Apollo client operations into Svelte readable stores. This
model covers the parts of it that are self-contained logic:

- the translator inside `observableToReadable`, which turns the client's `next`
  and `error` callbacks into store values of three shapes (loading, error, data)
  and drops the first `next` emission when the initial value already carries
  data (the restored cache value and the first emission are the same result);
- the choice of initial value in `query`: whether the client is restoring, and
  what the synchronous `readQuery` returns or throws;
- the option records: `{ ...options, query }` in `query` and
  `{ mutation, ...initialOptions, ...options }` in the closure `mutation` returns.

Files and modules:

- `js_values.dfy` (`JsValues`): a JavaScript property slot (`undefined`, `null`
  or a value), optional arguments that stand for default parameters, truthiness.
- `observable.dfy` (`Observable`): the `Result` shapes, the per-event state
  functions, the closure variables `skipDuplicate`/`skipped` as a `Handler`, the
  fold `Run` over a run's events, a reference definition, the lemmas connecting
  them, and the class `ResultStore`, whose methods are the start function, the
  stop function and the two callbacks, proved against `Run`.
- `query.dfy` (`Query`): the initial value and the watch options of `query`.
- `mutation.dfy` (`Mutation`): the returned closure as a datatype `Mutate` with
  its captured values, and the request one call builds.

External values are type parameters: `D` the query data, `G` a GraphQL error,
`X` whatever the `error` callback receives, `V` an option value (the document
included). JavaScript objects of options are `map<string, V>`; object spread is
Dafny's right-biased map union `+`. An absent property and one set to
`undefined` are both `Undefined`, since the code only ever reads them.

The intended behaviour of the translator is stated by a reference definition:
a run emits `States(events)`, each event mapped to its state, except that when
the initial value's `data` is not `undefined` the first `next` event is removed
first (`DropFirstNext`). `RunFrom` proves the fold equal to that definition from
any closure state; the other lemmas about the translator are corollaries of it.

## Model

| member | source | states |
|---|---|---|
| `Observable.IsLoadingState` | packages/svelte-apollo/src/observable.ts:13-17 | the `LoadingState` shape: `loading` true, `data` and `error` undefined |
| `Observable.IsErrorState` | packages/svelte-apollo/src/observable.ts:18-22 | the `ErrorState` shape: `loading` false, `data` undefined, `error` present |
| `Observable.IsDataState` | packages/svelte-apollo/src/observable.ts:23-27 | the `DataState` shape: `loading` false, `error` undefined, `data` anything (null and undefined included) |
| `Observable.DefaultInitial` | packages/svelte-apollo/src/observable.ts:41-45 | the default initial value is a loading state: `loading` true, `data` and `error` undefined |
| `Observable.InitialValue` | packages/svelte-apollo/src/observable.ts:39-47 | an omitted or undefined initial value gives the loading state; a given one is used as it is |
| `Observable.NextState` | packages/svelte-apollo/src/observable.ts:58-63 | a `next` result whose `errors` is present (even an empty array) gives an error state with `loading` false, `data` undefined and an ApolloError of those errors, whatever `data` holds; otherwise a data state whose `data` is exactly `result.data` (null and undefined included) |
| `Observable.ErrorField` | packages/svelte-apollo/src/observable.ts:69 | corrected error slot: an object with a `message` property is passed through unchanged, every other value is wrapped in `new Error` |
| `Observable.ErrorFieldAsWritten` | packages/svelte-apollo/src/observable.ts:69 | the expression as written throws exactly when the value is a truthy primitive; otherwise it chooses the slot |
| `Observable.TruthyPrimitiveThrows` | packages/svelte-apollo/src/observable.ts:65-70 | the string "boom" makes the handler as written throw, while the corrected one wraps it |
| `Observable.ErrorFieldAgreesWhereDefined` | packages/svelte-apollo/src/observable.ts:69 | wherever the expression as written does not throw, the corrected slot is the same |
| `Observable.ErrorState` | packages/svelte-apollo/src/observable.ts:65-70 | the `error` callback gives an error state with `loading` false, `data` undefined and the chosen error slot (with the corrected error slot, see Findings) |
| `Observable.EventState` | packages/svelte-apollo/src/observable.ts:58-70 | every event maps to an error or a data state with `loading` false (with the corrected error slot, see Findings) |
| `Observable.StartHandler` | packages/svelte-apollo/src/observable.ts:48-49 | each run of the start function begins with `skipped` false and arms the skip exactly when the initial `data` is not undefined (null arms it) |
| `Observable.Step` | packages/svelte-apollo/src/observable.ts:52-70 | one callback: `skipDuplicate` never changes; `skipped` becomes true when it was or an armed skip meets a `next`; exactly that case sets nothing, every other event sets its own state (error slot corrected, see Findings) |
| `Observable.Run` | packages/svelte-apollo/src/observable.ts:47-71 | the callbacks of one start, in order; no contract of its own, characterised by `RunFrom` |
| `Observable.States` | packages/svelte-apollo/src/observable.ts:58-70 | the reference mapping: one state per event, in order (with the corrected error slot, see Findings) |
| `Observable.RunFrom` | packages/svelte-apollo/src/observable.ts:48-70 | from any closure state, `skipped` ends true exactly when it was true or the skip is armed and some `next` arrived, `skipDuplicate` never changes, and the values set are the events' states with the first `next` removed when the skip is armed and has not fired (with the corrected error slot, see Findings) |
| `Observable.RunMatchesReference` | packages/svelte-apollo/src/observable.ts:47-71 | a run sets exactly the events' states, with the first `next` removed when the initial `data` is not undefined (with the corrected error slot, see Findings) |
| `Observable.NoSkipWithoutInitialData` | packages/svelte-apollo/src/observable.ts:48-53 | with undefined initial data every event, `next` or `error`, produces exactly one `set` of its own state (with the corrected error slot, see Findings) |
| `Observable.FirstNextDropped` | packages/svelte-apollo/src/observable.ts:48-56 | with initial data the first `next` emission is dropped whatever it carries, and the errors before it and all events after it are set (with the corrected error slot, see Findings) |
| `Observable.SetCount` | packages/svelte-apollo/src/observable.ts:53-70 | `set` is called once per event, minus one when the skip is armed and a `next` arrives (with the corrected error slot, see Findings) |
| `Observable.SkipFiresAtMostOnce` | packages/svelte-apollo/src/observable.ts:48-54 | after a run, `skipped` is true exactly when the initial data is defined and a `next` arrived; `skipDuplicate` is unchanged |
| `Observable.EmittedNeverLoading` | packages/svelte-apollo/src/observable.ts:58-70 | every value set after subscription has `loading` false and is an error or data state (with the corrected error slot, see Findings) |
| `Observable.ResultStore.constructor` | packages/svelte-apollo/src/observable.ts:39-47 | the store keeps the (defaulted) initial value and shows it before any start |
| `Observable.ResultStore.Start` | packages/svelte-apollo/src/observable.ts:47-49 | each start re-arms the skip from the initial value, clears `skipped`, and keeps the current value |
| `Observable.ResultStore.Stop` | packages/svelte-apollo/src/observable.ts:73 | unsubscribing keeps the current value |
| `Observable.ResultStore.OnNext` | packages/svelte-apollo/src/observable.ts:52-64 | the first `next` while armed only sets `skipped`; any other sets the value to its state; the history stays equal to `Run` |
| `Observable.ResultStore.OnError` | packages/svelte-apollo/src/observable.ts:65-70 | the `error` callback always sets its error state and leaves the skip flags alone (with the corrected error slot, see Findings) |
| `JsValues.OrEmpty` | packages/svelte-apollo/src/query.ts:12 | an omitted options argument stands for `{}` (also the `initialOptions = {}` default of mutation.ts:17) |
| `Query.WatchQueryOptions` | packages/svelte-apollo/src/query.ts:12-15 | the options sent to the client are the caller's (default `{}`) with `query` added; the document overrides any `query` key, other keys are unchanged |
| `Query.InitialData` | packages/svelte-apollo/src/query.ts:21-29 | the initial data is defined exactly when restoring and `readQuery` returns a truthy value, and then it is that value; a throw or a falsy value gives undefined |
| `Query.Seed` | packages/svelte-apollo/src/query.ts:34-38 | defined initial data gives `{ data }` with no `loading` and no `error`; undefined gives no initial value |
| `Query.Query` | packages/svelte-apollo/src/query.ts:10-42 | the whole of `query`: the watch options are exactly `WatchQueryOptions` of the document and options (caller's keys and values kept, `query` the document); the store starts as `{ data }` when a truthy value was read while restoring, and in the default loading state otherwise |
| `Query.NotRestoringIgnoresCache` | packages/svelte-apollo/src/query.ts:22 | when not restoring, what `readQuery` would do makes no difference |
| `Query.QueryEmissions` | packages/svelte-apollo/src/query.ts:31-39 | the first `watchQuery` emission is dropped exactly when the store was seeded from the cache (with the corrected error slot, see Findings) |
| `Mutation.Mutate.Request` | packages/svelte-apollo/src/mutation.ts:21-22 | the request holds `mutation` and every key of both option objects; a per-call option wins; a key only in the initial options is kept; `mutation` is the document unless an option sets it |
| `Mutation.Mutation` | packages/svelte-apollo/src/mutation.ts:15-17 | the closure captures the document and the initial options, `{}` by default |
| `Mutation.DefaultInitialOptions` | packages/svelte-apollo/src/mutation.ts:17-22 | with default initial options a request is the document plus the call's options |
| `Mutation.CallsIndependent` | packages/svelte-apollo/src/mutation.ts:21-22 | each call's request is the same base (document then initial options) overridden by that call's options only |

## Left out

- Observable.ErrorState, Observable.EventState, Observable.Step, Observable.Run,
  Observable.States, Observable.RunFrom, Observable.RunMatchesReference,
  Observable.NoSkipWithoutInitialData, Observable.FirstNextDropped, Observable.SetCount,
  Observable.EmittedNeverLoading, Observable.ResultStore.OnError, Query.QueryEmissions: these model the `error` callback with the
  corrected error slot (`ErrorField`). As written, an `error` callback given a
  truthy primitive throws at observable.ts:69 and nothing is set, so for such an
  event the source sets one value fewer than these members state; the
  discrepancy itself is `ErrorFieldAsWritten` (see Findings).
- Observable.ResultStore.constructor, Mutation.Mutation: captured objects are
  modelled as values. The source keeps references: each start re-reads
  `initialValue?.data` from the object it also hands to subscribers, and each
  mutation call spreads the caller's `initialOptions` object afresh, so a change
  to either object after construction would show in later behaviour; the
  model's captured `initial` and `initialOptions` cannot change. Spreads are
  shallow copies, modelled as map union of values.
- Apollo's `watchQuery`, `readQuery`, `mutate` and `subscribe`, and the
  observable implementations: foreign library code. Their results are inputs
  (the events of a run, a `ReadQuery` outcome, the options records).
- The construction of `ApolloError` and `Error` objects: each is an opaque
  constructor holding its argument.
- Svelte's `readable` mechanics (subscriber counting, when the start and stop
  functions run): host framework code. `ResultStore.Start` and `Stop` are the two
  functions, called in alternation.
- Event sequences are arbitrary: the observable protocol's rule that nothing
  follows an `error` is not assumed, and the properties hold without it.
- The method forwarding loop of `observableQueryToReadable`
  (packages/svelte-apollo/src/observable.ts:133-135): it binds foreign methods
  onto the store and holds no logic. The function otherwise passes its initial
  value to `observableToReadable` unchanged, which is how `Query` uses it.
- packages/svelte-apollo/src/subscribe.ts: `observableToReadable` with the
  default initial value, which `InitialValue(None)` already covers.
- `getClient`, the `restoring` set and the returned promises: the context and
  restore modules are not part of this model; whether the client is restoring is
  a boolean input.
- The truthiness of a value `readQuery` returns is a parameter `truthy`, since
  the data type is generic.
- Key order of JavaScript objects: maps are unordered.
- TypeScript type-level definitions (`Omit<..., "mutation">` and the like): the
  types do not constrain run-time keys, so no key is excluded.

## Findings

| source | as written | input that shows it | evidently intended | confidence | as-written member | corrected member |
|---|---|---|---|---|---|---|
| packages/svelte-apollo/src/observable.ts:69 | `error && "message" in error` applies `in` to any truthy value, and `in` throws a TypeError when its right operand is a primitive | the `error` callback called with the string "boom" (or any truthy primitive: a non-empty string, a number other than 0 and NaN, `true`, a symbol or a bigint other than 0n): the handler throws and never sets an error state | every value that is not an `Error`-like object is wrapped in `new Error(error)` | medium, not executed | `Observable.ErrorFieldAsWritten`, `Observable.TruthyPrimitiveThrows` | `Observable.ErrorField`, `Observable.ErrorFieldAgreesWhereDefined` |
