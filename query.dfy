/** `query`: the options sent to the client and the store's initial value, which
    is seeded from the cache while the client is restoring server-rendered state. */
module Query {
  import opened JsValues
  import opened Observable

  /** The outcome of the synchronous `readQuery` call: it throws, or returns a value. */
  datatype ReadQuery<D> = Throws | Returns(value: Js<D>)

  /** The options record handed to `readQuery` and `watchQuery`: the caller's
      options (default `{}`) spread first, then the document under `query`. */
  function WatchQueryOptions<V>(document: V, options: Option<map<string, V>>): (r: map<string, V>)
    ensures r.Keys == OrEmpty(options).Keys + {"query"}
    ensures r["query"] == document
    ensures forall k :: k in OrEmpty(options) && k != "query" ==> r[k] == OrEmpty(options)[k]
  {
    OrEmpty(options) + map["query" := document]
  }

  /** The `let initialValue` of `query`: `readQuery` is consulted only while the
      client is restoring, a falsy result becomes `undefined`, and an exception
      is swallowed, leaving `undefined`. */
  function InitialData<D>(restoring: bool, read: ReadQuery<D>, truthy: D -> bool): (r: Js<D>)
    ensures r.Defined? <==> restoring && read.Returns? && Truthy(read.value, truthy)
    ensures r.Defined? ==> r == read.value
    ensures !r.Defined? ==> r == Undefined
  {
    if !restoring then Undefined
    else
      match read
      case Throws => Undefined
      case Returns(v) => if Truthy(v, truthy) then v else Undefined
  }

  /** The initial value handed to the store: `{ data: initialValue }` when there
      is one, otherwise `undefined`, which selects the default. */
  function Seed<D, G, X>(initialData: Js<D>): (r: Option<Result<D, G, X>>)
    ensures r.Some? <==> initialData != Undefined
    ensures r.Some? ==> r.value.data == initialData && r.value.loading == Undefined && r.value.error == Undefined
  {
    if initialData != Undefined then Some(Result(Undefined, initialData, Undefined)) else None
  }

  /** What `query` builds: the options for `watchQuery` and the store's initial value. */
  datatype QueryStore<V, D, G, X> = QueryStore(watchOptions: map<string, V>, initial: Result<D, G, X>)

  /** A value read from the cache, when there is one to seed the store with. */
  predicate Cached<D>(restoring: bool, read: ReadQuery<D>, truthy: D -> bool)
  {
    restoring && read.Returns? && Truthy(read.value, truthy)
  }

  /** `query(document, options = {})`: the store starts in the default loading
      state unless a truthy value was read from the cache while restoring; then
      it starts as `{ data }`, with no `loading` field. */
  function Query<V, D, G, X>(document: V, options: Option<map<string, V>>,
                             restoring: bool, read: ReadQuery<D>, truthy: D -> bool): (q: QueryStore<V, D, G, X>)
    ensures q.watchOptions == WatchQueryOptions(document, options)
    ensures Cached(restoring, read, truthy) ==> q.initial == Result(Undefined, read.value, Undefined)
    ensures !Cached(restoring, read, truthy) ==> IsLoadingState(q.initial)
  {
    QueryStore(WatchQueryOptions(document, options),
               InitialValue(Seed(InitialData(restoring, read, truthy))))
  }

  /** When the client is not restoring, `readQuery` is not consulted: whatever it
      would do, the store is built the same way. */
  lemma NotRestoringIgnoresCache<V, D, G, X>(document: V, options: Option<map<string, V>>,
                                             read1: ReadQuery<D>, read2: ReadQuery<D>, truthy: D -> bool)
    ensures Query<V, D, G, X>(document, options, false, read1, truthy) ==
            Query<V, D, G, X>(document, options, false, read2, truthy)
  {
  }

  /** The first `watchQuery` emission is skipped exactly when the store was seeded
      from the cache; otherwise every event sets its state (the `error` callback
      with the corrected error slot). */
  lemma QueryEmissions<V, D, G, X>(document: V, options: Option<map<string, V>>,
                                   restoring: bool, read: ReadQuery<D>, truthy: D -> bool,
                                   events: seq<Event<D, G, X>>)
    ensures var q := Query<V, D, G, X>(document, options, restoring, read, truthy);
            Run(StartHandler(q.initial), events).1 ==
              States(if Cached(restoring, read, truthy) then DropFirstNext(events) else events)
  {
    var q := Query<V, D, G, X>(document, options, restoring, read, truthy);
    RunMatchesReference(q.initial, events);
  }
}
