/** `mutation`: a closure over the document and the initial options that merges
    them with each call's options into one request for the client. */
module Mutation {
  import opened JsValues

  /** The closure `mutation` returns, with the values it captures. */
  datatype Mutate<V> = Mutate(document: V, initialOptions: map<string, V>) {

    /** The object one call hands to `client.mutate`: `{ mutation, ...initialOptions,
        ...options }`, so later layers win key by key. */
    function Request(options: map<string, V>): (r: map<string, V>)
      ensures r.Keys == {"mutation"} + initialOptions.Keys + options.Keys
      ensures forall k :: k in options ==> r[k] == options[k]
      ensures forall k :: k in initialOptions && k !in options ==> r[k] == initialOptions[k]
      ensures "mutation" !in initialOptions && "mutation" !in options ==> r["mutation"] == document
    {
      map["mutation" := document] + initialOptions + options
    }
  }

  /** `mutation(document, initialOptions = {})`. */
  function Mutation<V>(document: V, initialOptions: Option<map<string, V>>): (m: Mutate<V>)
    ensures m.document == document
    ensures m.initialOptions == OrEmpty(initialOptions)
  {
    Mutate(document, OrEmpty(initialOptions))
  }

  /** With the initial options left at their default, a request is the document
      plus the call's options. */
  lemma DefaultInitialOptions<V>(document: V, options: map<string, V>)
    ensures Mutation(document, None).Request(options) == map["mutation" := document] + options
  {
  }

  /** Every call starts from the same base, built from the captured values alone:
      a call's options only override, and never carry over to another call. */
  lemma CallsIndependent<V>(m: Mutate<V>, options: map<string, V>)
    ensures m.Request(options) == m.Request(map[]) + options
    ensures m.Request(map[]) == map["mutation" := m.document] + m.initialOptions
  {
  }
}
