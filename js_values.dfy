/** JavaScript values as the adapter reads them. */
module JsValues {

  /** A property slot of a JavaScript object: `undefined` (also what an absent
      property reads as), `null`, or a present value. */
  datatype Js<+T> = Undefined | Null | Defined(value: T)

  /** An optional argument: `None` is an omitted (or `undefined`) argument, which
      makes a JavaScript default parameter take its default. */
  datatype Option<+T> = None | Some(value: T)

  /** JavaScript truthiness of a slot, given the truthiness of its payload values:
      `undefined` and `null` are falsy. */
  predicate Truthy<T>(x: Js<T>, truthy: T -> bool)
  {
    x.Defined? && truthy(x.value)
  }

  /** The object a defaulted `{}` parameter stands for. */
  function OrEmpty<K, V>(o: Option<map<K, V>>): (m: map<K, V>)
    ensures o.None? ==> m == map[]
    ensures o.Some? ==> m == o.value
  {
    if o.Some? then o.value else map[]
  }
}
