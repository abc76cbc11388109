/** The bridge from a client's observable of fetch results to a readable store
    whose value is always one of three shapes: loading, error or data. */
module Observable {
  import opened JsValues

  /** A value delivered to the `next` callback: the two fields of a fetch result
      the adapter reads. `D` is the result data, `G` a GraphQL error. */
  datatype FetchResult<D, G> = FetchResult(data: Js<D>, errors: Js<seq<G>>)

  /** A value delivered to the `error` callback, which is typed `any`. A primitive
      carries its truthiness; an object (always truthy) says whether the `in`
      operator finds a `message` property on it. */
  datatype Thrown<X> =
    | Primitive(value: X, truthy: bool)
    | Object(value: X, hasMessage: bool)

  /** The `error` field of an error state. */
  datatype Failure<G, X> =
    | ApolloError(graphQLErrors: seq<G>)  // `new ApolloError({ graphQLErrors })`, left opaque
    | Passed(error: X)                    // an error-like object passed through unchanged
    | Wrapped(cause: Thrown<X>)           // `new Error(error)`

  /** A store value: an object with `loading`, `data` and `error` slots. */
  datatype Result<D, G, X> = Result(loading: Js<bool>, data: Js<D>, error: Js<Failure<G, X>>)

  /** What the observable delivers to the store's subscription. */
  datatype Event<D, G, X> = Next(result: FetchResult<D, G>) | Error(thrown: Thrown<X>)

  /** The three shapes of the `Result` union. */
  predicate IsLoadingState<D, G, X>(r: Result<D, G, X>)
  {
    r.loading == Defined(true) && r.data == Undefined && r.error == Undefined
  }

  predicate IsErrorState<D, G, X>(r: Result<D, G, X>)
  {
    r.loading == Defined(false) && r.data == Undefined && r.error.Defined?
  }

  predicate IsDataState<D, G, X>(r: Result<D, G, X>)
  {
    r.loading == Defined(false) && r.error == Undefined
  }

  /** The default of the `initialValue` parameter. */
  function DefaultInitial<D, G, X>(): (r: Result<D, G, X>)
    ensures IsLoadingState(r)
  {
    Result(Defined(true), Undefined, Undefined)
  }

  /** The value the store starts with: the given one, or the loading state when
      the argument is omitted or `undefined`. */
  function InitialValue<D, G, X>(given: Option<Result<D, G, X>>): (r: Result<D, G, X>)
    ensures given.None? ==> IsLoadingState(r)
    ensures given.Some? ==> r == given.value
  {
    if given.Some? then given.value else DefaultInitial()
  }

  /** The state a `next` emission produces when it is not skipped. */
  function NextState<D, G, X>(result: FetchResult<D, G>): (r: Result<D, G, X>)
    ensures r.loading == Defined(false)
    ensures result.errors.Defined? ==> IsErrorState(r) && r.error == Defined(ApolloError(result.errors.value))
    ensures !result.errors.Defined? ==> IsDataState(r) && r.data == result.data
  {
    if result.errors.Defined? then
      Result(Defined(false), Undefined, Defined(ApolloError(result.errors.value)))
    else
      Result(Defined(false), result.data, Undefined)
  }

  /** The `error` slot chosen by the source's `error && "message" in error ? error
      : new Error(error)`. `None` means the expression itself throws: the `in`
      operator raises a TypeError when its right operand is a primitive, and a
      truthy primitive reaches it. */
  function ErrorFieldAsWritten<G, X>(thrown: Thrown<X>): (f: Option<Failure<G, X>>)
    ensures f.None? <==> thrown.Primitive? && thrown.truthy
  {
    match thrown
    case Primitive(v, truthy) => if truthy then None else Some(Wrapped(thrown))
    case Object(v, hasMessage) => if hasMessage then Some(Passed(v)) else Some(Wrapped(thrown))
  }

  /** The `error` slot as intended: an error-like object is passed through, and
      every other value is wrapped in `new Error`. */
  function ErrorField<G, X>(thrown: Thrown<X>): (f: Failure<G, X>)
    ensures f.Passed? <==> thrown.Object? && thrown.hasMessage
    ensures f.Passed? ==> f.error == thrown.value
    ensures !f.Passed? ==> f == Wrapped(thrown)
  {
    if thrown.Object? && thrown.hasMessage then Passed(thrown.value) else Wrapped(thrown)
  }

  /** The error callback invoked with the string "boom": the handler as written
      throws instead of setting an error state, while the corrected one wraps it. */
  lemma TruthyPrimitiveThrows<G>()
    ensures ErrorFieldAsWritten<G, string>(Primitive("boom", true)).None?
    ensures ErrorField<G, string>(Primitive("boom", true)) == Wrapped(Primitive("boom", true))
  {
  }

  /** Wherever the handler as written does not throw, the corrected one agrees with it. */
  lemma ErrorFieldAgreesWhereDefined<G, X>(thrown: Thrown<X>)
    ensures ErrorFieldAsWritten<G, X>(thrown).Some? ==> ErrorFieldAsWritten<G, X>(thrown) == Some(ErrorField(thrown))
  {
  }

  /** The state the `error` callback produces; it is never skipped. */
  function ErrorState<D, G, X>(thrown: Thrown<X>): (r: Result<D, G, X>)
    ensures IsErrorState(r) && r.error == Defined(ErrorField(thrown))
  {
    Result(Defined(false), Undefined, Defined(ErrorField(thrown)))
  }

  /** The state one event produces, ignoring the skip. */
  function EventState<D, G, X>(e: Event<D, G, X>): (r: Result<D, G, X>)
    ensures r.loading == Defined(false) && (IsErrorState(r) || IsDataState(r))
    ensures e.Error? ==> r == ErrorState(e.thrown)
    ensures e.Next? ==> r == NextState(e.result)
  {
    match e
    case Next(result) => NextState(result)
    case Error(thrown) => ErrorState(thrown)
  }

  /** The closure variables of one run of the store's start function. */
  datatype Handler = Handler(skipDuplicate: bool, skipped: bool)

  /** The variables as the start function initialises them on every run. */
  function StartHandler<D, G, X>(initial: Result<D, G, X>): (h: Handler)
    ensures !h.skipped
    ensures h.skipDuplicate <==> initial.data != Undefined
  {
    Handler(initial.data != Undefined, false)
  }

  /** One callback: the new closure variables and the value passed to `set`, if
      any. Only an armed, not yet fired skip meeting a `next` sets nothing, and it
      fires the skip; every other event sets its own state. */
  function Step<D, G, X>(h: Handler, e: Event<D, G, X>): (r: (Handler, Option<Result<D, G, X>>))
    ensures r.0.skipDuplicate == h.skipDuplicate
    ensures r.0.skipped <==> h.skipped || (h.skipDuplicate && e.Next?)
    ensures r.1.None? <==> h.skipDuplicate && !h.skipped && e.Next?
    ensures r.1.Some? ==> r.1.value == EventState(e)
  {
    match e
    case Next(result) =>
      if h.skipDuplicate && !h.skipped then (h.(skipped := true), None)
      else (h, Some(NextState(result)))
    case Error(thrown) => (h, Some(ErrorState(thrown)))
  }

  function Emitted<T>(o: Option<T>): seq<T>
  {
    if o.Some? then [o.value] else []
  }

  /** The callbacks of one run, in order: the final closure variables and the
      sequence of values passed to `set`. */
  function Run<D, G, X>(h: Handler, events: seq<Event<D, G, X>>): (Handler, seq<Result<D, G, X>>)
    decreases |events|
  {
    if events == [] then (h, [])
    else
      var (h', sets) := Run(h, events[..|events| - 1]);
      var (h'', o) := Step(h', events[|events| - 1]);
      (h'', sets + Emitted(o))
  }

  // Reference definition of what a run emits.

  predicate HasNext<D, G, X>(events: seq<Event<D, G, X>>)
  {
    exists i :: 0 <= i < |events| && events[i].Next?
  }

  /** The events with their first `next` emission removed. */
  function DropFirstNext<D, G, X>(events: seq<Event<D, G, X>>): seq<Event<D, G, X>>
  {
    if events == [] then []
    else if events[0].Next? then events[1..]
    else [events[0]] + DropFirstNext(events[1..])
  }

  /** Each event mapped to its state. */
  function States<D, G, X>(events: seq<Event<D, G, X>>): (r: seq<Result<D, G, X>>)
    ensures |r| == |events|
    ensures forall i :: 0 <= i < |events| ==> r[i] == EventState(events[i])
  {
    seq(|events|, i requires 0 <= i < |events| => EventState(events[i]))
  }

  lemma {:induction false} DropFirstNextSnoc<D, G, X>(p: seq<Event<D, G, X>>, e: Event<D, G, X>)
    ensures DropFirstNext(p + [e]) ==
              if HasNext(p) then DropFirstNext(p) + [e]
              else if e.Next? then p
              else p + [e]
  {
    if p == [] {
      assert p + [e] == [e];
      assert [e][1..] == [];
    } else {
      assert (p + [e])[0] == p[0];
      assert (p + [e])[1..] == p[1..] + [e];
      DropFirstNextSnoc(p[1..], e);
      if !p[0].Next? {
        assert HasNext(p) == HasNext(p[1..]) by {
          if HasNext(p) {
            var i :| 0 <= i < |p| && p[i].Next?;
            assert p[1..][i - 1] == p[i];
          }
          if HasNext(p[1..]) {
            var i :| 0 <= i < |p[1..]| && p[1..][i].Next?;
            assert p[i + 1] == p[1..][i];
          }
        }
        assert [p[0]] + p[1..] == p;
      } else {
        assert HasNext(p) by { assert p[0].Next?; }
      }
    }
  }

  lemma {:induction false} StatesSnoc<D, G, X>(p: seq<Event<D, G, X>>, e: Event<D, G, X>)
    ensures States(p + [e]) == States(p) + [EventState(e)]
  {
    assert forall i :: 0 <= i < |p| ==> (p + [e])[i] == p[i];
  }

  lemma HasNextSnoc<D, G, X>(p: seq<Event<D, G, X>>, e: Event<D, G, X>)
    ensures HasNext(p + [e]) <==> HasNext(p) || e.Next?
  {
    if HasNext(p) {
      var i :| 0 <= i < |p| && p[i].Next?;
      assert (p + [e])[i] == p[i];
    }
    if e.Next? {
      assert (p + [e])[|p|] == e;
    }
  }

  /** Run over a sequence extended by one event. */
  lemma RunSnoc<D, G, X>(h: Handler, p: seq<Event<D, G, X>>, e: Event<D, G, X>)
    ensures Run(h, p + [e]) == (Step(Run(h, p).0, e).0, Run(h, p).1 + Emitted(Step(Run(h, p).0, e).1))
  {
    assert (p + [e])[..|p|] == p;
  }

  /** From any closure state: the flag `skipped` becomes true exactly when the
      skip is armed and a `next` emission arrives, `skipDuplicate` never changes,
      and the values set are the events' states with the first `next` dropped
      when the skip is armed and has not fired yet. */
  lemma {:induction false} RunFrom<D, G, X>(h: Handler, events: seq<Event<D, G, X>>)
    ensures Run(h, events).0 == Handler(h.skipDuplicate, h.skipped || (h.skipDuplicate && HasNext(events)))
    ensures Run(h, events).1 == States(if h.skipDuplicate && !h.skipped then DropFirstNext(events) else events)
  {
    if events != [] {
      var p, e := events[..|events| - 1], events[|events| - 1];
      assert events == p + [e];
      RunFrom(h, p);
      RunSnoc(h, p, e);
      HasNextSnoc(p, e);
      if h.skipDuplicate && !h.skipped {
        RunFromArmed(h, p, e);
      } else {
        StatesSnoc(p, e);
      }
    }
  }

  /** The inductive step of RunFrom while the skip is armed and has not fired. */
  lemma RunFromArmed<D, G, X>(h: Handler, p: seq<Event<D, G, X>>, e: Event<D, G, X>)
    requires h.skipDuplicate && !h.skipped
    requires Run(h, p) == (Handler(true, HasNext(p)), States(DropFirstNext(p)))
    ensures Run(h, p + [e]).1 == States(DropFirstNext(p + [e]))
  {
    RunSnoc(h, p, e);
    DropFirstNextSnoc(p, e);
    if HasNext(p) {
      StatesSnoc(DropFirstNext(p), e);
    } else {
      NoNextUnchanged(p);
      if !e.Next? {
        StatesSnoc(p, e);
      }
    }
  }

  lemma {:induction false} NoNextUnchanged<D, G, X>(p: seq<Event<D, G, X>>)
    requires !HasNext(p)
    ensures DropFirstNext(p) == p
  {
    if p != [] {
      assert !p[0].Next? by { assert !(0 <= 0 < |p| && p[0].Next?); }
      assert !HasNext(p[1..]) by {
        forall i | 0 <= i < |p[1..]| ensures !p[1..][i].Next? {
          assert p[1..][i] == p[i + 1];
        }
      }
      NoNextUnchanged(p[1..]);
      assert [p[0]] + p[1..] == p;
    }
  }

  /** What a run of the start function passes to `set`, by the reference definition. */
  lemma RunMatchesReference<D, G, X>(initial: Result<D, G, X>, events: seq<Event<D, G, X>>)
    ensures Run(StartHandler(initial), events).1 ==
              States(if initial.data != Undefined then DropFirstNext(events) else events)
  {
    RunFrom(StartHandler(initial), events);
  }

  /** Without initial data nothing is skipped: every event produces exactly one
      `set` of its own state. */
  lemma NoSkipWithoutInitialData<D, G, X>(initial: Result<D, G, X>, events: seq<Event<D, G, X>>)
    requires initial.data == Undefined
    ensures |Run(StartHandler(initial), events).1| == |events|
    ensures forall i :: 0 <= i < |events| ==> Run(StartHandler(initial), events).1[i] == EventState(events[i])
  {
    RunFrom(StartHandler(initial), events);
  }

  /** With initial data the first `next` emission is dropped, whatever it carries,
      and everything before and after it is processed. */
  lemma FirstNextDropped<D, G, X>(initial: Result<D, G, X>, before: seq<Event<D, G, X>>,
                                  first: FetchResult<D, G>, after: seq<Event<D, G, X>>)
    requires initial.data != Undefined
    requires forall i :: 0 <= i < |before| ==> before[i].Error?
    ensures Run(StartHandler(initial), before + [Next(first)] + after).1 == States(before) + States(after)
  {
    var events := before + [Next(first)] + after;
    RunFrom(StartHandler(initial), events);
    DropBeforeFirstNext(before, first, after);
    StatesAppend(before, after);
  }

  lemma {:induction false} DropBeforeFirstNext<D, G, X>(before: seq<Event<D, G, X>>,
                                                       first: FetchResult<D, G>, after: seq<Event<D, G, X>>)
    requires forall i :: 0 <= i < |before| ==> before[i].Error?
    ensures DropFirstNext(before + [Next(first)] + after) == before + after
  {
    var events := before + [Next(first)] + after;
    if before == [] {
      assert events == [Next(first)] + after;
      assert events[1..] == after;
    } else {
      assert events[0] == before[0];
      assert events[1..] == before[1..] + [Next(first)] + after;
      DropBeforeFirstNext(before[1..], first, after);
      assert [before[0]] + (before[1..] + after) == before + after;
    }
  }

  lemma {:induction false} StatesAppend<D, G, X>(a: seq<Event<D, G, X>>, b: seq<Event<D, G, X>>)
    ensures States(a + b) == States(a) + States(b)
  {
    assert forall i :: 0 <= i < |a| ==> (a + b)[i] == a[i];
    assert forall i :: 0 <= i < |b| ==> (a + b)[|a| + i] == b[i];
  }

  /** `set` is called once per event, except for the one dropped emission. */
  lemma SetCount<D, G, X>(initial: Result<D, G, X>, events: seq<Event<D, G, X>>)
    ensures |Run(StartHandler(initial), events).1| ==
              |events| - (if initial.data != Undefined && HasNext(events) then 1 else 0)
  {
    RunFrom(StartHandler(initial), events);
    if initial.data != Undefined {
      DropFirstNextLength(events);
    }
  }

  lemma {:induction false} DropFirstNextLength<D, G, X>(events: seq<Event<D, G, X>>)
    ensures |DropFirstNext(events)| == |events| - (if HasNext(events) then 1 else 0)
  {
    if events == [] {
    } else if events[0].Next? {
      assert HasNext(events) by { assert events[0].Next?; }
    } else {
      DropFirstNextLength(events[1..]);
      assert HasNext(events) == HasNext(events[1..]) by {
        if HasNext(events) {
          var i :| 0 <= i < |events| && events[i].Next?;
          assert events[1..][i - 1] == events[i];
        }
        if HasNext(events[1..]) {
          var i :| 0 <= i < |events[1..]| && events[1..][i].Next?;
          assert events[i + 1] == events[1..][i];
        }
      }
    }
  }

  /** The skip fires at most once per run: `skipped` only moves from false to
      true, and only when the initial value has data. */
  lemma {:induction false} SkipFiresAtMostOnce<D, G, X>(initial: Result<D, G, X>, events: seq<Event<D, G, X>>)
    ensures Run(StartHandler(initial), events).0.skipped <==> initial.data != Undefined && HasNext(events)
    ensures Run(StartHandler(initial), events).0.skipDuplicate <==> initial.data != Undefined
  {
    RunFrom(StartHandler(initial), events);
  }

  /** Every value set after subscription is an error or a data state with
      `loading` false; only the initial value can be a loading state. */
  lemma {:induction false} EmittedNeverLoading<D, G, X>(initial: Result<D, G, X>, events: seq<Event<D, G, X>>)
    ensures forall r :: r in Run(StartHandler(initial), events).1 ==>
              r.loading == Defined(false) && (IsErrorState(r) || IsDataState(r))
  {
    RunFrom(StartHandler(initial), events);
  }

  /** The readable store of `observableToReadable`. The start function's closure
      variables are fields that `Start` re-initialises; the callbacks are methods. */
  class ResultStore<D, G, X> {
    /** The initial value, read again by every run of the start function. */
    const initial: Result<D, G, X>
    /** The value subscribers currently read. */
    var value: Result<D, G, X>
    /** Whether the start function has run and its subscription is open. */
    var started: bool
    var skipDuplicate: bool
    var skipped: bool
    /** The events delivered and the values set since the latest start. */
    ghost var events: seq<Event<D, G, X>>
    ghost var sets: seq<Result<D, G, X>>

    ghost predicate Valid()
      reads this
    {
      && (started ==> Run(StartHandler(initial), events) == (Handler(skipDuplicate, skipped), sets))
      && (started && sets != [] ==> value == sets[|sets| - 1])
    }

    constructor (initialValue: Option<Result<D, G, X>>)
      ensures Valid() && !started
      ensures initial == InitialValue(initialValue) && value == initial
    {
      initial := InitialValue(initialValue);
      value := InitialValue(initialValue);
      started := false;
      skipDuplicate, skipped := false, false;
      events, sets := [], [];
    }

    /** The start function: runs when the first subscriber arrives. */
    method Start()
      requires Valid() && !started
      modifies this
      ensures Valid() && started
      ensures skipDuplicate == (initial.data != Undefined) && !skipped
      ensures events == [] && sets == [] && value == old(value)
    {
      skipDuplicate := initial.data != Undefined;
      skipped := false;
      events, sets := [], [];
      started := true;
    }

    /** The function the start function returns: unsubscribes; the value stays,
        and the closure variables are left as they are until the next start. */
    method Stop()
      requires Valid() && started
      modifies this
      ensures Valid() && !started && value == old(value)
      ensures skipDuplicate == old(skipDuplicate) && skipped == old(skipped)
      ensures events == old(events) && sets == old(sets)
    {
      started := false;
    }

    /** The `next` callback. */
    method OnNext(result: FetchResult<D, G>)
      requires Valid() && started
      modifies this
      ensures Valid() && started && skipDuplicate == old(skipDuplicate)
      ensures events == old(events) + [Next(result)]
      ensures old(skipDuplicate && !skipped) ==> skipped && sets == old(sets) && value == old(value)
      ensures !old(skipDuplicate && !skipped) ==>
                skipped == old(skipped) && sets == old(sets) + [NextState(result)] && value == NextState(result)
    {
      events := events + [Next(result)];
      assert events[..|events| - 1] == old(events);
      if skipDuplicate && !skipped {
        skipped := true;
        assert sets + Emitted<Result<D, G, X>>(None) == sets;
        return;
      }
      var r: Result<D, G, X>;
      if result.errors.Defined? {
        var error := ApolloError(result.errors.value);
        r := Result(Defined(false), Undefined, Defined(error));
      } else {
        r := Result(Defined(false), result.data, Undefined);
      }
      value := r;
      sets := sets + [r];
    }

    /** The `error` callback (with the corrected choice of error slot). */
    method OnError(thrown: Thrown<X>)
      requires Valid() && started
      modifies this
      ensures Valid() && started && skipDuplicate == old(skipDuplicate) && skipped == old(skipped)
      ensures events == old(events) + [Error(thrown)]
      ensures sets == old(sets) + [ErrorState(thrown)] && value == ErrorState(thrown)
    {
      events := events + [Error(thrown)];
      assert events[..|events| - 1] == old(events);
      var error := if thrown.Object? && thrown.hasMessage then Passed(thrown.value) else Wrapped(thrown);
      value := Result(Defined(false), Undefined, Defined(error));
      sets := sets + [value];
    }
  }
}
