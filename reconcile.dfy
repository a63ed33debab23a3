/**
  What registering parameters does, as functions of the parameter's key and
  value and of the store: one function per handler, the handler chain, the
  registrar and the initialisation pass over a parameter list. The imperative
  registry in module Registry is proved to produce exactly these outcomes.
 */
module Reconcile {
  import opened Keys
  import opened Values

  /** The configuration store: exact-match keys to dynamically typed values. */
  type Store = map<string, DynValue>

  /** Diagnostics, in the order they are logged. */
  datatype Event =
    | Found(key: string, value: Value)          // debug: store value taken over
    | Registered(key: string, value: Value)     // debug: default written to the store
    | UsingDefaults(key: string)                // debug: vector key absent, default kept
    | NotAnArray(key: string)                   // warning: vector key holds a non-array
    | UnknownType(key: string, typeName: string) // error: no handler took the parameter

  /** What one handler (or the whole registrar) returns and leaves behind. */
  datatype Outcome = Outcome(matched: bool, value: Value, store: Store, events: seq<Event>)

  /** Every entry except the one under `key` is the same in both stores. */
  predicate OnlyKeyChanged(before: Store, after: Store, key: string) {
    after - {key} == before - {key}
  }

  /** What OnlyKeyChanged says about one other key: present in both or in neither, with the same value. */
  lemma OnlyKeyChangedAt(before: Store, after: Store, key: string, other: string)
    requires OnlyKeyChanged(before, after, key) && other != key
    ensures other in after <==> other in before
    ensures other in before ==> after[other] == before[other]
  {
    assert other in after <==> other in after - {key};
    assert other in before <==> other in before - {key};
    if other in before {
      assert (before - {key})[other] == before[other];
      assert (after - {key})[other] == after[other];
    }
  }

  /**
    Handler for a scalar type that has matched: a store value of the
    parameter's type wins; otherwise the default is written under the
    lower-case key.
   */
  function ScalarOutcome(k: Kind, key: string, value: Value, store: Store): (r: Outcome)
    requires !IsArrayKind(k) && IsOfType(value, k)
    ensures r.matched && IsOfType(r.value, k)
    ensures ToLower(key) !in store ==>
      r.value == value && r.store == store[ToLower(key) := Encode(value)]
    ensures ToLower(key) in store && Fetch(k, store[ToLower(key)]).Some? ==>
      r.value == Fetch(k, store[ToLower(key)]).value && r.store == store
    ensures ToLower(key) in store && Fetch(k, store[ToLower(key)]).None? ==>
      r.value == value && r.store == store[ToLower(key) := Encode(value)]
    ensures ToLower(key) in r.store && Fetch(k, r.store[ToLower(key)]) == Some(r.value)
    ensures r.store.Keys == store.Keys + {ToLower(key)}
    ensures OnlyKeyChanged(store, r.store, ToLower(key))
  {
    var lk := ToLower(key);
    if lk in store && Fetch(k, store[lk]).Some? then
      Outcome(true, Fetch(k, store[lk]).value, store, [Found(lk, Fetch(k, store[lk]).value)])
    else
      Outcome(true, value, store[lk := Encode(value)], [Registered(lk, value)])
  }

  /**
    Handler for a vector type that has matched: the store is only read; a
    stored array replaces the vector element by element, a stored non-array
    makes the handler fail.
   */
  function VectorOutcome(key: string, value: Value, store: Store): (r: Outcome)
    requires IsVector(value)
    ensures r.store == store
    ensures SameType(r.value, value)
    ensures ToLower(key) !in store ==> r.matched && r.value == value
    ensures ToLower(key) in store && !store[ToLower(key)].Arr? ==>
      !r.matched && r.value == value && r.events == [NotAnArray(ToLower(key))]
    ensures ToLower(key) in store && store[ToLower(key)].Arr? ==>
      && r.matched
      && IsVector(r.value)
      && |r.value.vec| == |store[ToLower(key)].elems|
      && forall i :: 0 <= i < |r.value.vec| ==> r.value.vec[i] == store[ToLower(key)].elems[i]
  {
    var lk := ToLower(key);
    if lk !in store then
      Outcome(true, value, store, [UsingDefaults(lk)])
    else if !store[lk].Arr? then
      Outcome(false, value, store, [NotAnArray(lk)])
    else
      var copied := value.(vec := store[lk].elems);
      Outcome(true, copied, store, [Found(lk, copied)])
  }

  /** Handler<T> for the type `k`: a type test, then the scalar or the vector case. */
  function HandlerOutcome(k: Kind, key: string, value: Value, store: Store): (r: Outcome)
    ensures !IsOfType(value, k) ==> r == Outcome(false, value, store, [])
    ensures IsOfType(value, k) && !IsArrayKind(k) ==> r.matched
    ensures !r.matched ==> r.value == value && r.store == store
    ensures SameType(r.value, value)
    ensures OnlyKeyChanged(store, r.store, ToLower(key))
  {
    if !IsOfType(value, k) then Outcome(false, value, store, [])
    else if IsArrayKind(k) then VectorOutcome(key, value, store)
    else ScalarOutcome(k, key, value, store)
  }

  /** The order in which the registrar tries the handlers. */
  const HANDLER_ORDER: seq<Kind> :=
    [StringKind, DoubleKind, DoubleVectorKind, IntKind, BoolKind, ColumnVectorKind]

  /** The registrar's order tries every handler type, each one once. */
  lemma HandlerOrderIsComplete()
    ensures forall k: Kind :: k in HANDLER_ORDER
    ensures forall i, j :: 0 <= i < j < |HANDLER_ORDER| ==> HANDLER_ORDER[i] != HANDLER_ORDER[j]
  {
    forall k: Kind
      ensures k in HANDLER_ORDER
    {
      assert HANDLER_ORDER[Position(k)] == k;
    }
  }

  /** Where the registrar tries the handler for `k`. */
  function Position(k: Kind): (i: nat)
    ensures i < |HANDLER_ORDER| && HANDLER_ORDER[i] == k
  {
    match k
    case StringKind => 0
    case DoubleKind => 1
    case DoubleVectorKind => 2
    case IntKind => 3
    case BoolKind => 4
    case ColumnVectorKind => 5
  }

  /** The short-circuit chain `h1(p) || h2(p) || ...` over the handlers for `ks`. */
  function ChainOutcome(ks: seq<Kind>, key: string, value: Value, store: Store): (r: Outcome)
    ensures !r.matched ==> r.value == value && r.store == store
    ensures r.matched ==> exists k :: k in ks && IsOfType(value, k)
    ensures SameType(r.value, value)
    ensures OnlyKeyChanged(store, r.store, ToLower(key))
    decreases |ks|
  {
    if ks == [] then Outcome(false, value, store, [])
    else
      var h := HandlerOutcome(ks[0], key, value, store);
      if h.matched then h
      else
        var rest := ChainOutcome(ks[1..], key, h.value, h.store);
        rest.(events := h.events + rest.events)
  }

  /** The registrar: the chain over HANDLER_ORDER, and an error report when no handler took the parameter. */
  function RegisterOutcome(key: string, value: Value, store: Store): (r: Outcome)
    ensures !r.matched ==> r.value == value && r.store == store
    ensures !r.matched ==> |r.events| > 0 && r.events[|r.events| - 1] == UnknownType(key, TypeName(value))
    ensures r.matched ==> !value.OtherValue?
    ensures SameType(r.value, value)
    ensures OnlyKeyChanged(store, r.store, ToLower(key))
  {
    var c := ChainOutcome(HANDLER_ORDER, key, value, store);
    if c.matched then c
    else c.(events := c.events + [UnknownType(key, TypeName(value))])
  }

  /** What the initialisation pass leaves behind: the values of all parameters, the store, the log. */
  datatype Pass = Pass(values: seq<Value>, store: Store, events: seq<Event>)

  /** ParameterList::initialize with the registrar: each entry registered once, in list order. */
  function InitializeOutcome(entries: seq<(string, Value)>, store: Store): (r: Pass)
    ensures |r.values| == |entries|
    decreases |entries|
  {
    if entries == [] then Pass([], store, [])
    else
      var prev := InitializeOutcome(entries[..|entries| - 1], store);
      var last := entries[|entries| - 1];
      var o := RegisterOutcome(last.0, last.1, prev.store);
      Pass(prev.values + [o.value], o.store, prev.events + o.events)
  }
}
