/**
  The registry as the program runs it: parameter handles whose values the
  handlers overwrite in place, a registry object that owns the store and the
  diagnostic log, and the parameter list whose initialisation registers every
  parameter in order. Each method is proved to produce the outcome that
  module Reconcile defines.
 */
module Registry {
  import opened Keys
  import opened Values
  import opened Reconcile
  import opened Properties

  /** A parameter handle: a declared key and the storage of its value. */
  class Parameter {
    const key: string
    var value: Value

    constructor (key: string, value: Value)
      ensures this.key == key && this.value == value
    {
      this.key := key;
      this.value := value;
    }

    /** Resize the vector to the array's length, then copy the array element by element. */
    method Assign(elems: seq<Element>)
      requires IsVector(value)
      modifies this
      ensures value == old(value).(vec := elems)
    {
      value := value.(vec := Resize(value.vec, |elems|));
      var i := 0;
      while i < |elems|
        invariant 0 <= i <= |elems|
        invariant IsVector(value) && value == old(value).(vec := value.vec)
        invariant |value.vec| == |elems|
        invariant forall j :: 0 <= j < i ==> value.vec[j] == elems[j]
      {
        value := value.(vec := value.vec[i := elems[i]]);
        i := i + 1;
      }
      assert value.vec == elems;
    }
  }

  /** The registrar with the store it reads and writes, and the diagnostics it logs. */
  class ParameterRegistry {
    var store: Store
    var log: seq<Event>

    constructor (store: Store)
      ensures this.store == store && log == []
    {
      this.store := store;
      log := [];
    }

    /** Untyped read of a store entry. */
    method GetParam(key: string) returns (r: Option<DynValue>)
      ensures r.Some? <==> key in store
      ensures r.Some? ==> r.value == store[key]
    {
      r := if key in store then Some(store[key]) else None;
    }

    /** Typed read: fails when the key is absent or holds a value of another type. */
    method GetTyped(k: Kind, key: string) returns (r: Option<Value>)
      requires !IsArrayKind(k)
      ensures r.Some? <==> key in store && Fetch(k, store[key]).Some?
      ensures r.Some? ==> IsOfType(r.value, k) && Encode(r.value) == store[key]
    {
      if key in store {
        r := Fetch(k, store[key]);
        if r.Some? {
          EncodeAfterFetch(k, store[key]);
        }
      } else {
        r := None;
      }
    }

    /** Unconditional write of a store entry. */
    method SetParam(key: string, d: DynValue)
      modifies this
      ensures store == old(store)[key := d] && log == old(log)
    {
      store := store[key := d];
    }

    /** Handler<T> for the scalar types: get the stored value or set the default. */
    method ScalarHandler(k: Kind, p: Parameter) returns (matched: bool)
      requires !IsArrayKind(k)
      modifies this, p
      ensures var o := HandlerOutcome(k, p.key, old(p.value), old(store));
        matched == o.matched && p.value == o.value && store == o.store && log == old(log) + o.events
    {
      if !IsOfType(p.value, k) {
        return false;
      }
      var key := ToLower(p.key);
      var fetched := GetTyped(k, key);
      if fetched.None? {
        SetParam(key, Encode(p.value));
        log := log + [Registered(key, p.value)];
      } else {
        p.value := fetched.value;
        log := log + [Found(key, p.value)];
      }
      return true;
    }

    /** Handler<ColumnVector> and Handler<std::vector<T>>: never writes the store. */
    method VectorHandler(k: Kind, p: Parameter) returns (matched: bool)
      requires IsArrayKind(k)
      modifies this, p
      ensures var o := HandlerOutcome(k, p.key, old(p.value), old(store));
        matched == o.matched && p.value == o.value && store == o.store && log == old(log) + o.events
    {
      if !IsOfType(p.value, k) {
        return false;
      }
      var key := ToLower(p.key);
      var vector := GetParam(key);
      if vector.None? {
        log := log + [UsingDefaults(key)];
      } else {
        if !vector.value.Arr? {
          log := log + [NotAnArray(key)];
          return false;
        }
        p.Assign(vector.value.elems);
        log := log + [Found(key, p.value)];
      }
      return true;
    }

    /** The handler for type `k`: the vector specialisation or the scalar template. */
    method Handler(k: Kind, p: Parameter) returns (matched: bool)
      modifies this, p
      ensures var o := HandlerOutcome(k, p.key, old(p.value), old(store));
        matched == o.matched && p.value == o.value && store == o.store && log == old(log) + o.events
    {
      if IsArrayKind(k) {
        matched := VectorHandler(k, p);
      } else {
        matched := ScalarHandler(k, p);
      }
    }

    /** The registrar: the handlers in their fixed order up to the first that returns true. */
    method Register(p: Parameter)
      modifies this, p
      ensures var o := RegisterOutcome(p.key, old(p.value), old(store));
        p.value == o.value && store == o.store && log == old(log) + o.events
    {
      ghost var v0, s0, l0 := p.value, store, log;
      var handled := Handler(StringKind, p);
      assert Tried(handled, p.value, store, log, p.key, v0, s0, l0, 0);
      ghost var h, v, s, l := handled, p.value, store, log;
      if !handled { handled := Handler(DoubleKind, p); }
      TriedNext(1, h, v, s, l, p.key, v0, s0, l0, handled, p.value, store, log);
      h, v, s, l := handled, p.value, store, log;
      if !handled { handled := Handler(DoubleVectorKind, p); }
      TriedNext(2, h, v, s, l, p.key, v0, s0, l0, handled, p.value, store, log);
      h, v, s, l := handled, p.value, store, log;
      if !handled { handled := Handler(IntKind, p); }
      TriedNext(3, h, v, s, l, p.key, v0, s0, l0, handled, p.value, store, log);
      h, v, s, l := handled, p.value, store, log;
      if !handled { handled := Handler(BoolKind, p); }
      TriedNext(4, h, v, s, l, p.key, v0, s0, l0, handled, p.value, store, log);
      h, v, s, l := handled, p.value, store, log;
      if !handled { handled := Handler(ColumnVectorKind, p); }
      TriedNext(5, h, v, s, l, p.key, v0, s0, l0, handled, p.value, store, log);
      l := log;
      if !handled {
        log := log + [UnknownType(p.key, TypeName(p.value))];
      }
      TriedAll(handled, p.value, store, l, p.key, v0, s0, l0, log);
    }
  }

  /**
    The registrar's state once the handlers up to position `step` have been
    tried on a parameter whose value was `v0` with the store `s0` and the log
    `l0`: before the parameter's own handler nothing has happened; from it on
    the state is what that handler left. The state is passed as separate
    values rather than as one Outcome, which keeps Register's proof small.
   */
  ghost predicate Tried(handled: bool, value: Value, store: Store, log: seq<Event>,
                        key: string, v0: Value, s0: Store, l0: seq<Event>, step: nat)
  {
    if TypeOf(v0).Some? && Position(TypeOf(v0).value) <= step then
      var h := HandlerOutcome(TypeOf(v0).value, key, v0, s0);
      handled == h.matched && value == h.value && store == h.store && log == l0 + h.events
    else
      !handled && value == v0 && store == s0 && log == l0
  }

  /** One more link of the chain `h1(p) || h2(p) || ...` keeps the state described by Tried. */
  lemma TriedNext(step: nat, handled: bool, value: Value, store: Store, log: seq<Event>,
                  key: string, v0: Value, s0: Store, l0: seq<Event>,
                  handled': bool, value': Value, store': Store, log': seq<Event>)
    requires 0 < step < |HANDLER_ORDER|
    requires Tried(handled, value, store, log, key, v0, s0, l0, step - 1)
    requires handled ==> handled' && value' == value && store' == store && log' == log
    requires !handled ==>
      var o := HandlerOutcome(HANDLER_ORDER[step], key, value, store);
      handled' == o.matched && value' == o.value && store' == o.store && log' == log + o.events
    ensures Tried(handled', value', store', log', key, v0, s0, l0, step)
  {
    if !handled && TypeOf(v0).Some? && Position(TypeOf(v0).value) == step {
      assert [] + l0 == l0;
    }
  }

  /** After the whole chain and the error report, the state is the registrar's outcome. */
  lemma TriedAll(handled: bool, value: Value, store: Store, log: seq<Event>,
                 key: string, v0: Value, s0: Store, l0: seq<Event>, log': seq<Event>)
    requires Tried(handled, value, store, log, key, v0, s0, l0, |HANDLER_ORDER| - 1)
    requires log' == if handled then log else log + [UnknownType(key, TypeName(value))]
    ensures var o := RegisterOutcome(key, v0, s0);
      value == o.value && store == o.store && log' == l0 + o.events
  {
    if TypeOf(v0).Some? {
      RegisterDispatchesOnType(TypeOf(v0).value, key, v0, s0);
    } else {
      RegisterUnknownType(key, v0, s0);
    }
  }

  /** The key and the current value of every handle in a list. */
  ghost function Entries(ps: seq<Parameter>): (r: seq<(string, Value)>)
    reads ps
    ensures |r| == |ps| && forall i :: 0 <= i < |ps| ==> r[i] == (ps[i].key, ps[i].value)
  {
    seq(|ps|, i reads ps requires 0 <= i < |ps| => (ps[i].key, ps[i].value))
  }

  /** Associativity of concatenation, stated once so that Initialize need not prove it in its own context. */
  lemma ConcatAssociative<T>(a: seq<T>, b: seq<T>, c: seq<T>)
    ensures (a + b) + c == a + (b + c)
  {
  }

  /** The declared parameters, in declaration order. */
  class ParameterList {
    const params: seq<Parameter>

    constructor (params: seq<Parameter>)
      ensures this.params == params
    {
      this.params := params;
    }

    /** Register every parameter once, in list order. */
    method Initialize(registry: ParameterRegistry)
      requires forall i, j :: 0 <= i < j < |params| ==> params[i] != params[j]
      modifies registry, params
      ensures var r := InitializeOutcome(old(Entries(params)), old(registry.store));
        && registry.store == r.store
        && registry.log == old(registry.log) + r.events
        && forall i :: 0 <= i < |params| ==> params[i].value == r.values[i]
    {
      ghost var entries := Entries(params);
      ghost var store0 := registry.store;
      ghost var log0 := registry.log;
      ghost var pass := InitializeOutcome([], store0);
      var i := 0;
      while i < |params|
        invariant 0 <= i <= |params|
        invariant pass == InitializeOutcome(entries[..i], store0) && |pass.values| == i
        invariant registry.store == pass.store && registry.log == log0 + pass.events
        invariant forall j :: 0 <= j < i ==> params[j].value == pass.values[j]
        invariant forall j :: i <= j < |params| ==> params[j].value == entries[j].1
      {
        ghost var before := pass;
        pass := RegisterNext(registry, i, entries, store0, log0, before);
        forall j | 0 <= j < i
          ensures params[j].value == pass.values[j]
        {
          assert params[j] != params[i];
        }
        forall j | i < j < |params|
          ensures params[j].value == entries[j].1
        {
          assert params[i] != params[j];
        }
        i := i + 1;
      }
      assert entries[..|params|] == entries;
    }

    /** One iteration of Initialize: register the parameter at position `i` and extend the pass by it. */
    method RegisterNext(registry: ParameterRegistry, i: nat, ghost entries: seq<(string, Value)>,
                        ghost store0: Store, ghost log0: seq<Event>, ghost before: Pass)
        returns (ghost pass: Pass)
      requires i < |params| == |entries| && entries[i] == (params[i].key, params[i].value)
      requires before == InitializeOutcome(entries[..i], store0) && |before.values| == i
      requires registry.store == before.store && registry.log == log0 + before.events
      modifies registry, params[i]
      ensures pass == InitializeOutcome(entries[..i + 1], store0) && |pass.values| == i + 1
      ensures registry.store == pass.store && registry.log == log0 + pass.events
      ensures params[i].value == pass.values[i]
      ensures forall j :: 0 <= j < i ==> pass.values[j] == before.values[j]
    {
      ghost var o := RegisterOutcome(params[i].key, params[i].value, registry.store);
      InitializeStep(entries, store0, i);
      pass := Pass(before.values + [o.value], o.store, before.events + o.events);
      registry.Register(params[i]);
      ConcatAssociative(log0, before.events, o.events);
    }
  }
}
