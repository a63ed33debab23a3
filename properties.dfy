/**
  Properties of the registrar and of the initialisation pass: dispatch on the
  exact runtime type, get-or-set-default through the whole chain, the
  fall-through of a vector parameter whose store entry is not an array, and
  what a pass over a parameter list leaves in the store.
 */
module Properties {
  import opened Keys
  import opened Values
  import opened Reconcile

  /** Handlers whose type test fails leave no trace: the chain continues as if they were absent. */
  lemma {:induction false} ChainSkipsMismatches(ks: seq<Kind>, i: nat, key: string, value: Value, store: Store)
    requires i <= |ks|
    requires forall j :: 0 <= j < i ==> !IsOfType(value, ks[j])
    ensures ChainOutcome(ks, key, value, store) == ChainOutcome(ks[i..], key, value, store)
    decreases i
  {
    if i > 0 {
      ChainSkipsMismatches(ks[1..], i - 1, key, value, store);
      assert ks[1..][i - 1..] == ks[i..];
      var rest := ChainOutcome(ks[1..], key, value, store);
      assert rest.(events := [] + rest.events) == rest;
    }
  }

  /** A chain in which no type test succeeds returns false and changes nothing. */
  lemma ChainWithoutMatch(ks: seq<Kind>, key: string, value: Value, store: Store)
    requires forall k :: k in ks ==> !IsOfType(value, k)
    ensures ChainOutcome(ks, key, value, store) == Outcome(false, value, store, [])
  {
    ChainSkipsMismatches(ks, |ks|, key, value, store);
  }

  /** For every parameter of a handled type exactly one handler's type test succeeds. */
  lemma ExactlyOneHandlerType(value: Value)
    requires !value.OtherValue?
    ensures exists i :: && 0 <= i < |HANDLER_ORDER|
                        && IsOfType(value, HANDLER_ORDER[i])
                        && forall j :: 0 <= j < |HANDLER_ORDER| && j != i ==> !IsOfType(value, HANDLER_ORDER[j])
  {
    var i := match value
      case StringValue(_) => 0
      case DoubleValue(_) => 1
      case DoubleVectorValue(_) => 2
      case IntValue(_) => 3
      case BoolValue(_) => 4
      case ColumnVectorValue(_) => 5;
    assert IsOfType(value, HANDLER_ORDER[i]);
    forall j | 0 <= j < |HANDLER_ORDER| && j != i
      ensures !IsOfType(value, HANDLER_ORDER[j])
    {
      if IsOfType(value, HANDLER_ORDER[j]) {
        TypeIsUnique(value, HANDLER_ORDER[i], HANDLER_ORDER[j]);
      }
    }
  }

  /** In a chain where only the handler at `i` passes its type test, the chain is that handler. */
  lemma {:induction false} ChainAtOwnType(ks: seq<Kind>, i: nat, key: string, value: Value, store: Store)
    requires i < |ks| && IsOfType(value, ks[i])
    requires forall j :: 0 <= j < |ks| && j != i ==> !IsOfType(value, ks[j])
    ensures ChainOutcome(ks, key, value, store) == HandlerOutcome(ks[i], key, value, store)
  {
    ChainSkipsMismatches(ks, i, key, value, store);
    var tail := ks[i + 1..];
    assert ks[i..][1..] == tail;
    forall k' | k' in tail
      ensures !IsOfType(value, k')
    {
      var j :| 0 <= j < |tail| && tail[j] == k';
      assert ks[i + 1 + j] == k';
    }
    ChainWithoutMatch(tail, key, value, store);
    var h := HandlerOutcome(ks[i], key, value, store);
    assert h.events + [] == h.events;
  }

  /**
    The registrar does exactly what the handler of the parameter's own type
    does; if that handler returns false, every later handler fails its type
    test and the unknown-type error follows.
   */
  lemma RegisterDispatchesOnType(k: Kind, key: string, value: Value, store: Store)
    requires IsOfType(value, k)
    ensures var h := HandlerOutcome(k, key, value, store);
      RegisterOutcome(key, value, store)
        == if h.matched then h else h.(events := h.events + [UnknownType(key, TypeName(value))])
  {
    var i := Position(k);
    forall j | 0 <= j < |HANDLER_ORDER| && j != i
      ensures !IsOfType(value, HANDLER_ORDER[j])
    {
      if IsOfType(value, HANDLER_ORDER[j]) {
        TypeIsUnique(value, HANDLER_ORDER[i], HANDLER_ORDER[j]);
      }
    }
    ChainAtOwnType(HANDLER_ORDER, i, key, value, store);
  }

  /** Get-or-set-default holds for the whole registrar, for each of the four scalar types. */
  lemma RegisterScalar(k: Kind, key: string, value: Value, store: Store)
    requires !IsArrayKind(k) && IsOfType(value, k)
    ensures RegisterOutcome(key, value, store) == ScalarOutcome(k, key, value, store)
  {
    RegisterDispatchesOnType(k, key, value, store);
  }

  /** A parameter of a type without a handler: one error report, nothing else changes. */
  lemma RegisterUnknownType(key: string, value: Value, store: Store)
    requires value.OtherValue?
    ensures RegisterOutcome(key, value, store) == Outcome(false, value, store, [UnknownType(key, value.typeName)])
  {
    ChainWithoutMatch(HANDLER_ORDER, key, value, store);
  }

  /**
    A vector parameter whose store entry is not an array is reported as
    having an unknown type, although its type has a handler: the warning is
    followed by the unknown-type error, and nothing changes.
   */
  lemma VectorNotAnArrayFallsThrough(key: string, value: Value, store: Store)
    requires IsVector(value) && ToLower(key) in store && !store[ToLower(key)].Arr?
    ensures RegisterOutcome(key, value, store)
      == Outcome(false, value, store, [NotAnArray(ToLower(key)), UnknownType(key, TypeName(value))])
  {
    var k := if value.DoubleVectorValue? then DoubleVectorKind else ColumnVectorKind;
    RegisterDispatchesOnType(k, key, value, store);
  }

  /** A pass over one more entry registers that entry against the store the shorter pass left. */
  lemma InitializeStep(entries: seq<(string, Value)>, store: Store, i: nat)
    requires i < |entries|
    ensures var prev := InitializeOutcome(entries[..i], store);
      var o := RegisterOutcome(entries[i].0, entries[i].1, prev.store);
      InitializeOutcome(entries[..i + 1], store) == Pass(prev.values + [o.value], o.store, prev.events + o.events)
  {
    assert entries[..i + 1][..i] == entries[..i];
  }

  /** A pass never changes the runtime type of a parameter. */
  lemma {:induction false} InitializeKeepsTypes(entries: seq<(string, Value)>, store: Store, i: nat)
    requires i < |entries|
    ensures SameType(InitializeOutcome(entries, store).values[i], entries[i].1)
    decreases |entries|
  {
    var n := |entries|;
    var init := entries[..n - 1];
    var prev := InitializeOutcome(init, store);
    var o := RegisterOutcome(entries[n - 1].0, entries[n - 1].1, prev.store);
    assert InitializeOutcome(entries, store).values == prev.values + [o.value];
    if i < n - 1 {
      InitializeKeepsTypes(init, store, i);
      assert init[i] == entries[i];
    }
  }

  /** A pass touches only the store entries under the lower-case keys of the list. */
  lemma {:induction false} InitializeTouchesOnlyDeclaredKeys(entries: seq<(string, Value)>, store: Store, other: string)
    requires forall i :: 0 <= i < |entries| ==> ToLower(entries[i].0) != other
    ensures var r := InitializeOutcome(entries, store);
      (other in r.store <==> other in store) && (other in store ==> r.store[other] == store[other])
    decreases |entries|
  {
    if entries != [] {
      var n := |entries|;
      InitializeTouchesOnlyDeclaredKeys(entries[..n - 1], store, other);
      var prev := InitializeOutcome(entries[..n - 1], store);
      OnlyKeyChangedAt(prev.store, RegisterOutcome(entries[n - 1].0, entries[n - 1].1, prev.store).store,
                       ToLower(entries[n - 1].0), other);
    }
  }

  /**
    With keys that stay distinct after lower-casing, a pass leaves every
    scalar parameter and its store entry in agreement: the entry reads back
    as the parameter's value.
   */
  lemma {:induction false} InitializeAgreesWithStore(entries: seq<(string, Value)>, store: Store, i: nat, k: Kind)
    requires forall p, q :: 0 <= p < q < |entries| ==> ToLower(entries[p].0) != ToLower(entries[q].0)
    requires i < |entries| && !IsArrayKind(k) && IsOfType(entries[i].1, k)
    ensures var r := InitializeOutcome(entries, store);
      ToLower(entries[i].0) in r.store && Fetch(k, r.store[ToLower(entries[i].0)]) == Some(r.values[i])
    decreases |entries|
  {
    var n := |entries|;
    var prev := InitializeOutcome(entries[..n - 1], store);
    var last := entries[n - 1];
    var o := RegisterOutcome(last.0, last.1, prev.store);
    var lk := ToLower(entries[i].0);
    if i == n - 1 {
      RegisterScalar(k, last.0, last.1, prev.store);
    } else {
      InitializeAgreesWithStore(entries[..n - 1], store, i, k);
      assert ToLower(last.0) != lk;
      OnlyKeyChangedAt(prev.store, o.store, ToLower(last.0), lk);
    }
  }

  /**
    Two parameters of one scalar type whose keys differ only in case share
    one store entry: with the entry absent, the first writes its default and
    the second then takes that value over.
   */
  lemma CaseVariantsShareEntry(a: string, b: string, k: Kind, first: Value, second: Value, store: Store)
    requires EqualIgnoringCase(a, b)
    requires !IsArrayKind(k) && IsOfType(first, k) && IsOfType(second, k)
    requires ToLower(a) !in store
    ensures var r := InitializeOutcome([(a, first), (b, second)], store);
      r.values == [first, first] && r.store == store[ToLower(a) := Encode(first)]
  {
    SameEntryIffEqualIgnoringCase(a, b);
    var lk := ToLower(a);
    var entries := [(a, first), (b, second)];
    assert entries[..1] == [(a, first)];
    assert [(a, first)][..0] == [];
    assert InitializeOutcome([], store) == Pass([], store, []);
    RegisterScalar(k, a, first, store);
    var one := InitializeOutcome([(a, first)], store);
    assert one.values == [first] && one.store == store[lk := Encode(first)];
    RegisterScalar(k, b, second, one.store);
    assert Fetch(k, one.store[lk]) == Some(first);
  }
}
