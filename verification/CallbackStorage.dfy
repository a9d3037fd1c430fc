/**
 keycloak.js's LocalStorage: login states kept for one hour and handed back once. The browser's
 storage is shared with other code, may be full, and the clock may read anything.
 */
module CallbackStorage {
  import opened Common

  const PREFIX := "kc-callback-"
  /** The constructor sets and removes this one to see whether the storage works at all. */
  const TEST_KEY := "kc-test"
  const ONE_HOUR: int := 60 * 60 * 1000

  /** A stored text, as #parseExpiry sees it: JSON with a numeric `expires`, or anything else. */
  datatype Value = Record(payload: string, expires: int) | Malformed(text: string)

  type Items = map<string, Value>

  predicate IsOurs(key: string) { PREFIX <= key }

  function KeyOf(state: string): string { PREFIX + state }

  lemma KeyOfInjective(a: string, b: string)
    ensures KeyOf(a) == KeyOf(b) ==> a == b
    ensures IsOurs(KeyOf(a))
  {
    assert KeyOf(a)[|PREFIX|..] == a && KeyOf(b)[|PREFIX|..] == b;
  }

  predicate Stale(v: Value, now: int) { v.Malformed? || v.expires < now }

  function Sweep(items: Items, now: int): Items {
    map k | k in items && !(IsOurs(k) && Stale(items[k], now)) :: items[k]
  }

  function ClearOurs(items: Items): Items {
    map k | k in items && !IsOurs(k) :: items[k]
  }

  /** An add reads the clock twice, and a full storage refuses some number of its writes. */
  datatype Op =
    | Add(state: string, payload: string, sweptAt: int, now: int, failures: nat)
    | Get(state: string, now: int)
    | Open                                                           // a new adapter on the same storage
    | Foreign(key: string, value: Option<Value>)                     // other code sets or removes its own key

  /** The items after an operation. An add whose second write is refused too throws. */
  function Apply(items: Items, op: Op): Items {
    match op
    case Add(state, payload, sweptAt, now, failures) =>
      var swept := Sweep(items, sweptAt);
      var v := Record(payload, now + ONE_HOUR);
      if failures == 0 then swept[KeyOf(state) := v]
      else if failures == 1 then ClearOurs(swept)[KeyOf(state) := v]
      else ClearOurs(swept)
    case Open => items - {TEST_KEY}
    case Get(state, now) => if state == "" then items else Sweep(items, now) - {KeyOf(state)}
    case Foreign(key, value) =>
      if IsOurs(key) then items else if value.Some? then items[key := value.value] else items - {key}
  }

  /** What `get` returns. */
  function Got(items: Items, state: string, now: int): Option<Value> {
    if state != "" && KeyOf(state) in Sweep(items, now) then Some(items[KeyOf(state)]) else None
  }

  function Run(ops: seq<Op>): Items {
    if ops == [] then map[] else Apply(Run(ops[..|ops| - 1]), ops[|ops| - 1])
  }

  // ---------------------------------------------------------------- the code

  class LocalStorage {
    var items: Items

    /** On a storage that takes the test entry; on another one the adapter falls back to cookies. */
    constructor (stored: Items)
      ensures items == Apply(stored, Open) == stored - {"kc-test"}
    {
      items := stored[TEST_KEY := Malformed("test")];
      new;
      items := items - {TEST_KEY};
      assert items == stored - {TEST_KEY};
    }

    /** Goes through a snapshot of our entries, removing from the live storage. */
    method ClearInvalidValues(now: int)
      modifies this
      ensures items == Sweep(old(items), now)
      ensures forall k :: k in items <==>
        k in old(items) && !("kc-callback-" <= k && (old(items)[k].Malformed? || old(items)[k].expires < now))
      ensures forall k :: k in items ==> items[k] == old(items)[k]
    {
      var entries := map k | k in items && IsOurs(k) :: items[k];
      var left := entries.Keys;
      while left != {}
        invariant left <= entries.Keys
        invariant items
               == map k | k in old(items) && !(k in entries && k !in left && Stale(old(items)[k], now)) :: old(items)[k]
        decreases left
      {
        var k :| k in left;
        left := left - {k};
        if entries[k].Malformed? {
          items := items - {k};
        } else if entries[k].expires < now {
          items := items - {k};
        }
      }
    }

    method ClearAllValues()
      modifies this
      ensures items == ClearOurs(old(items))
      ensures forall k :: k in items <==> k in old(items) && !("kc-callback-" <= k)
      ensures forall k :: k in items ==> items[k] == old(items)[k]
    {
      var left := set k | k in items && IsOurs(k);
      ghost var all := left;
      while left != {}
        invariant left <= all
        invariant items == map k | k in old(items) && !(k in all && k !in left) :: old(items)[k]
        decreases left
      {
        var k :| k in left;
        left := left - {k};
        items := items - {k};
      }
    }

    /** False when the second write throws. */
    method AddState(state: string, payload: string, sweptAt: int, now: int, failures: nat) returns (stored: bool)
      modifies this
      ensures items == Apply(old(items), Add(state, payload, sweptAt, now, failures))
      ensures stored <==> failures < 2
      ensures stored ==>
        && "kc-callback-" + state in items
        && items["kc-callback-" + state] == Record(payload, now + 3_600_000)
      ensures forall k :: k in items && !(stored && k == "kc-callback-" + state) ==>
        k in old(items) && items[k] == old(items)[k]
    {
      ClearInvalidValues(sweptAt);
      var value := Record(payload, now + ONE_HOUR);
      if failures == 0 {
        items := items[KeyOf(state) := value];
        return true;
      }
      ClearAllValues();
      if failures == 1 {
        items := items[KeyOf(state) := value];
        return true;
      }
      stored := false;
    }

    method GetState(state: string, now: int) returns (r: Option<Value>)
      modifies this
      ensures items == Apply(old(items), Get(state, now))
      ensures r == Got(old(items), state, now)
      ensures var key := "kc-callback-" + state;
              && (r.Some? <==> state != "" && key in old(items) && old(items)[key].Record?
                               && now <= old(items)[key].expires)
              && (r.Some? ==> r.value == old(items)[key])
              && (state != "" ==> key !in items)
    {
      if state == "" {
        return None;
      }
      ClearInvalidValues(now);
      KeyOfInjective(state, state);
      var key := KeyOf(state);
      if key in items {
        r := Some(items[key]);
        items := items - {key};
      } else {
        assert items - {key} == items;
        r := None;
      }
    }
  }

  // ---------------------------------------------------------------- laws

  /** No operation of the adapter touches a key outside its prefix, but for the test key of the constructor. */
  lemma ForeignKeysUntouched(items: Items, op: Op, key: string)
    requires !op.Foreign? && !("kc-callback-" <= key)
    ensures key in Apply(items, op) <==> key in items && !(op.Open? && key == "kc-test")
    ensures key in Apply(items, op) ==> Apply(items, op)[key] == items[key]
  {
    if !op.Open? {
      KeyOfInjective(op.state, op.state);
    }
  }

  /** `get` never returns an expired or unreadable entry. */
  lemma NeverExpired(items: Items, state: string, now: int)
    ensures Got(items, state, now).Some? ==>
      Got(items, state, now).value.Record? && now <= Got(items, state, now).value.expires
  {
    KeyOfInjective(state, state);
  }

  /** An operation after which a state added at time t is still there. */
  predicate Spares(op: Op, state: string, t: int) {
    match op
    case Add(s, _, sweptAt, _, failures) => s != state && failures == 0 && sweptAt <= t + 3_600_000
    case Get(s, now) => s == "" || (s != state && now <= t + 3_600_000)
    case Open => true
    case Foreign(_, _) => true
  }

  /** The i-th operation stored the state, and nothing since removed it. */
  predicate StoredAt(ops: seq<Op>, state: string, i: int) {
    && 0 <= i < |ops|
    && ops[i].Add? && ops[i].state == state && ops[i].failures < 2
    && forall j :: i < j < |ops| ==> Spares(ops[j], state, ops[i].now)
  }

  /** What is stored under a state is exactly the last add, if everything since spared it. */
  lemma {:induction false} StoredIff(ops: seq<Op>, state: string)
    ensures forall i :: StoredAt(ops, state, i) ==>
      KeyOf(state) in Run(ops) && Run(ops)[KeyOf(state)] == Record(ops[i].payload, ops[i].now + 3_600_000)
    ensures KeyOf(state) in Run(ops) ==> exists i :: StoredAt(ops, state, i)
  {
    KeyOfInjective(state, state);
    if ops != [] {
      var init, op := ops[..|ops| - 1], ops[|ops| - 1];
      StoredIff(init, state);
      if op.Add? {
        KeyOfInjective(op.state, state);
      } else if op.Get? {
        KeyOfInjective(op.state, state);
      }
      forall i | StoredAt(ops, state, i)
        ensures KeyOf(state) in Run(ops) && Run(ops)[KeyOf(state)] == Record(ops[i].payload, ops[i].now + 3_600_000) {
        if i < |init| {
          assert StoredAt(init, state, i);
          assert Spares(op, state, ops[i].now);
        }
      }
      if KeyOf(state) in Run(ops) {
        if op.Add? && op.state == state {
          assert StoredAt(ops, state, |init|);
        } else {
          var i :| StoredAt(init, state, i);
          assert Spares(op, state, ops[i].now);
          assert StoredAt(ops, state, i);
        }
      }
    }
  }

  /**
   `get` returns a state iff it was added, at most an hour ago by the clock, not fetched or replaced
   since, not lost to a full storage, and no operation since read a clock beyond that hour; and what
   it returns is what was added.
   */
  lemma ReturnedIff(ops: seq<Op>, state: string, now: int)
    requires state != ""
    ensures Got(Run(ops), state, now).Some? <==> exists i :: StoredAt(ops, state, i) && now <= ops[i].now + 3_600_000
    ensures forall i :: StoredAt(ops, state, i) && now <= ops[i].now + 3_600_000 ==>
      Got(Run(ops), state, now) == Some(Record(ops[i].payload, ops[i].now + 3_600_000))
  {
    KeyOfInjective(state, state);
    StoredIff(ops, state);
    if Got(Run(ops), state, now).Some? {
      var i :| StoredAt(ops, state, i);
      assert StoredAt(ops, state, i) && now <= ops[i].now + 3_600_000;
    }
  }

  function CountAdds(ops: seq<Op>, state: string): nat {
    if ops == [] then 0
    else CountAdds(ops[..|ops| - 1], state) + if ops[|ops| - 1].Add? && ops[|ops| - 1].state == state then 1 else 0
  }

  function CountHits(ops: seq<Op>, state: string): nat {
    if ops == [] then 0
    else
      var init, op := ops[..|ops| - 1], ops[|ops| - 1];
      CountHits(init, state) + if op.Get? && op.state == state && Got(Run(init), state, op.now).Some? then 1 else 0
  }

  /** One-time: successful gets of a state never exceed its adds. */
  lemma {:induction false} AtMostOncePerAdd(ops: seq<Op>, state: string)
    ensures CountHits(ops, state) + (if KeyOf(state) in Run(ops) then 1 else 0) <= CountAdds(ops, state)
  {
    if ops != [] {
      var op := ops[|ops| - 1];
      AtMostOncePerAdd(ops[..|ops| - 1], state);
      KeyOfInjective(state, state);
      if op.Add? || op.Get? {
        KeyOfInjective(op.state, state);
      }
    }
  }
}
