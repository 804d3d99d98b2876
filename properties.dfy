/**
  The Android system property store, as the vendor init hook of init/init_trlte.cpp
  sees it: a map from property names to values, written through two primitives.

  - `property_override(prop, value, add)` updates a property that exists and creates
    it only when `add` holds (the `__system_property_find/update/add` calls become a
    map lookup, update and insertion);
  - `property_set(prop, value)` creates or updates.

  A run of writes is described by a sequence of `Write` records; `Run` gives the
  store after applying them in order, and `RunEffect` characterises that store key
  by key (which keys exist afterwards and which value each one holds).
 */
module Properties {

  type Store = map<string, string>

  /** One call of a write primitive. */
  datatype Write =
    | Override(key: string, value: string, add: bool)  // property_override
    | Set(key: string, value: string)                  // property_set
  {
    /** Whether this write creates its key when the key is absent. */
    predicate Creates() {
      Set? || add
    }
  }

  /** The store after one write. */
  function Step(m: Store, w: Write): Store {
    match w
    case Override(k, v, add) =>
      if k in m then m[k := v]
      else if add then m[k := v]
      else m
    case Set(k, v) => m[k := v]
  }

  /**
    One write: its key exists afterwards when it existed before or the write creates
    it, and then holds the written value; every other key keeps its value.
   */
  lemma StepEffect(m: Store, w: Write)
    ensures Step(m, w).Keys == if w.key in m || w.Creates() then m.Keys + {w.key} else m.Keys
    ensures w.key in Step(m, w) ==> Step(m, w)[w.key] == w.value
    ensures forall k :: k in m && k != w.key ==> Step(m, w)[k] == m[k]
  {
  }

  /** The value of `key` in `m`, or `default` when `m` has no such key. */
  function Get(m: Store, key: string, default: string): string {
    if key in m then m[key] else default
  }

  /** `m` holds `k` with value `v`. */
  predicate Has(m: Store, k: string, v: string) {
    k in m && m[k] == v
  }

  /** `k` exists in `r` exactly when it exists in `m`, and with the same value. */
  predicate SameAt(m: Store, r: Store, k: string) {
    (k in r <==> k in m) && (k in m ==> r[k] == m[k])
  }

  /** The keys that some write of `ws` names. */
  function Touched(ws: seq<Write>): set<string>
    decreases |ws|
  {
    if ws == [] then {} else Touched(ws[..|ws| - 1]) + {ws[|ws| - 1].key}
  }

  /** The keys that some write of `ws` creates when they are absent. */
  function Created(ws: seq<Write>): (c: set<string>)
    ensures c <= Touched(ws)
    decreases |ws|
  {
    if ws == [] then {}
    else Created(ws[..|ws| - 1]) + (if ws[|ws| - 1].Creates() then {ws[|ws| - 1].key} else {})
  }

  /** The value of the last write of `ws` that names `k`. */
  function LastValue(ws: seq<Write>, k: string): string
    requires k in Touched(ws)
    decreases |ws|
  {
    var w := ws[|ws| - 1];
    if w.key == k then w.value else LastValue(ws[..|ws| - 1], k)
  }

  /** The store after the writes of `ws`, in order. */
  function Run(m: Store, ws: seq<Write>): Store
    decreases |ws|
  {
    if ws == [] then m else Step(Run(m, ws[..|ws| - 1]), ws[|ws| - 1])
  }

  /**
    What `Run` leaves, key by key: a key exists afterwards exactly when it existed
    before or some write creates it; a key no write names keeps its value; a key some
    write names holds the value of the last such write.
   */
  lemma {:induction false} RunEffect(m: Store, ws: seq<Write>)
    ensures Run(m, ws).Keys == m.Keys + Created(ws)
    ensures forall k :: k in m && k !in Touched(ws) ==> Run(m, ws)[k] == m[k]
    ensures forall k :: k in Run(m, ws) && k in Touched(ws) ==> Run(m, ws)[k] == LastValue(ws, k)
    decreases |ws|
  {
    if ws != [] {
      RunEffect(m, ws[..|ws| - 1]);
      StepEffect(Run(m, ws[..|ws| - 1]), ws[|ws| - 1]);
    }
  }

  /** A key names a write of `ws` exactly when some element of `ws` has it. */
  lemma {:induction false} TouchedMembers(ws: seq<Write>, k: string)
    ensures k in Touched(ws) <==> exists i :: 0 <= i < |ws| && ws[i].key == k
    decreases |ws|
  {
    if ws != [] {
      var init := ws[..|ws| - 1];
      TouchedMembers(init, k);
      if k in Touched(init) {
        var i :| 0 <= i < |init| && init[i].key == k;
        assert ws[i].key == k;
      }
      if i :| 0 <= i < |ws| && ws[i].key == k {
        if i < |ws| - 1 {
          assert init[i].key == k;
        }
      }
    }
  }

  /** A key is created by `ws` exactly when some creating element of `ws` has it. */
  lemma {:induction false} CreatedMembers(ws: seq<Write>, k: string)
    ensures k in Created(ws) <==> exists i :: 0 <= i < |ws| && ws[i].key == k && ws[i].Creates()
    decreases |ws|
  {
    if ws != [] {
      var init := ws[..|ws| - 1];
      CreatedMembers(init, k);
      if k in Created(init) {
        var i :| 0 <= i < |init| && init[i].key == k && init[i].Creates();
        assert ws[i] == init[i];
      }
      if i :| 0 <= i < |ws| && ws[i].key == k && ws[i].Creates() {
        if i < |ws| - 1 {
          assert init[i] == ws[i];
        }
      }
    }
  }

  /** The value `LastValue` picks is that of the write after which no write names `k`. */
  lemma {:induction false} LastValueAt(ws: seq<Write>, i: nat, k: string)
    requires i < |ws| && ws[i].key == k
    requires forall j :: i < j < |ws| ==> ws[j].key != k
    ensures k in Touched(ws) && LastValue(ws, k) == ws[i].value
    decreases |ws|
  {
    TouchedMembers(ws, k);
    if i < |ws| - 1 {
      var init := ws[..|ws| - 1];
      assert init[i] == ws[i];
      LastValueAt(init, i, k);
    }
  }

  /**
    A key that a creating write names, and no later write names, exists after the
    writes and holds that write's value, whatever the store held before.
   */
  lemma RunLastCreation(m: Store, ws: seq<Write>, i: nat)
    requires i < |ws| && ws[i].Creates()
    requires forall j :: i < j < |ws| ==> ws[j].key != ws[i].key
    ensures ws[i].key in Run(m, ws) && Run(m, ws)[ws[i].key] == ws[i].value
  {
    CreatedMembers(ws, ws[i].key);
    LastValueAt(ws, i, ws[i].key);
    RunEffect(m, ws);
  }

  /** A key no write names exists afterwards exactly when it did, with the same value. */
  lemma RunUntouched(m: Store, ws: seq<Write>, k: string)
    requires forall i :: 0 <= i < |ws| ==> ws[i].key != k
    ensures SameAt(m, Run(m, ws), k)
  {
    TouchedMembers(ws, k);
    RunEffect(m, ws);
  }

  /** Writing `a` and then `b` is writing `a + b`. */
  lemma {:induction false} RunAppend(m: Store, a: seq<Write>, b: seq<Write>)
    ensures Run(m, a + b) == Run(Run(m, a), b)
    decreases |b|
  {
    if b == [] {
      assert a + b == a;
    } else {
      var ab, init := a + b, b[..|b| - 1];
      assert ab[..|ab| - 1] == a + init;
      assert ab[|ab| - 1] == b[|b| - 1];
      RunAppend(m, a, init);
      calc {
        Run(m, ab);
        Step(Run(m, a + init), b[|b| - 1]);
        Step(Run(Run(m, a), init), b[|b| - 1]);
        Run(Run(m, a), b);
      }
    }
  }

  /** Applying one write after the others is a step from their store. */
  lemma RunSnoc(m: Store, ws: seq<Write>, w: Write)
    ensures Run(m, ws + [w]) == Step(Run(m, ws), w)
  {
    assert (ws + [w])[..|ws|] == ws;
  }

  /** The keys `a + b` names are those `a` names and those `b` names. */
  lemma {:induction false} TouchedAppend(a: seq<Write>, b: seq<Write>)
    ensures Touched(a + b) == Touched(a) + Touched(b)
    decreases |b|
  {
    if b == [] {
      assert a + b == a;
    } else {
      var init := b[..|b| - 1];
      assert (a + b)[..|a + b| - 1] == a + init;
      TouchedAppend(a, init);
    }
  }

  /** The keys `a + b` creates are those `a` creates and those `b` creates. */
  lemma {:induction false} CreatedAppend(a: seq<Write>, b: seq<Write>)
    ensures Created(a + b) == Created(a) + Created(b)
    decreases |b|
  {
    if b == [] {
      assert a + b == a;
    } else {
      var init := b[..|b| - 1];
      assert (a + b)[..|a + b| - 1] == a + init;
      CreatedAppend(a, init);
    }
  }

  /**
    The last write of `a + b` to `k` is the last one of `b` when `b` names `k`, and
    the last one of `a` otherwise.
   */
  lemma {:induction false} LastValueAppend(a: seq<Write>, b: seq<Write>, k: string)
    requires k in Touched(a) + Touched(b)
    ensures k in Touched(a + b)
    ensures k in Touched(b) ==> LastValue(a + b, k) == LastValue(b, k)
    ensures k !in Touched(b) ==> LastValue(a + b, k) == LastValue(a, k)
    decreases |b|
  {
    TouchedAppend(a, b);
    if b == [] {
      assert a + b == a;
    } else {
      var init := b[..|b| - 1];
      assert (a + b)[..|a + b| - 1] == a + init;
      if b[|b| - 1].key != k {
        LastValueAppend(a, init, k);
      }
    }
  }

  /**
    Every write is an update with a constant or a conditional creation, so applying
    the same writes a second time changes nothing.
   */
  lemma {:induction false} RunIdempotent(m: Store, ws: seq<Write>)
    ensures Run(Run(m, ws), ws) == Run(m, ws)
  {
    var once := Run(m, ws);
    var twice := Run(once, ws);
    RunEffect(m, ws);
    RunEffect(once, ws);
    assert twice.Keys == once.Keys;
    forall k | k in twice
      ensures twice[k] == once[k]
    {
      if k !in Touched(ws) {
        assert k in m;
      }
    }
  }

  /**
    The store of the vendor init hook. The hook only ever looks a property up, writes
    it with `property_override`, or writes it with `property_set`. The ghost fields
    record the store the hook started from and every write made since, so that a
    caller can say which writes a run of the hook made and in what order.
   */
  class PropertyStore {
    var props: Store
    ghost var initial: Store
    ghost var history: seq<Write>

    /** The store is what the recorded writes make of the initial store. */
    ghost predicate Valid()
      reads this
    {
      props == Run(initial, history)
    }

    constructor (m: Store)
      ensures Valid() && props == m && history == []
    {
      props := m;
      initial := m;
      history := [];
    }

    /**
      `GetProperty(key, default)` of android-base: the value of `key`, or `default`
      when `key` is absent or holds the empty string. With an empty default that is a
      plain lookup.
     */
    method GetProperty(key: string, default: string) returns (value: string)
      ensures key in props && props[key] != "" ==> value == props[key]
      ensures key !in props || props[key] == "" ==> value == default
      ensures default == "" ==> value == Get(props, key, "")
    {
      if key in props && props[key] != "" {
        value := props[key];
      } else {
        value := default;
      }
    }

    /**
      `property_override(prop, value, add)`: an existing property takes `value`; an
      absent one is created only when `add` holds. No other property changes.
     */
    method PropertyOverride(key: string, value: string, add: bool)
      requires Valid()
      modifies this
      ensures Valid() && initial == old(initial)
      ensures key in old(props) ==> props == old(props)[key := value]
      ensures key !in old(props) && add ==> props == old(props)[key := value]
      ensures key !in old(props) && !add ==> props == old(props)
      ensures history == old(history) + [Override(key, value, add)]
    {
      var w := Override(key, value, add);
      RunSnoc(initial, history, w);
      props := Step(props, w);
      history := history + [w];
    }

    /** `property_set(prop, value)`: the property takes `value`, created if absent. */
    method PropertySet(key: string, value: string)
      requires Valid()
      modifies this
      ensures Valid() && initial == old(initial)
      ensures props == old(props)[key := value]
      ensures history == old(history) + [Set(key, value)]
    {
      var w := Set(key, value);
      RunSnoc(initial, history, w);
      props := Step(props, w);
      history := history + [w];
    }
  }
}
