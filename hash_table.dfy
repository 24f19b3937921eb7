/** The slot-array table of pa5/Hash_Table.py. The table stores values only
    (never keys); `update` probes forward from the given index to the first
    empty slot without wrapping around, and the table doubles and reinserts
    every value at its string hash once it is half full. Python's IndexError
    (an index outside the array, or a probe that runs off its end) and
    ZeroDivisionError (hashing a non-empty string at capacity 0) are
    outcomes of the model; the state a raised exception leaves behind is
    kept, as Python does not roll it back. */
module HashTables {
  import opened Python

  /** `GROWTH_RATIO`: a rehash multiplies the capacity by this. */
  const GrowthRatio: int := 2

  /** `size / capacity >= TOO_FULL` with `TOO_FULL = 0.5`, for capacity > 0. */
  predicate TooFull(size: int, capacity: int)
  {
    2 * size >= capacity
  }

  type Slots = seq<Option<string>>

  /** The values held by a slot array, with multiplicity. */
  function Stored(slots: Slots): multiset<string>
  {
    if slots == [] then multiset{}
    else (if slots[0].Some? then multiset{slots[0].value} else multiset{}) + Stored(slots[1..])
  }

  lemma {:induction false} StoredConcat(a: Slots, b: Slots)
    ensures Stored(a + b) == Stored(a) + Stored(b)
  {
    if a == [] {
      assert a + b == b;
    } else {
      assert (a + b)[0] == a[0] && (a + b)[1..] == a[1..] + b;
      StoredConcat(a[1..], b);
    }
  }

  /** The number of occupied slots. */
  function Occupied(slots: Slots): nat
  {
    if slots == [] then 0 else (if slots[0].Some? then 1 else 0) + Occupied(slots[1..])
  }

  lemma {:induction false} OccupiedIsStored(slots: Slots)
    ensures Occupied(slots) == |Stored(slots)|
  {
    if slots != [] {
      OccupiedIsStored(slots[1..]);
    }
  }

  /** `[None] * n` */
  function EmptySlots(n: nat): (s: Slots)
    ensures |s| == n && forall i :: 0 <= i < n ==> s[i].None?
  {
    seq(n, _ => None)
  }

  lemma {:induction false} StoredNone(n: nat)
    ensures Stored(EmptySlots(n)) == multiset{} && Occupied(EmptySlots(n)) == 0
  {
    if n > 0 {
      assert EmptySlots(n)[1..] == EmptySlots(n - 1);
      StoredNone(n - 1);
    }
  }

  /** Filling an empty slot adds exactly its new value. */
  lemma {:induction false} StoredWrite(s: Slots, i: int, v: string)
    requires 0 <= i < |s| && s[i].None?
    ensures Stored(s[i := Some(v)]) == Stored(s) + multiset{v}
  {
    var w := s[i := Some(v)];
    if i == 0 {
      assert w[1..] == s[1..];
      assert Stored(w) == multiset{v} + Stored(s[1..]);
    } else {
      assert w[0] == s[0] && w[1..] == s[1..][i - 1 := Some(v)];
      StoredWrite(s[1..], i - 1, v);
    }
  }

  /** ... and occupies exactly one more slot. */
  lemma {:induction false} OccupiedWrite(s: Slots, i: int, v: string)
    requires 0 <= i < |s| && s[i].None?
    ensures Occupied(s[i := Some(v)]) == Occupied(s) + 1
  {
    var w := s[i := Some(v)];
    if i == 0 {
      assert w[1..] == s[1..];
    } else {
      assert w[0] == s[0] && w[1..] == s[1..][i - 1 := Some(v)];
      OccupiedWrite(s[1..], i - 1, v);
    }
  }

  /** The fields of a `Hash_Table` object: `defval`, `size`, `capacity`
      and `table`. */
  datatype TableState = TableState(defval: string, size: int, capacity: int, slots: Slots)

  /** The invariant every method keeps: the array has `capacity` slots and
      `size` counts the occupied ones. */
  predicate WellFormed(t: TableState)
  {
    |t.slots| == t.capacity && t.size == Occupied(t.slots)
  }

  /** `Hash_Table(cells, defval)`. */
  function Init(cells: nat, defval: string): (t: TableState)
    ensures WellFormed(t) && t.capacity == cells && t.defval == defval
    ensures t.size == 0 && Stored(t.slots) == multiset{}
    ensures forall i :: 0 <= i < cells ==> t.slots[i].None?
  {
    StoredNone(cells);
    TableState(defval, 0, cells, EmptySlots(cells))
  }

  /** The array cell that Python's `table[i]` denotes for -capacity <= i < capacity. */
  function SlotIndex(i: int, capacity: int): int
  {
    if i < 0 then i + capacity else i
  }

  /** The probe of `update`: the first index at or after `i` whose slot is
      empty, or |s| when the probe runs off the end of the array. */
  function ProbeEnd(s: Slots, i: int): (p: int)
    requires -|s| <= i <= |s|
    ensures i <= p <= |s|
    ensures p < |s| ==> s[SlotIndex(p, |s|)].None?
    ensures forall u :: i <= u < p ==> s[SlotIndex(u, |s|)].Some?
    decreases |s| - i
  {
    if i == |s| then |s|
    else if s[SlotIndex(i, |s|)].None? then i
    else ProbeEnd(s, i + 1)
  }

  /** An occupied slot holds one of the stored values. */
  lemma {:induction false} StoredHas(s: Slots, i: int)
    requires 0 <= i < |s| && s[i].Some?
    ensures s[i].value in Stored(s)
  {
    if i > 0 {
      assert s[1..][i - 1] == s[i];
      StoredHas(s[1..], i - 1);
    }
  }

  /** `lookup(key)`: Python's `table[key]`, so a key outside
      [-capacity, capacity) raises IndexError. */
  function LookupF(t: TableState, key: int): (r: Outcome<string>)
    requires WellFormed(t)
    ensures r.Raised? <==> key < -t.capacity || key >= t.capacity
    ensures r.Raised? ==> r.error == IndexError
    ensures r.Ok? ==> r.value == t.defval || r.value in Stored(t.slots)
  {
    if key < -t.capacity || key >= t.capacity then Raised(IndexError)
    else match t.slots[SlotIndex(key, t.capacity)]
      case Some(v) =>
        StoredHas(t.slots, SlotIndex(key, t.capacity));
        Ok(v)
      case None => Ok(t.defval)
  }

  /** `hash_(s)` at capacity m > 0: the left fold h = (h * 37 + ord(c)) % m. */
  function PolyHash(s: string, m: int): (h: nat)
    requires m > 0
    ensures h < m
  {
    if s == [] then 0 else (PolyHash(s[..|s| - 1], m) * 37 + s[|s| - 1] as int) % m
  }

  /** The polynomial the fold reduces: the sum of ord(s[i]) * 37^(|s|-1-i). */
  function PolyValue(s: string): int
  {
    if s == [] then 0 else PolyValue(s[..|s| - 1]) * 37 + s[|s| - 1] as int
  }

  lemma {:induction false} MulAtLeast(d: int, m: int)
    requires d >= 1 && m > 0
    ensures d * m >= m
  {
    if d > 1 {
      MulAtLeast(d - 1, m);
      assert d * m == (d - 1) * m + m;
    }
  }

  lemma ModUnique(y: int, q: int, r: int, m: int)
    requires m > 0 && y == q * m + r && 0 <= r < m
    ensures y % m == r
  {
    var q', r' := y / m, y % m;
    assert y == q' * m + r';
    if q' > q {
      assert (q' - q) * m == q' * m - q * m;
      MulAtLeast(q' - q, m);
    } else if q' < q {
      assert (q - q') * m == q * m - q' * m;
      MulAtLeast(q - q', m);
    }
    assert q' == q;
  }

  lemma ModOfShift(x: int, k: int, m: int)
    requires m > 0
    ensures (x + k * m) % m == x % m
  {
    var q, r := x / m, x % m;
    assert x + k * m == (q + k) * m + r;
    ModUnique(x + k * m, q + k, r, m);
  }

  /** One step of the fold may reduce its accumulator first. */
  lemma ModStep(a: int, c: int, m: int)
    requires m > 0
    ensures (a * 37 + c) % m == ((a % m) * 37 + c) % m
  {
    var q, r := a / m, a % m;
    assert a == q * m + r;
    assert a * 37 + c == (r * 37 + c) + (q * 37) * m;
    ModOfShift(r * 37 + c, q * 37, m);
  }

  /** Reducing after every step gives the reduced polynomial. */
  lemma {:induction false} PolyHashIsPolynomial(s: string, m: int)
    requires m > 0
    ensures PolyHash(s, m) == PolyValue(s) % m
  {
    if s != [] {
      var p := s[..|s| - 1];
      PolyHashIsPolynomial(p, m);
      ModStep(PolyValue(p), s[|s| - 1] as int, m);
    }
  }

  /** d is c doubled zero or more times. */
  predicate Doublings(c: int, d: int)
    decreases d
  {
    d == c || (0 < c < d && d % 2 == 0 && Doublings(c, d / 2))
  }

  lemma {:induction false} DoublingsTrans(a: int, b: int, c: int)
    requires a >= 1 && Doublings(a, b) && Doublings(b, c)
    ensures Doublings(a, c)
    decreases c
  {
    if c != b {
      DoublingsTrans(a, b, c / 2);
      DoublingsGrow(a, b);
    }
  }

  lemma DoubledOnce(c: int)
    requires c >= 1
    ensures Doublings(c, GrowthRatio * c)
  {
    assert (GrowthRatio * c) / 2 == c;
  }

  lemma {:induction false} DoublingsGrow(a: int, b: int)
    requires Doublings(a, b)
    ensures a <= b
    decreases b
  {
    if b != a {
      DoublingsGrow(a, b / 2);
    }
  }

  /** Bounds the total work of nested rehashes: w values in flight at capacity c. */
  function Potential(w: int, c: int): nat
  {
    if 4 * w > c then 4 * w - c else 0
  }

  /** The state an `update` or `rehash` leaves, and whether it raised IndexError. */
  datatype After = After(state: TableState, indexError: bool)

  /** `update(key, val)`: fill the first empty slot at or after `key`, count
      it, and rehash if the table is now half full. */
  function UpdateF(t: TableState, key: int, val: string): (r: After)
    requires WellFormed(t)
    ensures WellFormed(r.state) && t.capacity <= r.state.capacity
    ensures !r.indexError ==> r.state.size == t.size + 1 && 2 * r.state.size < r.state.capacity
    decreases Potential(t.size + 1, t.capacity), 1
  {
    if key < -t.capacity || key >= t.capacity then After(t, true)
    else
      var p := ProbeEnd(t.slots, key);
      if p == t.capacity then After(t, true)
      else
        var i := SlotIndex(p, t.capacity);
        OccupiedWrite(t.slots, i, val);
        var t1 := TableState(t.defval, t.size + 1, t.capacity, t.slots[i := Some(val)]);
        if TooFull(t1.size, t1.capacity) then RehashF(t1) else After(t1, false)
  }

  /** `rehash()`: double the capacity and reinsert every stored value, in
      slot order, at its hash under the capacity current at that moment. */
  function RehashF(t: TableState): (r: After)
    requires WellFormed(t) && t.capacity >= 1 && TooFull(t.size, t.capacity)
    ensures WellFormed(r.state) && GrowthRatio * t.capacity <= r.state.capacity
    ensures !r.indexError ==> r.state.size == t.size && 2 * r.state.size < r.state.capacity
    decreases Potential(t.size, t.capacity), 0
  {
    ReinsertF(Init(GrowthRatio * t.capacity, t.defval), t.slots)
  }

  /** The reinsertion loop of `rehash`, from state t over the remaining values. */
  function ReinsertF(t: TableState, values: Slots): (r: After)
    requires WellFormed(t) && 2 * t.size < t.capacity
    ensures WellFormed(r.state) && t.capacity <= r.state.capacity
    ensures !r.indexError ==>
              r.state.size == t.size + Occupied(values) && 2 * r.state.size < r.state.capacity
    decreases Potential(t.size + Occupied(values), t.capacity), 2, |values|
  {
    if values == [] then After(t, false)
    else match values[0]
      case None => ReinsertF(t, values[1..])
      case Some(v) =>
        var u := UpdateF(t, PolyHash(v, t.capacity), v);
        if u.indexError then u else ReinsertF(u.state, values[1..])
  }

  /** What every step of `update` and `rehash` keeps, from state t to the
      outcome r that adds the values `added`: the same `defval`, the
      capacity multiplied by a power of two, and the stored values grown by
      `added`, or, when IndexError was raised midway, by no more than that. */
  predicate Keeps(t: TableState, r: After, added: multiset<string>)
  {
    && r.state.defval == t.defval && Doublings(t.capacity, r.state.capacity)
    && (!r.indexError ==> Stored(r.state.slots) == Stored(t.slots) + added)
    && (r.indexError ==> Stored(r.state.slots) <= Stored(t.slots) + added)
  }

  lemma KeepsTrans(t: TableState, u: After, r: After, a: multiset<string>, b: multiset<string>)
    requires t.capacity >= 1 && Keeps(t, u, a) && !u.indexError && Keeps(u.state, r, b)
    ensures Keeps(t, r, a + b)
  {
    DoublingsTrans(t.capacity, u.state.capacity, r.state.capacity);
  }

  /** `update` adds `val`. */
  lemma {:induction false} UpdateKeeps(t: TableState, key: int, val: string)
    requires WellFormed(t)
    ensures Keeps(t, UpdateF(t, key, val), multiset{val})
    decreases Potential(t.size + 1, t.capacity), 1
  {
    var r := UpdateF(t, key, val);
    if key < -t.capacity || key >= t.capacity || ProbeEnd(t.slots, key) == t.capacity {
      assert r == After(t, true);
    } else {
      var i := SlotIndex(ProbeEnd(t.slots, key), t.capacity);
      StoredWrite(t.slots, i, val);
      OccupiedWrite(t.slots, i, val);
      var t1 := TableState(t.defval, t.size + 1, t.capacity, t.slots[i := Some(val)]);
      if TooFull(t1.size, t1.capacity) {
        assert r == RehashF(t1);
        RehashKeeps(t1);
        DoubledOnce(t.capacity);
        DoublingsTrans(t.capacity, GrowthRatio * t.capacity, r.state.capacity);
      } else {
        assert r == After(t1, false);
      }
    }
  }

  /** `rehash` keeps the stored values, and its capacity is the doubled one,
      doubled again by every nested rehash. */
  lemma {:induction false} RehashKeeps(t: TableState)
    requires WellFormed(t) && t.capacity >= 1 && TooFull(t.size, t.capacity)
    ensures var r := RehashF(t);
            && r.state.defval == t.defval && Doublings(GrowthRatio * t.capacity, r.state.capacity)
            && (!r.indexError ==> Stored(r.state.slots) == Stored(t.slots))
            && (r.indexError ==> Stored(r.state.slots) <= Stored(t.slots))
    decreases Potential(t.size, t.capacity), 0
  {
    var e := Init(GrowthRatio * t.capacity, t.defval);
    ReinsertKeeps(e, t.slots);
    assert RehashF(t) == ReinsertF(e, t.slots);
  }

  /** Reinserting adds the values still to be reinserted. */
  lemma {:induction false} ReinsertKeeps(t: TableState, values: Slots)
    requires WellFormed(t) && 2 * t.size < t.capacity
    ensures Keeps(t, ReinsertF(t, values), Stored(values))
    decreases Potential(t.size + Occupied(values), t.capacity), 2, |values|
  {
    if values == [] {
      assert ReinsertF(t, values) == After(t, false);
    } else if values[0].None? {
      assert Stored(values) == Stored(values[1..]) && Occupied(values) == Occupied(values[1..]);
      ReinsertKeeps(t, values[1..]);
      assert ReinsertF(t, values) == ReinsertF(t, values[1..]);
    } else {
      var v := values[0].value;
      assert Stored(values) == multiset{v} + Stored(values[1..]);
      var u := UpdateF(t, PolyHash(v, t.capacity), v);
      UpdateKeeps(t, PolyHash(v, t.capacity), v);
      if u.indexError {
        assert ReinsertF(t, values) == u;
      } else {
        assert Occupied(values) == 1 + Occupied(values[1..]);
        var r := ReinsertF(u.state, values[1..]);
        ReinsertKeeps(u.state, values[1..]);
        KeepsTrans(t, u, r, multiset{v}, Stored(values[1..]));
        assert ReinsertF(t, values) == r;
      }
    }
  }

  /** Without a rehash, `update` fills the first empty slot at or after
      `key`, leaves every other slot as it was, and counts one more value. */
  lemma UpdateInPlace(t: TableState, key: int, val: string)
    requires WellFormed(t) && -t.capacity <= key < t.capacity
    requires ProbeEnd(t.slots, key) < t.capacity && !TooFull(t.size + 1, t.capacity)
    ensures var p, r := ProbeEnd(t.slots, key), UpdateF(t, key, val);
            && !r.indexError && r.state.capacity == t.capacity && r.state.size == t.size + 1
            && t.slots[SlotIndex(p, t.capacity)].None?
            && (forall u :: key <= u < p ==> t.slots[SlotIndex(u, t.capacity)].Some?)
            && r.state.slots[SlotIndex(p, t.capacity)] == Some(val)
            && (forall j :: 0 <= j < t.capacity && j != SlotIndex(p, t.capacity) ==>
                  r.state.slots[j] == t.slots[j])
  {
  }

  /** A key outside the array, or a probe that runs off its end (there is no
      wrap-around), raises IndexError and changes nothing. */
  lemma UpdateRaises(t: TableState, key: int, val: string)
    requires WellFormed(t)
    requires key < -t.capacity || key >= t.capacity || ProbeEnd(t.slots, key) == t.capacity
    ensures UpdateF(t, key, val) == After(t, true)
  {
  }

  /** Once the probe finds a slot, the table grows exactly when the new size
      reaches half the capacity, and then at least doubles. */
  lemma {:induction false} UpdateGrows(t: TableState, key: int, val: string)
    requires WellFormed(t) && -t.capacity <= key < t.capacity
    requires ProbeEnd(t.slots, key) < t.capacity
    ensures var r := UpdateF(t, key, val);
            && (TooFull(t.size + 1, t.capacity) ==> r.state.capacity >= GrowthRatio * t.capacity)
            && (!TooFull(t.size + 1, t.capacity) ==> r.state.capacity == t.capacity)
  {
    var r := UpdateF(t, key, val);
    if TooFull(t.size + 1, t.capacity) {
      var p := SlotIndex(ProbeEnd(t.slots, key), t.capacity);
      OccupiedWrite(t.slots, p, val);
      assert r == RehashF(TableState(t.defval, t.size + 1, t.capacity, t.slots[p := Some(val)]));
    }
  }

  /** `update` never replaces a value: a second update at the same key
      lands in the next slot and the first value is still found at the key. */
  lemma NoOverwrite()
    ensures var t0 := Init(8, "d");
            var a := UpdateF(t0, 0, "a");
            var b := UpdateF(a.state, 0, "b");
            && !a.indexError && !b.indexError
            && LookupF(b.state, 0) == Ok("a") && LookupF(b.state, 1) == Ok("b")
  {
    var t0 := Init(8, "d");
    assert ProbeEnd(t0.slots, 0) == 0;
    var a := UpdateF(t0, 0, "a");
    assert a.state.slots == t0.slots[0 := Some("a")];
    assert ProbeEnd(a.state.slots, 1) == 1;
    assert ProbeEnd(a.state.slots, 0) == 1;
  }

  lemma HashOfHi()
    ensures PolyHash("hi", 1) == 0 && PolyHash("hi", 2) == 1 && PolyHash("hi", 4) == 1
  {
    assert "hi"[..1] == "h" && "h"[..0] == "";
  }

  /** The last reinsertion of the demo: "hi" at key 1 of an empty 4-slot table. */
  lemma DemoAtFour()
    ensures RehashF(TableState("empty", 1, 2, [None, Some("hi")]))
            == After(TableState("empty", 1, 4, [None, Some("hi"), None, None]), false)
  {
    HashOfHi();
    var t := Init(4, "empty");
    assert t.slots == [None, None, None, None];
    assert ProbeEnd(t.slots, 1) == 1;
    var c4 := TableState("empty", 1, 4, [None, Some("hi"), None, None]);
    assert UpdateF(t, 1, "hi") == After(c4, false);
    assert [None, Some("hi")][1..] == [Some("hi")] && [Some("hi")][1..] == [];
  }

  /** The first rehash of the demo: "hi" lands at key 1 of a 2-slot table,
      which is half full and rehashes again. */
  lemma DemoAtTwo()
    ensures RehashF(TableState("empty", 1, 1, [Some("hi")]))
            == RehashF(TableState("empty", 1, 2, [None, Some("hi")]))
  {
    HashOfHi();
    var t := Init(2, "empty");
    assert t.slots == [None, None];
    assert ProbeEnd(t.slots, 1) == 1;
    var c2 := TableState("empty", 1, 2, [None, Some("hi")]);
    assert t.slots[1 := Some("hi")] == c2.slots;
    assert UpdateF(t, 1, "hi") == RehashF(c2);
    DemoAtFour();
    var c4 := TableState("empty", 1, 4, [None, Some("hi"), None, None]);
    assert ReinsertF(c4, []) == After(c4, false);
    assert [Some("hi")][1..] == [];
    assert ReinsertF(t, [Some("hi")]) == After(c4, false);
  }

  /** The `__main__` run: `Hash_Table(1, "empty")`, then `update(hash_("hi"), "hi")`.
      The insert fills the only slot, the rehash to capacity 2 puts "hi" at
      hash 1 and is itself half full, so a nested rehash ends at capacity 4. */
  lemma DemoScenario()
    ensures var r := UpdateF(Init(1, "empty"), PolyHash("hi", 1), "hi");
            && r == After(TableState("empty", 1, 4, [None, Some("hi"), None, None]), false)
            && LookupF(r.state, 1) == Ok("hi") && LookupF(r.state, 2) == Ok("empty")
  {
    HashOfHi();
    var t := Init(1, "empty");
    assert t.slots == [None];
    assert ProbeEnd(t.slots, 0) == 0;
    assert UpdateF(t, 0, "hi") == RehashF(TableState("empty", 1, 1, [Some("hi")]));
    DemoAtTwo();
    DemoAtFour();
  }

  /** A `Hash_Table` object. */
  class HashTable {
    const defval: string
    var size: int
    var capacity: int
    var table: array<Option<string>>

    function State(): TableState
      reads this, table
    {
      TableState(defval, size, capacity, table[..])
    }

    ghost predicate Valid()
      reads this, table
    {
      WellFormed(State())
    }

    constructor(cells: nat, defval: string)
      ensures Valid() && fresh(table)
      ensures State() == Init(cells, defval)
    {
      this.defval := defval;
      size := 0;
      capacity := cells;
      table := new Option<string>[cells](_ => None);
      new;
      assert table[..] == EmptySlots(cells);
      StoredNone(cells);
    }

    method Lookup(key: int) returns (r: Outcome<string>)
      requires Valid()
      ensures r == LookupF(State(), key)
    {
      if key < -capacity || key >= capacity {
        return Raised(IndexError);
      }
      var slot := table[SlotIndex(key, capacity)];
      if slot.Some? {
        r := Ok(slot.value);
      } else {
        r := Ok(defval);
      }
    }

    method Hash(s: string) returns (r: Outcome<nat>)
      requires Valid()
      ensures r == if s == [] then Ok(0)
                   else if capacity == 0 then Raised(ZeroDivisionError)
                   else Ok(PolyHash(s, capacity))
    {
      var h := 0;
      for i := 0 to |s|
        invariant capacity == 0 ==> i == 0 && h == 0
        invariant capacity > 0 ==> h == PolyHash(s[..i], capacity)
      {
        h := h * 37;
        h := h + s[i] as int;
        if capacity == 0 {
          return Raised(ZeroDivisionError);
        }
        h := h % capacity;
        assert s[..i + 1][..i] == s[..i];
      }
      assert s[..|s|] == s;
      return Ok(h);
    }

    /** The probe loop of `update`: `temp_key` moves up from `key` past
        occupied slots; reaching `capacity` means the next read,
        `table[capacity]`, raises IndexError. */
    method Probe(key: int) returns (probe: int)
      requires Valid() && -capacity <= key < capacity
      ensures probe == ProbeEnd(table[..], key)
    {
      probe := key;
      while probe < capacity && table[SlotIndex(probe, capacity)].Some?
        invariant key <= probe <= capacity
        invariant ProbeEnd(table[..], probe) == ProbeEnd(table[..], key)
        decreases capacity - probe
      {
        probe := probe + 1;
      }
    }

    method Update(key: int, val: string) returns (indexError: bool)
      requires Valid()
      modifies this, table
      ensures Valid()
      ensures After(State(), indexError) == UpdateF(old(State()), key, val)
      ensures table == old(table) || fresh(table)
      decreases Potential(size + 1, capacity), 1
    {
      if key < -capacity || key >= capacity {
        return true;
      }
      var probe := Probe(key);
      if probe == capacity {
        return true;
      }
      OccupiedWrite(table[..], SlotIndex(probe, capacity), val);
      table[SlotIndex(probe, capacity)] := Some(val);
      size := size + 1;
      if TooFull(size, capacity) {
        indexError := Rehash();
      } else {
        indexError := false;
      }
    }

    /** One turn of the loop in `rehash`: `self.update(self.hash_(val), val)`. */
    method Reinsert(v: string) returns (indexError: bool)
      requires Valid() && 2 * size < capacity
      modifies this, table
      ensures Valid() && (table == old(table) || fresh(table))
      ensures After(State(), indexError) == UpdateF(old(State()), PolyHash(v, old(capacity)), v)
      decreases Potential(size + 1, capacity), 2
    {
      var key := Hash(v);
      assert key == Ok(PolyHash(v, capacity));
      indexError := Update(key.value, v);
    }

    /** The loop of `rehash`: `self.update(self.hash_(val), val)` for every
        stored value, in slot order, stopping at the first IndexError. */
    method ReinsertAll(values: Slots) returns (indexError: bool)
      requires Valid() && 2 * size < capacity
      modifies this, table
      ensures Valid() && (table == old(table) || fresh(table))
      ensures After(State(), indexError) == ReinsertF(old(State()), values)
      decreases Potential(size + Occupied(values), capacity), 3, |values|
    {
      ghost var t0 := State();
      assert values[0..] == values;
      indexError := false;
      var i := 0;
      while i < |values|
        invariant 0 <= i <= |values|
        invariant Valid() && (table == old(table) || fresh(table))
        invariant 2 * size < capacity && t0.capacity <= capacity
        invariant size + Occupied(values[i..]) == t0.size + Occupied(values)
        invariant ReinsertF(State(), values[i..]) == ReinsertF(t0, values)
      {
        ghost var before := State();
        assert values[i..][0] == values[i] && values[i..][1..] == values[i + 1..];
        if values[i].Some? {
          assert Occupied(values[i..]) == 1 + Occupied(values[i + 1..]);
          indexError := Reinsert(values[i].value);
          if indexError {
            return;
          }
        } else {
          assert Occupied(values[i..]) == Occupied(values[i + 1..]);
          assert ReinsertF(before, values[i..]) == ReinsertF(State(), values[i + 1..]);
        }
        i := i + 1;
      }
    }

    /** `rehash()`: double the capacity, start from an empty array and
        reinsert every value the old array held. */
    method Rehash() returns (indexError: bool)
      requires Valid() && capacity >= 1 && TooFull(size, capacity)
      modifies this
      ensures Valid() && fresh(table)
      ensures After(State(), indexError) == RehashF(old(State()))
      decreases Potential(size, capacity), 0
    {
      ghost var t0 := State();
      capacity := capacity * GrowthRatio;
      var values := table[..];
      table := new Option<string>[capacity](_ => None);
      size := 0;
      assert capacity == GrowthRatio * t0.capacity && values == t0.slots;
      assert table[..] == EmptySlots(capacity);
      assert State() == Init(GrowthRatio * t0.capacity, t0.defval);
      assert Potential(Occupied(values), capacity) < Potential(t0.size, t0.capacity);
      indexError := ReinsertAll(values);
    }
  }

  /** The `__main__` run on a `Hash_Table` object: `lookup(1)` and `lookup(2)`
      after inserting "hi" into a one-cell table. */
  method Demo() returns (one: Outcome<string>, two: Outcome<string>)
    ensures one == Ok("hi") && two == Ok("empty")
  {
    var ht := new HashTable(1, "empty");
    var key := ht.Hash("hi");
    HashOfHi();
    var raised := ht.Update(key.value, "hi");
    DemoScenario();
    one := ht.Lookup(1);
    two := ht.Lookup(2);
  }
}
