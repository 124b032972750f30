/** Sparse counters of exact decimal quantities (src/fava/core/inventory.py).
    Every counter is a dictionary whose stored values are never zero: adding a
    quantity that brings a key to exactly zero deletes the key. Decimals are
    modelled as `real`, which is exact. */
module Inventory {
  import opened Wrappers

  /** A cost lot, `Cost(number, currency, date, label)` (the label is `lotLabel` here); `date` may be missing. */
  datatype Cost = Cost(number: real, currency: string, date: Option<int>, lotLabel: Option<string>)

  /** `InventoryKey`: a currency and an optional cost lot. */
  datatype Key = Key(currency: string, cost: Option<Cost>)

  /** `Amount(number, currency)`; the number may be missing. */
  datatype Amount = Amount(number: Option<real>, currency: string)

  /** `d.get(k, ZERO)`. */
  function Get<K(!new)>(m: map<K, real>, k: K): real
  {
    if k in m then m[k] else 0.0
  }

  /** The counters' invariant: no stored value is zero. */
  ghost predicate NoZeros<K(!new)>(m: map<K, real>)
  {
    forall k :: k in m ==> m[k] != 0.0
  }

  /** Two zero-free counters that agree on every key (absent reading as zero) are equal. */
  lemma SameGetSameMap<K(!new)>(a: map<K, real>, b: map<K, real>)
    requires NoZeros(a) && NoZeros(b)
    requires forall k :: Get(a, k) == Get(b, k)
    ensures a == b
  {
    assert a.Keys == b.Keys by {
      forall k ensures k in a <==> k in b {
        assert Get(a, k) == Get(b, k);
      }
    }
    forall k | k in a ensures a[k] == b[k] {
      assert Get(a, k) == Get(b, k);
    }
  }

  /** The counter after `add(k, n)`. */
  function AddTo<K(!new)>(m: map<K, real>, k: K, n: real): (r: map<K, real>)
    ensures k !in r <==> Get(m, k) + n == 0.0
    ensures Get(r, k) == Get(m, k) + n
    ensures forall j :: j != k ==> (j in r <==> j in m) && Get(r, j) == Get(m, j)
    ensures NoZeros(m) ==> NoZeros(r)
  {
    var s := n + Get(m, k);
    if s == 0.0 then m - {k} else m[k := s]
  }

  /** The pointwise sum of two counters, zero sums dropped. */
  function Sum<K(!new)>(a: map<K, real>, b: map<K, real>): (r: map<K, real>)
    ensures NoZeros(r)
    ensures forall k :: Get(r, k) == Get(a, k) + Get(b, k)
  {
    map k | k in a.Keys + b.Keys && Get(a, k) + Get(b, k) != 0.0 :: Get(a, k) + Get(b, k)
  }

  /** `-counter`: same keys, negated values. */
  function Neg<K(!new)>(m: map<K, real>): (r: map<K, real>)
    ensures r.Keys == m.Keys
    ensures forall k :: k in r ==> r[k] == -m[k]
    ensures NoZeros(m) ==> NoZeros(r)
  {
    map k | k in m :: -m[k]
  }

  /** Adding counters is commutative. */
  lemma SumCommutes<K(!new)>(a: map<K, real>, b: map<K, real>)
    ensures Sum(a, b) == Sum(b, a)
  {
    SameGetSameMap(Sum(a, b), Sum(b, a));
  }

  /** Adding counters is associative. */
  lemma SumAssociates<K(!new)>(a: map<K, real>, b: map<K, real>, c: map<K, real>)
    ensures Sum(Sum(a, b), c) == Sum(a, Sum(b, c))
  {
    SameGetSameMap(Sum(Sum(a, b), c), Sum(a, Sum(b, c)));
  }

  /** Adding a zero-free counter to the empty one gives it back verbatim. */
  lemma SumEmptyLeft<K(!new)>(b: map<K, real>)
    requires NoZeros(b)
    ensures Sum(map[], b) == b
  {
    SameGetSameMap(Sum(map[], b), b);
  }

  /** A counter plus its negation is empty. */
  lemma SumNegEmpty<K(!new)>(a: map<K, real>)
    ensures Sum(a, Neg(a)) == map[]
  {
    forall k ensures Get(Neg(a), k) == -Get(a, k) {
    }
    SameGetSameMap(Sum(a, Neg(a)), map[]);
  }

  /** Negating twice gives the counter back. */
  lemma NegNeg<K(!new)>(a: map<K, real>)
    ensures Neg(Neg(a)) == a
  {
    assert forall k :: k in a ==> Neg(Neg(a))[k] == a[k];
  }

  /** Adding `n` to one key is the same as adding the one-key counter `{k: n}`. */
  lemma AddToIsSum<K(!new)>(m: map<K, real>, k: K, n: real)
    requires NoZeros(m)
    ensures AddTo(m, k, n) == Sum(m, if n == 0.0 then map[] else map[k := n])
  {
    var one := if n == 0.0 then map[] else map[k := n];
    forall j ensures Get(AddTo(m, k, n), j) == Get(m, j) + Get(one, j) {
    }
    SameGetSameMap(AddTo(m, k, n), Sum(m, one));
  }

  // ---------------------------------------------------------------------------
  // Order-independent sums over a set of keys, for `reduce`.

  ghost function Pick<K(!new)>(s: set<K>): K
    requires s != {}
  {
    var k :| k in s; k
  }

  /** The sum of `g` over `s`, in whatever order the keys come. */
  ghost function SetSum<K(!new)>(s: set<K>, g: K -> real): real
    decreases |s|
  {
    if s == {} then 0.0 else var k := Pick(s); g(k) + SetSum(s - {k}, g)
  }

  /** Any key can be taken out first: the sum does not depend on iteration order. */
  lemma {:induction false} SetSumRemove<K(!new)>(s: set<K>, g: K -> real, y: K)
    requires y in s
    ensures SetSum(s, g) == g(y) + SetSum(s - {y}, g)
    decreases |s|
  {
    var x := Pick(s);
    if x != y {
      SetSumRemove(s - {x}, g, y);
      SetSumRemove(s - {y}, g, x);
      assert s - {x} - {y} == s - {y} - {x};
    }
  }

  /** A sum of zero terms is zero. */
  lemma {:induction false} SetSumZero<K(!new)>(s: set<K>, g: K -> real)
    requires forall k :: k in s ==> g(k) == 0.0
    ensures SetSum(s, g) == 0.0
    decreases |s|
  {
    if s != {} {
      SetSumZero(s - {Pick(s)}, g);
    }
  }

  /** `number` of a reducer output (only read when it is present). */
  function NumberOf(a: Amount): real
  {
    if a.number.Some? then a.number.value else 0.0
  }

  /** What the entry at `k` contributes to currency `c` after the reducer `f`. */
  ghost function Term(m: map<Key, real>, f: (Key, real) -> Amount, c: string): Key -> real
  {
    k => if k in m && f(k, m[k]).currency == c then NumberOf(f(k, m[k])) else 0.0
  }

  /** The currencies the reducer produces for the keys in `ks`. */
  ghost function OutCurrencies(m: map<Key, real>, f: (Key, real) -> Amount, ks: set<Key>): set<string>
  {
    set k | k in ks && k in m :: f(k, m[k]).currency
  }

  /** The result of `reduce` restricted to the keys in `ks`: each output currency
      mapped to the sum of the reducer outputs in that currency, zero sums absent. */
  ghost function ReduceOver(m: map<Key, real>, f: (Key, real) -> Amount, ks: set<Key>): (r: map<string, real>)
    ensures NoZeros(r)
  {
    map c | c in OutCurrencies(m, f, ks) && SetSum(ks, Term(m, f, c)) != 0.0 :: SetSum(ks, Term(m, f, c))
  }

  /** Every currency reads as its total, whether or not it is stored. */
  lemma ReduceOverGet(m: map<Key, real>, f: (Key, real) -> Amount, ks: set<Key>, c: string)
    ensures Get(ReduceOver(m, f, ks), c) == SetSum(ks, Term(m, f, c))
  {
    if c !in OutCurrencies(m, f, ks) {
      SetSumZero(ks, Term(m, f, c));
    }
  }

  /** Folding one more entry into the result is one `add` on the currency counter. */
  lemma ReduceOverStep(m: map<Key, real>, f: (Key, real) -> Amount, ks: set<Key>, k: Key)
    requires k in m && k !in ks
    ensures ReduceOver(m, f, ks + {k})
         == AddTo(ReduceOver(m, f, ks), f(k, m[k]).currency, NumberOf(f(k, m[k])))
  {
    var a := f(k, m[k]);
    var lhs := ReduceOver(m, f, ks + {k});
    var rhs := AddTo(ReduceOver(m, f, ks), a.currency, NumberOf(a));
    forall c ensures Get(lhs, c) == Get(rhs, c) {
      ReduceOverGet(m, f, ks + {k}, c);
      ReduceOverGet(m, f, ks, c);
      SetSumRemove(ks + {k}, Term(m, f, c), k);
      assert ks + {k} - {k} == ks;
    }
    SameGetSameMap(lhs, rhs);
  }

  /** `SimpleCounterInventory`: a counter keyed by currency only. */
  class SimpleCounterInventory {
    var items: map<string, real>

    ghost predicate Valid()
      reads this
    {
      NoZeros(items)
    }

    constructor ()
      ensures Valid() && items == map[]
    {
      items := map[];
    }

    /** `is_empty`. */
    function IsEmpty(): (r: bool)
      reads this
      ensures r <==> items == map[]
    {
      |items| == 0
    }

    /** `add(key, number)`: sums into `key`, deleting it if the sum is zero. */
    method Add(key: string, number: real)
      requires Valid()
      modifies this
      ensures Valid()
      ensures items == AddTo(old(items), key, number)
    {
      var newNum := number + Get(items, key);
      if newNum == 0.0 {
        items := items - {key};
      } else {
        items := items[key := newNum];
      }
    }
  }

  /** The entries of `src` whose keys are not in `rest`: those a loop over
      `src` has already visited. */
  function Visited<K>(src: map<K, real>, rest: set<K>): map<K, real>
  {
    map k | k in src && k !in rest :: src[k]
  }

  /** Adding one more entry of `src` to a running sum. */
  lemma SumStep<K(!new)>(start: map<K, real>, src: map<K, real>, rest: set<K>, key: K, cur: map<K, real>)
    requires key in rest && rest <= src.Keys
    requires cur == Sum(start, Visited(src, rest))
    ensures AddTo(cur, key, src[key]) == Sum(start, Visited(src, rest - {key}))
  {
    var before, after := Visited(src, rest), Visited(src, rest - {key});
    var r := AddTo(cur, key, src[key]);
    forall j ensures Get(r, j) == Get(start, j) + Get(after, j) {
      if j != key {
        assert Get(after, j) == Get(before, j);
      }
    }
    SameGetSameMap(r, Sum(start, after));
  }

  /** `CounterInventory`: a counter keyed by `(currency, cost)`. */
  class CounterInventory {
    var items: map<Key, real>

    ghost predicate Valid()
      reads this
    {
      NoZeros(items)
    }

    constructor (init: map<Key, real>)
      requires NoZeros(init)
      ensures Valid() && items == init
    {
      items := init;
    }

    /** `is_empty`. */
    function IsEmpty(): (r: bool)
      reads this
      ensures r <==> items == map[]
    {
      |items| == 0
    }

    /** `add(key, number)`. */
    method Add(key: Key, number: real)
      requires Valid()
      modifies this
      ensures Valid()
      ensures items == AddTo(old(items), key, number)
    {
      var newNum := number + Get(items, key);
      if newNum == 0.0 {
        items := items - {key};
      } else {
        items := items[key := newNum];
      }
    }

    /** `add_amount(amount, cost)`: fails its assertion when the number is missing. */
    method AddAmount(amount: Amount, cost: Option<Cost>) returns (ok: bool)
      requires Valid()
      modifies this
      ensures Valid()
      ensures ok <==> amount.number.Some?
      ensures ok ==> items == AddTo(old(items), Key(amount.currency, cost), amount.number.value)
      ensures !ok ==> items == old(items)
    {
      if amount.number.None? {
        return false;
      }
      Add(Key(amount.currency, cost), amount.number.value);
      ok := true;
    }

    /** `__neg__`: a new counter; the receiver is unchanged. */
    method Negate() returns (r: CounterInventory)
      requires Valid()
      ensures fresh(r) && r.Valid()
      ensures r.items == Neg(items)
    {
      r := new CounterInventory(Neg(items));
    }

    /** `add_inventory(counter)`: copies `counter` when the receiver is empty,
        otherwise adds it key by key. Works when `counter` is the receiver itself. */
    method AddInventory(counter: CounterInventory)
      requires Valid() && counter.Valid()
      modifies this
      ensures Valid()
      ensures items == if old(items) == map[] then old(counter.items) else Sum(old(items), old(counter.items))
      ensures items == Sum(old(items), old(counter.items))
    {
      var src := counter.items;
      if items == map[] {
        items := src;
        SumEmptyLeft(src);
        return;
      }
      ghost var start := items;
      var rest := src.Keys;
      while rest != {}
        invariant rest <= src.Keys
        invariant items == Sum(start, Visited(src, rest))
        decreases rest
      {
        var key :| key in rest;
        ghost var before := items;
        var newNum := src[key] + Get(items, key);
        if newNum == 0.0 {
          items := items - {key};
        } else {
          items := items[key := newNum];
        }
        SumStep(start, src, rest, key, before);
        rest := rest - {key};
      }
      assert Visited(src, rest) == src;
    }

    /** `__add__`: a new counter holding the sum; neither operand changes. */
    method Plus(other: CounterInventory) returns (r: CounterInventory)
      requires Valid() && other.Valid()
      ensures fresh(r) && r.Valid()
      ensures r.items == Sum(items, other.items)
    {
      r := new CounterInventory(items);
      r.AddInventory(other);
    }

    /** `reduce(reducer)`: a new currency-keyed counter summing the reducer's
        output per currency; fails (None) if some output has no number. The
        receiver is unchanged. */
    method Reduce(reducer: (Key, real) -> Amount) returns (r: Option<SimpleCounterInventory>)
      requires Valid()
      ensures r.None? <==> exists k :: k in items && reducer(k, items[k]).number.None?
      ensures r.Some? ==> fresh(r.value) && r.value.Valid()
      ensures r.Some? ==> r.value.items == ReduceOver(items, reducer, items.Keys)
    {
      var m := items;
      var counter := new SimpleCounterInventory();
      var rest := m.Keys;
      ghost var done: set<Key> := {};
      while rest != {}
        invariant rest !! done && rest + done == m.Keys
        invariant fresh(counter) && counter.Valid()
        invariant counter.items == ReduceOver(m, reducer, done)
        invariant forall k :: k in done ==> reducer(k, m[k]).number.Some?
        decreases rest
      {
        var key :| key in rest;
        var amount := reducer(key, m[key]);
        if amount.number.None? {
          return None;
        }
        ReduceOverStep(m, reducer, done, key);
        counter.Add(amount.currency, amount.number.value);
        rest, done := rest - {key}, done + {key};
      }
      r := Some(counter);
    }
  }

  // ---------------------------------------------------------------------------
  // DatedInventory: an insertion-ordered counter whose keys carry dated lots.

  /** The value of an ordered dictionary: its keys in insertion order, and the
      value stored under each. */
  datatype Ordered = Ordered(keys: seq<Key>, vals: map<Key, real>)

  predicate Distinct(ks: seq<Key>)
  {
    forall i, j :: 0 <= i < j < |ks| ==> ks[i] != ks[j]
  }

  ghost predicate WellFormed(d: Ordered)
  {
    && Distinct(d.keys)
    && (forall k :: k in d.vals <==> k in d.keys)
    && NoZeros(d.vals)
  }

  /** `_check_dated(key)`: the key has a cost lot and the lot has a date. Reading
      the date of a missing lot raises, and so does the assertion on a missing date. */
  predicate Dated(k: Key)
  {
    k.cost.Some? && k.cost.value.date.Some?
  }

  /** The key order after `pop(k)`: `k` is gone, the others keep their order. */
  function RemoveKey(ks: seq<Key>, k: Key): (r: seq<Key>)
    ensures forall j :: j in r <==> j in ks && j != k
    ensures Distinct(ks) ==> Distinct(r)
    ensures k !in ks ==> r == ks
    ensures Distinct(ks) && k in ks ==>
      exists p :: 0 <= p < |ks| && ks[p] == k && r == ks[..p] + ks[p + 1..]
  {
    if ks == [] then []
    else
      var rest := RemoveKey(ks[1..], k);
      assert Distinct(ks) ==> Distinct(ks[1..]) && ks[0] !in ks[1..] by {
        if Distinct(ks) {
          DistinctTail(ks);
        }
      }
      if ks[0] == k then
        assert Distinct(ks) ==> rest == ks[..0] + ks[0 + 1..];
        rest
      else
        assert Distinct(ks) ==> Distinct([ks[0]] + rest) by {
          if Distinct(ks) {
            DistinctCons(ks[0], rest);
          }
        }
        assert k !in ks ==> [ks[0]] + rest == ks;
        assert Distinct(ks) && k in ks ==>
          exists p :: 0 <= p < |ks| && ks[p] == k && [ks[0]] + rest == ks[..p] + ks[p + 1..] by {
          if Distinct(ks) && k in ks {
            RemoveKeyShift(ks, k, rest);
          }
        }
        [ks[0]] + rest
  }

  /** Removing a key after the first position leaves the first key in front. */
  lemma RemoveKeyShift(ks: seq<Key>, k: Key, rest: seq<Key>)
    requires ks != [] && ks[0] != k
    requires exists q :: 0 <= q < |ks[1..]| && ks[1..][q] == k && rest == ks[1..][..q] + ks[1..][q + 1..]
    ensures exists p :: 0 <= p < |ks| && ks[p] == k && [ks[0]] + rest == ks[..p] + ks[p + 1..]
  {
    var q :| 0 <= q < |ks[1..]| && ks[1..][q] == k && rest == ks[1..][..q] + ks[1..][q + 1..];
    var p := q + 1;
    assert ks[..p] == [ks[0]] + ks[1..][..q];
    assert ks[p + 1..] == ks[1..][q + 1..];
    AppendAssociates([ks[0]], ks[1..][..q], ks[1..][q + 1..]);
    assert ks[p] == k && [ks[0]] + rest == ks[..p] + ks[p + 1..];
  }

  lemma DistinctTail(ks: seq<Key>)
    requires Distinct(ks) && ks != []
    ensures Distinct(ks[1..]) && ks[0] !in ks[1..]
  {
    forall i, j | 0 <= i < j < |ks[1..]| ensures ks[1..][i] != ks[1..][j] {
      assert ks[1..][i] == ks[i + 1] && ks[1..][j] == ks[j + 1];
    }
  }

  lemma DistinctCons(x: Key, s: seq<Key>)
    requires Distinct(s) && x !in s
    ensures Distinct([x] + s)
  {
    forall i, j | 0 <= i < j < |[x] + s| ensures ([x] + s)[i] != ([x] + s)[j] {
      assert ([x] + s)[j] == s[j - 1];
      if i > 0 {
        assert ([x] + s)[i] == s[i - 1];
      }
    }
  }

  /** `add(k, n)` on an ordered dictionary: an existing key keeps its place, a new
      key goes last, and a key whose sum is zero is removed. */
  function OAdd(d: Ordered, k: Key, n: real): (r: Ordered)
    ensures r.vals == AddTo(d.vals, k, n)
    ensures n + Get(d.vals, k) != 0.0 && k in d.vals ==> r.keys == d.keys
    ensures n + Get(d.vals, k) != 0.0 && k !in d.vals ==> r.keys == d.keys + [k]
    ensures n + Get(d.vals, k) == 0.0 ==> r.keys == RemoveKey(d.keys, k)
  {
    var s := n + Get(d.vals, k);
    if s == 0.0 then Ordered(RemoveKey(d.keys, k), d.vals - {k})
    else if k in d.vals then Ordered(d.keys, d.vals[k := s])
    else Ordered(d.keys + [k], d.vals[k := s])
  }

  /** `add` keeps the ordered dictionary well formed. */
  lemma OAddWellFormed(d: Ordered, k: Key, n: real)
    requires WellFormed(d)
    ensures WellFormed(OAdd(d, k, n))
  {
  }

  /** `add`s the entries of `vals` into `d`, in the order of `ks`. */
  function Merge(d: Ordered, ks: seq<Key>, vals: map<Key, real>): Ordered
    requires forall k :: k in ks ==> k in vals
  {
    if ks == [] then d
    else
      var last := ks[|ks| - 1];
      OAdd(Merge(d, ks[..|ks| - 1], vals), last, vals[last])
  }

  /** Merging one more key of `ks`. */
  lemma MergeStep(d: Ordered, ks: seq<Key>, vals: map<Key, real>, i: nat)
    requires i < |ks|
    requires forall k :: k in ks ==> k in vals
    ensures Merge(d, ks[..i + 1], vals) == OAdd(Merge(d, ks[..i], vals), ks[i], vals[ks[i]])
  {
    assert ks[..i + 1][..i] == ks[..i];
  }

  /** Dropping the last of distinct keys leaves distinct keys without it. */
  lemma DistinctInit(ks: seq<Key>)
    requires Distinct(ks) && ks != []
    ensures Distinct(ks[..|ks| - 1])
    ensures ks[|ks| - 1] !in ks[..|ks| - 1]
    ensures forall j :: j in ks <==> j in ks[..|ks| - 1] || j == ks[|ks| - 1]
  {
    var init := ks[..|ks| - 1];
    assert ks == init + [ks[|ks| - 1]];
    forall a, b | 0 <= a < b < |init| ensures init[a] != init[b] {
      assert init[a] == ks[a] && init[b] == ks[b];
    }
  }

  /** Merging adds every merged entry to the stored value (the order of the keys
      aside, the same as `CounterInventory.add_inventory`) and keeps the invariant. */
  lemma {:induction false} MergeAdds(d: Ordered, ks: seq<Key>, vals: map<Key, real>)
    requires WellFormed(d) && Distinct(ks)
    requires forall k :: k in ks ==> k in vals
    ensures WellFormed(Merge(d, ks, vals))
    ensures forall j :: Get(Merge(d, ks, vals).vals, j) == Get(d.vals, j) + (if j in ks then vals[j] else 0.0)
  {
    if ks != [] {
      var init := ks[..|ks| - 1];
      var last := ks[|ks| - 1];
      DistinctInit(ks);
      MergeAdds(d, init, vals);
      OAddWellFormed(Merge(d, init, vals), last, vals[last]);
    }
  }

  /** One lot taken by `remove`: the key and the quantity taken from it. */
  datatype Take = Take(key: Key, amount: real)

  /** What `remove`'s scan produces: the lots taken, and the quantity still needed. */
  datatype Scan = Scan(takes: seq<Take>, unmet: real)

  /** `remove`'s first loop: walks the lots in insertion order and takes
      `min(have, need)` from each positive lot of `cur` while something is needed. */
  function GreedyScan(ks: seq<Key>, m: map<Key, real>, cur: string, need: real): Scan
    requires forall k :: k in ks ==> k in m
  {
    if ks == [] then Scan([], need)
    else
      var k := ks[0];
      var have := m[k];
      if k.currency == cur && need > 0.0 && have > 0.0 then
        var mi := if have < need then have else need;
        var s := GreedyScan(ks[1..], m, cur, need - mi);
        Scan([Take(k, mi)] + s.takes, s.unmet)
      else GreedyScan(ks[1..], m, cur, need)
  }

  /** The quantity of `cur` held in positive lots. */
  function Available(ks: seq<Key>, m: map<Key, real>, cur: string): (r: real)
    requires forall k :: k in ks ==> k in m
    ensures r >= 0.0
  {
    if ks == [] then 0.0
    else (if ks[0].currency == cur && m[ks[0]] > 0.0 then m[ks[0]] else 0.0) + Available(ks[1..], m, cur)
  }

  function TotalTaken(ts: seq<Take>): real
  {
    if ts == [] then 0.0 else ts[0].amount + TotalTaken(ts[1..])
  }

  /** The quantity taken from the lot `k`. */
  function TakenFrom(ts: seq<Take>, k: Key): real
  {
    if ts == [] then 0.0 else (if ts[0].key == k then ts[0].amount else 0.0) + TakenFrom(ts[1..], k)
  }

  /** Every take is from a positive lot of `cur` listed in `ks`, and takes a
      positive quantity no larger than the lot. */
  ghost predicate TakesWithin(ts: seq<Take>, ks: seq<Key>, m: map<Key, real>, cur: string)
  {
    forall i :: 0 <= i < |ts| ==>
      && ts[i].key in ks && ts[i].key.currency == cur
      && 0.0 < ts[i].amount <= Get(m, ts[i].key)
  }

  predicate DistinctLots(ts: seq<Take>)
  {
    forall i, j :: 0 <= i < j < |ts| ==> ts[i].key != ts[j].key
  }

  /** The scan only takes what the lots hold, and only from lots of the
      requested currency. */
  lemma {:induction false} GreedyTakesFromPositiveLots(ks: seq<Key>, m: map<Key, real>, cur: string, need: real)
    requires forall k :: k in ks ==> k in m
    ensures TakesWithin(GreedyScan(ks, m, cur, need).takes, ks, m, cur)
  {
    if ks != [] {
      var have := m[ks[0]];
      var mi := if have < need then have else need;
      var taking := ks[0].currency == cur && need > 0.0 && have > 0.0;
      var left := if taking then need - mi else need;
      GreedyTakesFromPositiveLots(ks[1..], m, cur, left);
      var rest := GreedyScan(ks[1..], m, cur, left).takes;
      var ts := GreedyScan(ks, m, cur, need).takes;
      assert ts == if taking then [Take(ks[0], mi)] + rest else rest;
      assert TakesWithin(rest, ks[1..], m, cur);
      forall i | 0 <= i < |ts|
        ensures ts[i].key in ks && ts[i].key.currency == cur && 0.0 < ts[i].amount <= Get(m, ts[i].key)
      {
        if !taking || i > 0 {
          var r := if taking then i - 1 else i;
          assert ts[i] == rest[r];
          assert rest[r].key in ks[1..];
        }
      }
    }
  }

  /** Lots are distinct, so the scan never takes from the same lot twice. */
  lemma {:induction false} GreedyTakesEachLotOnce(ks: seq<Key>, m: map<Key, real>, cur: string, need: real)
    requires forall k :: k in ks ==> k in m
    requires Distinct(ks)
    ensures DistinctLots(GreedyScan(ks, m, cur, need).takes)
  {
    if ks != [] {
      var have := m[ks[0]];
      var mi := if have < need then have else need;
      var taking := ks[0].currency == cur && need > 0.0 && have > 0.0;
      var left := if taking then need - mi else need;
      DistinctTail(ks);
      GreedyTakesEachLotOnce(ks[1..], m, cur, left);
      var rest := GreedyScan(ks[1..], m, cur, left).takes;
      var ts := GreedyScan(ks, m, cur, need).takes;
      assert ts == if taking then [Take(ks[0], mi)] + rest else rest;
      if taking {
        GreedyTakesFromPositiveLots(ks[1..], m, cur, left);
        assert TakesWithin(rest, ks[1..], m, cur);
        forall i, j | 0 <= i < j < |ts| ensures ts[i].key != ts[j].key {
          assert ts[j] == rest[j - 1];
          if i == 0 {
            assert rest[j - 1].key in ks[1..];
          } else {
            assert ts[i] == rest[i - 1];
          }
        }
      }
    }
  }

  /** What is taken plus what is still needed is what was asked for. */
  lemma {:induction false} GreedyConserves(ks: seq<Key>, m: map<Key, real>, cur: string, need: real)
    requires forall k :: k in ks ==> k in m
    ensures TotalTaken(GreedyScan(ks, m, cur, need).takes) + GreedyScan(ks, m, cur, need).unmet == need
  {
    if ks != [] {
      var have := m[ks[0]];
      if ks[0].currency == cur && need > 0.0 && have > 0.0 {
        var mi := if have < need then have else need;
        GreedyConserves(ks[1..], m, cur, need - mi);
      } else {
        GreedyConserves(ks[1..], m, cur, need);
      }
    }
  }

  /** The scan takes `min(available, need)`: for a non-negative request the
      shortfall is what the positive lots cannot cover, so `remove`'s assertion
      holds exactly when enough is available; a negative request is never met. */
  lemma {:induction false} GreedyShortfall(ks: seq<Key>, m: map<Key, real>, cur: string, need: real)
    requires forall k :: k in ks ==> k in m
    ensures var s := GreedyScan(ks, m, cur, need); var av := Available(ks, m, cur);
      need >= 0.0 ==> s.unmet == (if av >= need then 0.0 else need - av)
    ensures need <= 0.0 ==> GreedyScan(ks, m, cur, need) == Scan([], need)
  {
    if ks != [] {
      var have := m[ks[0]];
      if ks[0].currency == cur && need > 0.0 && have > 0.0 {
        var mi := if have < need then have else need;
        GreedyShortfall(ks[1..], m, cur, need - mi);
      } else {
        GreedyShortfall(ks[1..], m, cur, need);
      }
    }
  }

  /** Every lot taken except the last is emptied completely. */
  ghost predicate WholeLotsButLast(ts: seq<Take>, m: map<Key, real>)
  {
    forall i :: 0 <= i < |ts| - 1 ==> ts[i].amount == Get(m, ts[i].key)
  }

  lemma {:induction false} GreedyEmptiesAllButLast(ks: seq<Key>, m: map<Key, real>, cur: string, need: real)
    requires forall k :: k in ks ==> k in m
    ensures WholeLotsButLast(GreedyScan(ks, m, cur, need).takes, m)
  {
    if ks != [] {
      var have := m[ks[0]];
      var mi := if have < need then have else need;
      var taking := ks[0].currency == cur && need > 0.0 && have > 0.0;
      var left := if taking then need - mi else need;
      GreedyEmptiesAllButLast(ks[1..], m, cur, left);
      var rest := GreedyScan(ks[1..], m, cur, left).takes;
      var ts := GreedyScan(ks, m, cur, need).takes;
      assert ts == if taking then [Take(ks[0], mi)] + rest else rest;
      if taking {
        if mi == need {
          GreedyShortfall(ks[1..], m, cur, 0.0);
          assert |ts| == 1;
        } else {
          assert ts[0].amount == Get(m, ts[0].key);
          assert WholeLotsButLast(rest, m);
          forall i | 1 <= i < |ts| - 1 ensures ts[i].amount == Get(m, ts[i].key) {
            assert ts[i] == rest[i - 1];
          }
        }
      }
    }
  }

  /** Lots of other currencies and non-positive lots are never taken from. */
  lemma {:induction false} GreedyLeavesOtherLots(ks: seq<Key>, m: map<Key, real>, cur: string, need: real, k: Key)
    requires forall j :: j in ks ==> j in m
    requires k.currency != cur || Get(m, k) <= 0.0
    ensures TakenFrom(GreedyScan(ks, m, cur, need).takes, k) == 0.0
  {
    if ks != [] {
      var have := m[ks[0]];
      if ks[0].currency == cur && need > 0.0 && have > 0.0 {
        var mi := if have < need then have else need;
        GreedyLeavesOtherLots(ks[1..], m, cur, need - mi, k);
      } else {
        GreedyLeavesOtherLots(ks[1..], m, cur, need, k);
      }
    }
  }

  /** A lot that no take names has nothing taken from it. */
  lemma {:induction false} TakenFromAbsent(ts: seq<Take>, k: Key)
    requires forall i :: 0 <= i < |ts| ==> ts[i].key != k
    ensures TakenFrom(ts, k) == 0.0
  {
    if ts != [] {
      TakenFromAbsent(ts[1..], k);
    }
  }

  /** The lots the takes `ts` name occur in `ks` in the order of the takes. */
  ghost predicate InKeyOrder(ts: seq<Take>, ks: seq<Key>)
  {
    forall i, j, a, b ::
      (0 <= i < j < |ts| && 0 <= a < |ks| && 0 <= b < |ks| && ks[a] == ts[i].key && ks[b] == ts[j].key) ==> a < b
  }

  /** Takes from lots after the first keep their order in the whole list. */
  lemma InKeyOrderTail(ts: seq<Take>, ks: seq<Key>)
    requires ks != [] && Distinct(ks)
    requires forall i :: 0 <= i < |ts| ==> ts[i].key in ks[1..]
    requires InKeyOrder(ts, ks[1..])
    ensures InKeyOrder(ts, ks)
  {
    DistinctTail(ks);
    forall i, j, a, b | 0 <= i < j < |ts| && 0 <= a < |ks| && 0 <= b < |ks| && ks[a] == ts[i].key && ks[b] == ts[j].key
      ensures a < b
    {
      assert ts[i].key in ks[1..] && ts[j].key in ks[1..];
      assert a != 0 && b != 0;
      assert ks[1..][a - 1] == ks[a] && ks[1..][b - 1] == ks[b];
    }
  }

  /** A take from the first lot, followed by takes from later lots, is in order. */
  lemma InKeyOrderCons(t: Take, ts: seq<Take>, ks: seq<Key>)
    requires ks != [] && Distinct(ks) && t.key == ks[0]
    requires forall i :: 0 <= i < |ts| ==> ts[i].key in ks[1..]
    requires InKeyOrder(ts, ks)
    ensures InKeyOrder([t] + ts, ks)
  {
    DistinctTail(ks);
    var us := [t] + ts;
    forall i, j, a, b | 0 <= i < j < |us| && 0 <= a < |ks| && 0 <= b < |ks| && ks[a] == us[i].key && ks[b] == us[j].key
      ensures a < b
    {
      assert us[j] == ts[j - 1];
      assert b != 0;
      if i == 0 {
        assert a == 0;
      } else {
        assert us[i] == ts[i - 1];
      }
    }
  }

  /** The scan walks the lots in insertion order: the lots it takes from occur
      in `ks` in the order they are taken. */
  lemma {:induction false} GreedyInInsertionOrder(ks: seq<Key>, m: map<Key, real>, cur: string, need: real)
    requires forall k :: k in ks ==> k in m
    requires Distinct(ks)
    ensures InKeyOrder(GreedyScan(ks, m, cur, need).takes, ks)
  {
    if ks != [] {
      var have := m[ks[0]];
      var mi := if have < need then have else need;
      var taking := ks[0].currency == cur && need > 0.0 && have > 0.0;
      var left := if taking then need - mi else need;
      DistinctTail(ks);
      GreedyInInsertionOrder(ks[1..], m, cur, left);
      GreedyTakesFromPositiveLots(ks[1..], m, cur, left);
      var rest := GreedyScan(ks[1..], m, cur, left).takes;
      InKeyOrderTail(rest, ks);
      if taking {
        InKeyOrderCons(Take(ks[0], mi), rest, ks);
      }
    }
  }

  /** No lot is skipped: every positive lot of `cur` placed in `ks` before the
      lot of the last take is taken whole. */
  ghost predicate NoLotSkipped(ts: seq<Take>, ks: seq<Key>, m: map<Key, real>, cur: string)
  {
    forall x, b ::
      (0 <= x < b < |ks| && ts != [] && ks[b] == ts[|ts| - 1].key && ks[x].currency == cur && Get(m, ks[x]) > 0.0)
      ==> TakenFrom(ts, ks[x]) == Get(m, ks[x])
  }

  /** Passing over the first lot keeps the property, provided nothing is taken
      at all when that lot is a positive lot of `cur`. */
  lemma NoLotSkippedTail(ts: seq<Take>, ks: seq<Key>, m: map<Key, real>, cur: string)
    requires ks != [] && Distinct(ks)
    requires NoLotSkipped(ts, ks[1..], m, cur)
    requires ks[0].currency == cur && Get(m, ks[0]) > 0.0 ==> ts == []
    ensures NoLotSkipped(ts, ks, m, cur)
  {
    forall x, b | 0 <= x < b < |ks| && ts != [] && ks[b] == ts[|ts| - 1].key && ks[x].currency == cur && Get(m, ks[x]) > 0.0
      ensures TakenFrom(ts, ks[x]) == Get(m, ks[x])
    {
      assert x != 0;
      assert ks[1..][x - 1] == ks[x] && ks[1..][b - 1] == ks[b];
    }
  }

  /** Taking the whole first lot, when later lots are taken too, keeps the property. */
  lemma NoLotSkippedCons(t: Take, ts: seq<Take>, ks: seq<Key>, m: map<Key, real>, cur: string)
    requires ks != [] && Distinct(ks) && t.key == ks[0]
    requires forall i :: 0 <= i < |ts| ==> ts[i].key in ks[1..]
    requires NoLotSkipped(ts, ks[1..], m, cur)
    requires ts != [] ==> t.amount == Get(m, ks[0])
    ensures NoLotSkipped([t] + ts, ks, m, cur)
  {
    DistinctTail(ks);
    var us := [t] + ts;
    forall x, b | 0 <= x < b < |ks| && us != [] && ks[b] == us[|us| - 1].key && ks[x].currency == cur && Get(m, ks[x]) > 0.0
      ensures TakenFrom(us, ks[x]) == Get(m, ks[x])
    {
      assert us[1..] == ts;
      if ts == [] {
        assert false;
      } else {
        assert us[|us| - 1] == ts[|ts| - 1];
        assert ks[1..][b - 1] == ks[b];
        if x == 0 {
          forall i | 0 <= i < |ts| ensures ts[i].key != ks[0] {
            assert ts[i].key in ks[1..];
          }
          TakenFromAbsent(ts, ks[0]);
        } else {
          assert ks[1..][x - 1] == ks[x];
        }
      }
    }
  }

  lemma {:induction false} GreedyNoLotSkipped(ks: seq<Key>, m: map<Key, real>, cur: string, need: real)
    requires forall k :: k in ks ==> k in m
    requires Distinct(ks)
    ensures NoLotSkipped(GreedyScan(ks, m, cur, need).takes, ks, m, cur)
  {
    if ks != [] {
      var have := m[ks[0]];
      var mi := if have < need then have else need;
      var taking := ks[0].currency == cur && need > 0.0 && have > 0.0;
      var left := if taking then need - mi else need;
      DistinctTail(ks);
      GreedyNoLotSkipped(ks[1..], m, cur, left);
      var rest := GreedyScan(ks[1..], m, cur, left).takes;
      if taking {
        GreedyTakesFromPositiveLots(ks[1..], m, cur, left);
        GreedyEmptiesAllButLast(ks, m, cur, need);
        var ts := GreedyScan(ks, m, cur, need).takes;
        assert ts == [Take(ks[0], mi)] + rest;
        if rest != [] {
          assert ts[0].amount == Get(m, ts[0].key);
        }
        NoLotSkippedCons(Take(ks[0], mi), rest, ks, m, cur);
      } else {
        if ks[0].currency == cur && have > 0.0 {
          GreedyShortfall(ks[1..], m, cur, need);
        }
        NoLotSkippedTail(rest, ks, m, cur);
      }
    }
  }

  predicate AllDated(ts: seq<Take>)
  {
    forall i :: 0 <= i < |ts| ==> Dated(ts[i].key)
  }

  /** `remove`'s second loop: `add(key, -amount)` for each lot taken, in order,
      stopping where `_check_dated` raises. */
  function ApplyTakes(d: Ordered, ts: seq<Take>): Ordered
    decreases |ts|
  {
    if ts == [] || !Dated(ts[0].key) then d
    else ApplyTakes(OAdd(d, ts[0].key, -ts[0].amount), ts[1..])
  }

  /** Extending a dated prefix by one take. */
  lemma AllDatedPrefix(ts: seq<Take>, j: nat)
    requires j < |ts|
    ensures AllDated(ts[..j + 1]) <==> AllDated(ts[..j]) && Dated(ts[j].key)
    ensures !Dated(ts[j].key) ==> !AllDated(ts)
  {
    assert ts[..j + 1] == ts[..j] + [ts[j]];
  }

  /** `ApplyTakes` stops at an undated lot. */
  lemma ApplyTakesStop(d: Ordered, ts: seq<Take>, j: nat)
    requires j < |ts| && !Dated(ts[j].key)
    ensures ApplyTakes(d, ts[j..]) == d
  {
    assert ts[j..][0] == ts[j];
  }

  /** One step of `ApplyTakes` past a dated lot at position `j` of `ts`. */
  lemma ApplyTakesStep(d: Ordered, ts: seq<Take>, j: nat)
    requires j < |ts| && Dated(ts[j].key)
    ensures ApplyTakes(d, ts[j..]) == ApplyTakes(OAdd(d, ts[j].key, -ts[j].amount), ts[j + 1..])
  {
    assert ts[j..][0] == ts[j] && ts[j..][1..] == ts[j + 1..];
  }

  /** Applying the takes keeps the invariant and, when every lot is dated, lowers
      each lot by exactly what was taken from it and leaves every other key alone. */
  lemma {:induction false} ApplyTakesLowersLots(d: Ordered, ts: seq<Take>)
    requires WellFormed(d)
    ensures WellFormed(ApplyTakes(d, ts))
    ensures AllDated(ts) ==> forall k :: Get(ApplyTakes(d, ts).vals, k) == Get(d.vals, k) - TakenFrom(ts, k)
    decreases |ts|
  {
    if ts != [] && Dated(ts[0].key) {
      var d' := OAdd(d, ts[0].key, -ts[0].amount);
      OAddWellFormed(d, ts[0].key, -ts[0].amount);
      ApplyTakesLowersLots(d', ts[1..]);
      if AllDated(ts) {
        assert AllDated(ts[1..]) by {
          forall i | 0 <= i < |ts[1..]| ensures Dated(ts[1..][i].key) {
            assert ts[1..][i] == ts[i + 1];
          }
        }
      }
    }
  }

  /** `DatedInventory`: an insertion-ordered counter keyed by `(currency, cost)`. */
  class DatedInventory {
    var keys: seq<Key>
    var vals: map<Key, real>

    function Value(): Ordered
      reads this
    {
      Ordered(keys, vals)
    }

    ghost predicate Valid()
      reads this
    {
      WellFormed(Value())
    }

    constructor ()
      ensures Valid() && Value() == Ordered([], map[])
    {
      keys, vals := [], map[];
    }

    /** `add(key, number)`: checks the key is dated (raising, with nothing changed,
        when it is not), then adds as an ordered dictionary does. */
    method Add(key: Key, number: real) returns (ok: bool)
      requires Valid()
      modifies this
      ensures Valid()
      ensures ok <==> Dated(key)
      ensures ok ==> Value() == OAdd(old(Value()), key, number)
      ensures !ok ==> Value() == old(Value())
    {
      if !Dated(key) {
        return false;
      }
      Put(key, number);
      ok := true;
    }

    /** The ordered-dictionary update shared by `add` and `add_inventory`: sets
        `key` to `number + get(key, 0)`, or pops it when that is zero. */
    method Put(key: Key, number: real)
      requires Valid()
      modifies this
      ensures Valid()
      ensures Value() == OAdd(old(Value()), key, number)
    {
      OAddWellFormed(Value(), key, number);
      var newNum := number + Get(vals, key);
      if newNum == 0.0 {
        keys, vals := RemoveKey(keys, key), vals - {key};
      } else if key in vals {
        vals := vals[key := newNum];
      } else {
        keys, vals := keys + [key], vals[key := newNum];
      }
    }

    /** `add_inventory(counter)`: copies `counter` (order included) when the
        receiver is empty, otherwise adds its entries in `counter`'s order. No
        date check is made. Works when `counter` is the receiver itself. */
    method AddInventory(counter: DatedInventory)
      requires Valid() && counter.Valid()
      modifies this
      ensures Valid()
      ensures Value() == if old(keys) == [] then old(counter.Value())
                         else Merge(old(Value()), old(counter.keys), old(counter.vals))
      ensures vals == Sum(old(vals), old(counter.vals))
    {
      var src := counter.Value();
      if keys == [] {
        assert vals == map[];
        keys, vals := src.keys, src.vals;
        SumEmptyLeft(src.vals);
        return;
      }
      ghost var start := Value();
      var i := 0;
      while i < |src.keys|
        invariant 0 <= i <= |src.keys|
        invariant Valid()
        invariant Value() == Merge(start, src.keys[..i], src.vals)
      {
        var key := src.keys[i];
        Put(key, src.vals[key]);
        MergeStep(start, src.keys, src.vals, i);
        i := i + 1;
      }
      assert src.keys[..i] == src.keys;
      MergeAdds(start, src.keys, src.vals);
      SameGetSameMap(vals, Sum(start.vals, src.vals));
    }

    /** `remove(currency, need)`: takes `need` of `currency` from its positive
        lots in insertion order and returns the lots taken. Raises, with nothing
        changed, when the lots do not cover `need` exactly (or `need < 0`); raises
        part-way, after lowering the earlier lots, at the first undated lot. */
    method Remove(currency: string, need: real) returns (r: Result<seq<Take>, RemoveError>)
      requires Valid()
      modifies this
      ensures Valid()
      ensures var scan := GreedyScan(old(keys), old(vals), currency, need);
        scan.unmet != 0.0 ==> r == Err(NeedNotMet) && Value() == old(Value())
      ensures var scan := GreedyScan(old(keys), old(vals), currency, need);
        scan.unmet == 0.0 ==>
          && Value() == ApplyTakes(old(Value()), scan.takes)
          && r == if AllDated(scan.takes) then Ok(scan.takes) else Err(UndatedLot)
    {
      var ans, left := ScanLots(keys, vals, currency, need);
      if left != 0.0 {
        return Err(NeedNotMet);
      }
      var dated := ApplyLots(ans);
      r := if dated then Ok(ans) else Err(UndatedLot);
    }

    /** One pass of `remove`'s second loop: `add(key, -amount)` for the take at
        position `j` of `ts`. */
    method LowerLot(ts: seq<Take>, j: nat, ghost start: Ordered) returns (dated: bool)
      requires Valid() && j < |ts|
      requires ApplyTakes(Value(), ts[j..]) == ApplyTakes(start, ts)
      modifies this
      ensures Valid()
      ensures dated <==> Dated(ts[j].key)
      ensures dated ==> ApplyTakes(Value(), ts[j + 1..]) == ApplyTakes(start, ts)
      ensures !dated ==> Value() == ApplyTakes(start, ts)
    {
      ghost var before := Value();
      if Dated(ts[j].key) {
        ApplyTakesStep(before, ts, j);
      } else {
        ApplyTakesStop(before, ts, j);
      }
      dated := Add(ts[j].key, -ts[j].amount);
    }

    /** `remove`'s second loop: subtracts each take from its lot, stopping at
        the first lot without a dated cost. */
    method ApplyLots(ts: seq<Take>) returns (ok: bool)
      requires Valid()
      modifies this
      ensures Valid()
      ensures ok <==> AllDated(ts)
      ensures Value() == ApplyTakes(old(Value()), ts)
    {
      ghost var start := Value();
      var j := 0;
      while j < |ts|
        invariant 0 <= j <= |ts|
        invariant Valid()
        invariant ApplyTakes(Value(), ts[j..]) == ApplyTakes(start, ts)
        invariant AllDated(ts[..j])
      {
        var dated := LowerLot(ts, j, start);
        AllDatedPrefix(ts, j);
        if !dated {
          return false;
        }
        j := j + 1;
      }
      assert ts[j..] == [] && ts[..j] == ts;
      ok := true;
    }
  }

  /** `remove`'s first loop, which reads the lots without changing them. */
  method ScanLots(ks: seq<Key>, m: map<Key, real>, cur: string, need: real) returns (takes: seq<Take>, unmet: real)
    requires forall k :: k in ks ==> k in m
    ensures Scan(takes, unmet) == GreedyScan(ks, m, cur, need)
  {
    takes, unmet := [], need;
    var i := 0;
    while i < |ks|
      invariant 0 <= i <= |ks|
      invariant var s := GreedyScan(ks[i..], m, cur, unmet); Scan(takes + s.takes, s.unmet) == GreedyScan(ks, m, cur, need)
    {
      var key := ks[i];
      var have := m[key];
      assert ks[i..][1..] == ks[i + 1..];
      if key.currency == cur && unmet > 0.0 && have > 0.0 {
        var mi := if have < unmet then have else unmet;
        unmet := unmet - mi;
        takes := takes + [Take(key, mi)];
      }
      i := i + 1;
    }
  }

  /** Why `remove` raises. */
  datatype RemoveError = NeedNotMet | UndatedLot
}
