/** The list and filter helpers of the ledger: the three entry filters, price
    and event selection, the closed-account test, commodity pairs, the
    up-to-date status of an account, grouping entries by type, and lookup of
    an entry by its hash. */
module Ledger {
  import opened Wrappers
  import opened Strings
  import opened Sorting

  /** A directive as these helpers see it: its class name ("Transaction",
      "Event", ...), its date as a day number, and its type when it is an Event. */
  datatype Entry = Entry(kind: string, date: int, eventType: string)

  // ---------------------------------------------------------------- filtering

  /** The comprehension `[x for x in xs if keep(x)]`. */
  function Filter<T>(xs: seq<T>, keep: T -> bool): seq<T>
  {
    if xs == [] then []
    else Filter(xs[..|xs| - 1], keep) + (if keep(xs[|xs| - 1]) then [xs[|xs| - 1]] else [])
  }

  /** The comprehension keeps exactly the items the condition accepts. */
  lemma {:induction false} FilterMembers<T>(xs: seq<T>, keep: T -> bool, x: T)
    ensures x in Filter(xs, keep) <==> x in xs && keep(x)
  {
    if xs != [] {
      FilterMembers(xs[..|xs| - 1], keep, x);
      assert xs == xs[..|xs| - 1] + [xs[|xs| - 1]];
    }
  }

  /** The comprehension keeps the original order: filtering a concatenation
      filters each part and concatenates the results in the same order. */
  lemma {:induction false} FilterConcat<T>(a: seq<T>, b: seq<T>, keep: T -> bool)
    ensures Filter(a + b, keep) == Filter(a, keep) + Filter(b, keep)
    decreases |b|
  {
    if b == [] {
      assert a + b == a;
    } else {
      var b' := b[..|b| - 1];
      FilterConcat(a, b', keep);
      assert (a + b)[..|a + b| - 1] == a + b';
    }
  }

  /** A condition and its negation split a list into two parts whose lengths add up. */
  lemma {:induction false} FilterSplit<T>(xs: seq<T>, keep: T -> bool, drop: T -> bool)
    requires forall x :: drop(x) == !keep(x)
    ensures |Filter(xs, keep)| + |Filter(xs, drop)| == |xs|
  {
    if xs != [] { FilterSplit(xs[..|xs| - 1], keep, drop); }
  }

  // ------------------------------------------------------------------ sorting

  /** `lt` is a strict total order on all values of `K`. */
  ghost predicate Linear<K(!new)>(lt: (K, K) -> bool)
  {
    && (forall a :: !lt(a, a))
    && (forall a, b :: a != b ==> lt(a, b) || lt(b, a))
    && (forall a, b, c :: lt(a, b) && lt(b, c) ==> lt(a, c))
  }

  lemma StringLessLinear()
    ensures Linear(StringLess)
  {
    forall a ensures !StringLess(a, a) { StringLessIrreflexive(a); }
    forall a, b | a != b ensures StringLess(a, b) || StringLess(b, a) { StringLessTotal(a, b); }
    forall a, b, c | StringLess(a, b) && StringLess(b, c) ensures StringLess(a, c) {
      StringLessTransitive(a, b, c);
    }
  }

  /** Python's `<` on a pair of strings: by the first, then by the second. */
  predicate PairLess(p: (string, string), q: (string, string))
  {
    StringLess(p.0, q.0) || (p.0 == q.0 && StringLess(p.1, q.1))
  }

  lemma PairLessLinear()
    ensures Linear(PairLess)
  {
    StringLessLinear();
    forall p: (string, string), q: (string, string) | p != q ensures PairLess(p, q) || PairLess(q, p) {
      if p.0 != q.0 { StringLessTotal(p.0, q.0); } else { StringLessTotal(p.1, q.1); }
    }
    forall p: (string, string), q: (string, string), s: (string, string) | PairLess(p, q) && PairLess(q, s)
      ensures PairLess(p, s)
    {
      if StringLess(p.0, q.0) && StringLess(q.0, s.0) { StringLessTransitive(p.0, q.0, s.0); }
      else if p.0 == q.0 && q.0 == s.0 { StringLessTransitive(p.1, q.1, s.1); }
    }
  }

  /** The positions of `xs` ordered by the key of their item, equal keys by
      position: the order a stable sort by that key gives. */
  function KeyOrder<T, K(==)>(xs: seq<T>, key: T -> K, lt: (K, K) -> bool): (nat, nat) -> bool
  {
    (a: nat, b: nat) =>
      a < |xs| && b < |xs| && (lt(key(xs[a]), key(xs[b])) || (key(xs[a]) == key(xs[b]) && a < b))
  }

  lemma KeyOrderTotal<T, K(!new)>(xs: seq<T>, key: T -> K, lt: (K, K) -> bool)
    requires Linear(lt)
    ensures StrictTotalOrder(|xs|, KeyOrder(xs, key, lt))
  {
  }

  /** Python's `sorted(xs, key=key)`, which is stable. */
  function SortBy<T, K(==,!new)>(xs: seq<T>, key: T -> K, lt: (K, K) -> bool): seq<T>
    requires Linear(lt)
  {
    KeyOrderTotal(xs, key, lt);
    Reorder(xs, SortIndices(|xs|, KeyOrder(xs, key, lt)))
  }

  /** The sorted list holds every item once (it is `xs` rearranged by a
      permutation of the positions), its keys never decrease, and items with
      equal keys keep their original relative order. */
  lemma SortBySpec<T, K(!new)>(xs: seq<T>, key: T -> K, lt: (K, K) -> bool)
    requires Linear(lt)
    ensures var o := SortIndices(|xs|, KeyOrder(xs, key, lt));
      var r := SortBy(xs, key, lt);
      && |r| == |xs| && |o| == |xs| && Below(o, |xs|)
      && (forall i :: 0 <= i < |xs| ==> i in o)
      && (forall a, b :: 0 <= a < b < |o| ==> o[a] != o[b])
      && (forall k :: 0 <= k < |r| ==> r[k] == xs[o[k]])
      && (forall a, b :: 0 <= a < b < |r| ==> !lt(key(r[b]), key(r[a])))
      && (forall a, b :: 0 <= a < b < |r| && key(r[a]) == key(r[b]) ==> o[a] < o[b])
  {
    KeyOrderTotal(xs, key, lt);
    var less := KeyOrder(xs, key, lt);
    var o := SortIndices(|xs|, less);
    SortIndicesSorted(|xs|, less);
    SortedDistinct(o, |xs|, less);
    forall a, b | 0 <= a < b < |o| ensures !lt(key(xs[o[b]]), key(xs[o[a]])) {
      assert less(o[a], o[b]);
    }
  }

  /** `sorted(xs, key=key)` for a key that is a string. */
  function SortByName<T>(xs: seq<T>, key: T -> string): seq<T>
  {
    StringLessLinear();
    SortBy(xs, key, StringLess)
  }

  /** `sorted(ps)` for pairs of strings. */
  function SortPairs(ps: seq<(string, string)>): seq<(string, string)>
  {
    PairLessLinear();
    SortBy(ps, PairKey, PairLess)
  }

  function PairKey(p: (string, string)): (string, string) { p }

  /** Sorting neither adds nor loses items. */
  lemma SortByMembers<T, K(!new)>(xs: seq<T>, key: T -> K, lt: (K, K) -> bool, x: T)
    requires Linear(lt)
    ensures x in SortBy(xs, key, lt) <==> x in xs
  {
    SortBySpec(xs, key, lt);
    var o := SortIndices(|xs|, KeyOrder(xs, key, lt));
    var r := SortBy(xs, key, lt);
    if x in xs {
      var i :| 0 <= i < |xs| && xs[i] == x;
      assert i in o;
      var k :| 0 <= k < |o| && o[k] == i;
      assert r[k] == x;
    }
  }

  // ------------------------------------------------------------------ filters

  /** One of the three entry filters (account, advanced, time): its current
      value, and how it selects entries for a given value. */
  class EntryFilter {
    var value: Option<string>
    const select: (Option<string>, seq<Entry>) -> seq<Entry>

    constructor(select: (Option<string>, seq<Entry>) -> seq<Entry>)
      ensures value == None && this.select == select
    {
      value := None;
      this.select := select;
    }

    /** Stores the new value and reports whether it differs from the old one. */
    method Set(v: Option<string>) returns (changed: bool)
      modifies this
      ensures value == v
      ensures changed <==> old(value) != v
    {
      changed := value != v;
      value := v;
    }

    function Apply(entries: seq<Entry>): seq<Entry>
      reads this
    {
      select(value, entries)
    }
  }

  /** The filters of a filtered ledger: three separate filter objects. */
  class Filters {
    const account: EntryFilter
    const filter: EntryFilter
    const time: EntryFilter

    predicate Valid()
      reads this
    {
      account != filter && account != time && filter != time
    }

    constructor(selectAccount: (Option<string>, seq<Entry>) -> seq<Entry>,
                selectFilter: (Option<string>, seq<Entry>) -> seq<Entry>,
                selectTime: (Option<string>, seq<Entry>) -> seq<Entry>)
      ensures Valid() && fresh(account) && fresh(filter) && fresh(time)
      ensures account.value == None && filter.value == None && time.value == None
    {
      account := new EntryFilter(selectAccount);
      filter := new EntryFilter(selectFilter);
      time := new EntryFilter(selectTime);
    }

    /** All three setters run (no short-circuit); the result says whether any
        of the three values changed. */
    method Set(accountValue: Option<string>, filterValue: Option<string>, timeValue: Option<string>)
      returns (changed: bool)
      requires Valid()
      modifies account, filter, time
      ensures account.value == accountValue && filter.value == filterValue && time.value == timeValue
      ensures changed <==>
        old(account.value) != accountValue || old(filter.value) != filterValue || old(time.value) != timeValue
    {
      var a := account.Set(accountValue);
      var f := filter.Set(filterValue);
      var t := time.Set(timeValue);
      changed := a || f || t;
    }

    /** The account filter first, then the advanced filter, then the time filter. */
    function Apply(entries: seq<Entry>): (r: seq<Entry>)
      reads this, account, filter, time
      ensures r == time.select(time.value, filter.select(filter.value, account.select(account.value, entries)))
    {
      time.Apply(filter.Apply(account.Apply(entries)))
    }
  }

  // ------------------------------------------------------------------- prices

  /** What `prices` asks of the time filter: whether it is set (its truth
      value) and its two optional bounds, as day numbers. */
  datatype TimeRange = TimeRange(active: bool, begin: Option<int>, end: Option<int>)

  predicate Bounded(time: TimeRange)
  {
    time.active && time.begin.Some? && time.end.Some?
  }

  function InRange(time: TimeRange): ((int, real)) -> bool
    requires Bounded(time)
  {
    (p: (int, real)) => time.begin.value <= p.0 < time.end.value
  }

  /** The (date, price) pairs of one commodity pair, cut to the time filter. */
  function Prices(all: seq<(int, real)>, time: TimeRange): seq<(int, real)>
  {
    if Bounded(time) then Filter(all, InRange(time)) else all
  }

  /** With both bounds, exactly the prices dated in [begin, end); otherwise all. */
  lemma PricesSpec(all: seq<(int, real)>, time: TimeRange, p: (int, real))
    ensures Bounded(time) ==> (p in Prices(all, time) <==> p in all && time.begin.value <= p.0 < time.end.value)
    ensures !Bounded(time) ==> Prices(all, time) == all
  {
    if Bounded(time) { FilterMembers(all, InRange(time), p); }
  }

  /** The selection keeps the original order. */
  lemma PricesConcat(a: seq<(int, real)>, b: seq<(int, real)>, time: TimeRange)
    ensures Prices(a + b, time) == Prices(a, time) + Prices(b, time)
  {
    if Bounded(time) { FilterConcat(a, b, InRange(time)); }
  }

  // ------------------------------------------------------------------- events

  predicate IsEvent(e: Entry) { e.kind == "Event" }

  predicate IsInsurance(e: Entry) { Contains(e.eventType, "Insurance_") }

  predicate NotInsurance(e: Entry) { !IsInsurance(e) }

  function EventTypeOf(e: Entry): string { e.eventType }

  function OfType(t: string): Entry -> bool
  {
    (e: Entry) => e.eventType == t
  }

  /** The events of the filtered entries: with `insurance`, the insurance
      events sorted by type; else, with a non-empty type, the events of that
      type; else the other events in their order. */
  method Events(entries: seq<Entry>, eventType: Option<string>, insurance: bool) returns (r: seq<Entry>)
    ensures var events := Filter(entries, IsEvent);
      && (insurance ==> r == SortByName(Filter(events, IsInsurance), EventTypeOf))
      && (!insurance && eventType.Some? && eventType.value != "" ==> r == Filter(events, OfType(eventType.value)))
      && (!insurance && !(eventType.Some? && eventType.value != "") ==> r == Filter(events, NotInsurance))
  {
    var events := Filter(entries, IsEvent);
    var isInsurance: seq<Entry> := [];
    var notInsurance: seq<Entry> := [];
    var j := 0;
    while j < |events|
      invariant 0 <= j <= |events|
      invariant isInsurance == Filter(events[..j], IsInsurance)
      invariant notInsurance == Filter(events[..j], NotInsurance)
    {
      assert events[..j + 1][..j] == events[..j];
      if IsInsurance(events[j]) {
        isInsurance := isInsurance + [events[j]];
      } else {
        notInsurance := notInsurance + [events[j]];
      }
      j := j + 1;
    }
    assert events[..|events|] == events;
    if insurance {
      r := SortByName(isInsurance, EventTypeOf);
    } else if eventType.Some? && eventType.value != "" {
      r := Filter(events, OfType(eventType.value));
    } else {
      r := notInsurance;
    }
  }

  /** Every event is either an insurance event or not, never both. */
  lemma InsurancePartition(events: seq<Entry>, e: Entry)
    ensures |Filter(events, IsInsurance)| + |Filter(events, NotInsurance)| == |events|
    ensures e in events ==> (e in Filter(events, IsInsurance) <==> e !in Filter(events, NotInsurance))
  {
    FilterSplit(events, IsInsurance, NotInsurance);
    FilterMembers(events, IsInsurance, e);
    FilterMembers(events, NotInsurance, e);
  }

  /** With `insurance`, exactly the insurance events come back, ordered by type. */
  lemma InsuranceEventsSpec(events: seq<Entry>, e: Entry)
    ensures var r := SortByName(Filter(events, IsInsurance), EventTypeOf);
      && (e in r <==> e in events && IsInsurance(e))
      && (forall a, b :: 0 <= a < b < |r| ==> !StringLess(r[b].eventType, r[a].eventType))
  {
    StringLessLinear();
    var ins := Filter(events, IsInsurance);
    SortByMembers(ins, EventTypeOf, StringLess, e);
    FilterMembers(events, IsInsurance, e);
    SortBySpec(ins, EventTypeOf, StringLess);
  }

  // ----------------------------------------------------------- closed accounts

  /** Python's `date.max` (9999-12-31) as a day number. */
  const DateMax: int := 3652059

  /** With a time filter and a last date, an account counts as closed when it
      was closed before that date; otherwise when it has a close date at all. */
  function AccountIsClosed(closeDate: int, timeActive: bool, dateLast: Option<int>): (closed: bool)
    ensures timeActive && dateLast.Some? ==> (closed <==> closeDate < dateLast.value)
    ensures !(timeActive && dateLast.Some?) ==> (closed <==> closeDate != DateMax)
  {
    if timeActive && dateLast.Some? then closeDate < dateLast.value else closeDate != DateMax
  }

  /** An account that was never closed (close date `date.max`) is never reported
      closed, since no date lies after `date.max`. */
  lemma NeverClosedAccount(timeActive: bool, dateLast: Option<int>)
    requires dateLast.Some? ==> dateLast.value <= DateMax
    ensures !AccountIsClosed(DateMax, timeActive, dateLast)
  {
  }

  // ---------------------------------------------------------- commodity pairs

  /** The reversed pairs of those forward pairs whose two currencies are both
      operating currencies, in the forward pairs' order. */
  function Backward(fw: seq<(string, string)>, operating: seq<string>): seq<(string, string)>
  {
    if fw == [] then []
    else
      var p := fw[|fw| - 1];
      Backward(fw[..|fw| - 1], operating) + (if p.0 in operating && p.1 in operating then [(p.1, p.0)] else [])
  }

  lemma {:induction false} BackwardMembers(fw: seq<(string, string)>, operating: seq<string>, q: (string, string))
    ensures q in Backward(fw, operating) <==> (q.1, q.0) in fw && q.0 in operating && q.1 in operating
  {
    if fw != [] {
      BackwardMembers(fw[..|fw| - 1], operating, q);
      assert fw == fw[..|fw| - 1] + [fw[|fw| - 1]];
    }
  }

  method CommodityPairs(fw: seq<(string, string)>, operating: seq<string>) returns (r: seq<(string, string)>)
    ensures r == SortPairs(fw + Backward(fw, operating))
  {
    var bw: seq<(string, string)> := [];
    var j := 0;
    while j < |fw|
      invariant 0 <= j <= |fw|
      invariant bw == Backward(fw[..j], operating)
    {
      assert fw[..j + 1][..j] == fw[..j];
      var (a, b) := fw[j];
      if a in operating && b in operating {
        bw := bw + [(b, a)];
      }
      j := j + 1;
    }
    assert fw[..|fw|] == fw;
    r := SortPairs(fw + bw);
  }

  /** The pairs are the forward pairs and, for two operating currencies, their
      reversals; every one of them is listed, and the list is sorted. */
  lemma CommodityPairsSpec(fw: seq<(string, string)>, operating: seq<string>, q: (string, string))
    ensures var r := SortPairs(fw + Backward(fw, operating));
      && (q in r <==> q in fw || ((q.1, q.0) in fw && q.0 in operating && q.1 in operating))
      && |r| == |fw| + |Backward(fw, operating)|
      && (forall a, b :: 0 <= a < b < |r| ==> !PairLess(r[b], r[a]))
  {
    PairLessLinear();
    var all := fw + Backward(fw, operating);
    SortByMembers(all, PairKey, PairLess, q);
    BackwardMembers(fw, operating, q);
    SortBySpec(all, PairKey, PairLess);
  }

  // -------------------------------------------------------- up-to-date status

  /** What the status scan sees of a posting of an account. */
  datatype Posting =
    | BalancePosting(diffAmount: Option<real>)
    | TxnPosting(flag: string)
    | OtherPosting

  /** The flag beancount gives to transactions that book unrealized gains. */
  const FlagUnrealized: string := "U"

  /** The status one posting decides, if it decides one. */
  function StatusOf(p: Posting): Option<string>
  {
    match p
    case BalancePosting(diff) => Some(if diff.Some? then "red" else "green")
    case TxnPosting(flag) => if flag != FlagUnrealized then Some("yellow") else None
    case OtherPosting => None
  }

  /** The status of the newest posting that decides one. */
  function LastStatus(ps: seq<Posting>): Option<string>
  {
    if ps == [] then None
    else if StatusOf(ps[|ps| - 1]).Some? then StatusOf(ps[|ps| - 1])
    else LastStatus(ps[..|ps| - 1])
  }

  /** None exactly when no posting decides a status; otherwise the status of
      a posting after which no posting decides one. */
  lemma {:induction false} LastStatusSpec(ps: seq<Posting>)
    ensures LastStatus(ps).None? <==> forall i :: 0 <= i < |ps| ==> StatusOf(ps[i]).None?
    ensures LastStatus(ps).Some? ==>
      exists i :: 0 <= i < |ps| && LastStatus(ps) == StatusOf(ps[i])
        && forall j :: i < j < |ps| ==> StatusOf(ps[j]).None?
  {
    if ps != [] && StatusOf(ps[|ps| - 1]).None? {
      var ps' := ps[..|ps| - 1];
      LastStatusSpec(ps');
      if LastStatus(ps').Some? {
        var i :| 0 <= i < |ps'| && LastStatus(ps') == StatusOf(ps'[i])
          && forall j :: i < j < |ps'| ==> StatusOf(ps'[j]).None?;
        assert ps[i] == ps'[i];
      }
    }
  }

  /** Scans the postings newest first and stops at the first balance or
      realized transaction. */
  method AccountUptodateStatus(postings: seq<Posting>) returns (status: Option<string>)
    ensures status == LastStatus(postings)
  {
    var k := |postings|;
    assert postings[..k] == postings;
    while k > 0
      invariant 0 <= k <= |postings|
      invariant LastStatus(postings) == LastStatus(postings[..k])
    {
      assert postings[..k][..k - 1] == postings[..k - 1];
      k := k - 1;
      var p := postings[k];
      if p.BalancePosting? {
        if p.diffAmount.Some? {
          return Some("red");
        }
        return Some("green");
      }
      if p.TxnPosting? && p.flag != FlagUnrealized {
        return Some("yellow");
      }
    }
    return None;
  }

  // ------------------------------------------------------ grouping by type

  function OfKind(t: string): Entry -> bool
  {
    (e: Entry) => e.kind == t
  }

  function GroupKey(g: (string, seq<Entry>)): string { g.0 }

  /** The loop of `group_entries_by_type`: the dictionary from class name to
      the entries of that class, and its keys in insertion order. */
  method CollectGroups(entries: seq<Entry>) returns (keys: seq<string>, groups: map<string, seq<Entry>>)
    ensures forall a, b :: 0 <= a < b < |keys| ==> keys[a] != keys[b]
    ensures forall t :: t in groups <==> t in keys
    ensures forall t :: t in groups ==> groups[t] == Filter(entries, OfKind(t)) && groups[t] != []
    ensures forall e :: e in entries ==> e.kind in groups
  {
    groups := map[];
    keys := [];
    var j := 0;
    while j < |entries|
      invariant 0 <= j <= |entries|
      invariant forall a, b :: 0 <= a < b < |keys| ==> keys[a] != keys[b]
      invariant forall t :: t in groups <==> t in keys
      invariant forall t :: t in groups ==> groups[t] == Filter(entries[..j], OfKind(t)) && groups[t] != []
      invariant forall i :: 0 <= i < j ==> entries[i].kind in groups
    {
      var e := entries[j];
      assert entries[..j + 1][..j] == entries[..j];
      if e.kind !in groups {
        assert Filter(entries[..j], OfKind(e.kind)) == [] by {
          if Filter(entries[..j], OfKind(e.kind)) != [] {
            var x := Filter(entries[..j], OfKind(e.kind))[0];
            FilterMembers(entries[..j], OfKind(e.kind), x);
          }
        }
        keys := keys + [e.kind];
        groups := groups[e.kind := [e]];
      } else {
        groups := groups[e.kind := groups[e.kind] + [e]];
      }
      j := j + 1;
    }
    assert entries[..|entries|] == entries;
  }

  /** Sorting items whose names are all different orders the names strictly
      and keeps every item. */
  lemma SortByDistinctNames<T>(xs: seq<T>, key: T -> string)
    requires forall a, b :: 0 <= a < b < |xs| ==> key(xs[a]) != key(xs[b])
    ensures var r := SortByName(xs, key);
      && (forall k :: 0 <= k < |r| ==> r[k] in xs)
      && (forall x :: x in xs ==> x in r)
      && (forall a, b :: 0 <= a < b < |r| ==> StringLess(key(r[a]), key(r[b])))
  {
    StringLessLinear();
    SortBySpec(xs, key, StringLess);
    var o := SortIndices(|xs|, KeyOrder(xs, key, StringLess));
    var r := SortByName(xs, key);
    forall x | x in xs ensures x in r { SortByMembers(xs, key, StringLess, x); }
    forall a, b | 0 <= a < b < |r| ensures StringLess(key(r[a]), key(r[b])) {
      assert r[a] == xs[o[a]] && r[b] == xs[o[b]];
      if o[a] < o[b] { assert key(xs[o[a]]) != key(xs[o[b]]); }
      else { assert key(xs[o[b]]) != key(xs[o[a]]); }
      StringLessTotal(key(r[a]), key(r[b]));
    }
  }

  /** Groups the entries by class name: each entry lands in the one group of
      its class, each group keeps the entries' order, and the groups come
      sorted by name. */
  method GroupEntriesByType(entries: seq<Entry>) returns (r: seq<(string, seq<Entry>)>)
    ensures forall k :: 0 <= k < |r| ==> r[k].1 == Filter(entries, OfKind(r[k].0)) && r[k].1 != []
    ensures forall e :: e in entries ==> exists k :: 0 <= k < |r| && r[k].0 == e.kind
    ensures forall a, b :: 0 <= a < b < |r| ==> StringLess(r[a].0, r[b].0)
  {
    var keys, groups := CollectGroups(entries);
    var items := seq(|keys|, i requires 0 <= i < |keys| => (keys[i], groups[keys[i]]));
    r := SortByName(items, GroupKey);
    SortByDistinctNames(items, GroupKey);
    forall k | 0 <= k < |r| ensures r[k].1 == Filter(entries, OfKind(r[k].0)) && r[k].1 != [] {
      var i :| 0 <= i < |items| && items[i] == r[k];
    }
    forall e | e in entries ensures exists k :: 0 <= k < |r| && r[k].0 == e.kind {
      var i :| 0 <= i < |keys| && keys[i] == e.kind;
      assert items[i] in r;
      var k :| 0 <= k < |r| && r[k] == items[i];
    }
  }

  // ------------------------------------------------------------ lookup by hash

  /** The position of the first entry with the given hash. */
  function FirstWithHash(entries: seq<Entry>, hash: Entry -> string, h: string): (r: Option<nat>)
    ensures r.Some? ==>
      && r.value < |entries| && hash(entries[r.value]) == h
      && forall j :: 0 <= j < r.value ==> hash(entries[j]) != h
    ensures r.None? ==> forall j :: 0 <= j < |entries| ==> hash(entries[j]) != h
  {
    if entries == [] then None
    else if hash(entries[0]) == h then Some(0)
    else match FirstWithHash(entries[1..], hash, h)
      case None => None
      case Some(i) => Some(i + 1)
  }

  /** The first entry whose hash is `h`, or the lookup error. `hash` stands
      for beancount's `hash_entry`. */
  function GetEntry(entries: seq<Entry>, hash: Entry -> string, h: string): (r: Result<Entry, string>)
    ensures r.Ok? <==> exists e :: e in entries && hash(e) == h
    ensures r.Ok? ==>
      && hash(r.value) == h
      && exists i :: 0 <= i < |entries| && entries[i] == r.value && forall j :: 0 <= j < i ==> hash(entries[j]) != h
    ensures r.Err? ==> r.error == "No entry found for hash \"" + h + "\""
  {
    match FirstWithHash(entries, hash, h)
    case Some(i) => Ok(entries[i])
    case None => Err("No entry found for hash \"" + h + "\"")
  }
}
