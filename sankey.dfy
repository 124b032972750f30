/** `SankeyTree`: a depth-first walk over the realised account tree that gives
    every visited account a numeric id and emits one link per kept parent-child
    edge. The walk is specified by the pure function `Walk`, which returns what
    the walk adds to the tree's five collections; the class's methods are
    proved to add exactly that. */
module Sankey {
  import opened Wrappers
  import opened Strings
  import opened Sorting

  /** A realised account: its name, the CNY number of its balance, and its
      children in the order the realisation lists them. */
  datatype Node = Node(account: string, balance: real, children: seq<Node>)

  /** `SankeyTreeEdge`: parent account, child account, weight and the child. */
  datatype Edge = Edge(u: string, v: string, weight: real, child: Node)

  /** One entry `[u, v, w]` of `links_`. */
  datatype Link = Link(source: string, target: string, weight: real)

  /** The `prune` and `collapse` callbacks the tree is built with. */
  datatype Policy = Policy(prune: Edge -> bool, collapse: Edge -> bool)

  /** The tree's five collections: `name_id_`, `id_name_`, `balance_map_`,
      `links_` and `nodes_`. */
  datatype Out = Out(nameId: map<string, nat>, idName: map<nat, string>,
                     balance: map<string, real>, links: seq<Link>, nodes: set<string>)

  const Empty := Out(map[], map[], map[], [], {})

  function Abs(x: real): real
  {
    if x < 0.0 then -x else x
  }

  /** `get_balance`: the absolute CNY number of an account's balance. */
  function GetBalance(n: Node): (w: real)
    ensures w >= 0.0
    ensures w == n.balance || w == -n.balance
  {
    Abs(n.balance)
  }

  /** `prune_default`: keeps every edge. */
  function PruneDefault(e: Edge): bool
  {
    false
  }

  /** `collapse_default`: collapses no edge. */
  function CollapseDefault(e: Edge): bool
  {
    false
  }

  const DefaultPolicy := Policy(PruneDefault, CollapseDefault)

  /** `encode_name(id, account)`: the id in decimal, an underscore, the account. */
  function EncodeName(id: nat, account: string): string
  {
    NatToString(id) + "_" + account
  }

  /** The first position of `c` in `s`, or `|s|` when there is none. */
  function Find(s: string, c: char): (k: nat)
    ensures k <= |s| && (k < |s| ==> s[k] == c)
    ensures forall j :: 0 <= j < k ==> s[j] != c
  {
    if s == [] then 0 else if s[0] == c then 0 else 1 + Find(s[1..], c)
  }

  /** Reads an encoded name back: the digits before the first underscore, and
      everything after it. */
  function DecodeName(s: string): Option<(nat, string)>
  {
    var k := Find(s, '_');
    if 0 < k < |s| && AllDigits(s[..k]) then Some((ParseNat(s[..k]), s[k + 1..])) else None
  }

  /** Decoding an encoded name gives back the id and the account, so two
      different (id, account) pairs never share a node name. */
  lemma EncodeNameRoundTrip(id: nat, account: string)
    ensures DecodeName(EncodeName(id, account)) == Some((id, account))
  {
    var d := NatToString(id);
    var s := EncodeName(id, account);
    FindAfterDigits(d, account);
    assert s[..|d|] == d;
    assert s[|d| + 1..] == account;
    ParseNatToString(id);
  }

  lemma {:induction false} FindAfterDigits(d: string, a: string)
    requires AllDigits(d)
    ensures Find(d + "_" + a, '_') == |d|
    decreases |d|
  {
    if d != [] {
      assert (d + "_" + a)[1..] == d[1..] + "_" + a;
      FindAfterDigits(d[1..], a);
    } else {
      assert (d + "_" + a)[0] == '_';
    }
  }

  /** The id prefix of an encoded name neither creates nor hides an occurrence of
      a word that starts with a letter, so `"Income" in u` tests the account. */
  lemma EncodedContains(id: nat, account: string, word: string)
    requires |word| > 0 && !('0' <= word[0] <= '9') && word[0] != '_'
    ensures Contains(EncodeName(id, account), word) <==> Contains(account, word)
  {
    var p := NatToString(id) + "_";
    assert EncodeName(id, account) == p + account;
    ContainsAfterPrefix(p, account, word);
  }

  /** `add_results(id, nid, edge)`: the links it appends. An edge out of an
      "Income" or "Asset" account is emitted child-to-parent; an edge out of the
      nameless root is dropped; every other edge is emitted parent-to-child. */
  function Results(id: nat, nid: nat, e: Edge): seq<Link>
  {
    var u := EncodeName(id, e.u);
    var v := EncodeName(nid, e.v);
    if Contains(u, "Income") || Contains(u, "Asset") then [Link(v, u, e.weight)]
    else if |e.u| == 0 then []
    else [Link(u, v, e.weight)]
  }

  /** The direction of an emitted link depends only on the parent's account
      name, and edges out of the root are never emitted. */
  lemma ResultsDirection(id: nat, nid: nat, e: Edge)
    ensures |e.u| == 0 ==> Results(id, nid, e) == []
    ensures |e.u| > 0 && (Contains(e.u, "Income") || Contains(e.u, "Asset")) ==>
      Results(id, nid, e) == [Link(EncodeName(nid, e.v), EncodeName(id, e.u), e.weight)]
    ensures |e.u| > 0 && !Contains(e.u, "Income") && !Contains(e.u, "Asset") ==>
      Results(id, nid, e) == [Link(EncodeName(id, e.u), EncodeName(nid, e.v), e.weight)]
  {
    EncodedContains(id, e.u, "Income");
    EncodedContains(id, e.u, "Asset");
    if |e.u| == 0 {
      NotContainsWithoutFirstChar("", "Income");
      NotContainsWithoutFirstChar("", "Asset");
    }
  }

  /** The order `sorted(children, key=get_balance, reverse=True)` visits: heavier
      children first, equal weights in their original order (the sort is stable). */
  function HeavierFirst(cs: seq<Node>): (nat, nat) -> bool
  {
    (a: nat, b: nat) =>
      if a < |cs| && b < |cs| then
        GetBalance(cs[a]) > GetBalance(cs[b]) || (GetBalance(cs[a]) == GetBalance(cs[b]) && a < b)
      else a < b
  }

  lemma HeavierFirstIsTotal(cs: seq<Node>)
    ensures StrictTotalOrder(|cs|, HeavierFirst(cs))
  {
  }

  /** The positions of `n`'s children in the order the walk visits them. */
  function ChildOrder(n: Node): (order: seq<nat>)
    ensures Below(order, |n.children|)
  {
    HeavierFirstIsTotal(n.children);
    SortIndices(|n.children|, HeavierFirst(n.children))
  }

  /** The walk visits every child exactly once, heavier children first and
      children of equal weight in their original order. */
  lemma ChildOrderSorted(n: Node)
    ensures |ChildOrder(n)| == |n.children|
    ensures forall i :: 0 <= i < |n.children| ==> i in ChildOrder(n)
    ensures forall a, b :: 0 <= a < b < |ChildOrder(n)| ==>
      var x, y := n.children[ChildOrder(n)[a]], n.children[ChildOrder(n)[b]];
      GetBalance(x) > GetBalance(y) || (GetBalance(x) == GetBalance(y) && ChildOrder(n)[a] < ChildOrder(n)[b])
  {
    HeavierFirstIsTotal(n.children);
    var order := SortIndices(|n.children|, HeavierFirst(n.children));
    SortIndicesSorted(|n.children|, HeavierFirst(n.children));
    assert order == ChildOrder(n);
    forall a, b | 0 <= a < b < |order|
      ensures var x, y := n.children[order[a]], n.children[order[b]];
        GetBalance(x) > GetBalance(y) || (GetBalance(x) == GetBalance(y) && order[a] < order[b])
    {
      assert HeavierFirst(n.children)(order[a], order[b]);
    }
  }

  /** Any arrangement of the children that lists each once, heavier first and
      ties in their original order, is the walk's order: the stable descending
      sort has exactly one result. */
  lemma ChildOrderUnique(n: Node, r: seq<nat>)
    requires Below(r, |n.children|)
    requires forall i :: 0 <= i < |n.children| ==> i in r
    requires forall a, b :: 0 <= a < b < |r| ==>
      var x, y := n.children[r[a]], n.children[r[b]];
      GetBalance(x) > GetBalance(y) || (GetBalance(x) == GetBalance(y) && r[a] < r[b])
    ensures r == ChildOrder(n)
  {
    var order := ChildOrder(n);
    var less := HeavierFirst(n.children);
    HeavierFirstIsTotal(n.children);
    ChildOrderSorted(n);
    SortIndicesSorted(|n.children|, less);
    assert SortedBy(r, less);
    assert SortedBy(order, less);
    forall i ensures i in r <==> i in order {
      if i in r {
        var a :| 0 <= a < |r| && r[a] == i;
      }
      if i in order {
        var a :| 0 <= a < |order| && order[a] == i;
      }
    }
    SortedUnique(r, order, |n.children|, less);
  }

  /** One write `dfs` makes: `name_id_[account] = id` together with
      `id_name_[id] = account`; `balance_map_[account] = weight`; or a call of
      `add_results(parent, nid, edge)`. */
  datatype Write =
    | SetId(account: string, id: nat)
    | SetWeight(account: string, weight: real)
    | AddResult(parent: nat, nid: nat, edge: Edge)

  /** `dfs(n, id)`, as the writes it makes in order: name `n`, then walk its
      children heavier first. */
  function Walk(n: Node, id: nat, p: Policy): seq<Write>
    decreases n, 1, 0
  {
    [SetId(n.account, id)] + WalkFrom(n, ChildOrder(n), 0, id, 0, p)
  }

  /** The rest of `dfs`'s loop from the `j`-th child in `order`, with `i`
      children kept so far. Every child's weight is recorded; a pruned or
      collapsed child stops there; a kept child gets id `id * 100 + i`, its
      results, and its own walk. */
  function WalkFrom(n: Node, order: seq<nat>, j: nat, id: nat, i: nat, p: Policy): seq<Write>
    requires j <= |order| && Below(order, |n.children|)
    decreases n, 0, |order| - j
  {
    if j == |order| then []
    else
      var child := n.children[order[j]];
      var w := GetBalance(child);
      var e := Edge(n.account, child.account, w, child);
      [SetWeight(child.account, w)] +
        if p.prune(e) || p.collapse(e) then WalkFrom(n, order, j + 1, id, i, p)
        else
          var nid := ChildId(id, i);
          [AddResult(id, nid, e)] + (Walk(child, nid, p) + WalkFrom(n, order, j + 1, id, i + 1, p))
  }

  /** The effect of one write on the collections. */
  function Apply(o: Out, w: Write): Out
  {
    match w
    case SetId(a, k) => o.(nameId := o.nameId[a := k], idName := o.idName[k := a])
    case SetWeight(a, x) => o.(balance := o.balance[a := x])
    case AddResult(id, nid, e) =>
      var ls := Results(id, nid, e);
      o.(links := o.links + ls, nodes := o.nodes + Ends(ls))
  }

  /** The collections after the writes `ws`, made in order. */
  function Perform(o: Out, ws: seq<Write>): Out
    decreases |ws|
  {
    if ws == [] then o else Perform(Apply(o, ws[0]), ws[1..])
  }

  lemma PerformCons(o: Out, w: Write, ws: seq<Write>)
    ensures Perform(o, [w] + ws) == Perform(Apply(o, w), ws)
  {
    assert ([w] + ws)[1..] == ws;
  }

  lemma {:induction false} PerformConcat(o: Out, a: seq<Write>, b: seq<Write>)
    ensures Perform(o, a + b) == Perform(Perform(o, a), b)
    decreases |a|
  {
    if a == [] {
      assert a + b == b;
    } else {
      assert a + b == [a[0]] + (a[1..] + b);
      PerformCons(o, a[0], a[1..] + b);
      PerformConcat(Apply(o, a[0]), a[1..], b);
    }
  }

  /** The names a list of links mentions. */
  function Ends(ls: seq<Link>): set<string>
  {
    if ls == [] then {} else {ls[0].source, ls[0].target} + Ends(ls[1..])
  }

  lemma {:induction false} EndsConcat(a: seq<Link>, b: seq<Link>)
    ensures Ends(a + b) == Ends(a) + Ends(b)
    decreases |a|
  {
    if a != [] {
      assert (a + b)[1..] == a[1..] + b;
      EndsConcat(a[1..], b);
    } else {
      assert a + b == b;
    }
  }

  /** `nodes_` holds exactly the names the links mention, and every link weight
      and every recorded balance is non-negative. */
  ghost predicate Sound(o: Out)
  {
    && o.nodes == Ends(o.links)
    && (forall k :: 0 <= k < |o.links| ==> o.links[k].weight >= 0.0)
    && (forall a :: a in o.balance ==> o.balance[a] >= 0.0)
  }

  /** A write that records a weight, or emits an edge, uses a non-negative one. */
  predicate NonNegative(w: Write)
  {
    && (w.SetWeight? ==> w.weight >= 0.0)
    && (w.AddResult? ==> w.edge.weight >= 0.0)
  }

  /** Writes with non-negative weights keep the collections sound. */
  lemma {:induction false} PerformSound(o: Out, ws: seq<Write>)
    requires Sound(o)
    requires forall w :: w in ws ==> NonNegative(w)
    ensures Sound(Perform(o, ws))
    decreases |ws|
  {
    if ws != [] {
      var o' := Apply(o, ws[0]);
      assert NonNegative(ws[0]);
      if ws[0].AddResult? {
        var ls := Results(ws[0].parent, ws[0].nid, ws[0].edge);
        EndsConcat(o.links, ls);
        forall k | 0 <= k < |o'.links| ensures o'.links[k].weight >= 0.0 {
          if k >= |o.links| {
            assert o'.links[k] == ls[k - |o.links|];
          }
        }
      }
      assert Sound(o');
      forall w | w in ws[1..] ensures NonNegative(w) {
        assert w in ws;
      }
      PerformSound(o', ws[1..]);
    }
  }

  /** The accounts the writes `ws` give an id to. */
  function Named(ws: seq<Write>): set<string>
  {
    if ws == [] then {}
    else (if ws[0].SetId? then {ws[0].account} else {}) + Named(ws[1..])
  }

  /** The accounts the writes `ws` record a weight for. */
  function Weighed(ws: seq<Write>): set<string>
  {
    if ws == [] then {}
    else (if ws[0].SetWeight? then {ws[0].account} else {}) + Weighed(ws[1..])
  }

  /** Dictionary keys only accumulate: after the writes, `name_id_` holds the
      accounts it held plus those named, and `balance_map_` those it held plus
      those weighed. */
  lemma {:induction false} PerformKeys(o: Out, ws: seq<Write>)
    ensures Perform(o, ws).nameId.Keys == o.nameId.Keys + Named(ws)
    ensures Perform(o, ws).balance.Keys == o.balance.Keys + Weighed(ws)
    decreases |ws|
  {
    if ws != [] {
      PerformKeys(Apply(o, ws[0]), ws[1..]);
    }
  }

  /** An id no later write reuses keeps its account. */
  lemma {:induction false} PerformKeepsId(o: Out, ws: seq<Write>, k: nat)
    requires k in o.idName
    requires IdsAbove(ws, k)
    ensures k in Perform(o, ws).idName && Perform(o, ws).idName[k] == o.idName[k]
    decreases |ws|
  {
    if ws != [] {
      PerformKeepsId(Apply(o, ws[0]), ws[1..], k);
    }
  }

  lemma {:induction false} WalkNonNegative(n: Node, id: nat, p: Policy)
    ensures forall w :: w in Walk(n, id, p) ==> NonNegative(w)
    decreases n, 1, 0
  {
    WalkFromNonNegative(n, ChildOrder(n), 0, id, 0, p);
  }

  lemma {:induction false} WalkFromNonNegative(n: Node, order: seq<nat>, j: nat, id: nat, i: nat, p: Policy)
    requires j <= |order| && Below(order, |n.children|)
    ensures forall w :: w in WalkFrom(n, order, j, id, i, p) ==> NonNegative(w)
    decreases n, 0, |order| - j
  {
    if j < |order| {
      var child := n.children[order[j]];
      var e := Edge(n.account, child.account, GetBalance(child), child);
      if p.prune(e) || p.collapse(e) {
        WalkFromNonNegative(n, order, j + 1, id, i, p);
      } else {
        WalkFromNonNegative(n, order, j + 1, id, i + 1, p);
        WalkNonNegative(child, ChildId(id, i), p);
      }
    }
  }

  /** Whatever the callbacks, a walk keeps `nodes_` equal to the set of names the
      links mention, and keeps link weights and recorded balances non-negative. */
  lemma WalkSound(o: Out, n: Node, id: nat, p: Policy)
    requires Sound(o)
    ensures Sound(Perform(o, Walk(n, id, p)))
  {
    WalkNonNegative(n, id, p);
    PerformSound(o, Walk(n, id, p));
  }

  /** Ids grow downwards: a walk from a positive `id` names accounts only with
      ids of at least `id`, and only `n` itself with `id`. */
  /** Every id the writes `ws` hand out is above `id`. */
  predicate IdsAbove(ws: seq<Write>, id: nat)
    decreases |ws|
  {
    ws == [] || ((ws[0].SetId? ==> ws[0].id > id) && IdsAbove(ws[1..], id))
  }

  lemma {:induction false} IdsAboveConcat(a: seq<Write>, b: seq<Write>, id: nat)
    ensures IdsAbove(a + b, id) <==> IdsAbove(a, id) && IdsAbove(b, id)
    decreases |a|
  {
    if a != [] {
      assert (a + b)[1..] == a[1..] + b;
      IdsAboveConcat(a[1..], b, id);
    } else {
      assert a + b == b;
    }
  }

  lemma {:induction false} IdsAboveLower(ws: seq<Write>, hi: nat, lo: nat)
    requires hi >= lo && IdsAbove(ws, hi)
    ensures IdsAbove(ws, lo)
    decreases |ws|
  {
    if ws != [] {
      IdsAboveLower(ws[1..], hi, lo);
    }
  }

  lemma {:induction false} WalkIdsAbove(n: Node, id: nat, p: Policy)
    requires id >= 1
    ensures IdsAbove(WalkFrom(n, ChildOrder(n), 0, id, 0, p), id)
    decreases n, 1, 0
  {
    WalkFromIdsAbove(n, ChildOrder(n), 0, id, 0, p);
  }

  lemma {:induction false} WalkFromIdsAbove(n: Node, order: seq<nat>, j: nat, id: nat, i: nat, p: Policy)
    requires id >= 1
    requires j <= |order| && Below(order, |n.children|)
    ensures IdsAbove(WalkFrom(n, order, j, id, i, p), id)
    decreases n, 0, |order| - j
  {
    if j < |order| {
      if p.prune(ChildEdge(n, order[j])) || p.collapse(ChildEdge(n, order[j])) {
        WalkFromSkip(n, order, j, id, i, p);
        WalkFromIdsAbove(n, order, j + 1, id, i, p);
        IdsAboveConcat([SetWeight(ChildEdge(n, order[j]).v, ChildEdge(n, order[j]).weight)], WalkFrom(n, order, j + 1, id, i, p), id);
      } else {
        KeptIdsAbove(n, order, j, id, i, p);
      }
    }
  }

  /** A walk from a larger id hands out only ids above a smaller one. */
  lemma ChildWalkIdsAbove(c: Node, nid: nat, id: nat, p: Policy)
    requires nid > id >= 1
    ensures IdsAbove(Walk(c, nid, p), id)
    decreases c, 2
  {
    WalkIdsAbove(c, nid, p);
    IdsAboveLower(WalkFrom(c, ChildOrder(c), 0, nid, 0, p), nid, id);
    IdsAboveConcat([SetId(c.account, nid)], WalkFrom(c, ChildOrder(c), 0, nid, 0, p), id);
  }

  /** The ids a kept child's step hands out are above its parent's id. */
  lemma {:induction false} KeptIdsAbove(n: Node, order: seq<nat>, j: nat, id: nat, i: nat, p: Policy)
    requires id >= 1
    requires j < |order| && Below(order, |n.children|)
    requires !(p.prune(ChildEdge(n, order[j])) || p.collapse(ChildEdge(n, order[j])))
    ensures IdsAbove(WalkFrom(n, order, j, id, i, p), id)
    decreases n, 0, |order| - j, 0
  {
    WalkFromKeep(n, order, j, id, i, p);
    WalkFromIdsAbove(n, order, j + 1, id, i + 1, p);
    ChildWalkIdsAbove(ChildEdge(n, order[j]).child, ChildId(id, i), id, p);
    IdsAboveConcat(Walk(ChildEdge(n, order[j]).child, ChildId(id, i), p), WalkFrom(n, order, j + 1, id, i + 1, p), id);
    IdsAboveConcat([AddResult(id, ChildId(id, i), ChildEdge(n, order[j]))],
      Walk(ChildEdge(n, order[j]).child, ChildId(id, i), p) + WalkFrom(n, order, j + 1, id, i + 1, p), id);
    IdsAboveConcat([SetWeight(ChildEdge(n, order[j]).v, ChildEdge(n, order[j]).weight)],
      [AddResult(id, ChildId(id, i), ChildEdge(n, order[j]))]
        + (Walk(ChildEdge(n, order[j]).child, ChildId(id, i), p) + WalkFrom(n, order, j + 1, id, i + 1, p)), id);
  }

  /** After a walk from a positive id, `id_name_[id]` is the walked account:
      no descendant is handed the same id. */
  lemma WalkKeepsOwnId(o: Out, n: Node, id: nat, p: Policy)
    requires id >= 1
    ensures id in Perform(o, Walk(n, id, p)).idName
    ensures Perform(o, Walk(n, id, p)).idName[id] == n.account
  {
    var rest := WalkFrom(n, ChildOrder(n), 0, id, 0, p);
    PerformCons(o, SetId(n.account, id), rest);
    WalkIdsAbove(n, id, p);
    PerformKeepsId(Apply(o, SetId(n.account, id)), rest, id);
  }

  lemma {:induction false} WeighedConcat(a: seq<Write>, b: seq<Write>)
    ensures Weighed(a + b) == Weighed(a) + Weighed(b)
    decreases |a|
  {
    if a != [] {
      assert (a + b)[1..] == a[1..] + b;
      WeighedConcat(a[1..], b);
    } else {
      assert a + b == b;
    }
  }

  /** The rest of the loop records the weight of every child still ahead of it. */
  lemma {:induction false} WalkFromWeighs(n: Node, order: seq<nat>, j: nat, id: nat, i: nat, p: Policy, k: nat)
    requires j <= k < |order| && Below(order, |n.children|)
    ensures ChildEdge(n, order[k]).v in Weighed(WalkFrom(n, order, j, id, i, p))
    decreases k - j
  {
    var head := [SetWeight(ChildEdge(n, order[j]).v, ChildEdge(n, order[j]).weight)];
    assert Weighed(head) == {ChildEdge(n, order[j]).v};
    if p.prune(ChildEdge(n, order[j])) || p.collapse(ChildEdge(n, order[j])) {
      WalkFromSkip(n, order, j, id, i, p);
      WeighedConcat(head, WalkFrom(n, order, j + 1, id, i, p));
      if k > j {
        WalkFromWeighs(n, order, j + 1, id, i, p, k);
      }
    } else {
      WalkFromKeep(n, order, j, id, i, p);
      WeighedConcat(head, [AddResult(id, ChildId(id, i), ChildEdge(n, order[j]))]
        + (Walk(ChildEdge(n, order[j]).child, ChildId(id, i), p) + WalkFrom(n, order, j + 1, id, i + 1, p)));
      if k > j {
        WalkFromWeighs(n, order, j + 1, id, i + 1, p, k);
        WeighedConcat([AddResult(id, ChildId(id, i), ChildEdge(n, order[j]))],
          Walk(ChildEdge(n, order[j]).child, ChildId(id, i), p) + WalkFrom(n, order, j + 1, id, i + 1, p));
        WeighedConcat(Walk(ChildEdge(n, order[j]).child, ChildId(id, i), p), WalkFrom(n, order, j + 1, id, i + 1, p));
      }
    }
  }

  /** Every child of a walked account gets its weight in `balance_map_`,
      pruned and collapsed children included. */
  lemma WalkRecordsChildren(o: Out, n: Node, id: nat, p: Policy)
    ensures forall c :: c in n.children ==> c.account in Perform(o, Walk(n, id, p)).balance
  {
    var order := ChildOrder(n);
    ChildOrderSorted(n);
    PerformKeys(o, Walk(n, id, p));
    WeighedConcat([SetId(n.account, id)], WalkFrom(n, order, 0, id, 0, p));
    forall c | c in n.children ensures c.account in Weighed(Walk(n, id, p)) {
      var x :| 0 <= x < |n.children| && n.children[x] == c;
      assert x in order;
      var k :| 0 <= k < |order| && order[k] == x;
      WalkFromWeighs(n, order, 0, id, 0, p, k);
    }
  }

  /** Every account name in the tree rooted at `n`. */
  function Accounts(n: Node): set<string>
    decreases n, 1
  {
    {n.account} + ChildAccounts(n, 0)
  }

  /** The account names under the children of `n` from position `k` on. */
  function ChildAccounts(n: Node, k: nat): set<string>
    requires k <= |n.children|
    decreases n, 0, |n.children| - k
  {
    if k == |n.children| then {} else Accounts(n.children[k]) + ChildAccounts(n, k + 1)
  }

  /** The account names under the children `order[j..]`. */
  function OrderedAccounts(n: Node, order: seq<nat>, j: nat): set<string>
    requires j <= |order| && Below(order, |n.children|)
    decreases |order| - j
  {
    if j == |order| then {} else Accounts(n.children[order[j]]) + OrderedAccounts(n, order, j + 1)
  }

  lemma {:induction false} ChildAccountsMember(n: Node, k: nat, a: string)
    requires k <= |n.children|
    ensures a in ChildAccounts(n, k) <==> exists x :: k <= x < |n.children| && a in Accounts(n.children[x])
    decreases |n.children| - k
  {
    if k < |n.children| {
      ChildAccountsMember(n, k + 1, a);
    }
  }

  lemma {:induction false} OrderedAccountsMember(n: Node, order: seq<nat>, j: nat, a: string)
    requires j <= |order| && Below(order, |n.children|)
    ensures a in OrderedAccounts(n, order, j) <==> exists y :: j <= y < |order| && a in Accounts(n.children[order[y]])
    decreases |order| - j
  {
    if j < |order| {
      OrderedAccountsMember(n, order, j + 1, a);
    }
  }

  /** Visiting the children in any order that lists each one collects the same
      account names. */
  lemma OrderedIsChildAccounts(n: Node, order: seq<nat>)
    requires Below(order, |n.children|)
    requires forall x :: 0 <= x < |n.children| ==> x in order
    ensures OrderedAccounts(n, order, 0) == ChildAccounts(n, 0)
  {
    forall a ensures a in OrderedAccounts(n, order, 0) <==> a in ChildAccounts(n, 0) {
      OrderedAccountsMember(n, order, 0, a);
      ChildAccountsMember(n, 0, a);
      if a in ChildAccounts(n, 0) {
        var x :| 0 <= x < |n.children| && a in Accounts(n.children[x]);
        assert x in order;
        var y :| 0 <= y < |order| && order[y] == x;
        assert a in Accounts(n.children[order[y]]);
      }
    }
  }

  /** With the default callbacks a walk names `a` exactly when `a` is an
      account of the tree. */
  lemma {:induction false} DefaultWalkNamesMember(n: Node, id: nat, a: string)
    ensures a in Named(Walk(n, id, DefaultPolicy)) <==> a in Accounts(n)
    decreases n, 1, 0
  {
    ChildOrderSorted(n);
    DefaultWalkFromNamesMember(n, ChildOrder(n), 0, id, 0, a);
    NamedConcat([SetId(n.account, id)], WalkFrom(n, ChildOrder(n), 0, id, 0, DefaultPolicy));
    assert Named([SetId(n.account, id)]) == {n.account};
    OrderedIsChildAccounts(n, ChildOrder(n));
  }

  lemma {:induction false} DefaultWalkFromNamesMember(n: Node, order: seq<nat>, j: nat, id: nat, i: nat, a: string)
    requires j <= |order| && Below(order, |n.children|)
    ensures a in Named(WalkFrom(n, order, j, id, i, DefaultPolicy)) <==> a in OrderedAccounts(n, order, j)
    decreases n, 0, |order| - j
  {
    if j < |order| {
      DefaultStepNames(n, order, j, id, i, a);
      DefaultWalkNamesMember(n.children[order[j]], ChildId(id, i), a);
      DefaultWalkFromNamesMember(n, order, j + 1, id, i + 1, a);
    } else {
      assert WalkFrom(n, order, j, id, i, DefaultPolicy) == [];
    }
  }

  /** With the default callbacks, one step of the loop names exactly the
      accounts its child's walk names. */
  lemma DefaultStepNames(n: Node, order: seq<nat>, j: nat, id: nat, i: nat, a: string)
    requires j < |order| && Below(order, |n.children|)
    ensures a in Named(WalkFrom(n, order, j, id, i, DefaultPolicy))
        <==> a in Named(Walk(n.children[order[j]], ChildId(id, i), DefaultPolicy))
             || a in Named(WalkFrom(n, order, j + 1, id, i + 1, DefaultPolicy))
  {
    var child := n.children[order[j]];
    var w := GetBalance(child);
    var e := Edge(n.account, child.account, w, child);
    var nid := ChildId(id, i);
    var sub := Walk(child, nid, DefaultPolicy);
    var rest := WalkFrom(n, order, j + 1, id, i + 1, DefaultPolicy);
    assert !DefaultPolicy.prune(e) && !DefaultPolicy.collapse(e);
    assert WalkFrom(n, order, j, id, i, DefaultPolicy) == [SetWeight(child.account, w)] + ([AddResult(id, nid, e)] + (sub + rest));
    NamedPrefix(SetWeight(child.account, w), AddResult(id, nid, e), sub, rest);
  }

  /** With the default callbacks a walk names every account of the tree and no other. */
  lemma DefaultWalkNames(n: Node, id: nat)
    ensures Named(Walk(n, id, DefaultPolicy)) == Accounts(n)
  {
    forall a ensures a in Named(Walk(n, id, DefaultPolicy)) <==> a in Accounts(n) {
      DefaultWalkNamesMember(n, id, a);
    }
  }

  /** Writes that name nobody add nothing to the named accounts. */
  lemma NamedPrefix(w1: Write, w2: Write, a: seq<Write>, b: seq<Write>)
    requires !w1.SetId? && !w2.SetId?
    ensures Named([w1] + ([w2] + (a + b))) == Named(a) + Named(b)
  {
    var ws := [w1] + ([w2] + (a + b));
    assert ws[1..] == [w2] + (a + b);
    assert ws[1..][1..] == a + b;
    NamedConcat(a, b);
  }

  lemma {:induction false} NamedConcat(a: seq<Write>, b: seq<Write>)
    ensures Named(a + b) == Named(a) + Named(b)
  {
    if a == [] {
      assert a + b == b;
    } else {
      NamedConcat(a[1..], b);
      assert (a + b)[1..] == a[1..] + b;
    }
  }

  /** With the default callbacks nothing is pruned or collapsed, so a walk
      gives an id to every account of the tree and to no other. */
  lemma DefaultWalkNamesAll(o: Out, n: Node, id: nat)
    ensures Perform(o, Walk(n, id, DefaultPolicy)).nameId.Keys == o.nameId.Keys + Accounts(n)
  {
    PerformKeys(o, Walk(n, id, DefaultPolicy));
    DefaultWalkNames(n, id);
  }

  /** The edge from `n` to its `k`-th child, weighed by `get_balance`. */
  function ChildEdge(n: Node, k: nat): (e: Edge)
    requires k < |n.children|
    ensures e.child == n.children[k] && e.u == n.account && e.v == e.child.account
    ensures e.weight == GetBalance(e.child)
  {
    Edge(n.account, n.children[k].account, GetBalance(n.children[k]), n.children[k])
  }

  /** `nid = id * 100 + i`: the id of the `i`-th kept child of the account with id `id`. */
  function ChildId(id: nat, i: nat): nat
  {
    id * 100 + i
  }

  /** `WalkFrom` at a pruned or collapsed child. */
  lemma WalkFromSkip(n: Node, order: seq<nat>, j: nat, id: nat, i: nat, p: Policy)
    requires j < |order| && Below(order, |n.children|)
    requires p.prune(ChildEdge(n, order[j])) || p.collapse(ChildEdge(n, order[j]))
    ensures WalkFrom(n, order, j, id, i, p)
         == [SetWeight(ChildEdge(n, order[j]).v, ChildEdge(n, order[j]).weight)] + WalkFrom(n, order, j + 1, id, i, p)
  {
  }

  /** `WalkFrom` at a kept child. */
  lemma WalkFromKeep(n: Node, order: seq<nat>, j: nat, id: nat, i: nat, p: Policy)
    requires j < |order| && Below(order, |n.children|)
    requires !(p.prune(ChildEdge(n, order[j])) || p.collapse(ChildEdge(n, order[j])))
    ensures WalkFrom(n, order, j, id, i, p)
         == [SetWeight(ChildEdge(n, order[j]).v, ChildEdge(n, order[j]).weight)]
            + ([AddResult(id, ChildId(id, i), ChildEdge(n, order[j]))]
               + (Walk(ChildEdge(n, order[j]).child, ChildId(id, i), p) + WalkFrom(n, order, j + 1, id, i + 1, p)))
  {
  }

  /** A pruned or collapsed child: only its weight is recorded. */
  lemma PerformSkipped(o: Out, n: Node, order: seq<nat>, j: nat, id: nat, i: nat, p: Policy)
    requires j < |order| && Below(order, |n.children|)
    requires p.prune(ChildEdge(n, order[j])) || p.collapse(ChildEdge(n, order[j]))
    ensures Perform(o, WalkFrom(n, order, j, id, i, p))
         == Perform(Apply(o, SetWeight(ChildEdge(n, order[j]).v, ChildEdge(n, order[j]).weight)),
                    WalkFrom(n, order, j + 1, id, i, p))
  {
    var e := ChildEdge(n, order[j]);
    WalkFromSkip(n, order, j, id, i, p);
    PerformCons(o, SetWeight(e.v, e.weight), WalkFrom(n, order, j + 1, id, i, p));
  }

  /** A kept child: its weight, its results, then its own walk. */
  lemma PerformKept(o: Out, n: Node, order: seq<nat>, j: nat, id: nat, i: nat, p: Policy)
    requires j < |order| && Below(order, |n.children|)
    requires !(p.prune(ChildEdge(n, order[j])) || p.collapse(ChildEdge(n, order[j])))
    ensures Perform(o, WalkFrom(n, order, j, id, i, p))
         == Perform(Perform(Apply(Apply(o, SetWeight(ChildEdge(n, order[j]).v, ChildEdge(n, order[j]).weight)),
                                  AddResult(id, ChildId(id, i), ChildEdge(n, order[j]))),
                            Walk(ChildEdge(n, order[j]).child, ChildId(id, i), p)),
                    WalkFrom(n, order, j + 1, id, i + 1, p))
  {
    var e := ChildEdge(n, order[j]);
    var sub := Walk(e.child, ChildId(id, i), p);
    var rest := WalkFrom(n, order, j + 1, id, i + 1, p);
    WalkFromKeep(n, order, j, id, i, p);
    PerformCons(o, SetWeight(e.v, e.weight), [AddResult(id, ChildId(id, i), e)] + (sub + rest));
    PerformCons(Apply(o, SetWeight(e.v, e.weight)), AddResult(id, ChildId(id, i), e), sub + rest);
    PerformConcat(Apply(Apply(o, SetWeight(e.v, e.weight)), AddResult(id, ChildId(id, i), e)), sub, rest);
  }

  // ------------------------------------------- what a walk under any policy reaches

  /** `prune(edge) or collapse(edge)` for the edge to the `k`-th child: `dfs`
      skips that child. */
  predicate Skipped(n: Node, k: nat, p: Policy)
    requires k < |n.children|
  {
    p.prune(ChildEdge(n, k)) || p.collapse(ChildEdge(n, k))
  }

  /** The accounts a walk under `p` reaches, defined on the tree alone: `n`
      itself, and the kept accounts under every child that `p` neither prunes
      nor collapses. */
  function KeptAccounts(n: Node, p: Policy): set<string>
    decreases n, 1
  {
    {n.account} + KeptChildAccounts(n, 0, p)
  }

  /** The kept accounts under the children of `n` from position `k` on. */
  function KeptChildAccounts(n: Node, k: nat, p: Policy): set<string>
    requires k <= |n.children|
    decreases n, 0, |n.children| - k
  {
    if k == |n.children| then {}
    else (if Skipped(n, k, p) then {} else KeptAccounts(n.children[k], p)) + KeptChildAccounts(n, k + 1, p)
  }

  /** The kept accounts under the children `order[j..]`. */
  function OrderedKept(n: Node, order: seq<nat>, j: nat, p: Policy): set<string>
    requires j <= |order| && Below(order, |n.children|)
    decreases |order| - j
  {
    if j == |order| then {}
    else (if Skipped(n, order[j], p) then {} else KeptAccounts(n.children[order[j]], p)) + OrderedKept(n, order, j + 1, p)
  }

  lemma {:induction false} KeptChildAccountsMember(n: Node, k: nat, p: Policy, a: string)
    requires k <= |n.children|
    ensures a in KeptChildAccounts(n, k, p) <==>
      exists x :: k <= x < |n.children| && !Skipped(n, x, p) && a in KeptAccounts(n.children[x], p)
    decreases |n.children| - k
  {
    if k < |n.children| {
      KeptChildAccountsMember(n, k + 1, p, a);
    }
  }

  lemma {:induction false} OrderedKeptMember(n: Node, order: seq<nat>, j: nat, p: Policy, a: string)
    requires j <= |order| && Below(order, |n.children|)
    ensures a in OrderedKept(n, order, j, p) <==>
      exists y :: j <= y < |order| && !Skipped(n, order[y], p) && a in KeptAccounts(n.children[order[y]], p)
    decreases |order| - j
  {
    if j < |order| {
      OrderedKeptMember(n, order, j + 1, p, a);
    }
  }

  /** Visiting the children in any order that lists each one reaches the same
      kept accounts. */
  lemma OrderedIsKeptChildren(n: Node, order: seq<nat>, p: Policy)
    requires Below(order, |n.children|)
    requires forall x :: 0 <= x < |n.children| ==> x in order
    ensures OrderedKept(n, order, 0, p) == KeptChildAccounts(n, 0, p)
  {
    forall a ensures a in OrderedKept(n, order, 0, p) <==> a in KeptChildAccounts(n, 0, p) {
      OrderedKeptMember(n, order, 0, p, a);
      KeptChildAccountsMember(n, 0, p, a);
      if a in KeptChildAccounts(n, 0, p) {
        var x :| 0 <= x < |n.children| && !Skipped(n, x, p) && a in KeptAccounts(n.children[x], p);
        assert x in order;
        var y :| 0 <= y < |order| && order[y] == x;
        assert a in KeptAccounts(n.children[order[y]], p);
      }
    }
  }

  /** Kept accounts are accounts of the tree. */
  lemma {:induction false} KeptWithinAccounts(n: Node, p: Policy)
    ensures KeptAccounts(n, p) <= Accounts(n)
    decreases n, 1
  {
    KeptChildWithin(n, 0, p);
  }

  lemma {:induction false} KeptChildWithin(n: Node, k: nat, p: Policy)
    requires k <= |n.children|
    ensures KeptChildAccounts(n, k, p) <= ChildAccounts(n, k)
    decreases n, 0, |n.children| - k
  {
    if k < |n.children| {
      KeptWithinAccounts(n.children[k], p);
      KeptChildWithin(n, k + 1, p);
    }
  }

  /** Under any callbacks, a walk gives an id to exactly the kept accounts. */
  lemma {:induction false} WalkNamesMember(n: Node, id: nat, p: Policy, a: string)
    ensures a in Named(Walk(n, id, p)) <==> a in KeptAccounts(n, p)
    decreases n, 1, 0
  {
    ChildOrderSorted(n);
    WalkFromNamesMember(n, ChildOrder(n), 0, id, 0, p, a);
    NamedConcat([SetId(n.account, id)], WalkFrom(n, ChildOrder(n), 0, id, 0, p));
    assert Named([SetId(n.account, id)]) == {n.account};
    OrderedIsKeptChildren(n, ChildOrder(n), p);
  }

  lemma {:induction false} WalkFromNamesMember(n: Node, order: seq<nat>, j: nat, id: nat, i: nat, p: Policy, a: string)
    requires j <= |order| && Below(order, |n.children|)
    ensures a in Named(WalkFrom(n, order, j, id, i, p)) <==> a in OrderedKept(n, order, j, p)
    decreases n, 0, |order| - j
  {
    if j < |order| {
      var e := ChildEdge(n, order[j]);
      if Skipped(n, order[j], p) {
        WalkFromSkip(n, order, j, id, i, p);
        NamedConcat([SetWeight(e.v, e.weight)], WalkFrom(n, order, j + 1, id, i, p));
        assert Named([SetWeight(e.v, e.weight)]) == {};
        WalkFromNamesMember(n, order, j + 1, id, i, p, a);
      } else {
        WalkFromKeep(n, order, j, id, i, p);
        NamedPrefix(SetWeight(e.v, e.weight), AddResult(id, ChildId(id, i), e),
          Walk(e.child, ChildId(id, i), p), WalkFrom(n, order, j + 1, id, i + 1, p));
        WalkNamesMember(e.child, ChildId(id, i), p, a);
        WalkFromNamesMember(n, order, j + 1, id, i + 1, p, a);
      }
    } else {
      assert WalkFrom(n, order, j, id, i, p) == [];
    }
  }

  /** Under any callbacks, the accounts a walk names are exactly the kept
      accounts: a pruned or collapsed child's whole subtree is left out. */
  lemma WalkNames(n: Node, id: nat, p: Policy)
    ensures Named(Walk(n, id, p)) == KeptAccounts(n, p)
  {
    forall a ensures a in Named(Walk(n, id, p)) <==> a in KeptAccounts(n, p) {
      WalkNamesMember(n, id, p, a);
    }
  }

  /** The links the writes `ws` append, in order. */
  function LinksOf(ws: seq<Write>): seq<Link>
  {
    if ws == [] then []
    else (if ws[0].AddResult? then Results(ws[0].parent, ws[0].nid, ws[0].edge) else []) + LinksOf(ws[1..])
  }

  /** After the writes, `links_` is the old list with `LinksOf(ws)` appended, and
      `nodes_` gains exactly their ends. */
  lemma {:induction false} PerformLinks(o: Out, ws: seq<Write>)
    ensures Perform(o, ws).links == o.links + LinksOf(ws)
    ensures Perform(o, ws).nodes == o.nodes + Ends(LinksOf(ws))
    decreases |ws|
  {
    if ws != [] {
      var o' := Apply(o, ws[0]);
      var ls := if ws[0].AddResult? then Results(ws[0].parent, ws[0].nid, ws[0].edge) else [];
      PerformLinks(o', ws[1..]);
      assert o'.links == o.links + ls && o'.nodes == o.nodes + Ends(ls);
      AppendAssociates(o.links, ls, LinksOf(ws[1..]));
      EndsConcat(ls, LinksOf(ws[1..]));
    } else {
      assert o.links + [] == o.links;
    }
  }

  /** The accounts at the two ends of the edges the writes pass to `add_results`. */
  function EdgeAccounts(ws: seq<Write>): set<string>
  {
    if ws == [] then {}
    else (if ws[0].AddResult? then {ws[0].edge.u, ws[0].edge.v} else {}) + EdgeAccounts(ws[1..])
  }

  lemma {:induction false} EdgeAccountsConcat(a: seq<Write>, b: seq<Write>)
    ensures EdgeAccounts(a + b) == EdgeAccounts(a) + EdgeAccounts(b)
    decreases |a|
  {
    if a != [] {
      assert (a + b)[1..] == a[1..] + b;
      EdgeAccountsConcat(a[1..], b);
    } else {
      assert a + b == b;
    }
  }

  /** `s` is the encoded name of one of `accounts`. */
  predicate LabelIn(s: string, accounts: set<string>)
  {
    DecodeName(s).Some? && DecodeName(s).value.1 in accounts
  }

  /** Both ends of a link `add_results` emits decode to the edge's accounts. */
  lemma ResultsLabels(id: nat, nid: nat, e: Edge)
    ensures forall l :: l in Results(id, nid, e) ==> LabelIn(l.source, {e.u, e.v}) && LabelIn(l.target, {e.u, e.v})
  {
    EncodeNameRoundTrip(id, e.u);
    EncodeNameRoundTrip(nid, e.v);
  }

  /** Every link the writes emit joins two accounts of the edges they pass on. */
  lemma {:induction false} LinksLabels(ws: seq<Write>)
    ensures forall l :: l in LinksOf(ws) ==> LabelIn(l.source, EdgeAccounts(ws)) && LabelIn(l.target, EdgeAccounts(ws))
    decreases |ws|
  {
    if ws != [] {
      LinksLabels(ws[1..]);
      if ws[0].AddResult? {
        ResultsLabels(ws[0].parent, ws[0].nid, ws[0].edge);
      }
    }
  }

  /** The edges a walk passes to `add_results` join kept accounts only. */
  lemma {:induction false} WalkEdgeAccounts(n: Node, id: nat, p: Policy)
    ensures EdgeAccounts(Walk(n, id, p)) <= KeptAccounts(n, p)
    decreases n, 1, 0
  {
    ChildOrderSorted(n);
    WalkFromEdgeAccounts(n, ChildOrder(n), 0, id, 0, p);
    EdgeAccountsConcat([SetId(n.account, id)], WalkFrom(n, ChildOrder(n), 0, id, 0, p));
    assert EdgeAccounts([SetId(n.account, id)]) == {};
    OrderedIsKeptChildren(n, ChildOrder(n), p);
  }

  lemma {:induction false} WalkFromEdgeAccounts(n: Node, order: seq<nat>, j: nat, id: nat, i: nat, p: Policy)
    requires j <= |order| && Below(order, |n.children|)
    ensures EdgeAccounts(WalkFrom(n, order, j, id, i, p)) <= {n.account} + OrderedKept(n, order, j, p)
    decreases n, 0, |order| - j
  {
    if j < |order| {
      var e := ChildEdge(n, order[j]);
      var head := [SetWeight(e.v, e.weight)];
      assert EdgeAccounts(head) == {};
      if Skipped(n, order[j], p) {
        WalkFromSkip(n, order, j, id, i, p);
        EdgeAccountsConcat(head, WalkFrom(n, order, j + 1, id, i, p));
        WalkFromEdgeAccounts(n, order, j + 1, id, i, p);
      } else {
        var sub := Walk(e.child, ChildId(id, i), p);
        var rest := WalkFrom(n, order, j + 1, id, i + 1, p);
        WalkFromKeep(n, order, j, id, i, p);
        EdgeAccountsConcat(head, [AddResult(id, ChildId(id, i), e)] + (sub + rest));
        EdgeAccountsConcat([AddResult(id, ChildId(id, i), e)], sub + rest);
        assert EdgeAccounts([AddResult(id, ChildId(id, i), e)]) == {e.u, e.v};
        EdgeAccountsConcat(sub, rest);
        WalkEdgeAccounts(e.child, ChildId(id, i), p);
        WalkFromEdgeAccounts(n, order, j + 1, id, i + 1, p);
      }
    } else {
      assert WalkFrom(n, order, j, id, i, p) == [];
    }
  }

  /** Under any callbacks, a walk gives ids to the kept accounts and no
      others, and every link and node it adds is the encoded name of a kept
      account. */
  lemma WalkReaches(o: Out, n: Node, id: nat, p: Policy)
    ensures Perform(o, Walk(n, id, p)).nameId.Keys == o.nameId.Keys + KeptAccounts(n, p)
    ensures Perform(o, Walk(n, id, p)).links == o.links + LinksOf(Walk(n, id, p))
    ensures forall l :: l in LinksOf(Walk(n, id, p)) ==>
      LabelIn(l.source, KeptAccounts(n, p)) && LabelIn(l.target, KeptAccounts(n, p))
    ensures forall s :: s in Perform(o, Walk(n, id, p)).nodes && s !in o.nodes ==> LabelIn(s, KeptAccounts(n, p))
  {
    var ws := Walk(n, id, p);
    PerformKeys(o, ws);
    WalkNames(n, id, p);
    PerformLinks(o, ws);
    LinksLabels(ws);
    WalkEdgeAccounts(n, id, p);
    forall s | s in Perform(o, ws).nodes && s !in o.nodes ensures LabelIn(s, KeptAccounts(n, p)) {
      EndsMember(LinksOf(ws), s);
    }
  }

  lemma {:induction false} EndsMember(ls: seq<Link>, s: string)
    ensures s in Ends(ls) <==> exists l :: l in ls && (s == l.source || s == l.target)
    decreases |ls|
  {
    if ls != [] {
      EndsMember(ls[1..], s);
      if s in Ends(ls[1..]) {
        var l :| l in ls[1..] && (s == l.source || s == l.target);
        assert l in ls;
      }
    }
  }

  /** Realised account names are full names, so each occurs once in the tree. */
  ghost predicate UniqueAccounts(n: Node)
    decreases n
  {
    && (forall k :: 0 <= k < |n.children| ==> n.account !in Accounts(n.children[k]) && UniqueAccounts(n.children[k]))
    && (forall k1, k2 :: 0 <= k1 < k2 < |n.children| ==> Accounts(n.children[k1]) !! Accounts(n.children[k2]))
  }

  /** In a tree whose accounts are distinct, no account under a pruned or
      collapsed child gets an id, a link end or a node from the walk. */
  lemma SkippedSubtreeAbsent(o: Out, n: Node, id: nat, p: Policy, k: nat, a: string)
    requires UniqueAccounts(n)
    requires k < |n.children| && Skipped(n, k, p) && a in Accounts(n.children[k])
    ensures a !in KeptAccounts(n, p)
    ensures a in Perform(o, Walk(n, id, p)).nameId <==> a in o.nameId
    ensures forall l :: l in LinksOf(Walk(n, id, p)) ==> !LabelIn(l.source, {a}) && !LabelIn(l.target, {a})
    ensures forall s :: s in Perform(o, Walk(n, id, p)).nodes && s !in o.nodes ==> !LabelIn(s, {a})
  {
    assert a != n.account;
    KeptChildAccountsMember(n, 0, p, a);
    forall x | 0 <= x < |n.children| && !Skipped(n, x, p) ensures a !in KeptAccounts(n.children[x], p) {
      KeptWithinAccounts(n.children[x], p);
      if x < k {
        assert Accounts(n.children[x]) !! Accounts(n.children[k]);
      } else {
        assert Accounts(n.children[k]) !! Accounts(n.children[x]);
      }
    }
    WalkReaches(o, n, id, p);
  }

  // --------------------------------------------------------------- numbering

  /** How many of the children `order[j..k]` the callbacks keep. */
  function KeptBetween(n: Node, order: seq<nat>, j: nat, k: nat, p: Policy): nat
    requires j <= k <= |order| && Below(order, |n.children|)
    decreases k - j
  {
    if j == k then 0 else (if Skipped(n, order[j], p) then 0 else 1) + KeptBetween(n, order, j + 1, k, p)
  }

  lemma {:induction false} KeptBetweenSplit(n: Node, order: seq<nat>, a: nat, b: nat, c: nat, p: Policy)
    requires a <= b <= c <= |order| && Below(order, |n.children|)
    ensures KeptBetween(n, order, a, c, p) == KeptBetween(n, order, a, b, p) + KeptBetween(n, order, b, c, p)
    decreases b - a
  {
    if a < b {
      KeptBetweenSplit(n, order, a + 1, b, c, p);
    }
  }

  /** From the `j`-th child on, with `i` kept so far, the kept child at `order[k]`
      is numbered `id * 100 + i` plus the number of kept children between. */
  /** From the `j`-th child on, with `i` kept so far, the kept child at
      `order[k]` gets id `nid`: `nid` is `id * 100 + i` plus the number of kept
      children between, the child's edge is passed to `add_results` with `nid`,
      and the child is named with `nid`. */
  ghost predicate Numbered(n: Node, order: seq<nat>, j: nat, id: nat, i: nat, p: Policy, k: nat, nid: nat)
    requires j <= k < |order| && Below(order, |n.children|)
  {
    && nid == ChildId(id, i + KeptBetween(n, order, j, k, p))
    && AddResult(id, nid, ChildEdge(n, order[k])) in WalkFrom(n, order, j, id, i, p)
    && SetId(n.children[order[k]].account, nid) in WalkFrom(n, order, j, id, i, p)
  }

  lemma {:induction false} KeptChildNumbered(n: Node, order: seq<nat>, j: nat, id: nat, i: nat, p: Policy, k: nat)
    returns (nid: nat)
    requires j <= k < |order| && Below(order, |n.children|)
    requires !Skipped(n, order[k], p)
    ensures Numbered(n, order, j, id, i, p, k, nid)
    decreases k - j
  {
    if j == k {
      nid := NumberedHere(n, order, j, id, i, p);
    } else {
      var skipped := Skipped(n, order[j], p);
      nid := KeptChildNumbered(n, order, j + 1, id, if skipped then i else i + 1, p, k);
      NumberedAfter(n, order, j, id, i, p, k, nid);
    }
  }

  /** The step from the `j + 1`-th child back to the `j`-th. */
  lemma NumberedAfter(n: Node, order: seq<nat>, j: nat, id: nat, i: nat, p: Policy, k: nat, nid: nat)
    requires j < k < |order| && Below(order, |n.children|)
    requires Numbered(n, order, j + 1, id, if Skipped(n, order[j], p) then i else i + 1, p, k, nid)
    ensures Numbered(n, order, j, id, i, p, k, nid)
  {
    if Skipped(n, order[j], p) {
      NumberedAfterSkip(n, order, j, id, i, p, k, nid);
    } else {
      NumberedAfterKeep(n, order, j, id, i, p, k, nid);
    }
  }

  /** The kept child at `order[j]` itself is numbered `id * 100 + i`. */
  lemma NumberedHere(n: Node, order: seq<nat>, j: nat, id: nat, i: nat, p: Policy) returns (nid: nat)
    requires j < |order| && Below(order, |n.children|)
    requires !Skipped(n, order[j], p)
    ensures Numbered(n, order, j, id, i, p, j, nid)
  {
    var e := ChildEdge(n, order[j]);
    nid := ChildId(id, i);
    var ar := AddResult(id, nid, e);
    var sub := Walk(e.child, nid, p);
    var rest := WalkFrom(n, order, j + 1, id, i + 1, p);
    WalkFromKeep(n, order, j, id, i, p);
    assert ChildId(id, i) == ChildId(id, i + KeptBetween(n, order, j, j, p));
    assert sub[0] == SetId(e.v, nid);
    assert ar in [ar] + (sub + rest);
    assert sub[0] in sub + rest;
  }

  /** A skipped child before `order[k]` changes neither its number nor its writes. */
  lemma NumberedAfterSkip(n: Node, order: seq<nat>, j: nat, id: nat, i: nat, p: Policy, k: nat, nid: nat)
    requires j < k < |order| && Below(order, |n.children|)
    requires Skipped(n, order[j], p)
    requires Numbered(n, order, j + 1, id, i, p, k, nid)
    ensures Numbered(n, order, j, id, i, p, k, nid)
  {
    WalkFromSkip(n, order, j, id, i, p);
    assert ChildId(id, i + KeptBetween(n, order, j + 1, k, p)) == ChildId(id, i + KeptBetween(n, order, j, k, p));
  }

  /** A kept child before `order[k]` adds one to its number. */
  lemma NumberedAfterKeep(n: Node, order: seq<nat>, j: nat, id: nat, i: nat, p: Policy, k: nat, nid: nat)
    requires j < k < |order| && Below(order, |n.children|)
    requires !Skipped(n, order[j], p)
    requires Numbered(n, order, j + 1, id, i + 1, p, k, nid)
    ensures Numbered(n, order, j, id, i, p, k, nid)
  {
    var e := ChildEdge(n, order[j]);
    var sub := Walk(e.child, ChildId(id, i), p);
    var rest := WalkFrom(n, order, j + 1, id, i + 1, p);
    WalkFromKeep(n, order, j, id, i, p);
    assert ChildId(id, i + 1 + KeptBetween(n, order, j + 1, k, p)) == ChildId(id, i + KeptBetween(n, order, j, k, p));
    assert AddResult(id, nid, ChildEdge(n, order[k])) in sub + rest;
    assert SetId(n.children[order[k]].account, nid) in sub + rest;
  }

  /** `nid = id * 100 + i`: the `c`-th kept child in visiting order (counting
      from 0) is linked and named with id `id * 100 + c`, and while `c < 100` that
      id reads back as the parent's id (`nid / 100`) and the position (`nid % 100`). */
  lemma KeptChildId(n: Node, id: nat, p: Policy, y: nat) returns (nid: nat)
    requires y < |ChildOrder(n)| && !Skipped(n, ChildOrder(n)[y], p)
    ensures var c := KeptBetween(n, ChildOrder(n), 0, y, p);
      && nid == id * 100 + c
      && AddResult(id, nid, ChildEdge(n, ChildOrder(n)[y])) in Walk(n, id, p)
      && SetId(n.children[ChildOrder(n)[y]].account, nid) in Walk(n, id, p)
      && (c < 100 ==> nid / 100 == id && nid % 100 == c)
  {
    var c := KeptBetween(n, ChildOrder(n), 0, y, p);
    var ws := WalkFrom(n, ChildOrder(n), 0, id, 0, p);
    nid := KeptChildNumbered(n, ChildOrder(n), 0, id, 0, p, y);
    assert AddResult(id, nid, ChildEdge(n, ChildOrder(n)[y])) in ws;
    assert SetId(n.children[ChildOrder(n)[y]].account, nid) in ws;
    assert Walk(n, id, p) == [SetId(n.account, id)] + ws;
    if c < 100 {
      ChildIdDecodes(id, c);
    }
  }

  lemma ChildIdDecodes(id: nat, c: nat)
    requires c < 100
    ensures (id * 100 + c) / 100 == id && (id * 100 + c) % 100 == c
  {
  }

  /** Two kept children get different ids: the later one in visiting order has
      more kept children before it. */
  lemma KeptSiblingsDiffer(n: Node, order: seq<nat>, y1: nat, y2: nat, p: Policy)
    requires y1 < y2 < |order| && Below(order, |n.children|)
    requires !Skipped(n, order[y1], p)
    ensures KeptBetween(n, order, 0, y1, p) < KeptBetween(n, order, 0, y2, p)
  {
    KeptBetweenSplit(n, order, 0, y1, y2, p);
  }

  /** The tree object: the callbacks it was built with and the five collections
      `dfs` fills in. */
  class SankeyTree {
    const root: Node
    const policy: Policy
    var nameId: map<string, nat>
    var idName: map<nat, string>
    var balanceMap: map<string, real>
    var links: seq<Link>
    var nodes: set<string>

    function State(): Out
      reads this
    {
      Out(nameId, idName, balanceMap, links, nodes)
    }

    /** A missing callback falls back to the default one. */
    constructor (root: Node, prune: Option<Edge -> bool>, collapse: Option<Edge -> bool>)
      ensures this.root == root
      ensures policy.prune == (if prune.Some? then prune.value else PruneDefault)
      ensures policy.collapse == (if collapse.Some? then collapse.value else CollapseDefault)
      ensures State() == Empty
    {
      this.root := root;
      policy := Policy(if prune.Some? then prune.value else PruneDefault,
                       if collapse.Some? then collapse.value else CollapseDefault);
      nameId, idName, balanceMap, links, nodes := map[], map[], map[], [], {};
    }

    /** `add_results(id, nid, edge)`. */
    method AddResults(id: nat, nid: nat, edge: Edge)
      modifies this
      ensures State() == Apply(old(State()), AddResult(id, nid, edge))
    {
      var u := EncodeName(id, edge.u);
      var v := EncodeName(nid, edge.v);
      if Contains(u, "Income") || Contains(u, "Asset") {
        u, v := v, u;
      } else if |edge.u| == 0 {
        assert links + [] == links;
        return;
      }
      nodes := nodes + {u};
      nodes := nodes + {v};
      links := links + [Link(u, v, edge.weight)];
      assert Ends([Link(u, v, edge.weight)]) == {u, v};
    }

    /** `dfs(n, id)`: makes exactly the writes of `Walk(n, id, policy)`. */
    method Dfs(n: Node, id: nat)
      modifies this
      ensures State() == Perform(old(State()), Walk(n, id, policy))
      decreases n, 1
    {
      var order := ChildOrder(n);
      PerformCons(State(), SetId(n.account, id), WalkFrom(n, order, 0, id, 0, policy));
      nameId := nameId[n.account := id];
      idName := idName[id := n.account];
      var i := 0;
      var j := 0;
      while j < |order|
        invariant 0 <= j <= |order|
        invariant Perform(State(), WalkFrom(n, order, j, id, i, policy)) == Perform(old(State()), Walk(n, id, policy))
      {
        i := Step(n, order, j, id, i);
        j := j + 1;
      }
    }

    /** One pass of `dfs`'s loop over the `j`-th child in `order`: record its
        weight, and unless the callbacks prune or collapse it, give it id
        `id * 100 + i`, add its results and walk it. */
    method Step(n: Node, order: seq<nat>, j: nat, id: nat, i: nat) returns (next: nat)
      requires j < |order| && Below(order, |n.children|)
      modifies this
      ensures next == if policy.prune(ChildEdge(n, order[j])) || policy.collapse(ChildEdge(n, order[j])) then i else i + 1
      ensures Perform(State(), WalkFrom(n, order, j + 1, id, next, policy))
           == Perform(old(State()), WalkFrom(n, order, j, id, i, policy))
      decreases n, 0
    {
      var edge := ChildEdge(n, order[j]);
      ghost var before := State();
      balanceMap := balanceMap[edge.v := edge.weight];
      assert State() == Apply(before, SetWeight(edge.v, edge.weight));
      if policy.prune(edge) || policy.collapse(edge) {
        PerformSkipped(before, n, order, j, id, i, policy);
        next := i;
      } else {
        PerformKept(before, n, order, j, id, i, policy);
        AddResults(id, ChildId(id, i), edge);
        Dfs(edge.child, ChildId(id, i));
        next := i + 1;
      }
    }

    /** `run()` with the default finalizer: walks from the root with id 100 and
        returns the default finalizer's empty dictionary. */
    method Run() returns (r: map<string, string>)
      modifies this
      ensures State() == Perform(old(State()), Walk(root, 100, policy))
      ensures r == map[]
    {
      Dfs(root, 100);
      r := map[];
    }
  }
}
