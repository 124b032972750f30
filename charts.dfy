/** The report side of the money-flow charts: the `prune`, `collapse` and
    `finalize` callbacks that the balance-sheet and income-statement charts
    hand to `SankeyTree`, the reversal of the balance sheet's links, and the
    small chart helpers `inv_to_dict`, `can_plot_query` and the zero-fill of
    `linechart`. */
module Charts {
  import opened Wrappers
  import opened Strings
  import opened Sankey

  /** The edge the report callbacks read: `SankeyTreeEdge` together with the
      `collapsed` field that the callbacks set through `_replace`. */
  datatype ChartEdge = ChartEdge(u: string, v: string, weight: real, child: Node, collapsed: bool)

  function MaxReal(a: real, b: real): real
  {
    if a >= b then a else b
  }

  function GetOr<K, V>(m: map<K, V>, k: K, d: V): V
  {
    if k in m then m[k] else d
  }

  // ---------------------------------------------------------------- prune

  /** Balance-sheet `prune`: out of the root keep only Assets and Liabilities;
      below the root prune nothing. */
  function BalanceSheetPrune(e: ChartEdge): (pruned: bool)
    ensures |e.u| == 0 ==> (pruned <==> e.v != "Assets" && e.v != "Liabilities")
    ensures |e.u| != 0 ==> !pruned
  {
    if |e.u| == 0 then
      !(e.v == "Assets" || e.v == "Liabilities")
    else
      false
  }

  /** Income-statement `prune`: out of the root keep only Income and Expenses;
      below the root prune the targets naming a "-Balance" account, a
      "Company" or a "Hospital:" sub-account. */
  function IncomeStatementPrune(e: ChartEdge): (pruned: bool)
    ensures |e.u| == 0 ==> (pruned <==> e.v != "Income" && e.v != "Expenses")
    ensures |e.u| != 0 ==>
      (pruned <==> Contains(e.v, "-Balance") || Contains(e.v, "Company") || Contains(e.v, "Hospital:"))
  {
    if |e.u| == 0 then
      !(e.v == "Income" || e.v == "Expenses")
    else if Contains(e.v, "-Balance") then
      true
    else if Contains(e.v, "Company") then
      true
    else if Contains(e.v, "Hospital:") then
      true
    else
      false
  }

  // ------------------------------------------------------ level trackers

  /** A per-level stat dictionary the collapse callbacks keep: every entry is
      a running maximum that started from 1. */
  predicate AtLeastOne(stat: map<nat, real>)
  {
    forall k :: k in stat ==> stat[k] >= 1.0
  }

  /** `after` keeps every level of `before`, with a value no smaller. */
  predicate Grows(before: map<nat, real>, after: map<nat, real>)
  {
    forall k :: k in before ==> k in after && after[k] >= before[k]
  }

  /** `level_max = max(weight, stat.get(level, 1))` followed by
      `stat[level] = level_max`: the running maximum of a level and the
      updated dictionary. */
  function Track(stat: map<nat, real>, level: nat, weight: real): (r: (real, map<nat, real>))
    ensures r.0 >= weight && r.0 >= GetOr(stat, level, 1.0)
    ensures r.0 == weight || r.0 == GetOr(stat, level, 1.0)
    ensures r.1.Keys == stat.Keys + {level}
    ensures level in r.1 && r.1[level] == r.0
    ensures forall k :: k in stat && k != level ==> r.1[k] == stat[k]
  {
    var m := MaxReal(weight, GetOr(stat, level, 1.0));
    (m, stat[level := m])
  }

  /** The running maximum never falls below 1, so the ratio the callbacks
      divide by it is defined; the dictionary only grows; and a non-negative
      weight's ratio to its level's maximum lies in [0, 1]. */
  lemma TrackBounds(stat: map<nat, real>, level: nat, weight: real)
    requires AtLeastOne(stat)
    ensures Track(stat, level, weight).0 >= 1.0
    ensures AtLeastOne(Track(stat, level, weight).1)
    ensures Grows(stat, Track(stat, level, weight).1)
    ensures weight >= 0.0 ==> 0.0 <= weight / Track(stat, level, weight).0 <= 1.0
  {
    var r := Track(stat, level, weight);
    assert GetOr(stat, level, 1.0) >= 1.0;
    if weight >= 0.0 {
      RatioBounds(weight, r.0);
    }
  }

  lemma RatioBounds(w: real, m: real)
    requires 0.0 <= w <= m && m >= 1.0
    ensures 0.0 <= w / m <= 1.0
  {
    assert w / m * m == w;
  }

  // ------------------------------------------------- balance-sheet collapse

  /** The three dictionaries the balance-sheet `collapse` captures. */
  datatype BalanceStats = BalanceStats(assets: map<nat, real>, liabilities: map<nat, real>, equity: map<nat, real>)

  predicate BalanceStatsValid(s: BalanceStats)
  {
    AtLeastOne(s.assets) && AtLeastOne(s.liabilities) && AtLeastOne(s.equity)
  }

  predicate BalanceStatsGrow(s: BalanceStats, t: BalanceStats)
  {
    Grows(s.assets, t.assets) && Grows(s.liabilities, t.liabilities) && Grows(s.equity, t.equity)
  }

  /** The depth rules of the balance-sheet `collapse`: an edge out of a deep
      Assets account, into a deep Liabilities account or into a deep Equity
      account. */
  predicate BalanceSheetTooDeep(e: ChartEdge)
  {
    || (Contains(e.u, "Assets") && Segments(e.u) >= 3)
    || (Contains(e.v, "Liabilities") && Segments(e.v) >= 4)
    || (Contains(e.v, "Equity") && Segments(e.v) >= 3)
  }

  /** The balance-sheet `collapse` as a function of the captured dictionaries:
      the edge it returns and the dictionaries after the call. The edge into
      Assets passes untouched; an edge the depth rules catch comes back
      collapsed, before any negation and with the dictionaries as they were;
      any other edge out of a Liabilities account is negated. Ends and child
      never change, and every level maximum stays at least 1 and never
      decreases. */
  function BalanceSheetCollapse(s: BalanceStats, e: ChartEdge): (r: (ChartEdge, BalanceStats))
    requires BalanceStatsValid(s)
    ensures r.0.u == e.u && r.0.v == e.v && r.0.child == e.child
    ensures e.v == "Assets" ==> r == (e, s)
    ensures e.v != "Assets" && BalanceSheetTooDeep(e) ==> r == (e.(collapsed := true), s)
    ensures e.v != "Assets" && !BalanceSheetTooDeep(e) ==>
      r.0.weight == (if Contains(e.u, "Liabilities") then -e.weight else e.weight)
    ensures e.v != "Assets" && !BalanceSheetTooDeep(e) ==>
      var t := BalanceSheetTrack(s, BalanceSheetLevelEnd(e), Abs(e.weight));
      && (r.0.collapsed <==> e.collapsed || BalanceSheetSmall(BalanceSheetLevelEnd(e), Abs(e.weight), t.0))
      && r.1 == t.1
    ensures r.0.collapsed == e.collapsed || r.0.collapsed
    ensures BalanceStatsValid(r.1) && BalanceStatsGrow(s, r.1)
  {
    if e.v == "Assets" then
      (e, s)
    else if BalanceSheetTooDeep(e) then
      (e.(collapsed := true), s)
    else
      var signed := LiabilitiesSigned(e);
      assert BalanceSheetLevelEnd(signed) == BalanceSheetLevelEnd(e) && Abs(signed.weight) == Abs(e.weight);
      BalanceSheetRatio(s, signed)
  }

  /** An edge out of a Liabilities account, with its weight negated. */
  function LiabilitiesSigned(e: ChartEdge): ChartEdge
  {
    if Contains(e.u, "Liabilities") then e.(weight := -e.weight) else e
  }

  /** An edge that passes the Assets and depth rules reaches the weight rule
      with its sign fixed. */
  lemma BalanceSheetCollapseByWeight(s: BalanceStats, e: ChartEdge)
    requires BalanceStatsValid(s)
    requires e.v != "Assets" && !BalanceSheetTooDeep(e)
    ensures BalanceSheetCollapse(s, e) == BalanceSheetRatio(s, LiabilitiesSigned(e))
  {
  }

  /** `level_max` and the dictionaries after the update, for the lower-level
      end `v`: the Assets dictionary when `v` names Assets, else the Equity one
      when it names Equity, else the Liabilities one. */
  function BalanceSheetTrack(s: BalanceStats, v: string, weight: real): (r: (real, BalanceStats))
    requires BalanceStatsValid(s)
    ensures r.0 >= 1.0 && r.0 >= weight
    ensures BalanceStatsValid(r.1) && BalanceStatsGrow(s, r.1)
  {
    var level := Segments(v);
    TrackBounds(s.assets, level, weight);
    TrackBounds(s.equity, level, weight);
    TrackBounds(s.liabilities, level, weight);
    if Contains(v, "Assets") then
      (Track(s.assets, level, weight).0, s.(assets := Track(s.assets, level, weight).1))
    else if Contains(v, "Equity") then
      (Track(s.equity, level, weight).0, s.(equity := Track(s.equity, level, weight).1))
    else
      (Track(s.liabilities, level, weight).0, s.(liabilities := Track(s.liabilities, level, weight).1))
  }

  /** The lower-level end of a balance-sheet edge: the parent for an edge out
      of an Assets account, the child otherwise. */
  function BalanceSheetLevelEnd(e: ChartEdge): string
  {
    if Contains(e.u, "Assets") then e.u else e.v
  }

  /** The balance-sheet thresholds without division: a weight under 4% of the
      level maximum `m` on a Liabilities level, under 1% on an Assets or
      Equity level. */
  predicate BalanceSheetSmall(v: string, w: real, m: real)
  {
    || (Contains(v, "Liabilities") && w < 0.04 * m)
    || (Contains(v, "Assets") && w < 0.01 * m)
    || (Contains(v, "Equity") && w < 0.01 * m)
  }

  /** The weight rule: the level is counted on the lower-level end (the
      parent, for an edge out of an Assets account), and a small enough share
      of that level's maximum collapses: under 4% into Liabilities, under 1%
      into Assets or Equity. The maximum already counts the edge itself. */
  function BalanceSheetRatio(s: BalanceStats, e: ChartEdge): (r: (ChartEdge, BalanceStats))
    requires BalanceStatsValid(s)
    ensures r.0 == e || r.0 == e.(collapsed := true)
    ensures var t := BalanceSheetTrack(s, BalanceSheetLevelEnd(e), Abs(e.weight));
      && (r.0.collapsed <==> e.collapsed || BalanceSheetSmall(BalanceSheetLevelEnd(e), Abs(e.weight), t.0))
      && r.1 == t.1
    ensures BalanceStatsValid(r.1) && BalanceStatsGrow(s, r.1)
  {
    var weight := Abs(e.weight);
    var v := if Contains(e.u, "Assets") then e.u else e.v;
    var t := BalanceSheetTrack(s, v, weight);
    var ratio := weight / t.0;
    RatioBelow(weight, t.0, 0.04);
    RatioBelow(weight, t.0, 0.01);
    if (Contains(v, "Liabilities") && ratio < 0.04) || (Contains(v, "Assets") && ratio < 0.01)
       || (Contains(v, "Equity") && ratio < 0.01)
    then (e.(collapsed := true), t.1)
    else (e, t.1)
  }

  /** A share of a positive maximum lies under `c` exactly when the weight lies
      under `c` times the maximum. */
  lemma RatioBelow(w: real, m: real, c: real)
    requires m > 0.0
    ensures w / m < c <==> w < c * m
  {
    assert w / m * m == w;
    if w / m < c {
      assert w / m * m < c * m;
    } else {
      assert w / m * m >= c * m;
    }
  }

  /** An edge whose weight sets its level's maximum is never collapsed by the
      balance-sheet weight rule. */
  lemma BalanceSheetHeaviestKept(s: BalanceStats, e: ChartEdge)
    requires BalanceStatsValid(s)
    requires BalanceSheetTrack(s, BalanceSheetLevelEnd(e), Abs(e.weight)).0 == Abs(e.weight)
    ensures BalanceSheetRatio(s, e).0 == e
  {
  }

  /** The balance-sheet `collapse` closure with its captured dictionaries. */
  class BalanceSheetCollapser {
    var stats: BalanceStats

    predicate Valid()
      reads this
    {
      BalanceStatsValid(stats)
    }

    constructor ()
      ensures Valid()
      ensures stats == BalanceStats(map[], map[], map[])
    {
      stats := BalanceStats(map[], map[], map[]);
    }

    method Collapse(edge: ChartEdge) returns (r: ChartEdge)
      requires Valid()
      modifies this
      ensures Valid()
      ensures (r, stats) == BalanceSheetCollapse(old(stats), edge)
    {
      if edge.v == "Assets" {
        return edge;
      }
      if Contains(edge.u, "Assets") && Segments(edge.u) >= 3 {
        return edge.(collapsed := true);
      }
      if Contains(edge.v, "Liabilities") && Segments(edge.v) >= 4 {
        return edge.(collapsed := true);
      }
      if Contains(edge.v, "Equity") && Segments(edge.v) >= 3 {
        return edge.(collapsed := true);
      }
      var e := edge;
      if Contains(e.u, "Liabilities") {
        e := e.(weight := -e.weight);
      }
      assert e == LiabilitiesSigned(edge);
      BalanceSheetCollapseByWeight(stats, edge);
      var u, v, weight := e.u, e.v, Abs(e.weight);
      if Contains(e.u, "Assets") {
        u, v := v, u;
      }
      var levelMax := Observe(v, weight);
      var ratio := weight / levelMax;
      if Contains(v, "Liabilities") && ratio < 0.04 {
        return e.(collapsed := true);
      }
      if Contains(v, "Assets") && ratio < 0.01 {
        return e.(collapsed := true);
      }
      if Contains(v, "Equity") && ratio < 0.01 {
        return e.(collapsed := true);
      }
      return e;
    }

    /** The running-maximum update for the lower-level end `v`. */
    method Observe(v: string, weight: real) returns (levelMax: real)
      requires Valid()
      modifies this
      ensures Valid()
      ensures (levelMax, stats) == BalanceSheetTrack(old(stats), v, weight)
    {
      var level := Segments(v);
      TrackBounds(stats.assets, level, weight);
      TrackBounds(stats.equity, level, weight);
      TrackBounds(stats.liabilities, level, weight);
      if Contains(v, "Assets") {
        levelMax := MaxReal(weight, GetOr(stats.assets, level, 1.0));
        stats := stats.(assets := stats.assets[level := levelMax]);
      } else if Contains(v, "Equity") {
        levelMax := MaxReal(weight, GetOr(stats.equity, level, 1.0));
        stats := stats.(equity := stats.equity[level := levelMax]);
      } else {
        levelMax := MaxReal(weight, GetOr(stats.liabilities, level, 1.0));
        stats := stats.(liabilities := stats.liabilities[level := levelMax]);
      }
    }
  }

  // ----------------------------------------------- income-statement collapse

  /** The two dictionaries the income-statement `collapse` captures. */
  datatype IncomeStats = IncomeStats(income: map<nat, real>, expenses: map<nat, real>)

  predicate IncomeStatsValid(s: IncomeStats)
  {
    AtLeastOne(s.income) && AtLeastOne(s.expenses)
  }

  predicate IncomeStatsGrow(s: IncomeStats, t: IncomeStats)
  {
    Grows(s.income, t.income) && Grows(s.expenses, t.expenses)
  }

  /** An edge out of an Income account, with its weight negated: the first
      thing the income-statement `collapse` does. */
  function IncomeSigned(e: ChartEdge): ChartEdge
  {
    if Contains(e.u, "Income") then e.(weight := -e.weight) else e
  }

  /** The depth rules of the income-statement `collapse`, read after the
      negation: a deep Expenses target or an Income sub-account source. */
  predicate IncomeTooDeep(e: ChartEdge)
  {
    (Contains(e.v, "Expenses") && Segments(e.v) > 3) || (Contains(e.u, "Income") && Segments(e.u) >= 2)
  }

  /** The income-statement `collapse` as a function of the captured
      dictionaries. An edge out of an Income account is negated first; an edge
      the depth rules catch comes back collapsed with the dictionaries as they
      were, so it never moves a level maximum; ends and child never change. */
  function IncomeStatementCollapse(s: IncomeStats, e: ChartEdge): (r: (ChartEdge, IncomeStats))
    requires IncomeStatsValid(s)
    ensures r.0.u == e.u && r.0.v == e.v && r.0.child == e.child
    ensures r.0.weight == (if Contains(e.u, "Income") then -e.weight else e.weight)
    ensures IncomeTooDeep(e) ==> r == (IncomeSigned(e).(collapsed := true), s)
    ensures !IncomeTooDeep(e) ==>
      var t := IncomeStatementTrack(s, IncomeLevelEnd(e), Abs(e.weight));
      && (r.0.collapsed <==> e.collapsed || IncomeSmall(IncomeLevelEnd(e), Abs(e.weight), t.0))
      && r.1 == t.1
    ensures r.0.collapsed == e.collapsed || r.0.collapsed
    ensures IncomeStatsValid(r.1) && IncomeStatsGrow(s, r.1)
  {
    var e := IncomeSigned(e);
    if Contains(e.v, "Expenses") && Segments(e.v) > 3 then
      (e.(collapsed := true), s)
    else if Contains(e.u, "Income") && Segments(e.u) >= 2 then
      (e.(collapsed := true), s)
    else
      IncomeStatementRatio(s, e)
  }

  /** `level_max` and the dictionaries after the update, for the lower-level
      end `v`: the Income dictionary when `v` names Income, else the Expenses
      one. */
  function IncomeStatementTrack(s: IncomeStats, v: string, weight: real): (r: (real, IncomeStats))
    requires IncomeStatsValid(s)
    ensures r.0 >= 1.0 && r.0 >= weight
    ensures IncomeStatsValid(r.1) && IncomeStatsGrow(s, r.1)
  {
    var level := Segments(v);
    TrackBounds(s.income, level, weight);
    TrackBounds(s.expenses, level, weight);
    if Contains(v, "Income") then
      (Track(s.income, level, weight).0, s.(income := Track(s.income, level, weight).1))
    else
      (Track(s.expenses, level, weight).0, s.(expenses := Track(s.expenses, level, weight).1))
  }

  /** The lower-level end of an income-statement edge: the parent for an edge
      out of an Income account, the child otherwise. */
  function IncomeLevelEnd(e: ChartEdge): string
  {
    if Contains(e.u, "Income") then e.u else e.v
  }

  /** The income-statement thresholds without division: a weight under 4% of
      the level maximum `m` on an Expenses level deeper than two segments, or
      under 0.1% on an Income level. */
  predicate IncomeSmall(v: string, w: real, m: real)
  {
    (Contains(v, "Expenses") && Segments(v) > 2 && w < 0.04 * m) || (Contains(v, "Income") && w < 0.001 * m)
  }

  /** The weight rule of the income-statement `collapse`: under 4% of the
      level maximum into an Expenses account deeper than two segments, or
      under 0.1% into Income, collapses. The maximum already counts the edge. */
  function IncomeStatementRatio(s: IncomeStats, e: ChartEdge): (r: (ChartEdge, IncomeStats))
    requires IncomeStatsValid(s)
    ensures r.0 == e || r.0 == e.(collapsed := true)
    ensures var t := IncomeStatementTrack(s, IncomeLevelEnd(e), Abs(e.weight));
      && (r.0.collapsed <==> e.collapsed || IncomeSmall(IncomeLevelEnd(e), Abs(e.weight), t.0))
      && r.1 == t.1
    ensures IncomeStatsValid(r.1) && IncomeStatsGrow(s, r.1)
  {
    var weight := Abs(e.weight);
    var v := if Contains(e.u, "Income") then e.u else e.v;
    var t := IncomeStatementTrack(s, v, weight);
    var ratio := weight / MaxReal(t.0, 1.0);
    RatioBelow(weight, t.0, 0.04);
    RatioBelow(weight, t.0, 0.001);
    if (Contains(v, "Expenses") && Segments(v) > 2 && ratio < 0.04) || (Contains(v, "Income") && ratio < 0.001)
    then (e.(collapsed := true), t.1)
    else (e, t.1)
  }

  /** An edge whose weight sets its level's maximum is never collapsed by the
      income-statement weight rule. */
  lemma IncomeHeaviestKept(s: IncomeStats, e: ChartEdge)
    requires IncomeStatsValid(s)
    requires IncomeStatementTrack(s, IncomeLevelEnd(e), Abs(e.weight)).0 == Abs(e.weight)
    ensures IncomeStatementRatio(s, e).0 == e
  {
  }

  /** The income-statement `collapse` closure with its captured dictionaries. */
  class IncomeStatementCollapser {
    var stats: IncomeStats

    predicate Valid()
      reads this
    {
      IncomeStatsValid(stats)
    }

    constructor ()
      ensures Valid()
      ensures stats == IncomeStats(map[], map[])
    {
      stats := IncomeStats(map[], map[]);
    }

    method Collapse(edge: ChartEdge) returns (r: ChartEdge)
      requires Valid()
      modifies this
      ensures Valid()
      ensures (r, stats) == IncomeStatementCollapse(old(stats), edge)
    {
      var e := edge;
      if Contains(e.u, "Income") {
        e := e.(weight := -e.weight);
      }
      if Contains(e.v, "Expenses") && Segments(e.v) > 3 {
        return e.(collapsed := true);
      }
      if Contains(e.u, "Income") && Segments(e.u) >= 2 {
        return e.(collapsed := true);
      }
      var u, v, weight := e.u, e.v, Abs(e.weight);
      if Contains(e.u, "Income") {
        u, v := v, u;
      }
      var level := Segments(v);
      var levelMax := Observe(v, weight);
      var ratio := weight / MaxReal(levelMax, 1.0);
      assert IncomeStatementCollapse(old(stats), edge) == IncomeStatementRatio(old(stats), e);
      if Contains(v, "Expenses") && level > 2 && ratio < 0.04 {
        return e.(collapsed := true);
      }
      if Contains(v, "Income") && ratio < 0.001 {
        return e.(collapsed := true);
      }
      return e;
    }

    /** The running-maximum update for the lower-level end `v`. */
    method Observe(v: string, weight: real) returns (levelMax: real)
      requires Valid()
      modifies this
      ensures Valid()
      ensures (levelMax, stats) == IncomeStatementTrack(old(stats), v, weight)
    {
      var level := Segments(v);
      TrackBounds(stats.income, level, weight);
      TrackBounds(stats.expenses, level, weight);
      if Contains(v, "Income") {
        levelMax := MaxReal(weight, GetOr(stats.income, level, 1.0));
        stats := stats.(income := stats.income[level := levelMax]);
      } else {
        levelMax := MaxReal(weight, GetOr(stats.expenses, level, 1.0));
        stats := stats.(expenses := stats.expenses[level := levelMax]);
      }
    }
  }

  // ------------------------------------------------------------ finalize

  /** `tree.encode_name(tree.name_id_.get(account, 0), account)`. */
  function Label(nameId: map<string, nat>, account: string): string
  {
    EncodeName(GetOr(nameId, account, 0), account)
  }

  /** The links the balance-sheet `finalize` appends: Assets to
      Liabilities:Current with the absolute balance, always, and Assets to
      Liabilities:NonCurrent only when that absolute balance is positive. */
  function BalanceSheetLinks(nameId: map<string, nat>, balance: map<string, real>): (ls: seq<Link>)
    ensures 1 <= |ls| <= 2
    ensures ls[0] == Link(Label(nameId, "Assets"), Label(nameId, "Liabilities:Current"),
                          Abs(GetOr(balance, "Liabilities:Current", 0.0)))
    ensures |ls| == 2 <==> Abs(GetOr(balance, "Liabilities:NonCurrent", 0.0)) > 0.0
    ensures |ls| == 2 ==> ls[1] == Link(Label(nameId, "Assets"), Label(nameId, "Liabilities:NonCurrent"),
                                        Abs(GetOr(balance, "Liabilities:NonCurrent", 0.0)))
    ensures forall l :: l in ls ==> l.source == Label(nameId, "Assets") && l.weight >= 0.0
  {
    var assets := Label(nameId, "Assets");
    var current := Link(assets, Label(nameId, "Liabilities:Current"), Abs(GetOr(balance, "Liabilities:Current", 0.0)));
    var noncurrent := Abs(GetOr(balance, "Liabilities:NonCurrent", 0.0));
    if noncurrent > 0.0 then [current, Link(assets, Label(nameId, "Liabilities:NonCurrent"), noncurrent)]
    else [current]
  }

  /** The balance-sheet `finalize`: appends its links to `links_`, drops the
      NonCurrent label from `nodes_` when it adds no link for it, and returns
      the tree's nodes and links. */
  method FinalizeBalanceSheet(tree: SankeyTree) returns (nodes: set<string>, links: seq<Link>)
    modifies tree
    ensures tree.links == old(tree.links) + BalanceSheetLinks(tree.nameId, tree.balanceMap)
    ensures tree.nodes == if Abs(GetOr(tree.balanceMap, "Liabilities:NonCurrent", 0.0)) > 0.0 then old(tree.nodes)
                          else old(tree.nodes) - {Label(tree.nameId, "Liabilities:NonCurrent")}
    ensures tree.nameId == old(tree.nameId) && tree.idName == old(tree.idName) && tree.balanceMap == old(tree.balanceMap)
    ensures nodes == tree.nodes && links == tree.links
  {
    var assets := Label(tree.nameId, "Assets");
    var current := Label(tree.nameId, "Liabilities:Current");
    tree.links := tree.links + [Link(assets, current, Abs(GetOr(tree.balanceMap, "Liabilities:Current", 0.0)))];
    var noncurrent := Label(tree.nameId, "Liabilities:NonCurrent");
    var noncurrentVal := Abs(GetOr(tree.balanceMap, "Liabilities:NonCurrent", 0.0));
    if noncurrentVal > 0.0 {
      tree.links := tree.links + [Link(assets, noncurrent, noncurrentVal)];
    } else if noncurrent in tree.nodes {
      tree.nodes := tree.nodes - {noncurrent};
    }
    return tree.nodes, tree.links;
  }

  /** The label of the synthetic Profit node. */
  const ProfitLabel: string := "801000000_Profit"

  /** The Profit label is `encode_name(801000000, "Profit")`. */
  lemma ProfitLabelEncoded()
    ensures EncodeName(801000000, "Profit") == ProfitLabel
  {
    assert NatToString(8) == "8";
    assert NatToString(80) == "80";
    assert NatToString(801) == "801";
    assert NatToString(8010) == "8010";
    assert NatToString(80100) == "80100";
    assert NatToString(801000) == "801000";
    assert NatToString(8010000) == "8010000";
    assert NatToString(80100000) == "80100000";
    assert NatToString(801000000) == "801000000";
  }

  /** Whether the income-statement `finalize` adds a Profit link, with
      `income` and `expenses` the recorded Income and Expenses balances. */
  predicate HasProfit(income: real, expenses: real)
  {
    if income < 0.0 then expenses > 0.0 && -income - expenses > 0.0
    else income > 0.0 && expenses > 0.0 && income + expenses > 0.0
  }

  function ProfitValue(income: real, expenses: real): real
  {
    if income < 0.0 then -income - expenses else income + expenses
  }

  /** The links the income-statement `finalize` appends when one of the two
      balances is non-zero: Income to Expenses carrying the expense value,
      then Income to Profit when `HasProfit` holds. */
  function IncomeStatementLinks(nameId: map<string, nat>, balance: map<string, real>): (ls: seq<Link>)
    ensures 1 <= |ls| <= 2
    ensures ls[0] == Link(Label(nameId, "Income"), Label(nameId, "Expenses"), GetOr(balance, "Expenses", 0.0))
    ensures |ls| == 2 <==> HasProfit(GetOr(balance, "Income", 0.0), GetOr(balance, "Expenses", 0.0))
    ensures |ls| == 2 ==> ls[1] == Link(Label(nameId, "Income"), ProfitLabel,
                                        ProfitValue(GetOr(balance, "Income", 0.0), GetOr(balance, "Expenses", 0.0)))
  {
    var income := Label(nameId, "Income");
    var iv := GetOr(balance, "Income", 0.0);
    var ev := GetOr(balance, "Expenses", 0.0);
    var first := Link(income, Label(nameId, "Expenses"), ev);
    if HasProfit(iv, ev) then [first, Link(income, ProfitLabel, ProfitValue(iv, ev))] else [first]
  }

  /** With the balances the walk records, which are absolute values, the
      Profit link appears exactly when both are positive, and it carries
      their sum. */
  lemma ProfitFromRecordedBalances(income: real, expenses: real)
    requires income >= 0.0 && expenses >= 0.0
    ensures HasProfit(income, expenses) <==> income > 0.0 && expenses > 0.0
    ensures ProfitValue(income, expenses) == income + expenses
  {
  }

  /** The Profit link carries a positive weight whenever it is added. */
  lemma ProfitPositive(income: real, expenses: real)
    requires HasProfit(income, expenses)
    ensures ProfitValue(income, expenses) > 0.0
  {
  }

  /** Both the Income and the Expenses balance are zero (or unrecorded). */
  predicate NothingEarned(balance: map<string, real>)
  {
    GetOr(balance, "Income", 0.0) == 0.0 && GetOr(balance, "Expenses", 0.0) == 0.0
  }

  /** The Profit node, when the income-statement `finalize` adds it. */
  function ProfitNodes(balance: map<string, real>): set<string>
  {
    if HasProfit(GetOr(balance, "Income", 0.0), GetOr(balance, "Expenses", 0.0)) then {ProfitLabel} else {}
  }

  /** The income-statement `finalize`: with both balances zero it returns
      `([], [])` and leaves the tree alone; otherwise it appends its links,
      adds the Profit node exactly when it adds the Profit link, and returns
      the tree's nodes and links. */
  method FinalizeIncomeStatement(tree: SankeyTree) returns (nodes: set<string>, links: seq<Link>)
    modifies tree
    ensures NothingEarned(tree.balanceMap) ==>
      nodes == {} && links == [] && tree.links == old(tree.links) && tree.nodes == old(tree.nodes)
    ensures !NothingEarned(tree.balanceMap) ==>
      tree.links == old(tree.links) + IncomeStatementLinks(tree.nameId, tree.balanceMap)
    ensures !NothingEarned(tree.balanceMap) ==> tree.nodes == old(tree.nodes) + ProfitNodes(tree.balanceMap)
    ensures !NothingEarned(tree.balanceMap) ==> nodes == tree.nodes && links == tree.links
    ensures tree.nameId == old(tree.nameId) && tree.idName == old(tree.idName) && tree.balanceMap == old(tree.balanceMap)
  {
    var incomeValue := GetOr(tree.balanceMap, "Income", 0.0);
    var expenseValue := GetOr(tree.balanceMap, "Expenses", 0.0);
    if incomeValue == 0.0 && expenseValue == 0.0 {
      return {}, [];
    }
    var income := Label(tree.nameId, "Income");
    var expense := Label(tree.nameId, "Expenses");
    ghost var first := Link(income, expense, expenseValue);
    tree.links := tree.links + [Link(income, expense, expenseValue)];
    if incomeValue < 0.0 {
      var profitValue := -incomeValue - expenseValue;
      if incomeValue < 0.0 && expenseValue > 0.0 && profitValue > 0.0 {
        var profit := ProfitLabel;
        tree.nodes := tree.nodes + {profit};
        tree.links := tree.links + [Link(income, profit, profitValue)];
        assert tree.links == old(tree.links) + [first, Link(income, ProfitLabel, ProfitValue(incomeValue, expenseValue))];
      }
    } else {
      var profitValue := incomeValue + expenseValue;
      if incomeValue > 0.0 && expenseValue > 0.0 && profitValue > 0.0 {
        var profit := ProfitLabel;
        tree.nodes := tree.nodes + {profit};
        tree.links := tree.links + [Link(income, profit, profitValue)];
        assert tree.links == old(tree.links) + [first, Link(income, ProfitLabel, ProfitValue(incomeValue, expenseValue))];
      }
    }
    return tree.nodes, tree.links;
  }

  // ------------------------------------------------------------- reversal

  /** One link with its first two entries swapped. */
  function Reversed(l: Link): (r: Link)
    ensures r.source == l.target && r.target == l.source && r.weight == l.weight
  {
    Link(l.target, l.source, l.weight)
  }

  /** Swapping twice gives the link back. */
  lemma ReversedTwice(l: Link)
    ensures Reversed(Reversed(l)) == l
  {
  }

  /** The balance sheet's reversal loop: every link, in place, points the
      other way; the order of the links and their weights stay. */
  method ReverseLinks(links: array<Link>)
    modifies links
    ensures forall k :: 0 <= k < links.Length ==> links[k] == Reversed(old(links[k]))
  {
    var k := 0;
    while k < links.Length
      invariant 0 <= k <= links.Length
      invariant forall m :: 0 <= m < k ==> links[m] == Reversed(old(links[m]))
      invariant forall m :: k <= m < links.Length ==> links[m] == old(links[m])
    {
      links[k] := Link(links[k].target, links[k].source, links[k].weight);
      k := k + 1;
    }
  }

  // ------------------------------------------------------------ inv_to_dict

  /** A position as `inv_to_dict` reads it: its units' currency and number. */
  datatype Position = Position(currency: string, number: Option<real>)

  /** Position `i` is the last one of its currency that has a number. */
  predicate LastOfCurrency(ps: seq<Position>, i: nat)
    requires i < |ps|
  {
    ps[i].number.Some? &&
    forall j :: i < j < |ps| ==> ps[j].currency != ps[i].currency || ps[j].number.None?
  }

  /** `inv_to_dict`: currency to number over the positions that have a
      number, a later position of a currency overriding an earlier one. */
  function InvToDict(ps: seq<Position>): map<string, real>
    decreases |ps|
  {
    if ps == [] then map[]
    else
      var last := ps[|ps| - 1];
      if last.number.Some? then InvToDict(ps[..|ps| - 1])[last.currency := last.number.value]
      else InvToDict(ps[..|ps| - 1])
  }

  /** A currency is in the dictionary exactly when some position of that
      currency has a number. */
  lemma {:induction false} InvToDictKeys(ps: seq<Position>, c: string)
    ensures c in InvToDict(ps) <==> exists i :: 0 <= i < |ps| && ps[i].currency == c && ps[i].number.Some?
    decreases |ps|
  {
    if ps != [] {
      var init := ps[..|ps| - 1];
      var last := ps[|ps| - 1];
      InvToDictKeys(init, c);
      if last.number.Some? && last.currency == c {
        assert ps[|ps| - 1].currency == c && ps[|ps| - 1].number.Some?;
      } else {
        if c in InvToDict(init) {
          var i :| 0 <= i < |init| && init[i].currency == c && init[i].number.Some?;
          assert ps[i] == init[i];
        }
        if exists i :: 0 <= i < |ps| && ps[i].currency == c && ps[i].number.Some? {
          var i :| 0 <= i < |ps| && ps[i].currency == c && ps[i].number.Some?;
          assert i < |init| && init[i] == ps[i];
        }
      }
    }
  }

  /** The last position of a currency that has a number gives that currency's
      entry. */
  lemma {:induction false} InvToDictLast(ps: seq<Position>, i: nat)
    requires i < |ps| && LastOfCurrency(ps, i)
    ensures ps[i].currency in InvToDict(ps) && InvToDict(ps)[ps[i].currency] == ps[i].number.value
    decreases |ps|
  {
    if i < |ps| - 1 {
      var init := ps[..|ps| - 1];
      assert init[i] == ps[i];
      forall j | i < j < |init| ensures init[j].currency != init[i].currency || init[j].number.None? {
        assert init[j] == ps[j];
      }
      InvToDictLast(init, i);
    }
  }

  // ---------------------------------------------------------- can_plot_query

  /** The Python type of a query column, as far as `can_plot_query` looks. */
  datatype ColumnType = StrType | DateType | InventoryType | OtherType(name: string)

  /** A query result can be plotted when it has two columns: a string or a
      date first, an inventory second. */
  function CanPlotQuery(types: seq<(string, ColumnType)>): (ok: bool)
    ensures ok <==> |types| == 2 && (types[0].1 == StrType || types[0].1 == DateType) && types[1].1 == InventoryType
  {
    |types| == 2 && types[0].1 in {StrType, DateType} && types[1].1 == InventoryType
  }

  // ------------------------------------------------------ linechart zero-fill

  /** One entry of the account's journal: its date, whether the change it
      made is empty, and the balance after it in the chosen conversion. */
  datatype JournalStep = JournalStep(date: int, changeEmpty: bool, balance: seq<Position>)

  datatype DateAndBalance = DateAndBalance(date: int, balance: map<string, real>)

  /** The journal entries `linechart` reports: those with a non-empty change,
      in journal order. */
  function Changed(js: seq<JournalStep>): (r: seq<JournalStep>)
    ensures |r| <= |js|
    ensures forall k :: 0 <= k < |r| ==> r[k] in js && !r[k].changeEmpty
    decreases |js|
  {
    if js == [] then []
    else
      var init := Changed(js[..|js| - 1]);
      assert forall s :: s in js[..|js| - 1] ==> s in js;
      init + (if js[|js| - 1].changeEmpty then [] else [js[|js| - 1]])
  }

  /** A balance with every currency of `vanished` it lacks set to zero. */
  function Fill(d: map<string, real>, vanished: set<string>): map<string, real>
  {
    map c | c in d.Keys + vanished :: if c in d then d[c] else 0.0
  }

  /** The filled balance has the balance's currencies and the vanished ones;
      the former keep their values and the latter are zero. */
  lemma FillSpec(d: map<string, real>, vanished: set<string>)
    ensures Fill(d, vanished).Keys == d.Keys + vanished
    ensures forall c :: c in d ==> Fill(d, vanished)[c] == d[c]
    ensures forall c :: c in vanished && c !in d ==> Fill(d, vanished)[c] == 0.0
  {
  }

  /** The currencies the last of `ks` had before filling: none when `ks` is
      empty. */
  function LastKeys(ks: seq<JournalStep>): set<string>
  {
    if ks == [] then {} else InvToDict(ks[|ks| - 1].balance).Keys
  }

  /** What `linechart` reports for the `k`-th of the changed entries `ks`: its
      balance, filled with the currencies of the entry before it. */
  function Reported(ks: seq<JournalStep>, k: nat): DateAndBalance
    requires k < |ks|
  {
    DateAndBalance(ks[k].date, Fill(InvToDict(ks[k].balance), LastKeys(ks[..k])))
  }

  /** Everything `linechart` reports for the changed entries `ks`. */
  function Reports(ks: seq<JournalStep>): seq<DateAndBalance>
    decreases |ks|
  {
    if ks == [] then [] else Reports(ks[..|ks| - 1]) + [Reported(ks, |ks| - 1)]
  }

  lemma {:induction false} ReportsIndex(ks: seq<JournalStep>)
    ensures |Reports(ks)| == |ks|
    ensures forall k :: 0 <= k < |ks| ==> Reports(ks)[k] == Reported(ks, k)
    decreases |ks|
  {
    if ks != [] {
      var init := ks[..|ks| - 1];
      ReportsIndex(init);
      forall k | 0 <= k < |ks| ensures Reports(ks)[k] == Reported(ks, k) {
        if k < |init| {
          ReportedPrefix(ks, |ks| - 1, k);
        }
      }
    }
  }

  /** A report depends only on the entries up to it. */
  lemma ReportedPrefix(ks: seq<JournalStep>, n: nat, k: nat)
    requires k < n <= |ks|
    ensures Reported(ks[..n], k) == Reported(ks, k)
  {
    assert ks[..n][..k] == ks[..k];
  }

  /** Reporting one more changed entry appends its filled balance. */
  lemma ReportsSnoc(ks: seq<JournalStep>, x: JournalStep)
    ensures Reports(ks + [x]) == Reports(ks) + [DateAndBalance(x.date, Fill(InvToDict(x.balance), LastKeys(ks)))]
    ensures LastKeys(ks + [x]) == InvToDict(x.balance).Keys
  {
    assert (ks + [x])[..|ks|] == ks;
  }

  /** A currency the previous report had and the current balance lacks is
      reported as zero; every currency of the balance keeps its value; nothing
      else appears. */
  lemma ReportedZeroFills(ks: seq<JournalStep>, k: nat, c: string)
    requires 0 < k < |ks|
    ensures c in Reported(ks, k).balance <==> c in InvToDict(ks[k].balance) || c in InvToDict(ks[k - 1].balance)
    ensures c in InvToDict(ks[k - 1].balance) && c !in InvToDict(ks[k].balance) ==> Reported(ks, k).balance[c] == 0.0
    ensures c in InvToDict(ks[k].balance) ==> Reported(ks, k).balance[c] == InvToDict(ks[k].balance)[c]
  {
    FillSpec(InvToDict(ks[k].balance), InvToDict(ks[k - 1].balance).Keys);
  }

  /** The first report is the balance as it stands. */
  lemma ReportedFirst(ks: seq<JournalStep>)
    requires 0 < |ks|
    ensures Reported(ks, 0).balance == InvToDict(ks[0].balance)
  {
    FillUnique(InvToDict(ks[0].balance), {}, InvToDict(ks[0].balance));
  }

  lemma ChangedStep(js: seq<JournalStep>, j: nat)
    requires j < |js|
    ensures js[j].changeEmpty ==> Changed(js[..j + 1]) == Changed(js[..j])
    ensures !js[j].changeEmpty ==> Changed(js[..j + 1]) == Changed(js[..j]) + [js[j]]
  {
    assert js[..j + 1][..j] == js[..j];
    assert Changed(js[..j]) + [] == Changed(js[..j]);
  }

  /** A balance with the currencies of `d` and of `vanished`, the former at
      their values and the latter at zero, is the filled balance. */
  lemma FillUnique(d: map<string, real>, vanished: set<string>, r: map<string, real>)
    requires forall c :: c in r <==> c in d || c in vanished
    requires forall c :: c in d ==> r[c] == d[c]
    requires forall c :: c in vanished && c !in d ==> r[c] == 0.0
    ensures r == Fill(d, vanished)
  {
    assert r.Keys == Fill(d, vanished).Keys;
  }

  /** `for currency in last_currencies - currencies: balance[currency] = 0`. */
  method ZeroVanished(balance: map<string, real>, last: set<string>) returns (r: map<string, real>)
    ensures r == Fill(balance, last)
  {
    var todo := last - balance.Keys;
    r := balance;
    while todo != {}
      invariant forall c :: c in r <==> c in balance || (c in last && c !in todo)
      invariant forall c :: c in todo ==> c in last && c !in r
      invariant forall c :: c in balance ==> r[c] == balance[c]
      invariant forall c :: c in r && c !in balance ==> r[c] == 0.0
      decreases |todo|
    {
      var c :| c in todo;
      r := r[c := 0.0];
      todo := todo - {c};
    }
    FillUnique(balance, last, r);
  }

  /** The zero-fill loop of `linechart` over one account's journal. */
  method Linechart(js: seq<JournalStep>) returns (out: seq<DateAndBalance>)
    ensures |out| == |Changed(js)|
    ensures forall k :: 0 <= k < |out| ==> out[k] == Reported(Changed(js), k)
  {
    out := [];
    var last: Option<set<string>> := None;
    var j := 0;
    while j < |js|
      invariant 0 <= j <= |js|
      invariant out == Reports(Changed(js[..j]))
      invariant last.None? ==> Changed(js[..j]) == []
      invariant last.Some? ==> last.value == LastKeys(Changed(js[..j]))
    {
      ChangedStep(js, j);
      ghost var ks := Changed(js[..j]);
      var step := js[j];
      if !step.changeEmpty {
        ReportsSnoc(ks, step);
        var balance := InvToDict(step.balance);
        var currencies := balance.Keys;
        if last.Some? && last.value != {} {
          balance := ZeroVanished(balance, last.value);
        } else {
          FillUnique(balance, {}, balance);
        }
        assert balance == Fill(InvToDict(step.balance), LastKeys(ks));
        last := Some(currencies);
        out := out + [DateAndBalance(step.date, balance)];
        assert out == Reports(Changed(js[..j + 1]));
      }
      j := j + 1;
    }
    assert js[..|js|] == js;
    ReportsIndex(Changed(js));
  }
}
