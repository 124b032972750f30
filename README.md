# Fava core, modelled in Dafny

This project models four parts of Fava, the web front end for Beancount ledgers.
It proves properties of each part.

- **Inventories** (`inventory.dfy`, `src/fava/core/inventory.py`). `SimpleCounterInventory`
  and `CounterInventory` are sparse counters. `DatedInventory` is an insertion-ordered
  counter whose lots carry dates; its `remove` takes a quantity of one currency
  greedily, lot by lot. Every counter is a Dafny class whose dictionary is a `map`
  field. The ordered dictionary is a `seq` of keys plus a `map`. Decimals are exact
  `real`s. The proofs cover:
  - a counter never stores a zero;
  - `+` is commutative and associative, with the empty inventory as identity;
  - `-(-a) == a` and `a + (-a)` is empty;
  - `reduce` does not depend on iteration order;
  - the greedy removal conserves quantity, takes only from positive lots of the
    requested currency, and empties every lot it touches except the last;
  - it takes from lots in insertion order, and skips no positive lot of the
    currency before its last take.
- **Sankey tree** (`sankey.dfy`, `src/fava/core/sankey.py`).
  - The depth-first walk that numbers accounts (`id * 100 + i`), records child
    balances and emits links is a pure function, `Walk`. It produces a trace of
    writes.
  - The imperative `SankeyTree.Dfs` is proved to leave exactly the state the trace
    describes.
  - Properties of the trace are proved as lemmas: every link end is a recorded
    node, weights are non-negative, each node keeps its own id, and every child is
    weighed. With the default policies, exactly the accounts of the tree are
    named.
  - Under any prune and collapse policy, exactly the kept accounts are named.
    An account is kept when no child on its path is pruned or collapsed. Every
    new link end and node is labelled with a kept account. In a tree without
    repeated account names, nothing below a skipped child gets an id, a link or a
    node.
  - The kept child at a visiting position gets the id `id * 100 + c`, where `c`
    counts the kept children before it. For `c < 100` the parent id and `c` can be
    read back from it.
  - Children are visited heaviest first, with ties in their original order.
  - `encode_name` can be decoded again.
- **Charts** (`charts.dfy`, `src/fava/core/charts.py`). This covers:
  - the prune and collapse closures of the two Sankey charts, with their
    per-level running maxima;
  - the two finalizers, which add the summary links and the profit node;
  - the link reversal;
  - `inv_to_dict`, where the last position of a currency wins;
  - `can_plot_query`;
  - the zero-fill of `linechart`: a currency that vanishes from the balance is
    reported once with 0.
- **Ledger helpers** (`ledger.dfy`, `src/fava/core/__init__.py`). This covers:
  - the three entry filters;
  - price selection by the time filter;
  - event partitioning and the stable sort by type;
  - the closed-account test;
  - `commodity_pairs`;
  - the newest-first up-to-date status scan;
  - `group_entries_by_type`;
  - lookup of an entry by hash.

Shared modules:
- `wrappers.dfy`: `Option` and `Result`.
- `strings.dfy`: Python's `t in s`, `s.split(sep)`, `str(n)` and string `<`.
- `sorting.dfy`: a stable sort. It sorts positions by insertion under "key, then
  position", and it is used wherever the code calls `sorted`.

The charts module calls into the Sankey tree in ways the tree does not support.
The code is followed as written, and these pieces are modelled apart:
- `SankeyTree.__init__` accepts `prune`, `collapse` and `finalize` but no
  `conversion` or `price_map`. The two chart functions pass both.
- `dfs` skips a child whenever `collapse(edge)` is truthy. The charts' collapse
  closures always return an edge, and an edge is always truthy.
- `SankeyTreeEdge` has no `collapsed` field, but the closures set one.

So the closures are modelled on their own, over an edge record that has a
`collapsed` flag (`Charts.ChartEdge`). The finalizers are modelled as methods on
the modelled `SankeyTree`. The walk's policy is a pair of plain predicates.

## Model

| member | source | states |
|---|---|---|
| Inventory.AddTo | src/fava/core/inventory.py:51-57 | adding `n` under `k` gives `get(k) + n` under `k`; `k` is absent exactly when that sum is zero; every other key is untouched; a zero-free counter stays zero-free |
| Inventory.Sum | src/fava/core/inventory.py:93-104 | the sum of two counters holds, under every key, the sum of the two values, and stores no zero |
| Inventory.Neg | src/fava/core/inventory.py:85-86 | negation keeps the keys, negates every value and keeps a counter zero-free |
| Inventory.SumCommutes | src/fava/core/inventory.py:88-91 | `a + b == b + a` |
| Inventory.SumAssociates | src/fava/core/inventory.py:88-91 | `(a + b) + c == a + (b + c)` |
| Inventory.SumEmptyLeft | src/fava/core/inventory.py:95-96 | adding into an empty counter (`update`) yields the other counter |
| Inventory.SumNegEmpty | src/fava/core/inventory.py:85-91 | `a + (-a)` is the empty counter |
| Inventory.NegNeg | src/fava/core/inventory.py:85-86 | `-(-a) == a` |
| Inventory.SameGetSameMap | src/fava/core/inventory.py:51-57 | two zero-free counters that agree on `get` for every key are equal |
| Inventory.AddToIsSum | src/fava/core/inventory.py:51-57 | `add(k, n)` is the same as adding the one-entry counter `{k: n}` |
| Inventory.SumStep | src/fava/core/inventory.py:99-104 | one iteration of the `add_inventory` loop moves one more key of `counter` into the running sum |
| Inventory.ReduceOver | src/fava/core/inventory.py:59-73 | the reduced counter stores no zero |
| Inventory.ReduceOverGet | src/fava/core/inventory.py:59-73 | the reduced number of a currency is the sum, over all keys, of the reducer's numbers in that currency, so it does not depend on iteration order |
| Inventory.ReduceOverStep | src/fava/core/inventory.py:68-72 | reducing one more key is `counter.add(amount.currency, amount.number)` |
| Inventory.SetSumRemove | src/fava/core/inventory.py:68-72 | the sum over a set splits off any one element, whichever is visited first |
| Inventory.SetSumZero | src/fava/core/inventory.py:59-73 | a sum of zeros is zero |
| Inventory.SimpleCounterInventory.constructor | src/fava/core/inventory.py:21 | a new counter is empty |
| Inventory.SimpleCounterInventory.IsEmpty | src/fava/core/inventory.py:24-26 | true exactly when no key is stored |
| Inventory.SimpleCounterInventory.Add | src/fava/core/inventory.py:28-34 | the new contents are `AddTo(old, key, number)`; no zero is stored |
| Inventory.CounterInventory.constructor | src/fava/core/inventory.py:86 | a counter built from a zero-free dictionary holds exactly it |
| Inventory.CounterInventory.IsEmpty | src/fava/core/inventory.py:47-49 | true exactly when no key is stored |
| Inventory.CounterInventory.Add | src/fava/core/inventory.py:51-57 | the new contents are `AddTo(old, key, number)`; no zero is stored |
| Inventory.CounterInventory.AddAmount | src/fava/core/inventory.py:75-79 | fails, changing nothing, exactly when the amount has no number; otherwise adds it under `(currency, cost)` |
| Inventory.CounterInventory.Negate | src/fava/core/inventory.py:85-86 | returns a fresh counter holding `Neg` of this one |
| Inventory.CounterInventory.AddInventory | src/fava/core/inventory.py:93-104 | both branches (copy into an empty counter, or add key by key) leave `Sum(old, counter)` |
| Inventory.CounterInventory.Plus | src/fava/core/inventory.py:88-91 | returns a fresh counter holding the sum; neither operand changes |
| Inventory.CounterInventory.Reduce | src/fava/core/inventory.py:59-73 | fails exactly when the reducer yields an amount without a number for some key; otherwise returns a fresh counter holding `ReduceOver` of all keys |
| Inventory.RemoveKey | src/fava/core/inventory.py:129-130 | `pop(k)` drops `k` from the key order: the keys left are exactly the others; an absent key changes nothing; for distinct keys the result is the order with `k`'s one position cut out, so the others keep their order |
| Inventory.OAdd | src/fava/core/inventory.py:125-132 | ordered `add` changes the values exactly as `AddTo` does; with a non-zero sum, an existing key keeps its place and a new key goes last; a zero sum pops the key |
| Inventory.OAddWellFormed | src/fava/core/inventory.py:128-132 | ordered `add` keeps the key order duplicate-free and in step with the values, with no zero |
| Inventory.MergeStep | src/fava/core/inventory.py:189-194 | one iteration of `add_inventory` adds the next key of `counter` |
| Inventory.MergeAdds | src/fava/core/inventory.py:189-194 | after the loop, each key holds its old value plus the other counter's value, and the dictionary stays well formed |
| Inventory.Available | src/fava/core/inventory.py:150-157 | the quantity of a currency in positive lots is non-negative |
| Inventory.GreedyTakesFromPositiveLots | src/fava/core/inventory.py:152-157 | `remove` takes only from lots of the requested currency, and from each a positive quantity no larger than the lot |
| Inventory.GreedyTakesEachLotOnce | src/fava/core/inventory.py:152-157 | no lot is taken from twice |
| Inventory.GreedyConserves | src/fava/core/inventory.py:152-157 | the total taken plus what is still needed equals the requested quantity |
| Inventory.GreedyShortfall | src/fava/core/inventory.py:150-159 | for a non-negative need, what is still needed is 0 when enough is available and the shortfall otherwise; a need that is not positive takes nothing |
| Inventory.GreedyEmptiesAllButLast | src/fava/core/inventory.py:153-157 | every lot taken from, except the last, is emptied completely |
| Inventory.GreedyLeavesOtherLots | src/fava/core/inventory.py:153 | lots of another currency, and lots that are not positive, are not touched |
| Inventory.TakenFromAbsent | src/fava/core/inventory.py:152-157 | nothing is taken from a lot that no take names |
| Inventory.InKeyOrderTail | src/fava/core/inventory.py:152 | takes from later keys that are in order over the later keys are also in order over all keys |
| Inventory.InKeyOrderCons | src/fava/core/inventory.py:152 | a take from the first key, followed by takes in key order from later keys, is in key order |
| Inventory.GreedyInInsertionOrder | src/fava/core/inventory.py:152-157 | for distinct keys, the takes of `remove` come from lots at strictly increasing insertion positions |
| Inventory.NoLotSkippedTail | src/fava/core/inventory.py:153 | passing over the first lot keeps the no-skip property when nothing at all is taken past a positive lot of the currency |
| Inventory.NoLotSkippedCons | src/fava/core/inventory.py:154-157 | taking the whole first lot, with later takes after it, keeps the no-skip property |
| Inventory.GreedyNoLotSkipped | src/fava/core/inventory.py:152-157 | every positive lot of the requested currency inserted before the lot of the last take is taken whole |
| Inventory.AllDatedPrefix | src/fava/core/inventory.py:117-119 | the lots applied so far are all dated exactly when the shorter prefix is and the next lot is |
| Inventory.ApplyTakesStop | src/fava/core/inventory.py:161-162 | the second loop stops at the first undated lot, where `_check_dated` raises |
| Inventory.ApplyTakesStep | src/fava/core/inventory.py:161-162 | a dated lot is lowered by `add(key, -number)` before the loop goes on |
| Inventory.ApplyTakesLowersLots | src/fava/core/inventory.py:161-162 | when every lot taken is dated, each key ends with its old value minus what was taken from it, and the dictionary stays well formed |
| Inventory.DatedInventory.constructor | src/fava/core/inventory.py:107 | a new dated inventory is empty |
| Inventory.DatedInventory.Add | src/fava/core/inventory.py:117-132 | succeeds exactly when the key has a dated lot; then adds as an ordered dictionary does; otherwise changes nothing |
| Inventory.DatedInventory.Put | src/fava/core/inventory.py:128-132 | ordered `add` without the date check, keeping the dictionary well formed |
| Inventory.DatedInventory.AddInventory | src/fava/core/inventory.py:183-194 | an empty inventory becomes a copy of the other; otherwise the other's keys are added in their order; the values end as the sum either way |
| Inventory.DatedInventory.Remove | src/fava/core/inventory.py:150-163 | when the lots cannot cover the need (or the need is negative), fails with nothing changed; otherwise lowers the lots taken, in order, and returns them, or fails partway at the first undated lot |
| Inventory.DatedInventory.LowerLot | src/fava/core/inventory.py:161-162 | one iteration of the second loop |
| Inventory.DatedInventory.ApplyLots | src/fava/core/inventory.py:161-163 | the second loop leaves `ApplyTakes(old, takes)` and reports whether every lot was dated |
| Inventory.ScanLots | src/fava/core/inventory.py:151-157 | the first loop of `remove` computes `GreedyScan` |
| Sankey.GetBalance | src/fava/core/sankey.py:35-45 | the sort key and the edge weight are the absolute value of the account's balance |
| Sankey.Find | src/fava/core/sankey.py:60-61 | the position of the first separator |
| Sankey.EncodeNameRoundTrip | src/fava/core/sankey.py:60-61 | `str(id) + "_" + account` decodes back to `(id, account)` |
| Sankey.FindAfterDigits | src/fava/core/sankey.py:60-61 | the first `_` of an encoded name follows the digits of the id |
| Sankey.EncodedContains | src/fava/core/sankey.py:64-67 | a word that does not start with a digit or `_` occurs in an encoded name exactly when it occurs in the account |
| Sankey.ResultsDirection | src/fava/core/sankey.py:63-78 | no link from the root; a link from an Income or Asset account points child to parent; every other link points parent to child |
| Sankey.HeavierFirstIsTotal | src/fava/core/sankey.py:84 | heavier first, then original position, is a strict total order |
| Sankey.ChildOrder | src/fava/core/sankey.py:84 | the visiting order names positions of children |
| Sankey.ChildOrderSorted | src/fava/core/sankey.py:84 | `sorted(..., reverse=True)` visits every child once, heavier first, ties in original order |
| Sankey.ChildOrderUnique | src/fava/core/sankey.py:84 | any order with these properties is the visiting order |
| Sankey.PerformCons | src/fava/core/sankey.py:80-104 | replaying a trace applies its first write first |
| Sankey.PerformConcat | src/fava/core/sankey.py:80-104 | replaying two traces in a row is replaying their concatenation |
| Sankey.EndsConcat | src/fava/core/sankey.py:76-78 | the ends of concatenated link lists are the union of their ends |
| Sankey.PerformSound | src/fava/core/sankey.py:76-78 | replaying non-negative writes keeps every link end a node and every weight non-negative |
| Sankey.PerformKeys | src/fava/core/sankey.py:81-88 | after a trace, the named accounts and weighed accounts are those before plus those the trace names or weighs |
| Sankey.PerformKeepsId | src/fava/core/sankey.py:82 | writes that only assign larger ids keep an existing id's account |
| Sankey.WalkNonNegative | src/fava/core/sankey.py:87-88 | the walk records only non-negative weights |
| Sankey.WalkFromNonNegative | src/fava/core/sankey.py:84-104 | so does the walk over the remaining children |
| Sankey.WalkSound | src/fava/core/sankey.py:76-104 | after a walk, every link end is a node and every weight is non-negative |
| Sankey.IdsAboveConcat | src/fava/core/sankey.py:99 | a concatenation assigns only ids above a bound exactly when both parts do |
| Sankey.IdsAboveLower | src/fava/core/sankey.py:99 | ids above a bound are above every lower bound |
| Sankey.WalkIdsAbove | src/fava/core/sankey.py:83-104 | below a node, only larger ids are assigned |
| Sankey.WalkFromIdsAbove | src/fava/core/sankey.py:84-104 | the same for the remaining children |
| Sankey.ChildWalkIdsAbove | src/fava/core/sankey.py:99-104 | a child walked with `id * 100 + i` assigns only ids above the parent's |
| Sankey.KeptIdsAbove | src/fava/core/sankey.py:98-104 | a kept child and the rest assign only ids above the parent's |
| Sankey.WalkKeepsOwnId | src/fava/core/sankey.py:81-82 | after the walk of a node, its id still names its account |
| Sankey.WeighedConcat | src/fava/core/sankey.py:88 | the accounts weighed by a concatenation are those of its parts |
| Sankey.WalkFromWeighs | src/fava/core/sankey.py:84-88 | each remaining child is weighed, even a pruned or collapsed one |
| Sankey.WalkRecordsChildren | src/fava/core/sankey.py:84-88 | every child of a walked node has a recorded balance |
| Sankey.ChildAccountsMember | src/fava/core/sankey.py:84-104 | the accounts below the children from position `k` on are those below some such child |
| Sankey.OrderedAccountsMember | src/fava/core/sankey.py:84-104 | the same, for children in visiting order |
| Sankey.OrderedIsChildAccounts | src/fava/core/sankey.py:84 | visiting every child, in any order, reaches the same accounts |
| Sankey.DefaultWalkNamesMember | src/fava/core/sankey.py:48-58 | with the default policies, an account is named exactly when it is in the tree |
| Sankey.DefaultWalkFromNamesMember | src/fava/core/sankey.py:84-104 | the same for the remaining children |
| Sankey.DefaultStepNames | src/fava/core/sankey.py:98-104 | with the default policies, each child is walked and numbered |
| Sankey.DefaultWalkNames | src/fava/core/sankey.py:48-58 | with the default policies, the named accounts are exactly the tree's accounts |
| Sankey.NamedPrefix | src/fava/core/sankey.py:88-102 | the weight and link writes name nothing |
| Sankey.NamedConcat | src/fava/core/sankey.py:81 | the accounts named by a concatenation are those of its parts |
| Sankey.DefaultWalkNamesAll | src/fava/core/sankey.py:106-107 | `run` with the default policies gives every account of the tree an id |
| Sankey.ChildEdge | src/fava/core/sankey.py:87-89 | the edge to a child runs from the parent's account to the child's, weighted by the child's balance |
| Sankey.WalkFromKeep | src/fava/core/sankey.py:98-104 | a kept child is weighed, numbered `id * 100 + i`, linked and walked, and `i` grows |
| Sankey.PerformSkipped | src/fava/core/sankey.py:93-96 | replaying a skipped child |
| Sankey.PerformKept | src/fava/core/sankey.py:98-104 | replaying a kept child |
| Sankey.KeptChildAccountsMember | src/fava/core/sankey.py:84-104 | an account is kept below the children from position `k` on exactly when it is kept below some such child that is neither pruned nor collapsed |
| Sankey.OrderedKeptMember | src/fava/core/sankey.py:84-104 | the same, for children in visiting order |
| Sankey.OrderedIsKeptChildren | src/fava/core/sankey.py:84 | visiting every child, in any order, keeps the same accounts |
| Sankey.KeptWithinAccounts | src/fava/core/sankey.py:80-104 | the kept accounts are accounts of the tree |
| Sankey.KeptChildWithin | src/fava/core/sankey.py:84-104 | the same for the children from position `k` on |
| Sankey.WalkNamesMember | src/fava/core/sankey.py:80-104 | under any policy, an account is named exactly when it is kept: it is the root, or it lies below a chain of children none of which is pruned or collapsed |
| Sankey.WalkFromNamesMember | src/fava/core/sankey.py:84-104 | the same for the remaining children |
| Sankey.WalkNames | src/fava/core/sankey.py:80-104 | under any policy, the accounts the walk names are exactly the kept accounts |
| Sankey.PerformLinks | src/fava/core/sankey.py:76-78 | replaying a trace appends exactly its links, and adds exactly their ends as nodes |
| Sankey.EdgeAccountsConcat | src/fava/core/sankey.py:102 | the accounts on the edges of a concatenation are those of its parts |
| Sankey.ResultsLabels | src/fava/core/sankey.py:63-78 | both ends of a link decode to an id and one of the edge's two accounts, also after the swap |
| Sankey.LinksLabels | src/fava/core/sankey.py:63-78 | every link of a trace has both ends labelled with an account of one of the trace's edges |
| Sankey.WalkEdgeAccounts | src/fava/core/sankey.py:89-102 | every edge the walk links joins two kept accounts |
| Sankey.WalkFromEdgeAccounts | src/fava/core/sankey.py:89-102 | the same for the remaining children, whose edges start at the parent |
| Sankey.WalkReaches | src/fava/core/sankey.py:80-104 | after a walk under any policy, the ids cover the old ones plus exactly the kept accounts, and every new link end and node is labelled with a kept account |
| Sankey.EndsMember | src/fava/core/sankey.py:76-77 | a node added by links is an end of one of them |
| Sankey.SkippedSubtreeAbsent | src/fava/core/sankey.py:93-96 | in a tree without repeated account names, an account below a pruned or collapsed child is not kept, gets no id, and labels no new link end and no new node |
| Sankey.KeptBetweenSplit | src/fava/core/sankey.py:84-100 | the number of kept children in a range of visiting positions adds up over a split of the range |
| Sankey.KeptChildNumbered | src/fava/core/sankey.py:84-104 | a kept child at visiting position `k` gets `nid == id * 100 + i` where `i` counts the kept children before it, and both its link and its id are written |
| Sankey.NumberedHere | src/fava/core/sankey.py:98-104 | the child being visited, if kept, is numbered with the current `i` |
| Sankey.NumberedAfter | src/fava/core/sankey.py:84-104 | visiting one more child first keeps a later child's number, counting that child only when it is kept |
| Sankey.NumberedAfterSkip | src/fava/core/sankey.py:93-96 | a skipped child leaves `i` and later numbers unchanged |
| Sankey.NumberedAfterKeep | src/fava/core/sankey.py:98-104 | a kept child raises `i` by one for later children |
| Sankey.KeptChildId | src/fava/core/sankey.py:80-104 | the kept child at visiting position `y` gets id `id * 100 + c`, with `c` the number of kept children before it; its link and id are written; for `c < 100` the parent's id and `c` can be read back from the child's id |
| Sankey.ChildIdDecodes | src/fava/core/sankey.py:99 | for `c < 100`, `(id * 100 + c) / 100 == id` and `(id * 100 + c) % 100 == c` |
| Sankey.KeptSiblingsDiffer | src/fava/core/sankey.py:99-100 | a kept child is counted before every later sibling, so kept siblings get different ids |
| Sankey.SankeyTree.constructor | src/fava/core/sankey.py:17-33 | a missing policy defaults to the one that never prunes or collapses; the state starts empty |
| Sankey.SankeyTree.AddResults | src/fava/core/sankey.py:63-78 | the state after `add_results` is the link write applied to the old state |
| Sankey.SankeyTree.Dfs | src/fava/core/sankey.py:80-104 | the state after `dfs` is the old state with the walk's trace replayed |
| Sankey.SankeyTree.Step | src/fava/core/sankey.py:85-104 | one loop iteration handles one child; `i` grows only for a kept child |
| Sankey.SankeyTree.Run | src/fava/core/sankey.py:106-112 | `run` walks from the root with id 100; without a finalizer it returns an empty dictionary |
| Charts.BalanceSheetPrune | src/fava/core/charts.py:433-440 | a root edge is pruned exactly when it leads to neither Assets nor Liabilities; other edges never are |
| Charts.IncomeStatementPrune | src/fava/core/charts.py:560-570 | a root edge is pruned exactly when it leads to neither Income nor Expenses; another edge exactly when its target contains `-Balance`, `Company` or `Hospital:` |
| Charts.Track | src/fava/core/charts.py:468-479 | the level maximum is the larger of the weight and the stored maximum (default 1), and it is stored for that level only |
| Charts.TrackBounds | src/fava/core/charts.py:468-479 | level maxima stay at least 1 and never shrink, so the ratio of a non-negative weight lies in [0, 1] |
| Charts.RatioBounds | src/fava/core/charts.py:479 | a weight no larger than a maximum of at least 1 gives a ratio in [0, 1] |
| Charts.BalanceSheetCollapse | src/fava/core/charts.py:445-491 | returns the Assets edge unchanged; collapses too-deep edges at once; otherwise negates the weight of edges from Liabilities and collapses it exactly when its absolute weight is under 4% (Liabilities level) or 1% (Assets or Equity level) of the level maximum, which is updated for that level; keeps the ends and the child; never clears `collapsed`; level maxima stay valid and only grow |
| Charts.BalanceSheetTrack | src/fava/core/charts.py:468-478 | the chosen level maximum is at least 1 and at least the weight; the statistics stay valid and grow |
| Charts.BalanceSheetRatio | src/fava/core/charts.py:462-491 | the edge comes back as it is or marked collapsed, and is marked exactly when it was already or its weight is under 4% (Liabilities) or 1% (Assets, Equity) of the updated level maximum of its lower-level end; the statistics become those of the update |
| Charts.RatioBelow | src/fava/core/charts.py:479-489 | a share of a positive maximum is under `c` exactly when the weight is under `c` times the maximum |
| Charts.BalanceSheetHeaviestKept | src/fava/core/charts.py:470-491 | an edge whose weight sets its level's maximum is never collapsed by the weight rule |
| Charts.BalanceSheetCollapseByWeight | src/fava/core/charts.py:446-462 | an edge that passes the Assets and depth rules reaches the weight rule with a Liabilities source negated |
| Charts.BalanceSheetCollapser.constructor | src/fava/core/charts.py:442-444 | the three statistics start empty |
| Charts.BalanceSheetCollapser.Collapse | src/fava/core/charts.py:445-491 | the closure returns and records exactly what `BalanceSheetCollapse` gives for the old statistics |
| Charts.BalanceSheetCollapser.Observe | src/fava/core/charts.py:468-478 | updates one statistic as `BalanceSheetTrack` gives |
| Charts.IncomeStatementCollapse | src/fava/core/charts.py:575-612 | negates the weight of edges from Income; collapses too-deep edges without touching the statistics; collapses any other edge exactly when its absolute weight is under 4% of the updated level maximum on an Expenses level deeper than two segments, or under 0.1% on an Income level; keeps the ends and the child; never clears `collapsed`; level maxima stay valid and only grow |
| Charts.IncomeStatementTrack | src/fava/core/charts.py:596-602 | the chosen level maximum is at least 1 and at least the weight; the statistics stay valid and grow |
| Charts.IncomeStatementRatio | src/fava/core/charts.py:590-612 | the edge comes back as it is or marked collapsed, and is marked exactly when it was already or its weight is under 4% (Expenses level deeper than two segments) or 0.1% (Income level) of the updated level maximum; the statistics become those of the update |
| Charts.IncomeHeaviestKept | src/fava/core/charts.py:596-612 | an edge whose weight sets its level's maximum is never collapsed by the weight rule |
| Charts.IncomeStatementCollapser.constructor | src/fava/core/charts.py:573-574 | both statistics start empty |
| Charts.IncomeStatementCollapser.Collapse | src/fava/core/charts.py:575-612 | the closure returns and records exactly what `IncomeStatementCollapse` gives for the old statistics |
| Charts.IncomeStatementCollapser.Observe | src/fava/core/charts.py:596-602 | updates one statistic as `IncomeStatementTrack` gives |
| Charts.BalanceSheetLinks | src/fava/core/charts.py:494-506 | one link from Assets to `Liabilities:Current`, plus one to `Liabilities:NonCurrent` exactly when its absolute balance is positive; all from Assets, all non-negative |
| Charts.FinalizeBalanceSheet | src/fava/core/charts.py:493-514 | appends those links; drops the NonCurrent node when no link is added; changes nothing else |
| Charts.ProfitLabelEncoded | src/fava/core/charts.py:634 | `encode_name(801000000, "Profit")` is `"801000000_Profit"` |
| Charts.IncomeStatementLinks | src/fava/core/charts.py:627-642 | a link from Income to Expenses, plus a profit link exactly when the profit test holds, carrying the profit value |
| Charts.ProfitFromRecordedBalances | src/fava/core/charts.py:631-642 | for recorded (non-negative) balances, there is profit exactly when both are positive, and it is their sum |
| Charts.ProfitPositive | src/fava/core/charts.py:631-642 | a profit link always carries a positive value |
| Charts.FinalizeIncomeStatement | src/fava/core/charts.py:614-647 | returns empty lists, changing nothing, when income and expenses are both zero; otherwise appends those links and adds the profit node exactly when there is profit |
| Charts.Reversed | src/fava/core/charts.py:520-522 | a reversed link swaps source and target and keeps the weight |
| Charts.ReversedTwice | src/fava/core/charts.py:520-522 | reversing twice gives the link back |
| Charts.ReverseLinks | src/fava/core/charts.py:520-522 | every link of the array is reversed in place |
| Charts.InvToDictKeys | src/fava/core/charts.py:54-60 | a currency is a key exactly when some position in it has a number |
| Charts.InvToDictLast | src/fava/core/charts.py:54-60 | its value is the number of the last such position |
| Charts.CanPlotQuery | src/fava/core/charts.py:659-670 | true exactly for two columns, a string or date column followed by an inventory column |
| Charts.Changed | src/fava/core/charts.py:313-315 | only journal steps with a non-empty change are reported, in order |
| Charts.FillSpec | src/fava/core/charts.py:323-327 | the filled balance has the current currencies with their numbers, and the vanished ones with 0 |
| Charts.ReportsIndex | src/fava/core/charts.py:310-329 | the k-th report is the k-th changed step's date and zero-filled balance |
| Charts.ReportedPrefix | src/fava/core/charts.py:310-329 | a report depends only on the steps up to it |
| Charts.ReportsSnoc | src/fava/core/charts.py:323-329 | one more step adds one report, and the remembered currencies become that step's |
| Charts.ReportedZeroFills | src/fava/core/charts.py:323-327 | a report lists a currency exactly when it is held now or was held at the previous report; a vanished one reports 0, a held one its number |
| Charts.ReportedFirst | src/fava/core/charts.py:324 | the first report is not filled |
| Charts.ChangedStep | src/fava/core/charts.py:313-315 | a step with an empty change is skipped; any other is appended |
| Charts.FillUnique | src/fava/core/charts.py:323-327 | any dictionary with the filled keys and values is the filled balance |
| Charts.ZeroVanished | src/fava/core/charts.py:323-327 | the fill loop computes `Fill` |
| Charts.Linechart | src/fava/core/charts.py:310-329 | one report per changed step, each the step's date and its zero-filled balance |
| Strings.ContainsIffOccurs | src/fava/core/charts.py:446-489 | Python's `t in s` holds exactly when `t` occurs at some position |
| Strings.NotContainsWithoutFirstChar | src/fava/core/sankey.py:67 | a word whose first character never appears in `s` is not in `s` |
| Strings.ContainsAfterPrefix | src/fava/core/sankey.py:67 | a prefix without the word's first character does not change whether the word occurs |
| Strings.Split | src/fava/core/charts.py:449-455 | `split` gives at least one part, and no part contains the separator |
| Strings.JoinSplit | src/fava/core/charts.py:449-455 | joining the parts of `split` with the separator gives the string back |
| Strings.SplitLength | src/fava/core/charts.py:468 | the number of parts is the number of separators plus one |
| Strings.NatToString | src/fava/core/sankey.py:60-61 | `str(n)` is a non-empty string of digits |
| Strings.ParseNatToString | src/fava/core/sankey.py:60-61 | `int(str(n)) == n` |
| Strings.StringLessIrreflexive | src/fava/core/__init__.py:733 | no string is less than itself |
| Strings.StringLessTotal | src/fava/core/__init__.py:733 | of two different strings one is less |
| Strings.StringLessAsymmetric | src/fava/core/__init__.py:733 | two strings are never each less than the other |
| Strings.StringLessTransitive | src/fava/core/__init__.py:733 | string order is transitive |
| Sorting.InsertPermutes | src/fava/core/__init__.py:733 | insertion adds exactly the one position |
| Sorting.InsertMembers | src/fava/core/__init__.py:733 | insertion keeps the other positions |
| Sorting.InsertSorted | src/fava/core/__init__.py:733 | inserting into a sorted list keeps it sorted |
| Sorting.InsertNext | src/fava/core/__init__.py:733 | inserting the next position extends a sort of a prefix |
| Sorting.SortPrefix | src/fava/core/__init__.py:733 | the sort of the first `m` positions lists each of them |
| Sorting.SortPrefixSorted | src/fava/core/__init__.py:733 | and is sorted |
| Sorting.SortIndices | src/fava/core/__init__.py:733 | `sorted` lists every position below `n` |
| Sorting.SortIndicesSorted | src/fava/core/__init__.py:733 | in order |
| Sorting.FirstIsLeast | src/fava/core/__init__.py:733 | the first of a sorted list is below every other |
| Sorting.SortedUnique | src/fava/core/__init__.py:733 | a strict total order has one sorted arrangement |
| Sorting.SortedDistinct | src/fava/core/__init__.py:733 | a sorted list of positions repeats none, so sorting permutes |
| Ledger.FilterMembers | src/fava/core/__init__.py:276-285 | a comprehension keeps exactly the items its condition accepts |
| Ledger.FilterConcat | src/fava/core/__init__.py:276-285 | a comprehension keeps the original order |
| Ledger.FilterSplit | src/fava/core/__init__.py:199-204 | a condition and its negation split a list into parts whose lengths add up |
| Ledger.StringLessLinear | src/fava/core/__init__.py:733 | string order is a strict total order |
| Ledger.PairLessLinear | src/fava/core/__init__.py:650 | the order of pairs of strings is a strict total order |
| Ledger.SortBySpec | src/fava/core/__init__.py:206 | `sorted(xs, key=...)` rearranges `xs` by a permutation of its positions, keys never decrease, and equal keys keep their relative order |
| Ledger.SortByMembers | src/fava/core/__init__.py:206 | sorting neither adds nor loses items |
| Ledger.EntryFilter.constructor | src/fava/core/__init__.py:88-90 | a new filter has no value |
| Ledger.EntryFilter.Set | src/fava/core/__init__.py:100-104 | stores the value and reports whether it changed |
| Ledger.Filters.constructor | src/fava/core/__init__.py:85-90 | three separate, fresh filters, all without a value |
| Ledger.Filters.Set | src/fava/core/__init__.py:92-105 | all three setters run; the result is true exactly when at least one value changed |
| Ledger.Filters.Apply | src/fava/core/__init__.py:107-112 | the account filter applies first, then the advanced filter, then the time filter |
| Ledger.PricesSpec | src/fava/core/__init__.py:269-285 | with a set time filter and both bounds, exactly the prices dated in `[begin, end)`; otherwise all prices |
| Ledger.PricesConcat | src/fava/core/__init__.py:276-285 | the selection keeps the prices' order |
| Ledger.Events | src/fava/core/__init__.py:196-212 | with `insurance`, the insurance events sorted by type; else, with a non-empty type, the events of that type; else the other events in their order |
| Ledger.InsurancePartition | src/fava/core/__init__.py:199-204 | every event goes to exactly one of the two lists, and their lengths add up |
| Ledger.InsuranceEventsSpec | src/fava/core/__init__.py:205-207 | with `insurance`, exactly the events whose type contains `Insurance_` come back, ordered by type |
| Ledger.AccountIsClosed | src/fava/core/__init__.py:287-301 | closed before the last date when a time filter and a last date exist; otherwise closed whenever a close date other than `date.max` is recorded |
| Ledger.NeverClosedAccount | src/fava/core/__init__.py:297-301 | an account without a close date is never reported closed |
| Ledger.BackwardMembers | src/fava/core/__init__.py:643-649 | a reversed pair is listed exactly when its reversal is a forward pair of two operating currencies |
| Ledger.CommodityPairs | src/fava/core/__init__.py:635-650 | the loop and the sort give `sorted(fw_pairs + bw_pairs)` |
| Ledger.CommodityPairsSpec | src/fava/core/__init__.py:635-650 | the result lists the forward pairs and the reversed pairs of operating currencies, all of them, in sorted order |
| Ledger.LastStatusSpec | src/fava/core/__init__.py:706-716 | no status exactly when no posting decides one; otherwise the status of the newest posting that decides one |
| Ledger.AccountUptodateStatus | src/fava/core/__init__.py:688-716 | the newest-first scan returns the status of the newest balance (red when it failed, green otherwise) or realized transaction (yellow), skipping unrealized ones |
| Ledger.CollectGroups | src/fava/core/__init__.py:729-731 | each class name seen becomes one key, listed once, holding the entries of that class in their order |
| Ledger.SortByDistinctNames | src/fava/core/__init__.py:733 | sorting items with distinct names keeps every item and orders the names strictly |
| Ledger.GroupEntriesByType | src/fava/core/__init__.py:718-733 | every entry lands in the one group of its class; each group keeps the entries' order; the groups are sorted strictly by class name |
| Ledger.FirstWithHash | src/fava/core/__init__.py:589-593 | the position of the first entry with the hash, or none when no entry has it |
| Ledger.GetEntry | src/fava/core/__init__.py:577-597 | the first entry with the given hash, or the "No entry found" error exactly when none has it |

## Left out

- Floating point: Decimals and the chart code's floats are exact `real`s. The income ratio `float(weight) / max(float(level_max), 1)` is exact division.
- Link weights are numbers here. The code stores them as `str(weight)`. The JSON encoding of nodes and links is not modelled.
- Realization is not modelled. Beancount's `realize`, `compute_balance`, `iter_children`, `get_postings` and `iterate_with_balance` are inputs here. A Sankey tree is a `Node` tree whose balance is the CNY number. An account's postings and the linechart's journal are sequences handed in.
- `cost_or_value` conversion and the price map are not modelled. They are external to the core. The linechart takes already converted balances, and `commodity_pairs` takes the price map's forward pairs.
- Charts.BalanceSheetCollapser.Collapse, Charts.IncomeStatementCollapser.Collapse: modelled standalone. They are not used as the walk's collapse policy, because the code as written cannot combine them (see above).
- Charts.FinalizeIncomeStatement: treats the calls to `add_fake_income` and `add_fake_expenses` (src/fava/core/charts.py:618-622) as changing nothing. `SankeyTree` (src/fava/core/sankey.py:14-112) has no such methods. As written, the finalizer raises `AttributeError` whenever the Income or the Expenses balance is 0, so its `([], [])` return for two zero balances (src/fava/core/charts.py:624-625) is unreachable. The model reaches that return instead.
- `print` calls in the finalizers are left out.
- The interval and transaction selection before each Sankey chart is left out. It is iteration glue over `interval_ends`.
- `linechart` is modelled for one account. The outer loop over several account names only concatenates the per-account results.
- `fava.core.filters` is not part of this model. The three sub-filters' `set` is modelled as "store, report whether changed". Their `apply` is a selection function given to the constructor.
- The time filter's truth value and bounds are inputs (`Ledger.TimeRange`). So are `_date_last` and an account's close date.
- `hash_entry` is beancount code. `Ledger.GetEntry` takes it as a function parameter.
- Directives are reduced to their class name, date and event type (`Ledger.Entry`). `Ledger.Posting` keeps only what the status scan reads.
- `FLAG_UNREALIZED` is taken to be `"U"`. `fava.core._compat` is not part of this model.
- Sankey.KeptChildId: ids are proved distinct among siblings only. With 100 or more kept children under one account, `id * 100 + i` runs into the ids of the next parent's children. Then `id_name_` is overwritten, as in the code. No lemma states that ids are unique across the whole tree.
- Sankey.SkippedSubtreeAbsent: assumes account names in the tree are distinct, as a realization's full account names are. With a repeated name, an account below a skipped child can still be named through its other occurrence.
- Sankey.SankeyTree.Run: the `finalize` callback is not wired in; `Run` returns the empty dictionary of the no-finalizer case. The two chart finalizers are separate methods on the tree.
- Inventory.CounterInventory.Reduce: does not model the order in which `reduce` visits keys. The values do not depend on that order. The key order of the returned dict is not modelled; every `CounterInventory` is a `map`, so none of them has one. That order is the order in which currencies are first inserted, and a currency popped at a zero intermediate sum moves to the end.
- `add_position` and `reduce` of `DatedInventory` are not modelled. They only forward to `add_amount`, or repeat `CounterInventory.reduce`.
- Reading `.date` of a missing cost raises `AttributeError`, and a missing date fails the assertion. Both are modelled as the same failure (`Inventory.Dated`).
