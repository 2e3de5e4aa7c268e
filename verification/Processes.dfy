/** Process attribution of scripts/windows/discovery.py, over one snapshot of the process table.
    Whether a row's executable lies in the mirrored tree or among the extra paths is a flag of the row. */
module Processes {
  import opened Accounts
  import opened Collections

  datatype Row = Row(pid: int, parent: Option<int>, pathMatch: bool)

  // ---- Specification: the least attributable set ----

  /** What makes a row attributable once `tracked` is. */
  predicate Joins(row: Row, tracked: set<int>, baseline: set<int>) {
    row.pid !in baseline && (row.pathMatch || (row.parent.Some? && row.parent.value in tracked))
  }

  ghost predicate Closed(rows: seq<Row>, tracked: set<int>, baseline: set<int>) {
    forall row :: row in rows && Joins(row, tracked, baseline) ==> row.pid in tracked
  }

  /** `tracked` is the least closed set that contains `roots`. */
  ghost predicate IsLeast(rows: seq<Row>, tracked: set<int>, roots: set<int>, baseline: set<int>) {
    && roots <= tracked && Closed(rows, tracked, baseline)
    && forall other: set<int> :: roots <= other && Closed(rows, other, baseline) ==> tracked <= other
  }

  lemma LeastUnique(rows: seq<Row>, s: set<int>, t: set<int>, roots: set<int>, baseline: set<int>)
    requires IsLeast(rows, s, roots, baseline) && IsLeast(rows, t, roots, baseline)
    ensures s == t
  {
    assert s <= t && t <= s;
  }

  /** The result depends on which rows there are, not on their order or repetition. */
  lemma OrderIrrelevant(rows: seq<Row>, other: seq<Row>, s: set<int>, t: set<int>, roots: set<int>, baseline: set<int>)
    requires forall row :: row in rows <==> row in other
    requires IsLeast(rows, s, roots, baseline) && IsLeast(other, t, roots, baseline)
    ensures s == t
  {
    hide Joins;
    assert forall x: set<int> :: Closed(rows, x, baseline) <==> Closed(other, x, baseline);
    assert s <= t && t <= s;
  }

  function Pids(rows: seq<Row>): set<int> {
    set i | 0 <= i < |rows| :: rows[i].pid
  }

  lemma JoinsMonotone(row: Row, s: set<int>, t: set<int>, baseline: set<int>)
    requires s <= t && Joins(row, s, baseline)
    ensures Joins(row, t, baseline)
  {
  }

  // ---- attributable_process_pids ----

  ghost predicate Increasing(s: seq<int>) {
    forall i, j :: 0 <= i < j < |s| ==> s[i] < s[j]
  }

  /** sorted(set). */
  method Sorted(s: set<int>) returns (r: seq<int>)
    ensures Increasing(r) && forall x :: x in r <==> x in s
  {
    r := [];
    var rest := s;
    while rest != {}
      invariant rest <= s
      invariant forall x :: x in r <==> x in s && x !in rest
      invariant Increasing(r)
      invariant forall i, y :: 0 <= i < |r| && y in rest ==> r[i] < y
      decreases |rest|
    {
      var least := Minimum(rest);
      r := r + [least];
      rest := rest - {least};
    }
  }

  method Minimum(s: set<int>) returns (least: int)
    requires s != {}
    ensures least in s && forall x :: x in s ==> least <= x
  {
    least := Any(s);
    var rest := s - {least};
    while rest != {}
      invariant rest <= s && least in s
      invariant forall x :: x in s && x !in rest ==> least <= x
      decreases |rest|
    {
      var x := Any(rest);
      if x < least {
        least := x;
      }
      rest := rest - {x};
    }
  }

  method AttributableProcessPids(rootPid: int, baseline: set<int>, rows: seq<Row>, seeds: set<int>)
    returns (pids: seq<int>)
    ensures Increasing(pids)
    ensures IsLeast(rows, set x | x in pids, {rootPid} + seeds, baseline)
  {
    var tracked := {rootPid} + seeds;
    ghost var roots := tracked;
    var changed := true;
    while changed
      invariant roots <= tracked <= roots + Pids(rows)
      invariant forall other: set<int> :: roots <= other && Closed(rows, other, baseline) ==> tracked <= other
      invariant !changed ==> Closed(rows, tracked, baseline)
      decreases |roots + Pids(rows) - tracked|, changed
    {
      changed := false;
      ghost var before := tracked;
      for i := 0 to |rows|
        invariant before <= tracked <= roots + Pids(rows)
        invariant forall other: set<int> :: roots <= other && Closed(rows, other, baseline) ==> tracked <= other
        invariant changed <==> tracked != before
        invariant !changed ==> forall k :: 0 <= k < i && Joins(rows[k], tracked, baseline) ==> rows[k].pid in tracked
      {
        var row := rows[i];
        if row.pid in tracked || row.pid in baseline {
          continue;
        }
        var parentMatch := row.parent.Some? && row.parent.value in tracked;
        if row.pathMatch || parentMatch {
          forall other: set<int> | roots <= other && Closed(rows, other, baseline) ensures row.pid in other {
            JoinsMonotone(row, tracked, other, baseline);
            assert row in rows;
          }
          tracked := tracked + {row.pid};
          changed := true;
        }
      }
      if changed {
        Shrinks(roots + Pids(rows), before, tracked);
      }
    }
    pids := Sorted(tracked);
    assert (set x | x in pids) == tracked;
  }

  lemma Shrinks(all: set<int>, before: set<int>, after: set<int>)
    requires before < after <= all
    ensures |all - after| < |all - before|
  {
    assert after == before + (after - before);
    SubsetSize(all - after, all - before);
  }

  /** The least set in plain terms: it holds the roots and, the baseline aside, every row that matches the path or has a
      tracked parent, and every other set that does holds it too. */
  lemma AttributedMeans(rows: seq<Row>, tracked: set<int>, roots: set<int>, baseline: set<int>)
    ensures IsLeast(rows, tracked, roots, baseline) <==>
      && roots <= tracked
      && (forall row | row in rows && row.pid !in baseline ::
            row.pathMatch || (row.parent.Some? && row.parent.value in tracked) ==> row.pid in tracked)
      && (forall other: set<int> |
            roots <= other && (forall row | row in rows && row.pid !in baseline ::
              row.pathMatch || (row.parent.Some? && row.parent.value in other) ==> row.pid in other) ::
            tracked <= other)
  {
    assert forall other: set<int> :: Closed(rows, other, baseline) <==>
      forall row | row in rows && row.pid !in baseline ::
        row.pathMatch || (row.parent.Some? && row.parent.value in other) ==> row.pid in other;
  }

  /** A process that was there before the launch is attributed only if it is the root or a seed. */
  lemma BaselineNeverAttributed(rows: seq<Row>, tracked: set<int>, roots: set<int>, baseline: set<int>)
    requires IsLeast(rows, tracked, roots, baseline)
    ensures forall pid :: pid in tracked && pid in baseline ==> pid in roots
  {
    var rest := tracked - (baseline - roots);
    forall row | row in rows && Joins(row, rest, baseline) ensures row.pid in rest {
      JoinsMonotone(row, rest, tracked, baseline);
    }
    assert tracked <= rest;
  }

  // ---- process_tree_pids ----

  ghost predicate IsChild(rows: seq<Row>, parent: int, child: int) {
    exists row :: row in rows && row.parent == Some(parent) && row.pid == child
  }

  /** The rows' children by parent, each list in row order. */
  function ChildrenOf(rows: seq<Row>, parent: int): (r: seq<int>)
    ensures forall c :: c in r <==> IsChild(rows, parent, c)
  {
    if rows == [] then []
    else
      var init, last := rows[..|rows| - 1], rows[|rows| - 1];
      assert rows == init + [last];
      assert last in rows;
      assert forall c :: IsChild(rows, parent, c) <==> IsChild(init, parent, c) || (last.parent == Some(parent) && last.pid == c);
      ChildrenOf(init, parent) + (if last.parent == Some(parent) then [last.pid] else [])
  }

  method GroupByParent(rows: seq<Row>) returns (children: map<int, seq<int>>)
    ensures forall p :: (if p in children then children[p] else []) == ChildrenOf(rows, p)
  {
    hide IsChild;
    children := map[];
    for i := 0 to |rows|
      invariant forall p :: (if p in children then children[p] else []) == ChildrenOf(rows[..i], p)
    {
      var row := rows[i];
      assert rows[..i + 1][..i] == rows[..i];
      if row.parent.Some? {
        var p := row.parent.value;
        var known := if p in children then children[p] else [];
        children := children[p := known + [row.pid]];
      }
    }
    assert rows[..|rows|] == rows;
  }

  /** Every pid but the first was found as the child of an earlier one. */
  ghost predicate ParentsFirst(rows: seq<Row>, s: seq<int>) {
    forall j :: 0 < j < |s| ==> exists i :: 0 <= i < j && IsChild(rows, s[i], s[j])
  }

  /** The children of the first `n` pids are all listed. */
  ghost predicate Expanded(rows: seq<Row>, s: seq<int>, n: nat)
    requires n <= |s|
  {
    forall i, c :: 0 <= i < n && IsChild(rows, s[i], c) ==> c in s
  }

  /** One of the first `n` pids is a parent of `child`. */
  ghost predicate HasParentAmong(rows: seq<Row>, s: seq<int>, n: nat, child: int) {
    exists e :: 0 <= e < n && e < |s| && IsChild(rows, s[e], child)
  }

  /** All but the first pid were found as children of the first `n`. */
  ghost predicate FoundBy(rows: seq<Row>, s: seq<int>, n: nat) {
    forall j :: 0 < j < |s| ==> HasParentAmong(rows, s, n, s[j])
  }

  /** First in, first out: whoever is listed earlier has a parent listed no later. */
  ghost predicate QueueOrder(rows: seq<Row>, s: seq<int>) {
    forall j, k, i :: 0 < j < k < |s| && 0 <= i < |s| && IsChild(rows, s[i], s[k]) ==>
      HasParentAmong(rows, s, i + 1, s[j])
  }

  /** The pids at most `d` parent links below `root`. */
  ghost function Within(rows: seq<Row>, root: int, d: nat): set<int> {
    if d == 0 then {root}
    else
      var closer := Within(rows, root, d - 1);
      closer + set i | 0 <= i < |rows| && rows[i].parent.Some? && rows[i].parent.value in closer :: rows[i].pid
  }

  /** Breadth first: nobody is listed before a pid closer to the root. */
  ghost predicate ByDistance(rows: seq<Row>, s: seq<int>)
    requires s != []
  {
    forall i, j, d: nat :: 0 <= i < j < |s| && s[j] in Within(rows, s[0], d) ==> s[i] in Within(rows, s[0], d)
  }

  /** The first row that makes `c` a child of `parent` comes before every row that makes `d` one. */
  ghost predicate RowBefore(rows: seq<Row>, parent: int, c: int, d: int) {
    exists i :: 0 <= i < |rows| && rows[i].parent == Some(parent) && rows[i].pid == c &&
      forall k :: 0 <= k <= i ==> !(rows[k].parent == Some(parent) && rows[k].pid == d)
  }

  /** If pids `j` and `k` were both found through pid `e`, they are in row order. */
  ghost predicate SiblingsAt(rows: seq<Row>, s: seq<int>, e: nat, j: nat, k: nat)
    requires e < |s| && j < |s| && k < |s|
  {
    (IsChild(rows, s[e], s[j]) && IsChild(rows, s[e], s[k])
     && !HasParentAmong(rows, s, e, s[j]) && !HasParentAmong(rows, s, e, s[k])) ==>
      RowBefore(rows, s[e], s[j], s[k])
  }

  /** Children found through the same parent are listed in row order. */
  ghost predicate SiblingOrder(rows: seq<Row>, s: seq<int>) {
    forall e, j, k | 0 <= e < |s| && 0 < j < k < |s| :: SiblingsAt(rows, s, e, j, k)
  }

  /** Whoever was not found through one of the first `n` pids is among `new`. */
  ghost predicate FoundOrNew(rows: seq<Row>, s: seq<int>, n: nat, latest: seq<int>) {
    forall j :: 0 < j < |s| ==> HasParentAmong(rows, s, n, s[j]) || s[j] in latest
  }

  /** The state of the search after expanding the first `n` pids of `result`. */
  ghost predicate Searching(rows: seq<Row>, root: int, result: seq<int>, seen: set<int>, pending: seq<int>, n: nat) {
    && n <= |result| && pending == result[n..]
    && |result| > 0 && result[0] == root && Distinct(result)
    && seen == (set x | x in result) && seen <= {root} + Pids(rows)
    && ParentsFirst(rows, result) && FoundBy(rows, result, n) && QueueOrder(rows, result)
  }

  ghost predicate ListedUpTo(list: seq<int>, k: nat, result: seq<int>)
    requires k <= |list|
  {
    forall i :: 0 <= i < k ==> list[i] in result
  }

  lemma NoneListed(list: seq<int>, result: seq<int>)
    ensures ListedUpTo(list, 0, result)
  {
  }

  lemma ListedMore(list: seq<int>, k: nat, result: seq<int>, added: seq<int>)
    requires k < |list| && ListedUpTo(list, k, result) && list[k] in result + added
    ensures ListedUpTo(list, k + 1, result + added)
    ensures added == [] ==> result + added == result
  {
  }

  lemma OneInOrder(rows: seq<Row>, root: int)
    ensures SiblingOrder(rows, [root])
  {
  }

  lemma NothingNew(rows: seq<Row>, s: seq<int>, n: nat, list: seq<int>)
    requires FoundBy(rows, s, n)
    ensures FoundOrNew(rows, s, n, list[..0])
  {
    hide HasParentAmong;
  }

  lemma MoreNew(rows: seq<Row>, s: seq<int>, n: nat, list: seq<int>, k: nat)
    requires k < |list| && FoundOrNew(rows, s, n, list[..k])
    ensures FoundOrNew(rows, s, n, list[..k + 1])
  {
    hide HasParentAmong;
    assert list[..k + 1] == list[..k] + [list[k]];
  }

  lemma FirstInList(list: seq<int>, k: nat, result: seq<int>)
    requires k < |list| && ListedUpTo(list, k, result) && list[k] !in result
    ensures list[k] !in list[..k]
  {
  }

  /** The order of the list of children is the order of their first rows. */
  lemma {:induction false} ChildrenInRowOrder(rows: seq<Row>, parent: int, k: nat, c: int)
    requires k < |ChildrenOf(rows, parent)| && ChildrenOf(rows, parent)[k] !in ChildrenOf(rows, parent)[..k]
    requires c in ChildrenOf(rows, parent)[..k]
    ensures RowBefore(rows, parent, c, ChildrenOf(rows, parent)[k])
  {
    hide IsChild;
    var init, last := rows[..|rows| - 1], rows[|rows| - 1];
    var list, before := ChildrenOf(rows, parent), ChildrenOf(init, parent);
    var d := list[k];
    assert list[..|before|] == before;
    if k < |before| {
      assert before[..k] == list[..k];
      ChildrenInRowOrder(init, parent, k, c);
      RowsExtended(init, last, parent, c, d);
      assert rows == init + [last];
    } else {
      assert list[..k] == before;
      assert c in before && d !in before;
      LastRow(init, last, parent, c, d);
      assert rows == init + [last];
    }
  }

  lemma RowsExtended(init: seq<Row>, last: Row, parent: int, c: int, d: int)
    requires RowBefore(init, parent, c, d)
    ensures RowBefore(init + [last], parent, c, d)
  {
    var rows := init + [last];
    var i :| 0 <= i < |init| && init[i].parent == Some(parent) && init[i].pid == c &&
      forall k :: 0 <= k <= i ==> !(init[k].parent == Some(parent) && init[k].pid == d);
    assert rows[i] == init[i] && forall k :: 0 <= k <= i ==> rows[k] == init[k];
  }

  lemma LastRow(init: seq<Row>, last: Row, parent: int, c: int, d: int)
    requires c in ChildrenOf(init, parent) && d !in ChildrenOf(init, parent)
    ensures RowBefore(init + [last], parent, c, d)
  {
    var rows := init + [last];
    var row :| row in init && row.parent == Some(parent) && row.pid == c;
    var i :| 0 <= i < |init| && init[i] == row;
    assert rows[i] == init[i];
    forall k | 0 <= k <= i ensures !(rows[k].parent == Some(parent) && rows[k].pid == d) {
      assert rows[k] == init[k] && init[k] in init;
      assert !IsChild(init, parent, d);
    }
  }

  /** Appending the next new child keeps siblings in row order. */
  lemma NewSibling(rows: seq<Row>, s: seq<int>, n: nat, list: seq<int>, k: nat)
    requires 0 < n <= |s| && FoundBy(rows, s, n) && Expanded(rows, s, n - 1)
    requires list == ChildrenOf(rows, s[n - 1]) && k < |list| && list[k] !in s && list[k] !in list[..k]
    requires FoundOrNew(rows, s, n - 1, list[..k]) && SiblingOrder(rows, s)
    ensures FoundOrNew(rows, s + [list[k]], n - 1, list[..k + 1]) && SiblingOrder(rows, s + [list[k]])
  {
    hide IsChild, ChildrenOf, HasParentAmong, RowBefore, SiblingsAt;
    var child, t := list[k], s + [list[k]];
    forall j | 0 < j < |t| ensures HasParentAmong(rows, t, n - 1, t[j]) || t[j] in list[..k + 1] {
      assert list[..k + 1] == list[..k] + [child];
      if j < |s| {
        assert t[j] == s[j];
        SameParents(rows, s, t, n - 1, s[j]);
      }
    }
    forall e, j, m | 0 <= e < |t| && 0 < j < m < |t| ensures SiblingsAt(rows, t, e, j, m) {
      SiblingAdded(rows, s, n, list, k, e, j, m);
    }
  }

  lemma SiblingAdded(rows: seq<Row>, s: seq<int>, n: nat, list: seq<int>, k: nat, e: nat, j: nat, m: nat)
    requires 0 < n <= |s| && FoundBy(rows, s, n) && Expanded(rows, s, n - 1)
    requires list == ChildrenOf(rows, s[n - 1]) && k < |list| && list[k] !in s && list[k] !in list[..k]
    requires FoundOrNew(rows, s, n - 1, list[..k]) && SiblingOrder(rows, s)
    requires e <= |s| && 0 < j < m <= |s|
    ensures SiblingsAt(rows, s + [list[k]], e, j, m)
  {
    hide IsChild, ChildrenOf, HasParentAmong, RowBefore;
    var child, t := list[k], s + [list[k]];
    assert t[j] == s[j];
    SameParents(rows, s, t, e, s[j]);
    if m < |s| {
      assert t[m] == s[m];
      SameParents(rows, s, t, e, s[m]);
      if e == |s| {
        MoreParents(rows, s, n, s, e, s[j]);
      } else {
        assert SiblingsAt(rows, s, e, j, m);
      }
    } else if IsChild(rows, t[e], child) && !HasParentAmong(rows, t, e, child) && !HasParentAmong(rows, t, e, s[j]) {
      ChildListed(rows, s[n - 1], list, k);
      ParentOfNew(rows, s, n, child, e);
      assert s[j] in list[..k];
      ChildrenInRowOrder(rows, s[n - 1], k, s[j]);
    }
  }

  lemma EveryoneFound(rows: seq<Row>, root: int, result: seq<int>, seen: set<int>, pending: seq<int>, n: nat)
    requires Searching(rows, root, result, seen, pending, n)
    ensures FoundBy(rows, result, n)
  {
  }

  lemma ChildListed(rows: seq<Row>, parent: int, list: seq<int>, k: nat)
    requires list == ChildrenOf(rows, parent) && k < |list|
    ensures IsChild(rows, parent, list[k])
  {
  }

  lemma SameParents(rows: seq<Row>, s: seq<int>, t: seq<int>, n: nat, child: int)
    requires s <= t && n <= |s|
    ensures HasParentAmong(rows, s, n, child) <==> HasParentAmong(rows, t, n, child)
  {
    hide IsChild;
    if HasParentAmong(rows, t, n, child) {
      var e :| 0 <= e < n && e < |t| && IsChild(rows, t[e], child);
      assert IsChild(rows, s[e], child);
    }
    if HasParentAmong(rows, s, n, child) {
      MoreParents(rows, s, n, t, n, child);
    }
  }

  /** The pid being expanded is the first to have the new child. */
  lemma ParentOfNew(rows: seq<Row>, s: seq<int>, n: nat, child: int, e: nat)
    requires 0 < n <= |s| && Expanded(rows, s, n - 1) && child !in s && IsChild(rows, s[n - 1], child)
    requires e <= |s| && IsChild(rows, (s + [child])[e], child) && !HasParentAmong(rows, s + [child], e, child)
    ensures e == n - 1
  {
    hide IsChild;
    var t := s + [child];
    assert t[n - 1] == s[n - 1];
    assert forall i :: 0 <= i < n - 1 ==> t[i] == s[i];
    assert forall i :: 0 <= i < e ==> !IsChild(rows, t[i], child);
  }

  lemma ExpandListed(rows: seq<Row>, s: seq<int>, n: nat, list: seq<int>)
    requires 0 < n <= |s| && Expanded(rows, s, n - 1) && list == ChildrenOf(rows, s[n - 1]) && ListedUpTo(list, |list|, s)
    ensures Expanded(rows, s, n)
  {
    hide Expanded, ChildrenOf;
    ExpandOne(rows, s, n, list);
  }

  lemma SeenIff(rows: seq<Row>, root: int, result: seq<int>, seen: set<int>, pending: seq<int>, n: nat, child: int)
    requires Searching(rows, root, result, seen, pending, n)
    ensures child in seen <==> child in result
  {
  }

  /** The inner loop: append the children of the parent just taken from the queue that have not been seen. */
  method VisitChildren(ghost rows: seq<Row>, ghost root: int, ghost n: nat, list: seq<int>,
                       known: seq<int>, met: set<int>, queue: seq<int>)
    returns (result: seq<int>, seen: set<int>, pending: seq<int>)
    requires Searching(rows, root, known, met, queue, n) && 0 < n <= |known|
    requires Expanded(rows, known, n - 1) && list == ChildrenOf(rows, known[n - 1])
    requires FoundBy(rows, known, n - 1) && SiblingOrder(rows, known)
    ensures SiblingOrder(rows, result)
    ensures Searching(rows, root, result, seen, pending, n) && n <= |result| && Expanded(rows, result, n)
    ensures var all := {root} + Pids(rows); |all - seen| + |pending| == |all - met| + |queue|
  {
    hide IsChild, ChildrenOf, Searching, Expanded, Distinct, ParentsFirst, Pids, ListedUpTo, FoundBy, FoundOrNew, SiblingOrder;
    result, seen, pending := known, met, queue;
    NoneListed(list, result);
    NothingNew(rows, result, n - 1, list);
    ghost var all := {root} + Pids(rows);
    for k := 0 to |list|
      invariant Searching(rows, root, result, seen, pending, n) && 0 < n <= |result| && result[n - 1] == known[n - 1]
      invariant Expanded(rows, result, n - 1)
      invariant ListedUpTo(list, k, result)
      invariant FoundOrNew(rows, result, n - 1, list[..k]) && SiblingOrder(rows, result)
      invariant |all - seen| + |pending| == |all - met| + |queue|
    {
      var child := list[k];
      SeenIff(rows, root, result, seen, pending, n, child);
      if child in seen {
        ListedMore(list, k, result, []);
        MoreNew(rows, result, n - 1, list, k);
        continue;
      }
      FirstInList(list, k, result);
      EveryoneFound(rows, root, result, seen, pending, n);
      NewSibling(rows, result, n, list, k);
      ListedMore(list, k, result, [child]);
      SearchStep(rows, root, result, seen, pending, n, child);
      seen := seen + {child};
      result := result + [child];
      pending := pending + [child];
    }
    ExpandListed(rows, result, n, list);
  }

  method ProcessTreePids(rootPid: int, rows: seq<Row>) returns (result: seq<int>)
    ensures |result| > 0 && result[0] == rootPid && Distinct(result)
    ensures ParentsFirst(rows, result)
    ensures Expanded(rows, result, |result|)
    ensures ByDistance(rows, result) && SiblingOrder(rows, result)
  {
    hide IsChild, ChildrenOf, Searching, Expanded, Distinct, ParentsFirst, Pids, QueueOrder, ByDistance;
    hide FoundBy, SiblingOrder;
    var children := GroupByParent(rows);
    result := [rootPid];
    var seen := {rootPid};
    var pending := [rootPid];
    ghost var n: nat := 0;
    ghost var all := {rootPid} + Pids(rows);
    SearchStart(rows, rootPid);
    assert SiblingOrder(rows, result) by { OneInOrder(rows, rootPid); }
    while pending != []
      invariant Searching(rows, rootPid, result, seen, pending, n) && n <= |result|
      invariant Expanded(rows, result, n) && SiblingOrder(rows, result)
      decreases |all - seen| + |pending|
    {
      var parent := pending[0];
      SearchNext(rows, rootPid, result, seen, pending, n);
      pending := pending[1..];
      var list := if parent in children then children[parent] else [];
      assert list == ChildrenOf(rows, parent);
      n := n + 1;
      result, seen, pending := VisitChildren(rows, rootPid, n, list, result, seen, pending);
    }
    SearchFacts(rows, rootPid, result, seen, pending, n);
    QueueIsByDistance(rows, result);
  }

  lemma SearchNext(rows: seq<Row>, root: int, result: seq<int>, seen: set<int>, pending: seq<int>, n: nat)
    requires Searching(rows, root, result, seen, pending, n) && pending != []
    ensures n < |result| && result[n] == pending[0] && FoundBy(rows, result, n)
    ensures Searching(rows, root, result, seen, pending[1..], n + 1)
  {
    hide IsChild, Distinct, ParentsFirst, QueueOrder;
  }

  /** A child not seen before is appended to the result and the queue. */
  lemma SearchStep(rows: seq<Row>, root: int, result: seq<int>, seen: set<int>, pending: seq<int>, n: nat, child: int)
    requires Searching(rows, root, result, seen, pending, n) && 0 < n <= |result| && Expanded(rows, result, n - 1)
    requires child in ChildrenOf(rows, result[n - 1]) && child !in seen
    ensures Searching(rows, root, result + [child], seen + {child}, pending + [child], n)
    ensures Expanded(rows, result + [child], n - 1)
    ensures var all := {root} + Pids(rows); |all - (seen + {child})| == |all - seen| - 1
  {
    hide IsChild, ChildrenOf, Distinct, ParentsFirst, Expanded, FoundBy, QueueOrder;
    ChildIsPid(rows, result[n - 1], child);
    ExtendTree(rows, result, n - 1, child);
    ExtendQueue(rows, result, n, child);
    var all := {root} + Pids(rows);
    assert all - (seen + {child}) == (all - seen) - {child};
  }

  lemma SearchFacts(rows: seq<Row>, root: int, result: seq<int>, seen: set<int>, pending: seq<int>, n: nat)
    requires Searching(rows, root, result, seen, pending, n)
    ensures |result| > 0 && result[0] == root && Distinct(result) && ParentsFirst(rows, result)
    ensures QueueOrder(rows, result)
    ensures n <= |result| && (pending == [] ==> n == |result|)
    ensures forall x :: x in seen <==> x in result
  {
  }

  lemma SearchStart(rows: seq<Row>, root: int)
    ensures Searching(rows, root, [root], {root}, [root], 0) && Expanded(rows, [root], 0)
  {
  }

  lemma ChildIsPid(rows: seq<Row>, parent: int, child: int)
    requires child in ChildrenOf(rows, parent)
    ensures IsChild(rows, parent, child) && child in Pids(rows)
  {
  }

  lemma ExtendTree(rows: seq<Row>, s: seq<int>, n: nat, child: int)
    requires n < |s| && IsChild(rows, s[n], child) && child !in s
    requires Distinct(s) && ParentsFirst(rows, s) && Expanded(rows, s, n)
    ensures Distinct(s + [child]) && ParentsFirst(rows, s + [child]) && Expanded(rows, s + [child], n)
  {
    hide IsChild;
    var t := s + [child];
    assert forall i :: 0 <= i < |s| ==> t[i] == s[i];
    forall i, c | 0 <= i < n && IsChild(rows, t[i], c) ensures c in t {
      assert IsChild(rows, s[i], c);
      assert c in s;
    }
    forall j | 0 < j < |t| ensures exists i :: 0 <= i < j && IsChild(rows, t[i], t[j]) {
      if j < |s| {
        var i :| 0 <= i < j && IsChild(rows, s[i], s[j]);
        assert IsChild(rows, t[i], t[j]);
      } else {
        assert IsChild(rows, t[n], t[j]);
      }
    }
  }

  lemma MoreParents(rows: seq<Row>, s: seq<int>, n: nat, t: seq<int>, m: nat, child: int)
    requires HasParentAmong(rows, s, n, child) && s <= t && n <= m
    ensures HasParentAmong(rows, t, m, child)
  {
    hide IsChild;
    var e :| 0 <= e < n && e < |s| && IsChild(rows, s[e], child);
    assert IsChild(rows, t[e], child);
  }

  lemma ExtendFound(rows: seq<Row>, s: seq<int>, n: nat, child: int)
    requires 0 < n <= |s| && IsChild(rows, s[n - 1], child) && FoundBy(rows, s, n)
    ensures FoundBy(rows, s + [child], n)
  {
    var t := s + [child];
    assert HasParentAmong(rows, t, n, child) by {
      assert IsChild(rows, t[n - 1], child);
    }
    hide IsChild, HasParentAmong;
    forall j | 0 < j < |t| ensures HasParentAmong(rows, t, n, t[j]) {
      if j < |s| {
        MoreParents(rows, s, n, t, n, s[j]);
      }
    }
  }

  /** Appending a new child of the pid being expanded keeps the queue's order. */
  lemma ExtendQueue(rows: seq<Row>, s: seq<int>, n: nat, child: int)
    requires 0 < n <= |s| && IsChild(rows, s[n - 1], child) && child !in s
    requires Expanded(rows, s, n - 1) && FoundBy(rows, s, n) && QueueOrder(rows, s)
    ensures FoundBy(rows, s + [child], n) && QueueOrder(rows, s + [child])
  {
    hide IsChild, HasParentAmong;
    ExtendFound(rows, s, n, child);
    var t := s + [child];
    forall j, k, i | 0 < j < k < |t| && 0 <= i < |t| && IsChild(rows, t[i], t[k])
      ensures HasParentAmong(rows, t, i + 1, t[j])
    {
      if k < |s| && i < |s| {
        assert IsChild(rows, s[i], s[k]) && HasParentAmong(rows, s, i + 1, s[j]);
        MoreParents(rows, s, i + 1, t, i + 1, s[j]);
      } else {
        assert n <= i + 1 by {
          assert i < |s| ==> IsChild(rows, s[i], child);
        }
        MoreParents(rows, t, n, t, i + 1, t[j]);
      }
    }
  }

  lemma WithinStep(rows: seq<Row>, root: int, d: nat, x: int)
    requires d > 0
    ensures x in Within(rows, root, d) <==>
            x in Within(rows, root, d - 1) || exists p :: p in Within(rows, root, d - 1) && IsChild(rows, p, x)
  {
    hide Within;
    WithinUnfold(rows, root, d, x);
    var closer := Within(rows, root, d - 1);
    if exists i :: 0 <= i < |rows| && rows[i].parent.Some? && rows[i].parent.value in closer && rows[i].pid == x {
      var i :| 0 <= i < |rows| && rows[i].parent.Some? && rows[i].parent.value in closer && rows[i].pid == x;
      assert rows[i] in rows && IsChild(rows, rows[i].parent.value, x);
    }
    if exists p :: p in closer && IsChild(rows, p, x) {
      var p :| p in closer && IsChild(rows, p, x);
      var row :| row in rows && row.parent == Some(p) && row.pid == x;
      var i :| 0 <= i < |rows| && rows[i] == row;
    }
  }

  lemma WithinUnfold(rows: seq<Row>, root: int, d: nat, x: int)
    requires d > 0
    ensures var closer := Within(rows, root, d - 1);
      x in Within(rows, root, d) <==>
        (x in closer ||
         exists i :: 0 <= i < |rows| && rows[i].parent.Some? && rows[i].parent.value in closer && rows[i].pid == x)
  {
  }

  /** A listing closed under children holds everybody within any distance. */
  lemma {:induction false} WithinListed(rows: seq<Row>, s: seq<int>, d: nat, x: int)
    requires s != [] && Expanded(rows, s, |s|) && x in Within(rows, s[0], d)
    ensures x in s
  {
    hide IsChild;
    if d > 0 {
      WithinStep(rows, s[0], d, x);
      if x in Within(rows, s[0], d - 1) {
        WithinListed(rows, s, d - 1, x);
      } else {
        var p :| p in Within(rows, s[0], d - 1) && IsChild(rows, p, x);
        WithinListed(rows, s, d - 1, p);
        var i :| 0 <= i < |s| && s[i] == p;
        assert IsChild(rows, s[i], x);
      }
    }
  }

  lemma QueueParent(rows: seq<Row>, s: seq<int>, j: nat, k: nat, parent: int) returns (i: nat, e: nat)
    requires parent in s && QueueOrder(rows, s) && 0 < j < k < |s| && IsChild(rows, parent, s[k])
    ensures e <= i < |s| && s[i] == parent && IsChild(rows, s[e], s[j])
  {
    i :| 0 <= i < |s| && s[i] == parent;
    assert HasParentAmong(rows, s, i + 1, s[j]);
    e :| 0 <= e < i + 1 && e < |s| && IsChild(rows, s[e], s[j]);
  }

  lemma {:induction false} EarlierIsCloser(rows: seq<Row>, s: seq<int>, d: nat, j: nat, k: nat)
    requires s != [] && Distinct(s) && Expanded(rows, s, |s|) && QueueOrder(rows, s)
    requires j < k < |s| && s[k] in Within(rows, s[0], d)
    ensures s[j] in Within(rows, s[0], d)
    decreases d
  {
    hide IsChild, Within, QueueOrder, Expanded, Distinct;
    RootWithin(rows, s[0], d);
    if d == 0 {
      WithinNothing(rows, s[0], s[k]);
      NotFirst(s, k);
    } else if j > 0 {
      WithinStep(rows, s[0], d, s[j]);
      WithinStep(rows, s[0], d, s[k]);
      if s[k] in Within(rows, s[0], d - 1) {
        EarlierIsCloser(rows, s, d - 1, j, k);
      } else {
        var p :| p in Within(rows, s[0], d - 1) && IsChild(rows, p, s[k]);
        WithinListed(rows, s, d - 1, p);
        var i, e := QueueParent(rows, s, j, k, p);
        if e < i {
          EarlierIsCloser(rows, s, d - 1, e, i);
        }
      }
    }
  }

  lemma NotFirst(s: seq<int>, k: nat)
    requires Distinct(s) && 0 < k < |s|
    ensures s[k] != s[0]
  {
  }

  lemma WithinNothing(rows: seq<Row>, root: int, x: int)
    ensures x in Within(rows, root, 0) <==> x == root
  {
  }

  lemma {:induction false} RootWithin(rows: seq<Row>, root: int, d: nat)
    ensures root in Within(rows, root, d)
  {
    if d > 0 {
      RootWithin(rows, root, d - 1);
    }
  }

  /** A closed listing in queue order is in order of distance from its first pid. */
  lemma QueueIsByDistance(rows: seq<Row>, s: seq<int>)
    requires s != [] && Distinct(s) && Expanded(rows, s, |s|) && QueueOrder(rows, s)
    ensures ByDistance(rows, s)
  {
    hide Distinct, Expanded, QueueOrder, Within;
    forall i, j, d: nat | 0 <= i < j < |s| && s[j] in Within(rows, s[0], d) ensures s[i] in Within(rows, s[0], d) {
      EarlierIsCloser(rows, s, d, i, j);
    }
  }

  lemma ExpandOne(rows: seq<Row>, s: seq<int>, n: nat, list: seq<int>)
    requires 0 < n <= |s| && Expanded(rows, s, n - 1) && list == ChildrenOf(rows, s[n - 1])
    requires forall c :: c in list ==> c in s
    ensures Expanded(rows, s, n)
  {
    hide IsChild;
  }

  // ---- The two agree ----

  lemma {:induction false} TreeWithin(rows: seq<Row>, s: seq<int>, other: set<int>, j: nat)
    requires ParentsFirst(rows, s) && j < |s| && s[0] in other
    requires forall p, c :: p in other && IsChild(rows, p, c) ==> c in other
    ensures s[j] in other
    decreases j
  {
    hide IsChild;
    if j > 0 {
      var i :| 0 <= i < j && IsChild(rows, s[i], s[j]);
      TreeWithin(rows, s, other, i);
    }
  }

  lemma ClosedIsExpanded(rows: seq<Row>, tracked: set<int>)
    requires forall row :: row in rows ==> !row.pathMatch
    ensures Closed(rows, tracked, {}) <==> forall p, c :: p in tracked && IsChild(rows, p, c) ==> c in tracked
  {
    if Closed(rows, tracked, {}) {
      forall p, c | p in tracked && IsChild(rows, p, c) ensures c in tracked {
        var row :| row in rows && row.parent == Some(p) && row.pid == c;
        assert Joins(row, tracked, {});
      }
    }
    if forall p, c :: p in tracked && IsChild(rows, p, c) ==> c in tracked {
      forall row | row in rows && Joins(row, tracked, {}) ensures row.pid in tracked {
        assert IsChild(rows, row.parent.value, row.pid);
      }
    }
  }

  /** With nothing to exclude, no seeds and no path matches, the breadth-first tree is the least attributable set. */
  lemma TreeIsLeast(rows: seq<Row>, s: seq<int>)
    requires forall row :: row in rows ==> !row.pathMatch
    requires s != [] && ParentsFirst(rows, s) && Expanded(rows, s, |s|)
    ensures IsLeast(rows, set x | x in s, {s[0]}, {})
  {
    hide IsChild, Joins;
    var tree := set x | x in s;
    ClosedIsExpanded(rows, tree);
    assert forall p, c :: p in tree && IsChild(rows, p, c) ==> c in tree by {
      forall p, c | p in tree && IsChild(rows, p, c) ensures c in tree {
        var i :| 0 <= i < |s| && s[i] == p;
      }
    }
    forall other: set<int> | {s[0]} <= other && Closed(rows, other, {}) ensures tree <= other {
      ClosedIsExpanded(rows, other);
      forall x | x in tree ensures x in other {
        var j :| 0 <= j < |s| && s[j] == x;
        TreeWithin(rows, s, other, j);
      }
    }
  }
}
