/** Paged listing: what one page may be, and when the pages add up to the whole list. */
module Listing {
  import opened Tasks
  import opened Ownership
  import opened Sums
  import opened Worker

  predicate Matches(row: Row, status: Option<Status>) {
    status.None? || row.status == status.value
  }

  function Filtered(t: Table, status: Option<Status>): set<Id> {
    set x | x in t && Matches(t[x], status)
  }

  /** An ordering ORDER BY created_at DESC may produce: ties come in any order. */
  ghost predicate NewestFirst(t: Table, status: Option<Status>, order: seq<Id>) {
    && Distinct(order)
    && (forall x :: x in order <==> x in Filtered(t, status))
    && (forall i, j :: 0 <= i < j < |order| && order[i] in t && order[j] in t ==> t[order[i]].createdAt >= t[order[j]].createdAt)
  }

  function Min(m: nat, n: nat): nat { if m < n then m else n }

  /** LIMIT and OFFSET. */
  function Page(order: seq<Id>, limit: nat, offset: nat): seq<Id> {
    order[Min(offset, |order|)..Min(offset + limit, |order|)]
  }

  /** `order` lists some of the filtered rows newest first, and `rest` are the others, none newer. */
  ghost predicate Sorting(t: Table, status: Option<Status>, order: seq<Id>, rest: set<Id>) {
    && Distinct(order) && |order| + |rest| == |Filtered(t, status)|
    && (forall i :: 0 <= i < |order| ==> order[i] in t)
    && (forall x :: x in Filtered(t, status) <==> x in order || x in rest)
    && (forall x :: x in rest ==> x !in order)
    && (forall i, j :: 0 <= i < j < |order| ==> t[order[i]].createdAt >= t[order[j]].createdAt)
    && (forall i, x :: 0 <= i < |order| && x in rest && x in t ==> t[order[i]].createdAt >= t[x].createdAt)
  }

  lemma SortOne(t: Table, status: Option<Status>, order: seq<Id>, rest: set<Id>, x: Id)
    requires Sorting(t, status, order, rest) && x in rest && x in t
    requires forall y :: y in rest && y in t ==> t[x].createdAt >= t[y].createdAt
    ensures Sorting(t, status, order + [x], rest - {x})
  {
  }

  /** A page and the total; `order` is the ordering the database chose. */
  method ListTasks(db: Database, status: Option<Status>, limit: nat, offset: nat)
    returns (rows: seq<Id>, total: nat, order: seq<Id>)
    ensures NewestFirst(db.rows, status, order)
    ensures rows == Page(order, limit, offset) && total == |order| == |Filtered(db.rows, status)|
    ensures forall x :: x in order <==> x in db.rows && (status.None? || db.rows[x].status == status.value)
    ensures forall i, j :: 0 <= i < j < |order| ==>
              order[i] != order[j] && order[i] in db.rows && order[j] in db.rows && db.rows[order[i]].createdAt >= db.rows[order[j]].createdAt
    ensures |rows| == if offset >= total then 0 else if limit < total - offset then limit else total - offset
    ensures forall i :: 0 <= i < |rows| ==> rows[i] == order[offset + i]
  {
    var rest := Filtered(db.rows, status);
    total := |rest|;
    order := [];
    while rest != {}
      invariant rest <= db.rows.Keys && Sorting(db.rows, status, order, rest)
      decreases rest
    {
      ghost var newest := NewestOf(db.rows, rest);
      var x :| x in rest && forall y :: y in rest ==> db.rows[x].createdAt >= db.rows[y].createdAt;
      SortOne(db.rows, status, order, rest, x);
      order, rest := order + [x], rest - {x};
    }
    rows := Page(order, limit, offset);
    PageSlice(order, limit, offset);
  }

  /** Which rows a page shows, at any offset: those from the offset on, at most `limit`, none beyond the
      end. */
  lemma PageSlice(order: seq<Id>, limit: nat, offset: nat)
    ensures var page := Page(order, limit, offset);
      && |page| == (if offset >= |order| then 0 else if limit < |order| - offset then limit else |order| - offset)
      && forall i :: 0 <= i < |page| ==> page[i] == order[offset + i]
  {
  }

  lemma {:induction false} NewestOf(t: Table, xs: set<Id>) returns (x: Id)
    requires xs != {} && xs <= t.Keys
    ensures x in xs && forall y :: y in xs ==> t[x].createdAt >= t[y].createdAt
    decreases |xs|
  {
    x :| x in xs;
    if xs != {x} {
      assert |xs - {x}| < |xs| && xs - {x} != {};
      var y := NewestOf(t, xs - {x});
      if t[y].createdAt > t[x].createdAt { x := y; }
    }
  }

  ghost predicate DistinctTimes(t: Table, status: Option<Status>) {
    forall x, y :: x in Filtered(t, status) && y in Filtered(t, status) && t[x].createdAt == t[y].createdAt ==> x == y
  }

  lemma AllListed(t: Table, status: Option<Status>, order: seq<Id>, i: nat)
    requires NewestFirst(t, status, order) && i < |order|
    ensures order[i] in t && order[i] in Filtered(t, status)
  {
    assert order[i] in order;
  }

  /** What one order shows at position k, another that agrees with it so far shows no earlier: so it is
      no newer there. */
  lemma NoNewerAt(t: Table, status: Option<Status>, a: seq<Id>, b: seq<Id>, k: nat)
    requires NewestFirst(t, status, a) && NewestFirst(t, status, b) && k < |a| && k < |b|
    requires forall i :: 0 <= i < k ==> a[i] == b[i]
    ensures a[k] in t && b[k] in t && t[a[k]].createdAt <= t[b[k]].createdAt
  {
    AllListed(t, status, a, k);
    AllListed(t, status, b, k);
    var j :| 0 <= j < |b| && b[j] == a[k];
    assert j >= k;
  }

  /** Without ties there is one order. */
  lemma {:induction false} OneOrder(t: Table, status: Option<Status>, a: seq<Id>, b: seq<Id>, k: nat)
    requires DistinctTimes(t, status) && NewestFirst(t, status, a) && NewestFirst(t, status, b)
    requires k <= |a| && k <= |b|
    ensures forall i :: 0 <= i < k ==> a[i] == b[i]
    decreases k
  {
    if k > 0 {
      OneOrder(t, status, a, b, k - 1);
      NoNewerAt(t, status, a, b, k - 1);
      NoNewerAt(t, status, b, a, k - 1);
      AllListed(t, status, a, k - 1);
      AllListed(t, status, b, k - 1);
    }
  }

  lemma OrdersAgree(t: Table, status: Option<Status>, a: seq<Id>, b: seq<Id>)
    requires DistinctTimes(t, status) && NewestFirst(t, status, a) && NewestFirst(t, status, b)
    ensures a == b
  {
    DistinctSize(a);
    DistinctSize(b);
    assert Elements(a) == Filtered(t, status) == Elements(b);
    OneOrder(t, status, a, b, |a|);
  }

  /** The offset of page n: 0, L, 2L, ... */
  function Offset(n: nat, limit: nat): nat {
    if n == 0 then 0 else Offset(n - 1, limit) + limit
  }

  lemma {:induction false} OffsetIs(n: nat, limit: nat)
    ensures Offset(n, limit) == n * limit
    decreases n
  {
    if n > 0 {
      OffsetIs(n - 1, limit);
      assert (n - 1) * limit + limit == n * limit;
    }
  }

  lemma {:induction false} OffsetMonotone(m: nat, n: nat, limit: nat)
    requires m <= n
    ensures Offset(m, limit) <= Offset(n, limit)
    decreases n
  {
    if m < n { OffsetMonotone(m, n - 1, limit); }
  }

  /** The page that position i is on. */
  function PageOf(i: nat, limit: nat): nat
    requires limit >= 1
    decreases i
  {
    if i < limit then 0 else PageOf(i - limit, limit) + 1
  }

  lemma {:induction false} PageOfIs(i: nat, limit: nat, n: nat)
    requires limit >= 1 && Offset(n, limit) <= i < Offset(n, limit) + limit
    ensures PageOf(i, limit) == n
    decreases i
  {
    if n > 0 { PageOfIs(i - limit, limit, n - 1); }
  }

  lemma {:induction false} OnPage(i: nat, limit: nat)
    requires limit >= 1
    ensures Offset(PageOf(i, limit), limit) <= i < Offset(PageOf(i, limit), limit) + limit
    decreases i
  {
    if i >= limit { OnPage(i - limit, limit); }
  }

  lemma PagesInOrder(i: nat, j: nat, limit: nat)
    requires limit >= 1 && i <= j
    ensures PageOf(i, limit) <= PageOf(j, limit)
    ensures PageOf(i, limit) < PageOf(j, limit) ==> i < Offset(PageOf(j, limit), limit) <= j
  {
    var p, q := PageOf(i, limit), PageOf(j, limit);
    OnPage(i, limit);
    OnPage(j, limit);
    if q < p {
      OffsetMonotone(q + 1, p, limit);
    } else if p < q {
      OffsetMonotone(p + 1, q, limit);
    }
  }

  /** The pages, each answered with its own choice of order, joined. */
  ghost function Joined(orders: seq<seq<Id>>, limit: nat): seq<Id> {
    if orders == [] then [] else
    var n := |orders| - 1;
    Joined(orders[..n], limit) + Page(orders[n], limit, Offset(n, limit))
  }

  /** Answers to as many pages as the rows need. */
  ghost predicate Answers(t: Table, status: Option<Status>, orders: seq<seq<Id>>, limit: nat) {
    && (forall i :: 0 <= i < |orders| ==> NewestFirst(t, status, orders[i]))
    && Offset(|orders|, limit) >= |Filtered(t, status)|
  }

  lemma OrderSize(t: Table, status: Option<Status>, order: seq<Id>)
    requires NewestFirst(t, status, order)
    ensures Elements(order) == Filtered(t, status) && |order| == |Filtered(t, status)|
  {
    DistinctSize(order);
  }

  lemma PageAt(order: seq<Id>, limit: nat, k: nat)
    ensures var page, from := Page(order, limit, Offset(k, limit)), Offset(k, limit);
      && |page| == Min(from + limit, |order|) - Min(from, |order|)
      && forall i :: 0 <= i < |page| ==> page[i] == order[from + i]
  {
  }

  /** Position i of the joined pages is position i of the order that answered its page. */
  lemma {:induction false} JoinedAt(orders: seq<seq<Id>>, limit: nat, n: nat)
    requires limit >= 1 && forall i :: 0 <= i < |orders| ==> |orders[i]| == n
    ensures |Joined(orders, limit)| == Min(Offset(|orders|, limit), n)
    ensures forall i :: 0 <= i < |Joined(orders, limit)| ==>
              PageOf(i, limit) < |orders| && Joined(orders, limit)[i] == orders[PageOf(i, limit)][i]
    decreases |orders|
  {
    if orders != [] {
      var k := |orders| - 1;
      var before, page := Joined(orders[..k], limit), Page(orders[k], limit, Offset(k, limit));
      JoinedAt(orders[..k], limit, n);
      PageAt(orders[k], limit, k);
      forall i | 0 <= i < |before + page|
        ensures PageOf(i, limit) < |orders| && (before + page)[i] == orders[PageOf(i, limit)][i]
      {
        if i >= |before| { PageOfIs(i, limit, k); }
      }
    }
  }

  /** No two rows with one creation time meet at a page boundary. */
  ghost predicate NoTieAcross(t: Table, status: Option<Status>, order: seq<Id>, limit: nat)
    requires NewestFirst(t, status, order)
  {
    forall k :: 0 < Offset(k, limit) < |order| ==> Parted(t, order, Offset(k, limit))
  }

  /** The rows on the two sides of position m differ in creation time. */
  ghost predicate Parted(t: Table, order: seq<Id>, m: nat)
    requires 0 < m < |order|
  {
    order[m] in t && order[m - 1] in t && t[order[m]].createdAt != t[order[m - 1]].createdAt
  }

  /** Where creation times differ, every order puts the same rows in front. */
  lemma SameFront(t: Table, status: Option<Status>, a: seq<Id>, b: seq<Id>, m: nat, i: nat)
    requires NewestFirst(t, status, a) && NewestFirst(t, status, b) && 0 < m < |a| && i < m && m <= |b|
    requires Parted(t, a, m)
    ensures b[i] in t && t[b[i]].createdAt >= t[a[m - 1]].createdAt
  {
    AllListed(t, status, b, i);
    if t[b[i]].createdAt < t[a[m - 1]].createdAt {
      forall x | x in Elements(a[..m]) ensures x in Elements(b[..i]) {
        var j :| 0 <= j < m && a[j] == x;
        AllListed(t, status, a, j);
        var k :| 0 <= k < |b| && b[k] == x;
        AllListed(t, status, b, k);
        assert k < i;
      }
      DistinctSize(a[..m]);
      DistinctSize(b[..i]);
      SubsetSize(Elements(a[..m]), Elements(b[..i]));
    }
  }

  /** And the same rows behind. */
  lemma SameBack(t: Table, status: Option<Status>, a: seq<Id>, b: seq<Id>, m: nat, i: nat)
    requires NewestFirst(t, status, a) && NewestFirst(t, status, b) && 0 < m < |a| && m <= i < |b|
    requires Parted(t, a, m)
    ensures b[i] in t && t[b[i]].createdAt < t[a[m - 1]].createdAt
  {
    AllListed(t, status, b, i);
    if t[b[i]].createdAt >= t[a[m - 1]].createdAt {
      forall x | x in Elements(b[..i + 1]) ensures x in Elements(a[..m]) {
        var k :| 0 <= k < i + 1 && b[k] == x;
        AllListed(t, status, b, k);
        var j :| 0 <= j < |a| && a[j] == x;
        AllListed(t, status, a, j);
        assert j < m;
      }
      DistinctSize(a[..m]);
      DistinctSize(b[..i + 1]);
      SubsetSize(Elements(b[..i + 1]), Elements(a[..m]));
    }
  }

  /** Rows of two answers, one before a boundary without a tie and one behind it. */
  lemma PagesOrdered(t: Table, status: Option<Status>, order: seq<Id>, a: seq<Id>, b: seq<Id>, m: nat, i: nat, j: nat)
    requires NewestFirst(t, status, order) && NewestFirst(t, status, a) && NewestFirst(t, status, b)
    requires i < m <= j < |order| && Parted(t, order, m)
    ensures |a| == |b| == |order| && a[i] in t && b[j] in t && t[a[i]].createdAt > t[b[j]].createdAt
  {
    OrderSize(t, status, order);
    OrderSize(t, status, a);
    OrderSize(t, status, b);
    SameFront(t, status, order, a, m, i);
    SameBack(t, status, order, b, m, j);
  }

  /** Two positions of the joined pages hold different rows, newer first. */
  lemma JoinedPair(t: Table, status: Option<Status>, order: seq<Id>, orders: seq<seq<Id>>, limit: nat, i: nat, j: nat)
    requires limit >= 1 && NewestFirst(t, status, order) && NoTieAcross(t, status, order, limit)
    requires forall k :: 0 <= k < |orders| ==> NewestFirst(t, status, orders[k]) && |orders[k]| == |order|
    requires i < j < |order| && PageOf(i, limit) < |orders| && PageOf(j, limit) < |orders|
    ensures var x, y := orders[PageOf(i, limit)][i], orders[PageOf(j, limit)][j];
      x != y && x in t && y in t && t[x].createdAt >= t[y].createdAt
  {
    var p, q := PageOf(i, limit), PageOf(j, limit);
    PagesInOrder(i, j, limit);
    if p < q {
      assert Parted(t, order, Offset(q, limit));
      PagesOrdered(t, status, order, orders[p], orders[q], Offset(q, limit), i, j);
    } else {
      AllListed(t, status, orders[p], i);
      AllListed(t, status, orders[p], j);
    }
  }

  lemma JoinedIsOrdering(t: Table, status: Option<Status>, order: seq<Id>, orders: seq<seq<Id>>, limit: nat)
    requires limit >= 1 && NewestFirst(t, status, order) && NoTieAcross(t, status, order, limit)
    requires Answers(t, status, orders, limit)
    ensures NewestFirst(t, status, Joined(orders, limit))
  {
    OrderSize(t, status, order);
    forall k | 0 <= k < |orders| ensures |orders[k]| == |order| { OrderSize(t, status, orders[k]); }
    JoinedAt(orders, limit, |order|);
    var all := Joined(orders, limit);
    forall i | 0 <= i < |all| ensures all[i] in Filtered(t, status) { AllListed(t, status, orders[PageOf(i, limit)], i); }
    forall i, j | 0 <= i < j < |all|
      ensures all[i] != all[j] && all[i] in t && all[j] in t && t[all[i]].createdAt >= t[all[j]].createdAt
    {
      JoinedPair(t, status, order, orders, limit, i, j);
    }
    DistinctSize(all);
    SameSet(Elements(all), Filtered(t, status));
  }

  lemma SameSet(a: set<Id>, b: set<Id>)
    requires a <= b && |a| == |b|
    ensures a == b
  {
    assert |b - a| == |b| - |a|;
  }

  /** Every page is answered in the given order, but page k with the two tied rows swapped. */
  function SwappedAt(order: seq<Id>, limit: nat, k: nat): seq<seq<Id>>
    requires 0 < Offset(k, limit) < |order|
  {
    var m := Offset(k, limit);
    seq(|order|, i requires 0 <= i < |order| => if i == k then order[m - 1 := order[m]][m := order[m - 1]] else order)
  }

  lemma SwappedAnswers(t: Table, status: Option<Status>, order: seq<Id>, limit: nat, k: nat)
    requires limit >= 1 && NewestFirst(t, status, order) && 0 < Offset(k, limit) < |order|
    requires !Parted(t, order, Offset(k, limit))
    ensures Answers(t, status, SwappedAt(order, limit, k), limit)
  {
    OrderSize(t, status, order);
    AllListed(t, status, order, Offset(k, limit));
    AllListed(t, status, order, Offset(k, limit) - 1);
    SwapTied(t, status, order, Offset(k, limit));
    OffsetReaches(|order|, limit);
  }

  lemma SwappedShape(order: seq<Id>, limit: nat, k: nat)
    requires 0 < Offset(k, limit) < |order|
    ensures var orders, m := SwappedAt(order, limit, k), Offset(k, limit);
      && |orders| == |order|
      && (forall i :: 0 <= i < |orders| ==> |orders[i]| == |order|)
      && (forall i :: 0 <= i < |orders| && i != k ==> orders[i] == order)
      && (k < |orders| ==> orders[k][m] == order[m - 1])
  {
  }

  /** The two positions at the boundary are on pages k - 1 and k. */
  lemma BoundaryPages(limit: nat, k: nat)
    requires limit >= 1 && 0 < Offset(k, limit)
    ensures k >= 1 && PageOf(Offset(k, limit), limit) == k && PageOf(Offset(k, limit) - 1, limit) == k - 1
  {
    PageOfIs(Offset(k, limit), limit, k);
    PageOfIs(Offset(k, limit) - 1, limit, k - 1);
  }

  lemma SwappedRepeats(order: seq<Id>, orders: seq<seq<Id>>, limit: nat, k: nat)
    requires limit >= 1 && 0 < Offset(k, limit) < |order| == |orders|
    requires forall i :: 0 <= i < |orders| ==> |orders[i]| == |order|
    requires forall i :: 0 <= i < |orders| && i != k ==> orders[i] == order
    requires k < |orders| ==> orders[k][Offset(k, limit)] == order[Offset(k, limit) - 1]
    ensures var all, m := Joined(orders, limit), Offset(k, limit);
      |all| == |order| && all[m - 1] == all[m] == order[m - 1]
  {
    OffsetReaches(|order|, limit);
    BoundaryPages(limit, k);
    JoinedAt(orders, limit, |order|);
  }

  /** A tie at a boundary lets two answers show one row twice, on both sides of it. */
  lemma TieRepeats(t: Table, status: Option<Status>, order: seq<Id>, limit: nat, k: nat) returns (orders: seq<seq<Id>>)
    requires limit >= 1 && NewestFirst(t, status, order) && 0 < Offset(k, limit) < |order|
    requires !Parted(t, order, Offset(k, limit))
    ensures Answers(t, status, orders, limit) && |Joined(orders, limit)| == |order|
    ensures var all, m := Joined(orders, limit), Offset(k, limit);
      0 < m < |all| && all[m - 1] == all[m] == order[m - 1] && !NewestFirst(t, status, all)
  {
    orders := SwappedAt(order, limit, k);
    SwappedAnswers(t, status, order, limit, k);
    SwappedShape(order, limit, k);
    SwappedRepeats(order, orders, limit, k);
  }

  lemma {:induction false} OffsetReaches(n: nat, limit: nat)
    requires limit >= 1
    ensures Offset(n, limit) >= n
    decreases n
  {
    if n > 0 { OffsetReaches(n - 1, limit); }
  }

  lemma SwapTied(t: Table, status: Option<Status>, order: seq<Id>, m: nat)
    requires NewestFirst(t, status, order) && 0 < m < |order|
    requires order[m] in t && order[m - 1] in t && t[order[m]].createdAt == t[order[m - 1]].createdAt
    ensures NewestFirst(t, status, order[m - 1 := order[m]][m := order[m - 1]])
  {
    var swapped := order[m - 1 := order[m]][m := order[m - 1]];
    forall x ensures x in swapped <==> x in order {
      if x in order {
        var i :| 0 <= i < |order| && order[i] == x;
        assert swapped[if i == m then m - 1 else if i == m - 1 then m else i] == x;
      }
    }
    forall i | 0 <= i < |order| ensures order[i] in t { AllListed(t, status, order, i); }
  }

  /** On a fixed table, whatever order the database gives each page, the joined pages of size L are
      the filtered rows newest first, each once, if and only if no two rows created at one instant
      meet at a page boundary. */
  lemma PagesExactlyWhen(t: Table, status: Option<Status>, order: seq<Id>, limit: nat)
    requires limit >= 1 && NewestFirst(t, status, order)
    ensures (forall orders :: Answers(t, status, orders, limit) ==> NewestFirst(t, status, Joined(orders, limit)))
            <==> NoTieAcross(t, status, order, limit)
  {
    if NoTieAcross(t, status, order, limit) {
      forall orders | Answers(t, status, orders, limit) ensures NewestFirst(t, status, Joined(orders, limit)) {
        JoinedIsOrdering(t, status, order, orders, limit);
      }
    } else {
      var k: nat :| 0 < Offset(k, limit) < |order| && !Parted(t, order, Offset(k, limit));
      var orders := TieRepeats(t, status, order, limit, k);
    }
  }

  /** In particular, with distinct creation times the joined pages are the one list there is. */
  lemma PagesCoverTheList(t: Table, status: Option<Status>, limit: nat, order: seq<Id>, orders: seq<seq<Id>>)
    requires limit >= 1 && DistinctTimes(t, status) && NewestFirst(t, status, order)
    requires |orders| * limit >= |order| && forall i :: 0 <= i < |orders| ==> NewestFirst(t, status, orders[i])
    ensures Joined(orders, limit) == order
  {
    OffsetIs(|orders|, limit);
    OrderSize(t, status, order);
    forall k: nat | 0 < Offset(k, limit) < |order| ensures Parted(t, order, Offset(k, limit)) {
      AllListed(t, status, order, Offset(k, limit));
      AllListed(t, status, order, Offset(k, limit) - 1);
    }
    JoinedIsOrdering(t, status, order, orders, limit);
    OrdersAgree(t, status, Joined(orders, limit), order);
  }
}
