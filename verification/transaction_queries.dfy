/** The queries of the transaction repository, as functions over the ledger
    (the sequence of stored rows, in insertion order). */
module TransactionQueries {
  import opened Common
  import opened Transactions

  /** The row filters the repository's queries use: the `WHERE` clauses. */
  datatype Criterion =
    | OfProduct(productId: Id)
    | OfProductAndType(productId: Id, kind: TransactionType)
    | Between(start: Timestamp, end: Timestamp)
    | NotOfProducts(gone: set<Id>)

  predicate Matches(c: Criterion, t: Transaction) {
    match c
    case OfProduct(id) => t.product == id
    case OfProductAndType(id, kind) => t.product == id && t.kind == kind
    case Between(start, end) => start <= t.date <= end
    case NotOfProducts(gone) => t.product !in gone
  }

  /** The rows that match `c`, in ledger order. */
  function Where(rows: seq<Transaction>, c: Criterion): (r: seq<Transaction>)
    ensures |r| <= |rows|
    ensures forall t :: t in r <==> t in rows && Matches(c, t)
  {
    if rows == [] then []
    else
      var last := rows[|rows| - 1];
      assert rows == rows[..|rows| - 1] + [last];
      Where(rows[..|rows| - 1], c) + (if Matches(c, last) then [last] else [])
  }

  /** Filtering after an append filters the appended row on its own. */
  lemma WhereAppend(rows: seq<Transaction>, t: Transaction, c: Criterion)
    ensures Where(rows + [t], c) == Where(rows, c) + (if Matches(c, t) then [t] else [])
  {
    assert (rows + [t])[..|rows|] == rows;
  }

  /** Sum of the quantities of `rows`; at least the number of rows when every
      row is valid. */
  function Total(rows: seq<Transaction>): (r: int)
    ensures (forall i :: 0 <= i < |rows| ==> rows[i].quantity >= 1) ==> r >= |rows|
  {
    if rows == [] then 0 else Total(rows[..|rows| - 1]) + rows[|rows| - 1].quantity
  }

  lemma TotalAppend(rows: seq<Transaction>, t: Transaction)
    ensures Total(rows + [t]) == Total(rows) + t.quantity
  {
    assert (rows + [t])[..|rows|] == rows;
  }

  /** `findByProductIdAndTransactionType`: exactly the rows of that product and
      that type, in ledger order. */
  function FindByProductIdAndTransactionType(rows: seq<Transaction>, productId: Id, kind: TransactionType)
    : (r: seq<Transaction>)
    ensures forall t :: t in r <==> t in rows && t.product == productId && t.kind == kind
    ensures |r| <= |rows|
  {
    Where(rows, OfProductAndType(productId, kind))
  }

  /** `sumQuantityByProductAndType`: `COALESCE(SUM(quantity), 0)` over the rows
      of that product and type. It is 0 when there is no such row, and over
      valid rows it is 0 only then. */
  function SumQuantityByProductAndType(rows: seq<Transaction>, productId: Id, kind: TransactionType): (r: int)
    ensures (forall t :: t in rows ==> !(t.product == productId && t.kind == kind)) ==> r == 0
    ensures (forall t :: t in rows ==> t.quantity >= 1) ==>
              (r == 0 <==> forall t :: t in rows ==> !(t.product == productId && t.kind == kind))
    ensures (forall t :: t in rows ==> t.quantity >= 1) ==> r >= 0
  {
    var matching := FindByProductIdAndTransactionType(rows, productId, kind);
    assert (forall t :: t in rows ==> !(t.product == productId && t.kind == kind)) ==> matching == [] by {
      if matching != [] {
        assert matching[0] in matching;
      }
    }
    assert (forall t :: t in rows ==> t.quantity >= 1) ==> forall i :: 0 <= i < |matching| ==> matching[i].quantity >= 1 by {
      forall i | 0 <= i < |matching| ensures matching[i] in rows {
        assert matching[i] in matching;
      }
    }
    Total(matching)
  }

  /** Appending a row changes the sum of its own product and type by its
      quantity and leaves every other sum alone. */
  lemma SumAfterAppend(rows: seq<Transaction>, t: Transaction, productId: Id, kind: TransactionType)
    ensures SumQuantityByProductAndType(rows + [t], productId, kind)
         == SumQuantityByProductAndType(rows, productId, kind)
            + (if t.product == productId && t.kind == kind then t.quantity else 0)
  {
    var c := OfProductAndType(productId, kind);
    WhereAppend(rows, t, c);
    if Matches(c, t) {
      TotalAppend(Where(rows, c), t);
    } else {
      assert Where(rows + [t], c) == Where(rows, c) + [] == Where(rows, c);
    }
  }

  /** Filtering twice, where the second filter implies the first, is the second filter. */
  lemma {:induction false} WhereWhere(rows: seq<Transaction>, outer: Criterion, inner: Criterion)
    requires forall t :: Matches(inner, t) ==> Matches(outer, t)
    ensures Where(Where(rows, outer), inner) == Where(rows, inner)
  {
    if rows != [] {
      var init, last := rows[..|rows| - 1], rows[|rows| - 1];
      assert rows == init + [last];
      WhereWhere(init, outer, inner);
      WhereAppend(init, last, outer);
      WhereAppend(init, last, inner);
      if Matches(outer, last) {
        WhereAppend(Where(init, outer), last, inner);
      } else {
        assert Where(init, outer) + [] == Where(init, outer);
        assert Where(init, inner) + [] == Where(init, inner);
      }
    }
  }

  /** Dropping every row of the products in `gone` leaves the sums of every other
      product untouched. */
  lemma SumWithoutProducts(rows: seq<Transaction>, gone: set<Id>, productId: Id, kind: TransactionType)
    requires productId !in gone
    ensures SumQuantityByProductAndType(Where(rows, NotOfProducts(gone)), productId, kind)
         == SumQuantityByProductAndType(rows, productId, kind)
  {
    WhereWhere(rows, NotOfProducts(gone), OfProductAndType(productId, kind));
  }

  /** Rows in strictly increasing creation order: the ledger as the store writes it. */
  predicate Chronological(rows: seq<Transaction>) {
    forall i, j :: 0 <= i < j < |rows| ==> rows[i].date < rows[j].date
  }

  /** A filtered chronological ledger is still chronological. */
  lemma {:induction false} WhereChronological(rows: seq<Transaction>, c: Criterion)
    requires Chronological(rows)
    ensures Chronological(Where(rows, c))
  {
    if rows != [] {
      var init, last := rows[..|rows| - 1], rows[|rows| - 1];
      assert rows == init + [last];
      WhereChronological(init, c);
      var w := Where(init, c);
      forall i | 0 <= i < |w| ensures w[i].date < last.date {
        assert w[i] in init;
      }
    }
  }

  /** Rows ordered newest first: `ORDER BY transactionDate DESC`. */
  predicate NewestFirst(rows: seq<Transaction>) {
    forall i, j :: 0 <= i < j < |rows| ==> rows[i].date >= rows[j].date
  }

  /** Putting a row no older than the head in front keeps the order. */
  lemma ConsNewestFirst(t: Transaction, rows: seq<Transaction>)
    requires NewestFirst(rows)
    requires rows == [] || t.date >= rows[0].date
    ensures NewestFirst([t] + rows)
  {
    var r := [t] + rows;
    forall i, j | 0 <= i < j < |r| ensures r[i].date >= r[j].date {
      if i == 0 && j > 1 {
        assert r[j] == rows[j - 1];
      }
    }
  }

  /** Inserts `t` into rows that are newest first. */
  function InsertByDate(t: Transaction, rows: seq<Transaction>): (r: seq<Transaction>)
    requires NewestFirst(rows)
    ensures NewestFirst(r)
    ensures multiset(r) == multiset(rows) + multiset{t}
    ensures |r| == |rows| + 1
  {
    if rows == [] || t.date >= rows[0].date then
      ConsNewestFirst(t, rows);
      [t] + rows
    else
      var rest := InsertByDate(t, rows[1..]);
      assert rows == [rows[0]] + rows[1..];
      assert rest[0] in multiset(rest);
      assert rest[0] == t || rest[0] in rows[1..];
      ConsNewestFirst(rows[0], rest);
      [rows[0]] + rest
  }

  /** The rows ordered newest first: the same rows (as a multiset), sorted. */
  function SortNewestFirst(rows: seq<Transaction>): (r: seq<Transaction>)
    ensures NewestFirst(r)
    ensures multiset(r) == multiset(rows)
    ensures |r| == |rows|
  {
    if rows == [] then []
    else
      assert rows == [rows[0]] + rows[1..];
      InsertByDate(rows[0], SortNewestFirst(rows[1..]))
  }

  /** Sorting keeps exactly the same rows. */
  lemma SortedMembers(rows: seq<Transaction>)
    ensures forall t :: t in SortNewestFirst(rows) <==> t in rows
  {
    var sorted := SortNewestFirst(rows);
    forall t ensures t in sorted <==> t in rows {
      assert t in sorted <==> t in multiset(sorted);
      assert t in rows <==> t in multiset(rows);
    }
  }

  /** The first `limit` rows: one page from the start (`PageRequest.of(0, limit)`). */
  function FirstPage(rows: seq<Transaction>, limit: nat): (r: seq<Transaction>)
    ensures |r| == if |rows| <= limit then |rows| else limit
    ensures r == rows[..|r|]
    ensures |rows| <= limit ==> r == rows
  {
    if |rows| <= limit then rows else rows[..limit]
  }

  /** A first page of newest-first rows is newest first, and every row left
      off the page is no newer than any row on it. */
  lemma FirstPageIsNewest(rows: seq<Transaction>, limit: nat)
    requires NewestFirst(rows)
    ensures NewestFirst(FirstPage(rows, limit))
    ensures forall t, u :: t in FirstPage(rows, limit) && u in rows && u !in FirstPage(rows, limit)
                           ==> u.date <= t.date
  {
    var page := FirstPage(rows, limit);
    forall t, u | t in page && u in rows && u !in page ensures u.date <= t.date {
      var k :| 0 <= k < |rows| && rows[k] == u;
      var i :| 0 <= i < |page| && page[i] == t;
      assert rows[i] == t;
    }
  }

  /** A prefix holds each row at most as often as the whole sequence does, and
      only rows of the sequence. */
  lemma PrefixWithin(rows: seq<Transaction>, k: nat)
    requires k <= |rows|
    ensures multiset(rows[..k]) <= multiset(rows)
    ensures forall t :: t in rows[..k] ==> t in rows
  {
    assert rows == rows[..k] + rows[k..];
  }

  /** `findRecentByProductId` with a one-page request: `limit` rows of that
      product, or all of them when it has fewer, each taken from the ledger at
      most as often as it occurs there, newest first; no row of that product
      left off the page is newer than a row on it. */
  function FindRecentByProductId(rows: seq<Transaction>, productId: Id, limit: nat): (r: seq<Transaction>)
    ensures var mine := Where(rows, OfProduct(productId));
            |r| == if |mine| <= limit then |mine| else limit
    ensures multiset(r) <= multiset(Where(rows, OfProduct(productId)))
    ensures forall t :: t in r ==> t in rows && t.product == productId
    ensures NewestFirst(r)
    ensures forall t, u :: t in r && u in rows && u.product == productId && u !in r ==> u.date <= t.date
    ensures |Where(rows, OfProduct(productId))| <= limit ==>
              multiset(r) == multiset(Where(rows, OfProduct(productId)))
  {
    var mine := Where(rows, OfProduct(productId));
    var sorted := SortNewestFirst(mine);
    SortedMembers(mine);
    FirstPageIsNewest(sorted, limit);
    var page := FirstPage(sorted, limit);
    PrefixWithin(sorted, |page|);
    page
  }

  /** `findByDateRange`: the rows with `start <= transactionDate <= end`
      (`BETWEEN`, both ends inclusive), newest first. */
  function FindByDateRange(rows: seq<Transaction>, start: Timestamp, end: Timestamp): (r: seq<Transaction>)
    ensures forall t :: t in r <==> t in rows && start <= t.date <= end
    ensures NewestFirst(r)
    ensures multiset(r) == multiset(Where(rows, Between(start, end)))
  {
    var inRange := Where(rows, Between(start, end));
    SortedMembers(inRange);
    SortNewestFirst(inRange)
  }
}
