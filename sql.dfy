/**
 * The `ticks (timestamp REAL, price REAL)` table as SQLite holds it, seen
 * through Python's `sqlite3` module: which decoded JSON values can be bound
 * as a parameter, what a REAL column then stores, and how
 * `ORDER BY timestamp` orders stored values.
 */
module Sql {
  import opened Wrappers
  import opened Json

  /** A value stored in a REAL-affinity column. */
  datatype SqlValue = SNull | SReal(r: real) | SText(t: string)

  /** One row of the `ticks` table. */
  datatype Row = Row(ts: SqlValue, price: SqlValue)

  const MIN_INT64: int := -0x8000_0000_0000_0000
  const MAX_INT64: int := 0x7fff_ffff_ffff_ffff

  /**
   * Binding a decoded value as a statement parameter, followed by the REAL
   * column affinity. `None` is the exception `sqlite3` raises: a list or a
   * dict is not a supported parameter type, and an int outside 64 bits
   * overflows. A bool binds as the integer 0 or 1; integers are stored as
   * floating point.
   */
  function ColumnValue(v: Json): (r: Option<SqlValue>)
  {
    match v
    case JNull => Some(SNull)
    case JBool(b) => Some(SReal(if b then 1.0 else 0.0))
    case JInt(i) => if MIN_INT64 <= i <= MAX_INT64 then Some(SReal(i as real)) else None
    case JFloat(x) => Some(SReal(x))
    case JStr(s) => Some(SText(s))
    case _ => None
  }

  /** SQLite's storage-class rank in a sort: NULL, then numbers, then text. */
  function ClassRank(v: SqlValue): nat
  {
    match v
    case SNull => 0
    case SReal(_) => 1
    case SText(_) => 2
  }

  /** BINARY collation: code-point order, a proper prefix first. */
  predicate TextLe(s: string, t: string)
  {
    if s == [] then true
    else if t == [] then false
    else if s[0] != t[0] then s[0] < t[0]
    else TextLe(s[1..], t[1..])
  }

  /** `a` sorts no later than `b` under `ORDER BY timestamp` (a total preorder). */
  predicate TsLe(a: SqlValue, b: SqlValue)
  {
    if ClassRank(a) != ClassRank(b) then ClassRank(a) < ClassRank(b)
    else match (a, b)
      case (SReal(x), SReal(y)) => x <= y
      case (SText(x), SText(y)) => TextLe(x, y)
      case _ => true
  }

  lemma {:induction false} TextLeTotal(s: string, t: string)
    ensures TextLe(s, t) || TextLe(t, s)
  {
    if s != [] && t != [] && s[0] == t[0] {
      TextLeTotal(s[1..], t[1..]);
    }
  }

  lemma {:induction false} TextLeTrans(s: string, t: string, u: string)
    requires TextLe(s, t) && TextLe(t, u)
    ensures TextLe(s, u)
  {
    if s != [] && t != [] && u != [] && s[0] == t[0] && t[0] == u[0] {
      TextLeTrans(s[1..], t[1..], u[1..]);
    }
  }

  lemma TsLeTotal(a: SqlValue, b: SqlValue)
    ensures TsLe(a, b) || TsLe(b, a)
  {
    if a.SText? && b.SText? {
      TextLeTotal(a.t, b.t);
    }
  }

  lemma TsLeTrans(a: SqlValue, b: SqlValue, c: SqlValue)
    requires TsLe(a, b) && TsLe(b, c)
    ensures TsLe(a, c)
  {
    if a.SText? && b.SText? && c.SText? {
      TextLeTrans(a.t, b.t, c.t);
    }
  }

  /** Rows in ascending timestamp order. */
  ghost predicate SortedByTs(s: seq<Row>)
  {
    forall i, j :: 0 <= i < j < |s| ==> TsLe(s[i].ts, s[j].ts)
  }

  /**
   * Place `r` in sorted `s` after every row whose timestamp is not later
   * than its own, so that rows with equal timestamps keep insertion order.
   */
  function Insert(r: Row, s: seq<Row>): (res: seq<Row>)
    ensures |res| == |s| + 1
    ensures multiset(res) == multiset(s) + multiset{r}
  {
    if s == [] then [r]
    else if TsLe(s[|s| - 1].ts, r.ts) then s + [r]
    else
      assert s == s[..|s| - 1] + [s[|s| - 1]];
      Insert(r, s[..|s| - 1]) + [s[|s| - 1]]
  }

  /**
   * The table's rows in `ORDER BY timestamp` order. Ties are broken by
   * insertion order, the order in which SQLite's scan of the timestamp
   * index yields rows of equal timestamp.
   */
  function SortByTs(rows: seq<Row>): (res: seq<Row>)
    ensures |res| == |rows|
    ensures multiset(res) == multiset(rows)
  {
    if rows == [] then []
    else
      assert rows == rows[..|rows| - 1] + [rows[|rows| - 1]];
      Insert(rows[|rows| - 1], SortByTs(rows[..|rows| - 1]))
  }

  lemma {:induction false} InsertSorted(r: Row, s: seq<Row>)
    requires SortedByTs(s)
    ensures SortedByTs(Insert(r, s))
  {
    if s == [] {
    } else if TsLe(s[|s| - 1].ts, r.ts) {
      forall i | 0 <= i < |s| ensures TsLe(s[i].ts, r.ts) {
        if i < |s| - 1 { TsLeTrans(s[i].ts, s[|s| - 1].ts, r.ts); }
      }
    } else {
      var init, last := s[..|s| - 1], s[|s| - 1];
      InsertSorted(r, init);
      var ins := Insert(r, init);
      TsLeTotal(last.ts, r.ts);
      forall i | 0 <= i < |ins| ensures TsLe(ins[i].ts, last.ts) {
        assert ins[i] in multiset(ins);
        if ins[i] != r {
          assert ins[i] in multiset(init);
          var j :| 0 <= j < |init| && init[j] == ins[i];
          assert s[j] == init[j];
        }
      }
      assert Insert(r, s) == ins + [last];
    }
  }

  /** The sort yields a sorted permutation of the table. */
  lemma {:induction false} SortByTsSorted(rows: seq<Row>)
    ensures SortedByTs(SortByTs(rows))
  {
    if rows != [] {
      SortByTsSorted(rows[..|rows| - 1]);
      InsertSorted(rows[|rows| - 1], SortByTs(rows[..|rows| - 1]));
    }
  }

  /** A row no earlier than the last one goes at the end. */
  lemma InsertAtEnd(r: Row, s: seq<Row>)
    requires s != [] ==> TsLe(s[|s| - 1].ts, r.ts)
    ensures Insert(r, s) == s + [r]
  {
  }

  /** Rows already in timestamp order are left as they are. */
  lemma {:induction false} SortByTsOfSorted(rows: seq<Row>)
    requires SortedByTs(rows)
    ensures SortByTs(rows) == rows
  {
    if rows != [] {
      var init, last := rows[..|rows| - 1], rows[|rows| - 1];
      assert rows == init + [last];
      assert SortedByTs(init) by {
        forall i, j | 0 <= i < j < |init| ensures TsLe(init[i].ts, init[j].ts) {
          assert init[i] == rows[i] && init[j] == rows[j];
        }
      }
      SortByTsOfSorted(init);
      assert init != [] ==> TsLe(init[|init| - 1].ts, last.ts) by {
        if init != [] {
          assert init[|init| - 1] == rows[|rows| - 2];
        }
      }
      InsertAtEnd(last, init);
    }
  }

  /** A row no earlier than every row of `p` goes after all of `p`. */
  lemma {:induction false} InsertAfterOlder(r: Row, p: seq<Row>, q: seq<Row>)
    requires forall k :: 0 <= k < |p| ==> TsLe(p[k].ts, r.ts)
    ensures Insert(r, p + q) == p + Insert(r, q)
  {
    if q == [] {
      assert p + q == p;
      assert p + [r] == p + Insert(r, q);
    } else {
      var s := p + q;
      assert s[|s| - 1] == q[|q| - 1];
      if !TsLe(q[|q| - 1].ts, r.ts) {
        var q' := q[..|q| - 1];
        assert s[..|s| - 1] == p + q';
        InsertAfterOlder(r, p, q');
        AppendAssoc(p, Insert(r, q'), [q[|q| - 1]]);
      } else {
        AppendAssoc(p, q, [r]);
      }
    }
  }

  /** Every sorted row is a row of the table. */
  lemma SortByTsMember(rows: seq<Row>, k: nat)
    requires k < |SortByTs(rows)|
    ensures SortByTs(rows)[k] in rows
  {
    assert SortByTs(rows)[k] in multiset(SortByTs(rows));
  }

  /** No row of `older` is later than any row of `newer`. */
  ghost predicate NoLater(older: seq<Row>, newer: seq<Row>)
  {
    forall i, j :: 0 <= i < |older| && 0 <= j < |newer| ==> TsLe(older[i].ts, newer[j].ts)
  }

  /** After sorting, no row of `older` is later than the last row of `newer`. */
  lemma SortedNoLater(older: seq<Row>, newer: seq<Row>)
    requires NoLater(older, newer) && newer != []
    ensures forall k :: 0 <= k < |SortByTs(older)| ==> TsLe(SortByTs(older)[k].ts, newer[|newer| - 1].ts)
  {
    var so := SortByTs(older);
    forall k | 0 <= k < |so| ensures TsLe(so[k].ts, newer[|newer| - 1].ts) {
      SortByTsMember(older, k);
      var i :| 0 <= i < |older| && older[i] == so[k];
    }
  }

  /** Dropping the last row of `newer` keeps `older` no later than it. */
  lemma NoLaterInit(older: seq<Row>, newer: seq<Row>)
    requires NoLater(older, newer) && newer != []
    ensures NoLater(older, newer[..|newer| - 1])
  {
    var init := newer[..|newer| - 1];
    forall i, j | 0 <= i < |older| && 0 <= j < |init| ensures TsLe(older[i].ts, init[j].ts) {
      assert init[j] == newer[j];
    }
  }

  /**
   * When no row of `older` is later than any row of `newer`, sorting the
   * table sorts each part on its own: the older rows come first.
   */
  lemma {:induction false} SortByTsAppend(older: seq<Row>, newer: seq<Row>)
    requires NoLater(older, newer)
    ensures SortByTs(older + newer) == SortByTs(older) + SortByTs(newer)
  {
    if newer == [] {
      assert older + newer == older;
    } else {
      var init, last := newer[..|newer| - 1], newer[|newer| - 1];
      var all := older + newer;
      assert all[..|all| - 1] == older + init && all[|all| - 1] == last;
      assert SortByTs(all) == Insert(last, SortByTs(older + init));
      NoLaterInit(older, newer);
      SortByTsAppend(older, init);
      SortedNoLater(older, newer);
      InsertAfterOlder(last, SortByTs(older), SortByTs(init));
      assert SortByTs(newer) == Insert(last, SortByTs(init));
    }
  }

  /** The rows read back to front, as `reversed` gives them. */
  function Reverse<T>(s: seq<T>): (r: seq<T>)
    ensures |r| == |s|
  {
    seq(|s|, k requires 0 <= k < |s| => s[|s| - 1 - k])
  }

  /** The first `m` of a reversed sequence, reversed back, are its last `m`. */
  lemma ReverseTake<T>(s: seq<T>, m: nat)
    requires m <= |s|
    ensures Reverse(Reverse(s)[..m]) == s[|s| - m..]
  {
    var top := Reverse(s)[..m];
    forall k | 0 <= k < m ensures Reverse(top)[k] == s[|s| - m + k] {
      assert Reverse(top)[k] == top[m - 1 - k];
    }
  }

  /** The price column of a list of rows, in the same order. */
  function Prices(rows: seq<Row>): (ps: seq<SqlValue>)
    ensures |ps| == |rows|
    ensures forall k :: 0 <= k < |rows| ==> ps[k] == rows[k].price
  {
    seq(|rows|, k requires 0 <= k < |rows| => rows[k].price)
  }

  /** Taking the price column commutes with reversing the rows. */
  lemma PricesReverse(rows: seq<Row>)
    ensures Reverse(Prices(rows)) == Prices(Reverse(rows))
  {
    forall k | 0 <= k < |rows| ensures Reverse(Prices(rows))[k] == Prices(Reverse(rows))[k] {
      assert Reverse(rows)[k] == rows[|rows| - 1 - k];
    }
  }
}
