/** The `anki_queue` table as the sync agent sees it: its rows, the query that
    picks the next batch (sync_to_anki.py:208-214), and the row update written
    by `update_queue_status` (sync_to_anki.py:167-185). */
module Queue {
  import opened Wrappers

  /** An ISO-8601 text timestamp, as the agent writes it. */
  type Timestamp = string

  /** A column read with `item.get(key, default)`: the key may be absent from
      the row dictionary, present with NULL, or present with a value. */
  datatype Field<T> = Absent | Null | Value(v: T)

  /** One row of `anki_queue`. `createdAt` is the creation instant, used only
      for ordering. `pushedAt` is `pushed_to_anki_at`; `pushError` is
      `push_error`. */
  datatype Row = Row(
    id: int,
    createdAt: int,
    word: string,
    definition: Option<string>,
    deck: Field<string>,
    noteType: Field<string>,
    tags: Field<seq<string>>,
    pushedAt: Option<Timestamp>,
    pushError: Option<string>)

  /** `pushed_to_anki_at IS NULL`. */
  predicate Unpushed(r: Row) {
    r.pushedAt.None?
  }

  /** `id` is the table's key: no two rows share one. */
  predicate UniqueIds(rows: seq<Row>) {
    forall i, j :: 0 <= i < j < |rows| ==> rows[i].id != rows[j].id
  }

  /** The rows the `.is_('pushed_to_anki_at', 'null')` filter keeps, in table
      order. */
  function PendingRows(rows: seq<Row>): (r: seq<Row>)
    ensures forall x :: multiset(r)[x] == if Unpushed(x) then multiset(rows)[x] else 0
  {
    if rows == [] then []
    else
      assert rows == [rows[0]] + rows[1..];
      (if Unpushed(rows[0]) then [rows[0]] else []) + PendingRows(rows[1..])
  }

  /** Oldest first: `.order('created_at', desc=False)`. */
  predicate OldestFirst(s: seq<Row>) {
    forall i, j :: 0 <= i < j < |s| ==> s[i].createdAt <= s[j].createdAt
  }

  /** Places `x` before the first row of `s` that is not older than it. */
  function InsertByAge(x: Row, s: seq<Row>): (r: seq<Row>)
    requires OldestFirst(s)
    ensures OldestFirst(r)
    ensures multiset(r) == multiset(s) + multiset{x}
  {
    if s == [] || x.createdAt <= s[0].createdAt then
      InsertInFront(x, s);
      [x] + s
    else
      var rest := InsertByAge(x, s[1..]);
      InsertBehind(x, s, rest);
      [s[0]] + rest
  }

  /** A row no newer than the first of an ordered sequence goes in front. */
  lemma InsertInFront(x: Row, s: seq<Row>)
    requires OldestFirst(s)
    requires s == [] || x.createdAt <= s[0].createdAt
    ensures OldestFirst([x] + s)
  {
    forall i, j | 0 <= i < j < |[x] + s| ensures ([x] + s)[i].createdAt <= ([x] + s)[j].createdAt {
      if i == 0 {
        assert ([x] + s)[j] == s[j - 1];
      }
    }
  }

  /** A row newer than the first of an ordered sequence goes behind it: the
      first row stays in front of the rest with `x` inserted. */
  lemma InsertBehind(x: Row, s: seq<Row>, rest: seq<Row>)
    requires OldestFirst(s) && s != [] && s[0].createdAt < x.createdAt
    requires OldestFirst(rest) && multiset(rest) == multiset(s[1..]) + multiset{x}
    ensures OldestFirst([s[0]] + rest)
    ensures multiset([s[0]] + rest) == multiset(s) + multiset{x}
  {
    assert s == [s[0]] + s[1..];
    forall k | 0 <= k < |rest| ensures s[0].createdAt <= rest[k].createdAt {
      assert rest[k] in multiset(rest);
      if rest[k] != x {
        assert rest[k] in s[1..];
      }
    }
    var r := [s[0]] + rest;
    forall i, j | 0 <= i < j < |r| ensures r[i].createdAt <= r[j].createdAt {
      assert r[j] == rest[j - 1];
      if i > 0 {
        assert r[i] == rest[i - 1];
      }
    }
  }

  /** Orders rows oldest first. The store leaves the order of rows created at
      the same instant open; this sort keeps them in table order. */
  function SortByAge(s: seq<Row>): (r: seq<Row>)
    ensures OldestFirst(r)
    ensures multiset(r) == multiset(s)
  {
    if s == [] then []
    else
      assert s == [s[0]] + s[1..];
      InsertByAge(s[0], SortByAge(s[1..]))
  }

  /** `if limit:` — a cap of `None` or `0` is no cap at all. */
  predicate Capped(limit: Option<nat>) {
    limit.Some? && limit.value != 0
  }

  /** The batch one run processes: the unpushed rows, oldest first, cut to
      `limit` when the limit is set and not zero. */
  function SelectBatch(rows: seq<Row>, limit: Option<nat>): (batch: seq<Row>)
    ensures OldestFirst(batch)
    ensures forall x :: x in batch ==> Unpushed(x) && x in rows
    ensures multiset(batch) <= multiset(rows)
    ensures !Capped(limit) ==> forall x :: x in rows && Unpushed(x) ==> x in batch
    ensures !Capped(limit) ==> multiset(batch) == multiset(PendingRows(rows))
    ensures Capped(limit) ==> |batch| == Min(limit.value, |PendingRows(rows)|)
  {
    var all := SortByAge(PendingRows(rows));
    PendingRowsMembers(rows);
    if Capped(limit) then
      var n := Min(limit.value, |all|);
      PrefixMultiset(all, n);
      all[..n]
    else all
  }

  lemma PendingRowsMembers(rows: seq<Row>)
    ensures |SortByAge(PendingRows(rows))| == |PendingRows(rows)|
    ensures multiset(PendingRows(rows)) <= multiset(rows)
    ensures forall x :: x in SortByAge(PendingRows(rows)) <==> x in rows && Unpushed(x)
  {
    var p := PendingRows(rows);
    var q := SortByAge(p);
    assert |q| == |p| by {
      assert |q| == |multiset(q)| == |multiset(p)| == |p|;
    }
    assert multiset(p) <= multiset(rows) by {
      forall x ensures multiset(p)[x] <= multiset(rows)[x] {
      }
    }
    forall x ensures x in q <==> x in rows && Unpushed(x) {
      assert x in q <==> multiset(p)[x] > 0;
      assert x in rows <==> multiset(rows)[x] > 0;
    }
  }

  lemma PrefixMultiset(s: seq<Row>, n: nat)
    requires n <= |s|
    ensures multiset(s[..n]) <= multiset(s)
    ensures forall x :: x in s[..n] ==> x in s
  {
    assert s == s[..n] + s[n..];
  }

  function Min(a: nat, b: nat): nat {
    if a <= b then a else b
  }

  /** A capped batch holds the oldest unpushed rows: it is the start of the
      uncapped batch, and every row it leaves out is no older than any row it
      holds. */
  lemma CappedBatchIsOldest(rows: seq<Row>, n: nat)
    requires n != 0
    ensures SelectBatch(rows, Some(n)) == SelectBatch(rows, None)[..|SelectBatch(rows, Some(n))|]
    ensures forall i, j :: 0 <= i < |SelectBatch(rows, Some(n))| <= j < |SelectBatch(rows, None)| ==>
              SelectBatch(rows, None)[i].createdAt <= SelectBatch(rows, None)[j].createdAt
  {
  }

  /** A row occurring twice in a sequence occurs twice in its multiset. */
  lemma TwiceInMultiset(s: seq<Row>, i: nat, j: nat)
    requires i < j < |s| && s[i] == s[j]
    ensures multiset(s)[s[i]] >= 2
  {
    assert s == s[..j] + s[j..];
    assert s[i] in s[..j];
    assert s[j] in s[j..];
  }

  /** A row that occurs twice in a table with unique ids does not exist. */
  lemma {:induction false} NoRepeatedRow(s: seq<Row>, x: Row)
    requires UniqueIds(s)
    ensures multiset(s)[x] <= 1
  {
    if s != [] {
      assert s == [s[0]] + s[1..];
      NoRepeatedRow(s[1..], x);
      if s[0] == x {
        assert x !in s[1..] by {
          forall k | 0 <= k < |s[1..]| ensures s[1..][k] != x {
            assert s[1..][k] == s[k + 1];
          }
        }
      }
    }
  }

  /** The batch of a table with unique ids has unique ids. */
  lemma SelectBatchUniqueIds(rows: seq<Row>, limit: Option<nat>)
    requires UniqueIds(rows)
    ensures UniqueIds(SelectBatch(rows, limit))
  {
    var b := SelectBatch(rows, limit);
    forall i, j | 0 <= i < j < |b| ensures b[i].id != b[j].id {
      if b[i] == b[j] {
        TwiceInMultiset(b, i, j);
        NoRepeatedRow(rows, b[i]);
      } else {
        assert b[i] in rows && b[j] in rows;
        var p :| 0 <= p < |rows| && rows[p] == b[i];
        var q :| 0 <= q < |rows| && rows[q] == b[j];
        assert p != q;
      }
    }
  }

  /** The columns `update_queue_status` writes. */
  datatype Column = PushedToAnkiAt | PushError

  /** The `update_data` dictionary: column to new value, `None` being NULL. */
  type UpdateData = map<Column, Option<string>>

  /** The `update_data` that `update_queue_status(queue_id, pushed, error)`
      sends: a pushed row gets the time (with a `Z` suffix) and its error
      cleared; otherwise only the error is written. */
  function StatusUpdate(pushed: bool, error: Option<string>, now: Timestamp): (d: UpdateData)
    ensures PushedToAnkiAt in d <==> pushed
    ensures PushedToAnkiAt in d ==> d[PushedToAnkiAt] == Some(now + "Z")
    ensures PushError in d && d[PushError] == (if pushed then None else error)
  {
    if pushed then map[PushedToAnkiAt := Some(now + "Z"), PushError := None]
    else map[PushError := error]
  }

  /** One row after `.update(data)`: the columns named in `data` take its
      values, all other columns keep theirs. */
  function ApplyUpdate(row: Row, data: UpdateData): Row {
    row.(pushedAt := if PushedToAnkiAt in data then data[PushedToAnkiAt] else row.pushedAt,
         pushError := if PushError in data then data[PushError] else row.pushError)
  }

  /** The row `update_queue_status` leaves behind. */
  function UpdatedRow(row: Row, pushed: bool, error: Option<string>, now: Timestamp): (r: Row)
    ensures pushed ==> r.pushedAt == Some(now + "Z") && r.pushError == None
    ensures !pushed ==> r.pushedAt == row.pushedAt && r.pushError == error
    ensures r.(pushedAt := row.pushedAt, pushError := row.pushError) == row
  {
    ApplyUpdate(row, StatusUpdate(pushed, error, now))
  }

  /** `.update(data).eq('id', id)`: every row with that id is updated, every
      other row is left as it is. On a table keyed by `id` that is the one
      row with the key, or no row at all; the keys themselves never change. */
  function UpdateWhere(rows: seq<Row>, id: int, data: UpdateData): (r: seq<Row>)
    ensures |r| == |rows|
    ensures forall i :: 0 <= i < |rows| ==> r[i].id == rows[i].id
    ensures (forall j :: 0 <= j < |rows| ==> rows[j].id != id) ==> r == rows
    ensures forall p :: 0 <= p < |rows| && rows[p].id == id && UniqueIds(rows) ==>
              r == rows[p := ApplyUpdate(rows[p], data)]
    ensures UniqueIds(rows) ==> UniqueIds(r)
  {
    seq(|rows|, i requires 0 <= i < |rows| =>
      if rows[i].id == id then ApplyUpdate(rows[i], data) else rows[i])
  }
}
