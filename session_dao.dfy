/**
 * The `sessions` table behind `SessionDao`, as an in-memory sequence of rows.
 * The key column is `INTEGER PRIMARY KEY AUTOINCREMENT`: a record inserted
 * with key 0 gets one more than the largest key the table has ever held, and
 * that high-water mark survives deletions. Text columns compare code point by
 * code point, which is SQLite's default BINARY collation on UTF-8 text; on the
 * fixed-width ISO date and time texts that order is chronological.
 */
module SessionStore {
  import opened Wrappers
  import opened SessionRecord

  /** Lexicographic order on text, the prefix first. */
  predicate TextLe(a: string, b: string)
    decreases |a|
  {
    if a == [] then true
    else if b == [] then false
    else if a[0] < b[0] then true
    else if a[0] > b[0] then false
    else TextLe(a[1..], b[1..])
  }

  lemma {:induction false} TextLeTotal(a: string, b: string)
    ensures TextLe(a, b) || TextLe(b, a)
    decreases |a|
  {
    if a != [] && b != [] && a[0] == b[0] {
      TextLeTotal(a[1..], b[1..]);
    }
  }

  lemma {:induction false} TextLeAntisymmetric(a: string, b: string)
    requires TextLe(a, b) && TextLe(b, a)
    ensures a == b
    decreases |a|
  {
    if a != [] {
      TextLeAntisymmetric(a[1..], b[1..]);
      assert a == [a[0]] + a[1..] && b == [b[0]] + b[1..];
    }
  }

  lemma {:induction false} TextLeTransitive(a: string, b: string, c: string)
    requires TextLe(a, b) && TextLe(b, c)
    ensures TextLe(a, c)
    decreases |a|
  {
    if a != [] && a[0] == b[0] && b[0] == c[0] {
      TextLeTransitive(a[1..], b[1..], c[1..]);
    }
  }

  /** `x` sorts no later than `y` under `ORDER BY date, startTime` (ascending). */
  predicate KeyLe(x: Session, y: Session) {
    (x.date != y.date && TextLe(x.date, y.date))
    || (x.date == y.date && TextLe(x.startTime, y.startTime))
  }

  lemma KeyLeTotal(x: Session, y: Session)
    ensures KeyLe(x, y) || KeyLe(y, x)
  {
    TextLeTotal(x.date, y.date);
    TextLeTotal(x.startTime, y.startTime);
  }

  lemma KeyLeTransitive(x: Session, y: Session, z: Session)
    requires KeyLe(x, y) && KeyLe(y, z)
    ensures KeyLe(x, z)
  {
    if x.date != y.date && y.date != z.date {
      TextLeTransitive(x.date, y.date, z.date);
      if x.date == z.date {
        TextLeAntisymmetric(y.date, z.date);
      }
    } else if x.date == y.date && y.date == z.date {
      TextLeTransitive(x.startTime, y.startTime, z.startTime);
    }
  }

  /** `ORDER BY date DESC, startTime DESC`: every row's key is at least that of any later row. */
  ghost predicate NewestFirst(rows: seq<Session>) {
    forall i, j :: 0 <= i < j < |rows| ==> KeyLe(rows[j], rows[i])
  }

  /** Places `x` in front of the first row whose key does not exceed its own. */
  function InsertByKey(x: Session, sorted: seq<Session>): (r: seq<Session>)
    requires NewestFirst(sorted)
    ensures NewestFirst(r)
    ensures multiset(r) == multiset(sorted) + multiset{x}
  {
    if sorted == [] then [x]
    else if KeyLe(sorted[0], x) then
      assert forall j :: 0 <= j < |sorted| ==> KeyLe(sorted[j], x) by {
        forall j | 0 <= j < |sorted| ensures KeyLe(sorted[j], x) {
          if j > 0 { KeyLeTransitive(sorted[j], sorted[0], x); }
        }
      }
      ConsNewestFirst(x, sorted);
      [x] + sorted
    else
      KeyLeTotal(sorted[0], x);
      var tail := InsertByKey(x, sorted[1..]);
      assert multiset(sorted) == multiset{sorted[0]} + multiset(sorted[1..]) by {
        assert sorted == [sorted[0]] + sorted[1..];
      }
      assert forall k :: 0 <= k < |tail| ==> KeyLe(tail[k], sorted[0]) by {
        forall k | 0 <= k < |tail| ensures KeyLe(tail[k], sorted[0]) {
          assert tail[k] in multiset(tail);
        }
      }
      ConsNewestFirst(sorted[0], tail);
      [sorted[0]] + tail
  }

  /** A row at least as new as every row of a listing can go in front of it. */
  lemma ConsNewestFirst(h: Session, rows: seq<Session>)
    requires NewestFirst(rows) && forall k :: 0 <= k < |rows| ==> KeyLe(rows[k], h)
    ensures NewestFirst([h] + rows)
  {
    var r := [h] + rows;
    forall i, j | 0 <= i < j < |r| ensures KeyLe(r[j], r[i]) {
      assert r[j] == rows[j - 1];
      if i > 0 {
        assert r[i] == rows[i - 1];
      }
    }
  }

  /** The rows of `SELECT * FROM sessions ORDER BY date DESC, startTime DESC`; ties keep no promised order. */
  function Listing(rows: seq<Session>): (r: seq<Session>)
    ensures NewestFirst(r)
    ensures multiset(r) == multiset(rows)
  {
    if rows == [] then []
    else
      assert rows == [rows[0]] + rows[1..];
      InsertByKey(rows[0], Listing(rows[1..]))
  }

  function SumElapsed(rows: seq<Session>): int {
    if rows == [] then 0 else SumElapsed(rows[..|rows| - 1]) + rows[|rows| - 1].elapsedSeconds
  }

  /** Does the table hold a row with this key? */
  predicate HasKey(rows: seq<Session>, id: int) {
    exists i | 0 <= i < |rows| :: rows[i].id == id
  }

  /** The rows whose key differs from `id`, in table order. */
  function Without(rows: seq<Session>, id: int): (r: seq<Session>)
    ensures !HasKey(r, id)
  {
    if rows == [] then []
    else if rows[|rows| - 1].id == id then Without(rows[..|rows| - 1], id)
    else Without(rows[..|rows| - 1], id) + [rows[|rows| - 1]]
  }

  /** No two rows share a key. */
  ghost predicate UniqueKeys(rows: seq<Session>) {
    forall i, j :: 0 <= i < j < |rows| ==> rows[i].id != rows[j].id
  }

  datatype InsertResult = Inserted(rowId: int) | ConstraintFailed

  /**
   * The table: its rows in storage order and the largest key it has ever
   * held (SQLite's `sqlite_sequence` entry for it).
   */
  datatype Table = Table(rows: seq<Session>, lastRowId: int) {

    /** Keys are unique, never 0 and never above the high-water mark. */
    ghost predicate Valid() {
      && UniqueKeys(rows)
      && (forall i :: 0 <= i < |rows| ==> rows[i].id != UnassignedId && rows[i].id <= lastRowId)
      && lastRowId >= 0
    }

    /** `@Insert`: a fresh key for key 0, the given key otherwise, and a constraint failure on a duplicate key. */
    function Insert(s: Session): (Table, InsertResult) {
      if s.id == UnassignedId then
        var k := lastRowId + 1;
        (Table(rows + [s.(id := k)], k), Inserted(k))
      else if HasKey(rows, s.id) then
        (this, ConstraintFailed)
      else
        (Table(rows + [s], if s.id > lastRowId then s.id else lastRowId), Inserted(s.id))
    }

    /** `@Delete`: removes the row whose key is the given record's key, if any. */
    function Delete(s: Session): Table {
      Table(Without(rows, s.id), lastRowId)
    }

    /** `DELETE FROM sessions`; the key high-water mark is kept. */
    function DeleteAll(): Table {
      Table([], lastRowId)
    }

    /** `getAllSessions` and `getAllSessionsList`: the same query text, so the same rows in the same order. */
    function AllSessions(): seq<Session> {
      Listing(rows)
    }

    /** `SELECT SUM(elapsedSeconds)`: SQL's SUM is NULL over no rows. */
    function TotalMeditationTime(): (r: Option<int>)
      ensures r.None? <==> rows == []
    {
      if rows == [] then None else Some(SumElapsed(rows))
    }

    /** `SELECT COUNT(*)`. */
    function SessionCount(): nat {
      |rows|
    }
  }

  const EmptyTable := Table([], 0)

  lemma {:induction false} WithoutKeeps(rows: seq<Session>, id: int)
    ensures forall r :: r in Without(rows, id) <==> r in rows && r.id != id
  {
    if rows != [] {
      WithoutKeeps(rows[..|rows| - 1], id);
      assert rows == rows[..|rows| - 1] + [rows[|rows| - 1]];
    }
  }

  lemma {:induction false} WithoutCount(rows: seq<Session>, id: int)
    requires UniqueKeys(rows)
    ensures HasKey(rows, id) ==> |Without(rows, id)| == |rows| - 1
    ensures !HasKey(rows, id) ==> Without(rows, id) == rows
  {
    if rows != [] {
      var p, last := rows[..|rows| - 1], rows[|rows| - 1];
      assert rows == p + [last];
      assert UniqueKeys(p) by {
        forall i, j | 0 <= i < j < |p| ensures p[i].id != p[j].id {
          assert p[i] == rows[i] && p[j] == rows[j];
        }
      }
      WithoutCount(p, id);
      if last.id == id {
        assert Without(rows, id) == Without(p, id);
        assert !HasKey(p, id) by {
          forall i | 0 <= i < |p| ensures p[i].id != id {
            assert p[i] == rows[i];
          }
        }
      } else {
        assert Without(rows, id) == Without(p, id) + [last];
        assert HasKey(rows, id) <==> HasKey(p, id) by {
          if HasKey(rows, id) {
            var i :| 0 <= i < |rows| && rows[i].id == id;
            assert i < |p| && p[i] == rows[i];
          }
          if HasKey(p, id) {
            var i :| 0 <= i < |p| && p[i].id == id;
            assert rows[i] == p[i];
          }
        }
      }
    }
  }

  /** Inserting a new record adds exactly one row, under a key no row had, and adds to the total. */
  lemma InsertNew(t: Table, s: Session)
    requires t.Valid() && s.id == UnassignedId
    ensures var (t', res) := t.Insert(s);
      && t'.Valid()
      && res == Inserted(t.lastRowId + 1)
      && !HasKey(t.rows, res.rowId)
      && t'.rows == t.rows + [s.(id := res.rowId)]
      && t'.SessionCount() == t.SessionCount() + 1
      && t'.TotalMeditationTime() == Some(SumElapsed(t.rows) + s.elapsedSeconds)
  {
    var (t', res) := t.Insert(s);
    assert t'.rows[..|t'.rows| - 1] == t.rows;
  }

  /** Inserting a record that carries a key fails exactly when the key is taken. */
  lemma InsertWithKey(t: Table, s: Session)
    requires t.Valid() && s.id != UnassignedId
    ensures var (t', res) := t.Insert(s);
      && t'.Valid()
      && (res == ConstraintFailed <==> HasKey(t.rows, s.id))
      && (res == ConstraintFailed ==> t' == t)
      && (res.Inserted? ==> res.rowId == s.id && t'.rows == t.rows + [s])
  {
    var (t', res) := t.Insert(s);
    if res.Inserted? {
      forall i | 0 <= i < |t.rows| ensures t.rows[i].id != s.id {
        assert !(t.rows[i].id == s.id);
      }
      assert t'.rows[|t.rows|] == s;
    }
  }

  /** Deleting removes the row with the record's key and leaves every other row in place. */
  lemma DeleteRemovesKey(t: Table, s: Session)
    requires t.Valid()
    ensures var t' := t.Delete(s);
      && t'.Valid()
      && !HasKey(t'.rows, s.id)
      && (forall r :: r in t'.rows <==> r in t.rows && r.id != s.id)
      && (HasKey(t.rows, s.id) ==> t'.SessionCount() == t.SessionCount() - 1)
      && (!HasKey(t.rows, s.id) ==> t' == t)
  {
    WithoutKeeps(t.rows, s.id);
    WithoutCount(t.rows, s.id);
    WithoutUnique(t.rows, s.id);
  }

  lemma {:induction false} WithoutUnique(rows: seq<Session>, id: int)
    requires UniqueKeys(rows)
    ensures UniqueKeys(Without(rows, id))
  {
    if rows != [] {
      var p, last := rows[..|rows| - 1], rows[|rows| - 1];
      WithoutUnique(p, id);
      WithoutKeeps(p, id);
      var w := Without(p, id);
      if last.id != id {
        assert Without(rows, id) == w + [last];
        forall i | 0 <= i < |w| ensures w[i].id != last.id {
          assert w[i] in w;
          assert w[i] in p;
          var k :| 0 <= k < |p| && p[k] == w[i];
          assert rows[k] == w[i];
        }
        var w' := w + [last];
        forall i, j | 0 <= i < j < |w'| ensures w'[i].id != w'[j].id {
          assert w'[i] == w[i];
          if j == |w| {
            assert w'[j] == last;
            assert w[i].id != last.id;
          } else {
            assert w'[j] == w[j];
            assert w[i].id != w[j].id;
          }
        }
        assert Without(rows, id) == w';
      }
    }
  }

  /** After `deleteAll` both listings are empty, the count is 0 and the sum is NULL. */
  lemma DeleteAllEmpties(t: Table)
    requires t.Valid()
    ensures t.DeleteAll().Valid()
    ensures t.DeleteAll().AllSessions() == []
    ensures t.DeleteAll().SessionCount() == 0 && t.DeleteAll().TotalMeditationTime() == None
  {
  }

  /** The mutable table behind the DAO. */
  class SessionDao {
    var rows: seq<Session>
    var lastRowId: int

    function Snapshot(): Table
      reads this
    {
      Table(rows, lastRowId)
    }

    ghost predicate Valid()
      reads this
    {
      Snapshot().Valid()
    }

    constructor ()
      ensures Valid() && Snapshot() == EmptyTable
    {
      rows, lastRowId := [], 0;
    }

    method Insert(session: Session) returns (result: InsertResult)
      requires Valid()
      modifies this
      ensures Valid()
      ensures (Snapshot(), result) == old(Snapshot()).Insert(session)
    {
      if session.id == UnassignedId {
        lastRowId := lastRowId + 1;
        rows := rows + [session.(id := lastRowId)];
        result := Inserted(lastRowId);
      } else if HasKey(rows, session.id) {
        result := ConstraintFailed;
      } else {
        rows := rows + [session];
        if session.id > lastRowId {
          lastRowId := session.id;
        }
        result := Inserted(session.id);
      }
      if session.id == UnassignedId {
        InsertNew(old(Snapshot()), session);
      } else {
        InsertWithKey(old(Snapshot()), session);
      }
    }

    method Delete(session: Session)
      requires Valid()
      modifies this
      ensures Valid()
      ensures Snapshot() == old(Snapshot()).Delete(session)
    {
      DeleteRemovesKey(Snapshot(), session);
      rows := Without(rows, session.id);
    }

    method DeleteAll()
      requires Valid()
      modifies this
      ensures Valid()
      ensures Snapshot() == old(Snapshot()).DeleteAll()
    {
      rows := [];
    }

    /** The live listing. */
    function GetAllSessions(): (r: seq<Session>)
      reads this
      ensures NewestFirst(r) && multiset(r) == multiset(rows)
    {
      Snapshot().AllSessions()
    }

    /** The point-in-time listing used for export: the live listing's rows in its order. */
    method GetAllSessionsList() returns (r: seq<Session>)
      ensures r == GetAllSessions()
    {
      r := Listing(rows);
    }

    function GetTotalMeditationTime(): (r: Option<int>)
      reads this
      ensures r.None? <==> rows == []
      ensures r.Some? ==> r.value == SumElapsed(rows)
    {
      Snapshot().TotalMeditationTime()
    }

    function GetSessionCount(): (n: nat)
      reads this
      ensures n == |rows|
    {
      Snapshot().SessionCount()
    }
  }
}
