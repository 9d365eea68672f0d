/** A relational table with an AUTO_INCREMENT primary key: rows keyed by id,
    and the id the next INSERT will receive. Ids start at 1, so the falsy id 0
    never names a row. */
module Tables {
  import opened Common

  datatype RawTable<T> = RawTable(rows: map<int, T>, next: int)

  ghost predicate WellKeyed<T>(t: RawTable<T>)
  {
    1 <= t.next && forall id :: id in t.rows ==> 1 <= id < t.next
  }

  type Table<T> = t: RawTable<T> | WellKeyed(t) witness RawTable(map[], 1)

  function Empty<T>(): (t: Table<T>)
    ensures t.rows == map[]
  {
    RawTable(map[], 1)
  }

  /** INSERT: the row receives an id no existing row has, and nothing else changes. */
  function Insert<T>(t: Table<T>, r: T): (res: (Table<T>, int))
    ensures res.1 >= 1 && res.1 !in t.rows
    ensures res.0.rows == t.rows[res.1 := r]
  {
    (RawTable(t.rows[t.next := r], t.next + 1), t.next)
  }

  /** UPDATE ... WHERE id = ?, on an existing row. */
  function Put<T>(t: Table<T>, id: int, r: T): (u: Table<T>)
    requires id in t.rows
    ensures u.rows == t.rows[id := r] && u.rows.Keys == t.rows.Keys
  {
    t.(rows := t.rows[id := r])
  }

  /** DELETE ... WHERE id = ? */
  function Remove<T>(t: Table<T>, id: int): (u: Table<T>)
    ensures u.rows == t.rows - {id}
  {
    t.(rows := t.rows - {id})
  }

  // ---------------------------------------------------------------------------
  // The rows of a table as the array a SELECT returns (in id order)

  function RowsBelow<T>(m: map<int, T>, k: int): seq<T>
    decreases k
  {
    if k <= 1 then [] else RowsBelow(m, k - 1) + (if k - 1 in m then [m[k - 1]] else [])
  }

  ghost function KeysBelow<T>(m: map<int, T>, k: int): set<int>
  {
    set id | id in m && 1 <= id < k
  }

  lemma {:induction false} RowsBelowCount<T>(m: map<int, T>, k: int)
    ensures |RowsBelow(m, k)| == |KeysBelow(m, k)|
    decreases k
  {
    if k <= 1 {
      assert KeysBelow(m, k) == {};
    } else {
      RowsBelowCount(m, k - 1);
      if k - 1 in m {
        assert KeysBelow(m, k) == KeysBelow(m, k - 1) + {k - 1};
      } else {
        assert KeysBelow(m, k) == KeysBelow(m, k - 1);
      }
    }
  }

  lemma {:induction false} RowsBelowMembers<T>(m: map<int, T>, k: int)
    ensures forall x :: x in RowsBelow(m, k) ==> exists id :: id in m && 1 <= id < k && m[id] == x
    ensures forall id :: id in m && 1 <= id < k ==> m[id] in RowsBelow(m, k)
    decreases k
  {
    if k <= 1 {
      assert RowsBelow(m, k) == [];
    } else {
      RowsBelowMembers(m, k - 1);
      var prev := RowsBelow(m, k - 1);
      var last := if k - 1 in m then [m[k - 1]] else [];
      assert RowsBelow(m, k) == prev + last;
      forall x | x in RowsBelow(m, k)
        ensures exists id :: id in m && 1 <= id < k && m[id] == x
      {
        if x in prev {
          var id :| id in m && 1 <= id < k - 1 && m[id] == x;
        } else {
          assert k - 1 in m && m[k - 1] == x;
        }
      }
      forall id | id in m && 1 <= id < k
        ensures m[id] in RowsBelow(m, k)
      {
        if id < k - 1 {
          assert m[id] in prev;
        } else {
          assert RowsBelow(m, k)[|prev|] == m[id];
        }
      }
    }
  }

  /** The ids whose row passes `p`. */
  ghost function IdsDonde<T>(m: map<int, T>, p: T -> bool): set<int>
  {
    set id | id in m && p(m[id])
  }

  /** The ids below `k` whose row passes `p`. */
  ghost function IdsBelow<T>(m: map<int, T>, k: int, p: T -> bool): set<int>
  {
    set id | id in m && 1 <= id < k && p(m[id])
  }

  lemma {:induction false} RowsBelowCountWhere<T>(m: map<int, T>, k: int, p: T -> bool)
    ensures Count(RowsBelow(m, k), p) == |IdsBelow(m, k, p)|
    decreases k
  {
    if k <= 1 {
      assert IdsBelow(m, k, p) == {};
    } else {
      RowsBelowCountWhere(m, k - 1, p);
      var last := if k - 1 in m then [m[k - 1]] else [];
      CountAppend(RowsBelow(m, k - 1), last, p);
      if k - 1 in m && p(m[k - 1]) {
        assert IdsBelow(m, k, p) == IdsBelow(m, k - 1, p) + {k - 1};
      } else {
        assert IdsBelow(m, k, p) == IdsBelow(m, k - 1, p);
      }
    }
  }

  /** `SELECT * FROM t`: one entry per row, and exactly the rows' values; a
      value appears as many times as there are ids storing it. */
  function Rows<T(==)>(t: Table<T>): (r: seq<T>)
    ensures |r| == |t.rows|
    ensures forall x :: x in r ==> exists id :: id in t.rows && t.rows[id] == x
    ensures forall id :: id in t.rows ==> t.rows[id] in r
    ensures forall id :: id in t.rows ==> multiset(r)[t.rows[id]] == |set b | b in t.rows && t.rows[b] == t.rows[id]|
  {
    RowsBelowCount(t.rows, t.next);
    RowsBelowMembers(t.rows, t.next);
    assert KeysBelow(t.rows, t.next) == t.rows.Keys;
    forall id | id in t.rows
      ensures multiset(RowsBelow(t.rows, t.next))[t.rows[id]] == |set b | b in t.rows && t.rows[b] == t.rows[id]|
    {
      var x := t.rows[id];
      RowsBelowCountWhere(t.rows, t.next, y => y == x);
      CountIgual(RowsBelow(t.rows, t.next), x);
      assert IdsBelow(t.rows, t.next, y => y == x) == set b | b in t.rows && t.rows[b] == x;
    }
    RowsBelow(t.rows, t.next)
  }

  /** `SELECT COUNT(*) FROM t WHERE p`: the rows of the listing passing `p`
      are as many as the ids whose row passes it. */
  lemma CountRows<T>(t: Table<T>, p: T -> bool)
    ensures Count(Rows(t), p) == |IdsDonde(t.rows, p)|
  {
    RowsBelowCountWhere(t.rows, t.next, p);
    assert IdsBelow(t.rows, t.next, p) == IdsDonde(t.rows, p);
  }

  // ---------------------------------------------------------------------------
  // References between tables

  /** Some row references `id` through the column `ref`
      (`SELECT COUNT(*) ... WHERE column = id` is positive). */
  predicate Referenciado<R>(rows: map<int, R>, ref: R -> Option<int>, id: int)
  {
    exists a :: a in rows && ref(rows[a]) == Some(id)
  }

  /** Every non-NULL reference in `rows` names a row of `target`. */
  ghost predicate SinColgantes<R, T>(rows: map<int, R>, ref: R -> Option<int>, target: map<int, T>)
  {
    forall a :: a in rows && ref(rows[a]).Some? ==> ref(rows[a]).value in target
  }

  /** Deleting a row nobody references leaves no reference dangling. */
  lemma EliminarNoReferenciado<R, T>(rows: map<int, R>, ref: R -> Option<int>, target: map<int, T>, id: int)
    requires !Referenciado(rows, ref, id)
    ensures SinColgantes(rows, ref, target) ==> SinColgantes(rows, ref, target - {id})
  {
  }
}
