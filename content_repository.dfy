/**
 * The plain CRUD repositories behind the content services
 * (`ArticleRepository`, `CategoryRepository`, `CommentRepository`,
 * `UserRepository`): a table of rows keyed by a generated id, kept in the
 * order the rows were first saved. `findById`, `existsById`, `save` and
 * `deleteById` are the operations the services use; each is a function on
 * the table here, and the services assign its result to the store.
 */
module ContentRepository {
  import opened Common

  /** A stored entity with its generated id. */
  datatype Row<T> = Row(id: int, value: T)

  /** The ids present in a table. */
  function Ids<T>(rows: seq<Row<T>>): (ids: set<int>)
    ensures forall x :: x in rows ==> x.id in ids
    decreases |rows|
  {
    if rows == [] then {} else {rows[0].id} + Ids(rows[1..])
  }

  /** No id occurs twice (the primary key). */
  predicate DistinctIds<T>(rows: seq<Row<T>>)
    decreases |rows|
  {
    rows == [] || (rows[0].id !in Ids(rows[1..]) && DistinctIds(rows[1..]))
  }

  /** `findById`. */
  function Find<T>(rows: seq<Row<T>>, id: int): (r: Option<T>)
    ensures r.Some? <==> id in Ids(rows)
    ensures r.Some? ==> Row(id, r.value) in rows
    decreases |rows|
  {
    if rows == [] then None
    else if rows[0].id == id then Some(rows[0].value)
    else Find(rows[1..], id)
  }

  /** The largest id in the table, or 0 for an empty table. */
  function MaxId<T>(rows: seq<Row<T>>): (m: int)
    ensures forall x :: x in Ids(rows) ==> x <= m
    decreases |rows|
  {
    if rows == [] then 0
    else
      var m := MaxId(rows[1..]);
      if rows[0].id > m then rows[0].id else m
  }

  /** The id the database generates for a new row: one that is not taken. */
  function NextId<T>(rows: seq<Row<T>>): (id: int)
    ensures id !in Ids(rows)
  {
    MaxId(rows) + 1
  }

  /** `save` of a new entity: the row is appended under the id the
   *  database generates. */
  function Appended<T>(rows: seq<Row<T>>, value: T): seq<Row<T>>
  {
    rows + [Row(NextId(rows), value)]
  }

  /** `save` of an entity that was loaded under `id`. */
  function Replace<T>(rows: seq<Row<T>>, id: int, value: T): (r: seq<Row<T>>)
    ensures |r| == |rows|
    decreases |rows|
  {
    if rows == [] then []
    else [if rows[0].id == id then Row(id, value) else rows[0]] + Replace(rows[1..], id, value)
  }

  /** The test that keeps every row except the one with `id`. */
  function OtherId<T>(id: int): Row<T> -> bool
  {
    (x: Row<T>) => x.id != id
  }

  /** `deleteById(id)` on the table. */
  function Remove<T>(rows: seq<Row<T>>, id: int): seq<Row<T>>
  {
    Filter(rows, OtherId(id))
  }

  /** Whether `save` of a new entity carrying `id` merges it onto a stored
   *  row: an entity without a version attribute is new exactly when its id
   *  is null, and merging an id that names no row inserts under a freshly
   *  generated id. */
  predicate NamesStoredRow<T>(id: Option<int>, rows: seq<Row<T>>)
  {
    id.Some? && id.value in Ids(rows)
  }

  /** The ids of a table extended at the end. */
  lemma {:induction false} IdsAppend<T>(rows: seq<Row<T>>, row: Row<T>)
    ensures Ids(rows + [row]) == Ids(rows) + {row.id}
    decreases |rows|
  {
    if rows != [] {
      assert (rows + [row])[1..] == rows[1..] + [row];
      IdsAppend(rows[1..], row);
    } else {
      assert [row][1..] == [];
    }
  }

  /** Every id of a table belongs to one of its rows. */
  lemma {:induction false} IdsOwner<T>(rows: seq<Row<T>>, id: int) returns (x: Row<T>)
    requires id in Ids(rows)
    ensures x in rows && x.id == id
    decreases |rows|
  {
    if rows[0].id == id {
      x := rows[0];
    } else {
      x := IdsOwner(rows[1..], id);
    }
  }

  /** Keeping the rows that pass a test keeps no id that was not there. */
  lemma {:induction false} FilterIds<T>(rows: seq<Row<T>>, p: Row<T> -> bool)
    ensures Ids(Filter(rows, p)) <= Ids(rows)
    decreases |rows|
  {
    if rows != [] {
      FilterIds(rows[1..], p);
      var rest := Filter(rows[1..], p);
      if p(rows[0]) {
        assert Filter(rows, p) == [rows[0]] + rest;
        assert ([rows[0]] + rest)[1..] == rest;
      } else {
        assert Filter(rows, p) == rest;
      }
    }
  }

  /** Keeping the rows that pass a test keeps the ids distinct. */
  lemma {:induction false} FilterKeepsDistinct<T>(rows: seq<Row<T>>, p: Row<T> -> bool)
    requires DistinctIds(rows)
    ensures DistinctIds(Filter(rows, p))
    decreases |rows|
  {
    if rows != [] {
      FilterKeepsDistinct(rows[1..], p);
      FilterIds(rows[1..], p);
      var rest := Filter(rows[1..], p);
      if p(rows[0]) {
        assert Filter(rows, p) == [rows[0]] + rest;
        assert ([rows[0]] + rest)[1..] == rest;
      } else {
        assert Filter(rows, p) == rest;
      }
    }
  }

  /** A new row is found under its id, every other id finds what it found
   *  before, and ids stay distinct. */
  lemma {:induction false} AppendFound<T>(rows: seq<Row<T>>, value: T, other: int)
    requires DistinctIds(rows)
    ensures var rows' := Appended(rows, value);
      && DistinctIds(rows')
      && Ids(rows') == Ids(rows) + {NextId(rows)}
      && Find(rows', NextId(rows)) == Some(value)
      && (other != NextId(rows) ==> Find(rows', other) == Find(rows, other))
  {
    var row := Row(NextId(rows), value);
    IdsAppend(rows, row);
    AppendDistinct(rows, row);
    FindAppend(rows, row, row.id);
    FindAppend(rows, row, other);
  }

  /** Appending a row whose id is new keeps the ids distinct. */
  lemma {:induction false} AppendDistinct<T>(rows: seq<Row<T>>, row: Row<T>)
    requires DistinctIds(rows) && row.id !in Ids(rows)
    ensures DistinctIds(rows + [row])
    decreases |rows|
  {
    if rows != [] {
      assert (rows + [row])[1..] == rows[1..] + [row];
      AppendDistinct(rows[1..], row);
      IdsAppend(rows[1..], row);
    } else {
      assert [row][1..] == [];
    }
  }

  /** Looking up in a table extended at the end: the old rows come first. */
  lemma {:induction false} FindAppend<T>(rows: seq<Row<T>>, row: Row<T>, id: int)
    ensures Find(rows + [row], id) ==
      (if id in Ids(rows) then Find(rows, id) else if row.id == id then Some(row.value) else None)
    decreases |rows|
  {
    if rows != [] {
      assert (rows + [row])[1..] == rows[1..] + [row];
      FindAppend(rows[1..], row, id);
    } else {
      assert [row][1..] == [];
    }
  }

  /** After replacing the row with `id`, `id` finds the new value and every
   *  other id what it found before; the ids and their distinctness stay. */
  lemma {:induction false} ReplaceFound<T>(rows: seq<Row<T>>, id: int, value: T, other: int)
    requires DistinctIds(rows) && id in Ids(rows)
    ensures var rows' := Replace(rows, id, value);
      && DistinctIds(rows')
      && Ids(rows') == Ids(rows)
      && Find(rows', id) == Some(value)
      && (other != id ==> Find(rows', other) == Find(rows, other))
  {
    ReplaceKeepsIds(rows, id, value);
    ReplaceFinds(rows, id, value, other);
    ReplaceFinds(rows, id, value, id);
  }

  /** Replacing keeps every id in its place. */
  lemma {:induction false} ReplaceKeepsIds<T>(rows: seq<Row<T>>, id: int, value: T)
    ensures Ids(Replace(rows, id, value)) == Ids(rows)
    ensures DistinctIds(rows) ==> DistinctIds(Replace(rows, id, value))
    decreases |rows|
  {
    if rows != [] {
      ReplaceKeepsIds(rows[1..], id, value);
    }
  }

  /** What a lookup finds after replacing. */
  lemma {:induction false} ReplaceFinds<T>(rows: seq<Row<T>>, id: int, value: T, other: int)
    requires DistinctIds(rows)
    ensures Find(Replace(rows, id, value), other) ==
      (if other == id && id in Ids(rows) then Some(value) else Find(rows, other))
    decreases |rows|
  {
    if rows != [] {
      ReplaceFinds(rows[1..], id, value, other);
    }
  }

  /** Every row of the replaced table is the new row or an old one. */
  lemma {:induction false} ReplaceMembers<T>(rows: seq<Row<T>>, id: int, value: T, x: Row<T>)
    requires x in Replace(rows, id, value)
    ensures x == Row(id, value) || x in rows
    decreases |rows|
  {
    if rows != [] && x != Replace(rows, id, value)[0] {
      ReplaceMembers(rows[1..], id, value, x);
    }
  }

  /** After `deleteById(id)` the id is gone, every other id finds what it
   *  found before, and ids stay distinct. */
  lemma {:induction false} RemoveFound<T>(rows: seq<Row<T>>, id: int, other: int)
    requires DistinctIds(rows)
    ensures var rows' := Remove(rows, id);
      && DistinctIds(rows')
      && Ids(rows') == Ids(rows) - {id}
      && (other != id ==> Find(rows', other) == Find(rows, other))
    decreases |rows|
  {
    FilterKeepsDistinct(rows, OtherId(id));
    if rows != [] {
      RemoveFound(rows[1..], id, other);
      var rest := Remove(rows[1..], id);
      if rows[0].id != id {
        assert Remove(rows, id) == [rows[0]] + rest;
        assert ([rows[0]] + rest)[1..] == rest;
      } else {
        assert Remove(rows, id) == rest;
      }
    }
  }
}
