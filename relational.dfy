/**
 * A relational table as the hosted Postgres database keeps it: rows by primary key and the
 * identity counter that hands out the next key.  The functions here say what one request does
 * to one table; the Store module puts seven such tables together.
 */
module Relational {
  import opened Wrappers

  /** Whether a store request got an answer (`Up`) or failed in transport (`Down`). */
  datatype Link = Up | Down

  datatype StoreError =
    | Unreachable           // the request got no answer
    | InvalidNumber         // a non-integer given for an integer column or filter
    | NotNullViolation      // an explicit null in a NOT NULL column
    | UniqueViolation       // the primary key is already taken
    | ForeignKeyViolation   // a referenced row is missing, or a deleted row is still referenced
    | NotSingle             // `single()` saw zero rows or several

  datatype Result<T> = Ok(value: T) | Err(error: StoreError)

  datatype Table<R> = Table(rows: map<int, R>, next: int)

  /** A selected row together with its primary key. */
  datatype Keyed<R> = Keyed(id: int, row: R)

  /** The integer a JavaScript number stands for in an integer column, if it is one. */
  function KeyOf(v: real): (k: Option<int>)
    ensures k.Some? <==> v.Floor as real == v
    ensures k.Some? ==> k.value as real == v
  {
    if v.Floor as real == v then Some(v.Floor) else None
  }

  /** The keys `lo`, ..., `lo + n - 1` that a request for `n` rows draws from the counter. */
  function Range(lo: int, n: nat): (r: seq<int>)
    ensures |r| == n
    ensures forall i :: 0 <= i < n ==> r[i] == lo + i
  {
    seq(n, i => lo + i)
  }

  /** None of the next `n` keys of the counter is already taken. */
  predicate IdsFree<R>(t: Table<R>, n: nat)
  {
    forall k :: t.next <= k < t.next + n ==> k !in t.rows
  }

  /** The rows `rs` placed at consecutive keys starting at `lo`. */
  function Placed<R>(lo: int, rs: seq<R>): (m: map<int, R>)
    ensures forall k :: k in m <==> lo <= k < lo + |rs|
    ensures forall i :: 0 <= i < |rs| ==> m[lo + i] == rs[i]
    decreases |rs|
  {
    if rs == [] then map[]
    else Placed(lo, rs[..|rs| - 1])[lo + |rs| - 1 := rs[|rs| - 1]]
  }

  /**
   * `INSERT` of one row whose key comes from the counter.  The key is drawn before any
   * constraint is checked, so the counter moves on even when the insert fails.
   */
  function Insert<R>(t: Table<R>, r: R, refsOk: bool): (p: (Table<R>, Result<int>))
    ensures p.0.next == t.next + 1
    ensures p.1.Ok? <==> t.next !in t.rows && refsOk
    ensures p.1.Ok? ==> p.1.value == t.next && p.0.rows == t.rows[t.next := r]
    ensures p.1.Err? ==> p.0.rows == t.rows
  {
    var drawn := t.(next := t.next + 1);
    if t.next in t.rows then (drawn, Err(UniqueViolation))
    else if !refsOk then (drawn, Err(ForeignKeyViolation))
    else (drawn.(rows := t.rows[t.next := r]), Ok(t.next))
  }

  /**
   * One `INSERT` statement of several rows: it draws `|rs|` consecutive keys and is atomic,
   * so either every row is stored or none is.
   */
  function InsertAll<R>(t: Table<R>, rs: seq<R>, refsOk: bool): (p: (Table<R>, Result<seq<int>>))
    ensures p.0.next == t.next + |rs|
    ensures p.1.Ok? <==> IdsFree(t, |rs|) && refsOk
    ensures p.1.Ok? ==> p.1.value == Range(t.next, |rs|) && p.0.rows == t.rows + Placed(t.next, rs)
    ensures p.1.Ok? ==> forall k :: k in p.0.rows <==> k in t.rows || t.next <= k < t.next + |rs|
    ensures p.1.Err? ==> p.0.rows == t.rows
  {
    var drawn := t.(next := t.next + |rs|);
    if !IdsFree(t, |rs|) then (drawn, Err(UniqueViolation))
    else if !refsOk then (drawn, Err(ForeignKeyViolation))
    else (drawn.(rows := t.rows + Placed(t.next, rs)), Ok(Range(t.next, |rs|)))
  }

  /**
   * `DELETE ... WHERE id = k`.  No matching row is not an error; a row that other rows still
   * reference is kept and the statement fails.
   */
  function Delete<R>(t: Table<R>, k: int, inUse: bool): (p: (Table<R>, Option<StoreError>))
    ensures p.0.next == t.next
    ensures p.1.None? <==> k !in t.rows || !inUse
    ensures p.1.None? ==> p.0.rows == t.rows - {k}
    ensures p.1.Some? ==> p.0.rows == t.rows
    ensures forall j :: j in t.rows && j != k ==> j in p.0.rows && p.0.rows[j] == t.rows[j]
    ensures p.0.rows.Keys <= t.rows.Keys
  {
    if k !in t.rows then (t, None)
    else if inUse then (t, Some(ForeignKeyViolation))
    else (t.(rows := t.rows - {k}), None)
  }

  /**
   * `UPDATE ... WHERE id = k` that leaves the row as `r`.  No matching row is not an error
   * and changes nothing; otherwise the new row's references are checked.
   */
  function Overwrite<R>(t: Table<R>, k: int, r: R, refsOk: bool): (p: (Table<R>, Option<StoreError>))
    ensures p.0.next == t.next
    ensures p.1.None? <==> k !in t.rows || refsOk
    ensures p.0.rows.Keys == t.rows.Keys
    ensures k in t.rows && refsOk ==> p.0.rows[k] == r
    ensures p.1.Some? ==> p.0.rows == t.rows
    ensures forall j :: j in t.rows && j != k ==> p.0.rows[j] == t.rows[j]
  {
    if k in t.rows && refsOk then (t.(rows := t.rows[k := r]), None)
    else if k in t.rows then (t, Some(ForeignKeyViolation))
    else (t, None)
  }

  /**
   * `DELETE ... WHERE id = v` as a request, where `used` holds the keys other rows reference:
   * a transport failure or a filter value that is not an integer changes nothing; otherwise
   * only the row with key `v` can go.
   */
  function DeleteRequest<R>(t: Table<R>, link: Link, v: real, used: set<int>): (p: (Table<R>, Option<StoreError>))
    ensures p.0.next == t.next
    ensures p.1.None? <==> link.Up? && KeyOf(v).Some? && (KeyOf(v).value !in t.rows || KeyOf(v).value !in used)
    ensures p.1.None? ==> p.0.rows == t.rows - {KeyOf(v).value}
    ensures p.1.Some? ==> p.0 == t
    ensures link.Down? ==> p.1 == Some(Unreachable)
    ensures link.Up? && KeyOf(v).None? ==> p.1 == Some(InvalidNumber)
    ensures link.Up? && KeyOf(v).Some? && KeyOf(v).value in t.rows && KeyOf(v).value in used
            ==> p.1 == Some(ForeignKeyViolation)
  {
    if link.Down? then (t, Some(Unreachable))
    else match KeyOf(v)
      case None => (t, Some(InvalidNumber))
      case Some(k) => Delete(t, k, k in used)
  }

  /** Deleting twice leaves the table as deleting once, and the second delete reports no error. */
  lemma DeleteIdempotent<R>(t: Table<R>, k: int, inUse: bool)
    requires Delete(t, k, inUse).1.None?
    ensures Delete(Delete(t, k, inUse).0, k, inUse) == Delete(t, k, inUse)
  {
  }

  /** What `single()` makes of the keys `ks` a query matched: exactly one row, or an error. */
  predicate SingleOutcome<R(==)>(rows: map<int, R>, ks: set<int>, r: Result<Keyed<R>>)
  {
    if |ks| == 1 then r.Ok? && ks == {r.value.id} && r.value.id in rows && r.value.row == rows[r.value.id]
    else r == Err(NotSingle)
  }

  method PickSingle<R(==)>(rows: map<int, R>, ks: set<int>) returns (r: Result<Keyed<R>>)
    requires ks <= rows.Keys
    ensures SingleOutcome(rows, ks, r)
  {
    if |ks| == 1 {
      HasElement(ks);
      var k :| k in ks;
      assert ks == {k} by {
        var rest := ks - {k};
        assert ks == rest + {k};
        assert |rest| == 0;
      }
      r := Ok(Keyed(k, rows[k]));
    } else {
      r := Err(NotSingle);
    }
  }

  /** Writing the same row twice leaves the table as writing it once. */
  lemma OverwriteIdempotent<R>(t: Table<R>, k: int, r: R)
    ensures Overwrite(Overwrite(t, k, r, true).0, k, r, true) == Overwrite(t, k, r, true)
  {
    if k in t.rows {
      assert t.rows[k := r][k := r] == t.rows[k := r];
    }
  }

  // ---------------------------------------------------------------------------------------
  // ORDER BY

  /**
   * Lexicographic order on sequences of integers: the order of an integer column (as a
   * one-element sequence) and of a text column (as its code points).
   */
  predicate LexLe(a: seq<int>, b: seq<int>)
    decreases |a|
  {
    |a| == 0 || (|b| > 0 && (a[0] < b[0] || (a[0] == b[0] && LexLe(a[1..], b[1..]))))
  }

  lemma {:induction false} LexLeTotal(a: seq<int>, b: seq<int>)
    ensures LexLe(a, b) || LexLe(b, a)
    decreases |a|
  {
    if |a| > 0 && |b| > 0 && a[0] == b[0] {
      LexLeTotal(a[1..], b[1..]);
    }
  }

  lemma {:induction false} LexLeTransitive(a: seq<int>, b: seq<int>, c: seq<int>)
    requires LexLe(a, b) && LexLe(b, c)
    ensures LexLe(a, c)
    decreases |a|
  {
    if |a| > 0 && a[0] == b[0] && b[0] == c[0] {
      LexLeTransitive(a[1..], b[1..], c[1..]);
    }
  }

  /** On one-element keys the order is the order of integers. */
  lemma LexLeSingleton(x: int, y: int)
    ensures LexLe([x], [y]) <==> x <= y
  {
    assert [x][1..] == [];
  }

  /** A text column's sort key: its code points (the byte order of the `C` collation). */
  function Codes(s: string): (r: seq<int>)
    ensures |r| == |s|
    ensures forall i :: 0 <= i < |s| ==> r[i] == s[i] as int
  {
    seq(|s|, i requires 0 <= i < |s| => s[i] as int)
  }

  ghost predicate SortedBy<R>(s: seq<Keyed<R>>, key: R -> seq<int>)
  {
    forall i, j :: 0 <= i < j < |s| ==> LexLe(key(s[i].row), key(s[j].row))
  }

  function Ids<R>(s: seq<Keyed<R>>): (r: seq<int>)
    ensures |r| == |s|
    ensures forall i :: 0 <= i < |s| ==> r[i] == s[i].id
  {
    if s == [] then [] else [s[0].id] + Ids(s[1..])
  }

  /** The keys of the rows that satisfy `keep` (a `WHERE` clause). */
  function Matching<R>(rows: map<int, R>, keep: R -> bool): (ks: set<int>)
    ensures forall k :: k in ks <==> k in rows && keep(rows[k])
  {
    set k | k in rows && keep(rows[k])
  }

  /** One step of insertion sort: `x` goes before the first element it is not above. */
  function InsertSorted<R>(s: seq<Keyed<R>>, x: Keyed<R>, key: R -> seq<int>): seq<Keyed<R>>
  {
    if s == [] then [x]
    else if LexLe(key(x.row), key(s[0].row)) then [x] + s
    else [s[0]] + InsertSorted(s[1..], x, key)
  }

  /** A row no greater than every row of a sorted list can go in front of it. */
  lemma PrependKeepsOrder<R>(y: Keyed<R>, s: seq<Keyed<R>>, key: R -> seq<int>)
    requires SortedBy(s, key)
    requires forall z :: z in s ==> LexLe(key(y.row), key(z.row))
    ensures SortedBy([y] + s, key)
  {
    var r := [y] + s;
    forall i, j | 0 <= i < j < |r|
      ensures LexLe(key(r[i].row), key(r[j].row))
    {
      assert r[j] == s[j - 1];
      if i > 0 {
        assert r[i] == s[i - 1];
      } else {
        assert r[j] in s;
      }
    }
  }

  /** The head of a sorted list bounds what inserting `x` (not below the head) into its tail gives. */
  lemma HeadBoundsTail<R>(s: seq<Keyed<R>>, x: Keyed<R>, key: R -> seq<int>)
    requires SortedBy(s, key) && s != []
    requires LexLe(key(s[0].row), key(x.row))
    ensures forall y :: y in InsertSorted(s[1..], x, key) ==> LexLe(key(s[0].row), key(y.row))
  {
    InsertSortedElements(s[1..], x, key);
    forall y | y in InsertSorted(s[1..], x, key)
      ensures LexLe(key(s[0].row), key(y.row))
    {
      assert y in multiset(InsertSorted(s[1..], x, key));
      if y != x {
        assert y in multiset(s[1..]);
        var m :| 0 <= m < |s[1..]| && s[1..][m] == y;
        assert s[m + 1] == y;
      }
    }
  }

  lemma {:induction false} InsertSortedKeepsOrder<R>(s: seq<Keyed<R>>, x: Keyed<R>, key: R -> seq<int>)
    requires SortedBy(s, key)
    ensures SortedBy(InsertSorted(s, x, key), key)
  {
    if s == [] {
    } else if LexLe(key(x.row), key(s[0].row)) {
      forall z | z in s
        ensures LexLe(key(x.row), key(z.row))
      {
        var m :| 0 <= m < |s| && s[m] == z;
        if m > 0 {
          LexLeTransitive(key(x.row), key(s[0].row), key(z.row));
        }
      }
      PrependKeepsOrder(x, s, key);
    } else {
      LexLeTotal(key(x.row), key(s[0].row));
      assert SortedBy(s[1..], key) by {
        forall i, j | 0 <= i < j < |s[1..]|
          ensures LexLe(key(s[1..][i].row), key(s[1..][j].row))
        {
          assert s[1..][i] == s[i + 1] && s[1..][j] == s[j + 1];
        }
      }
      InsertSortedKeepsOrder(s[1..], x, key);
      HeadBoundsTail(s, x, key);
      PrependKeepsOrder(s[0], InsertSorted(s[1..], x, key), key);
    }
  }

  lemma {:induction false} InsertSortedElements<R>(s: seq<Keyed<R>>, x: Keyed<R>, key: R -> seq<int>)
    ensures multiset(InsertSorted(s, x, key)) == multiset(s) + multiset{x}
  {
    var r := InsertSorted(s, x, key);
    if s == [] {
    } else if LexLe(key(x.row), key(s[0].row)) {
      assert r == [x] + s;
    } else {
      InsertSortedElements(s[1..], x, key);
      assert r == [s[0]] + InsertSorted(s[1..], x, key);
      assert s == [s[0]] + s[1..];
    }
  }

  lemma {:induction false} InsertSortedIds<R>(s: seq<Keyed<R>>, x: Keyed<R>, key: R -> seq<int>)
    ensures multiset(Ids(InsertSorted(s, x, key))) == multiset(Ids(s)) + multiset{x.id}
  {
    var r := InsertSorted(s, x, key);
    if s == [] {
    } else if LexLe(key(x.row), key(s[0].row)) {
      assert r == [x] + s;
      assert Ids(r) == [x.id] + Ids(s) by {
        assert r[1..] == s;
      }
    } else {
      var tail := InsertSorted(s[1..], x, key);
      InsertSortedIds(s[1..], x, key);
      assert r == [s[0]] + tail;
      assert Ids(r) == [s[0].id] + Ids(tail) by {
        assert r[1..] == tail;
      }
      assert Ids(s) == [s[0].id] + Ids(s[1..]);
      calc {
        multiset(Ids(r));
        multiset{s[0].id} + multiset(Ids(tail));
        multiset{s[0].id} + multiset(Ids(s[1..])) + multiset{x.id};
        multiset(Ids(s)) + multiset{x.id};
      }
    }
  }


  /** The keys among `rows` outside `todo` whose row satisfies `keep`. */
  ghost function Picked<R>(rows: map<int, R>, keep: R -> bool, todo: set<int>): set<int>
  {
    set j | j in rows && j !in todo && keep(rows[j])
  }

  lemma PickedStep<R>(rows: map<int, R>, keep: R -> bool, todo: set<int>, k: int)
    requires k in todo && k in rows
    ensures k !in Picked(rows, keep, todo)
    ensures Picked(rows, keep, todo - {k})
      == if keep(rows[k]) then Picked(rows, keep, todo) + {k} else Picked(rows, keep, todo)
  {
  }

  /** A non-empty set has an element to pick. */
  lemma HasElement(ks: set<int>)
    requires ks != {}
    ensures exists k :: k in ks
  {
    if !exists k :: k in ks {
      assert false;
    }
  }

  lemma MultisetAddFresh(a: set<int>, k: int)
    requires k !in a
    ensures multiset(a + {k}) == multiset(a) + multiset{k}
  {
  }

  /** A selection holding each matching key once has as many rows as there are matching keys. */
  lemma SelectionSize<R>(s: seq<Keyed<R>>, ks: set<int>)
    requires multiset(Ids(s)) == multiset(ks)
    ensures |s| == |ks|
  {
    assert |multiset(Ids(s))| == |Ids(s)|;
    SetMultisetSize(ks);
  }

  /** A set seen as a multiset keeps its size. */
  lemma {:induction false} SetMultisetSize(ks: set<int>)
    ensures |multiset(ks)| == |ks|
    decreases |ks|
  {
    if ks != {} {
      HasElement(ks);
      var k :| k in ks;
      SetMultisetSize(ks - {k});
      assert ks == (ks - {k}) + {k};
      MultisetAddFresh(ks - {k}, k);
    }
  }

  /** What the rows gathered so far satisfy while `todo` is still to be looked at. */
  ghost predicate Gathered<R>(rows: map<int, R>, keep: R -> bool, key: R -> seq<int>, todo: set<int>, r: seq<Keyed<R>>)
  {
    && SortedBy(r, key)
    && (forall x :: x in r ==> x.id in rows && x.row == rows[x.id] && keep(x.row))
    && multiset(Ids(r)) == multiset(Picked(rows, keep, todo))
  }

  /** Looking at key `k` keeps `Gathered`. */
  lemma GatherStep<R>(rows: map<int, R>, keep: R -> bool, key: R -> seq<int>, todo: set<int>, k: int, r: seq<Keyed<R>>)
    requires k in todo && todo <= rows.Keys
    requires Gathered(rows, keep, key, todo, r)
    ensures Gathered(rows, keep, key, todo - {k},
                     if keep(rows[k]) then InsertSorted(r, Keyed(k, rows[k]), key) else r)
  {
    PickedStep(rows, keep, todo, k);
    if keep(rows[k]) {
      var x := Keyed(k, rows[k]);
      MultisetAddFresh(Picked(rows, keep, todo), k);
      InsertSortedKeepsOrder(r, x, key);
      InsertSortedIds(r, x, key);
      InsertSortedElements(r, x, key);
      var r' := InsertSorted(r, x, key);
      forall y | y in r'
        ensures y.id in rows && y.row == rows[y.id] && keep(y.row)
      {
        assert y in multiset(r');
        assert y == x || y in r;
      }
    }
  }

  /**
   * `SELECT ... WHERE keep ORDER BY key`: every row that satisfies `keep`, each exactly once
   * and as stored, in ascending order of `key`.  Rows with equal keys come in some order.
   */
  method SelectSorted<R>(rows: map<int, R>, keep: R -> bool, key: R -> seq<int>)
    returns (r: seq<Keyed<R>>)
    ensures SortedBy(r, key)
    ensures multiset(Ids(r)) == multiset(Matching(rows, keep))
    ensures forall x :: x in r ==> x.id in rows && x.row == rows[x.id] && keep(x.row)
  {
    r := [];
    var todo := rows.Keys;
    assert Picked(rows, keep, todo) == {};
    while todo != {}
      invariant todo <= rows.Keys
      invariant Gathered(rows, keep, key, todo, r)
      decreases todo
    {
      HasElement(todo);
      var k :| k in todo;
      GatherStep(rows, keep, key, todo, k, r);
      if keep(rows[k]) {
        r := InsertSorted(r, Keyed(k, rows[k]), key);
      }
      todo := todo - {k};
    }
    assert Picked(rows, keep, todo) == Matching(rows, keep);
  }

  // ---------------------------------------------------------------------------------------
  // Read requests.  Reads change nothing, so they take the rows as a value.

  /** `select().eq("id", v).single()`: the row with key `v`, or an error when there is none. */
  method SelectById<R>(rows: map<int, R>, link: Link, v: real) returns (r: Result<Keyed<R>>)
    ensures link.Down? ==> r == Err(Unreachable)
    ensures link.Up? && KeyOf(v).None? ==> r == Err(InvalidNumber)
    ensures link.Up? && KeyOf(v).Some? ==> (r.Ok? <==> KeyOf(v).value in rows)
    ensures link.Up? && KeyOf(v).Some? && KeyOf(v).value !in rows ==> r == Err(NotSingle)
    ensures r.Ok? ==> KeyOf(v).Some? && r.value.id == KeyOf(v).value && r.value.id in rows
                      && r.value.row == rows[r.value.id]
  {
    if link.Down? {
      return Err(Unreachable);
    }
    match KeyOf(v)
    case None =>
      r := Err(InvalidNumber);
    case Some(k) =>
      r := if k in rows then Ok(Keyed(k, rows[k])) else Err(NotSingle);
  }

  /** `select()` with no filter: every row exactly once, in no particular order. */
  method SelectAll<R>(rows: map<int, R>, link: Link) returns (r: Result<seq<Keyed<R>>>)
    ensures link.Down? <==> r.Err?
    ensures link.Down? ==> r == Err(Unreachable)
    ensures r.Ok? ==> multiset(Ids(r.value)) == multiset(rows.Keys)
    ensures r.Ok? ==> forall x :: x in r.value ==> x.id in rows && x.row == rows[x.id]
  {
    if link.Down? {
      return Err(Unreachable);
    }
    var s := SelectSorted(rows, Anything, NoOrder);
    assert Matching(rows, Anything) == rows.Keys;
    r := Ok(s);
  }

  /** `select().eq(column, value)` on a non-key column, in no particular order. */
  method SelectWhere<R>(rows: map<int, R>, link: Link, keep: R -> bool) returns (r: Result<seq<Keyed<R>>>)
    ensures link.Down? <==> r.Err?
    ensures link.Down? ==> r == Err(Unreachable)
    ensures r.Ok? ==> multiset(Ids(r.value)) == multiset(Matching(rows, keep))
    ensures r.Ok? ==> forall x :: x in r.value ==> x.id in rows && x.row == rows[x.id] && keep(x.row)
  {
    if link.Down? {
      return Err(Unreachable);
    }
    var s := SelectSorted(rows, keep, NoOrder);
    r := Ok(s);
  }

  /** `select().eq(column, value).single()` on a non-key column. */
  method SelectSingleWhere<R(==)>(rows: map<int, R>, link: Link, keep: R -> bool) returns (r: Result<Keyed<R>>)
    ensures link.Down? ==> r == Err(Unreachable)
    ensures link.Up? ==> SingleOutcome(rows, Matching(rows, keep), r)
  {
    if link.Down? {
      return Err(Unreachable);
    }
    r := PickSingle(rows, Matching(rows, keep));
  }

  /** The filter of a query with no `WHERE`. */
  function Anything<R>(r: R): bool { true }

  /** The sort key of a query with no `ORDER BY`: every row ties with every other. */
  function NoOrder<R>(r: R): seq<int> { [] }
}
