/**
  Tables as sequences of rows in scan order, and the query shapes the services
  issue against them: first row by key, filter, OFFSET/LIMIT, delete by position.
  Column constraints (NOT NULL, VARCHAR(n)) are predicates on optional cells.
*/
module Tables {
  import opened Wrappers

  /** The exceptions a service call can raise, as values. */
  datatype Failure =
    | DatabaseError      // the commit broke a NOT NULL, UNIQUE, primary-key or length constraint
    | TypeError          // `for x in None`, or `Cls(**x)` with `x` not a mapping
    | AttributeError     // `.dict()` called on a plain dict
    | ZeroDivisionError  // `skip // limit` with `limit == 0`
    | ValidationError    // a response model refused a stored row

  /** What a call on one row returns: `None` for a missing row, the record, or the exception. */
  datatype Outcome<T> = Missing | Done(value: T) | Raised(failure: Failure)

  /** A value assigned to a column: text (or NULL), or a boolean (or NULL). */
  datatype Cell = TextCell(text: Option<string>) | FlagCell(flag: Option<bool>)

  /**
    What an INSERT stores for a column with a client-side default: the ORM
    leaves a `None` attribute out of the statement, so the default applies.
  */
  function InsertDefault<T>(o: Option<T>, default: T): (r: Option<T>)
    ensures r.Some? && (o.Some? ==> r == o)
  {
    if o.Some? then o else Some(default)
  }

  /** A database timestamp, as the clock value the caller supplies. */
  type Timestamp = int

  function Min(a: int, b: int): int { if a <= b then a else b }

  /* ------------------------------------------------------------ constraints */

  /** A VARCHAR(n) cell: NULL, or at most `n` characters (strict SQL mode refuses longer text). */
  predicate FitsVarchar(cell: Option<string>, n: nat) { cell.None? || |cell.value| <= n }

  /** A NOT NULL VARCHAR(n) cell. */
  predicate RequiredVarchar(cell: Option<string>, n: nat) { cell.Some? && |cell.value| <= n }

  /** No two rows share a key: a primary key or a UNIQUE column. */
  predicate UniqueKeys<R>(rows: seq<R>, key: R -> string)
  {
    forall i, j :: 0 <= i < |rows| && 0 <= j < |rows| && i != j ==> key(rows[i]) != key(rows[j])
  }

  /** The key `k` is not used by any row. */
  predicate KeyFree<R>(rows: seq<R>, key: R -> string, k: string)
  {
    forall i :: 0 <= i < |rows| ==> key(rows[i]) != k
  }

  /* ---------------------------------------------------------------- queries */

  /** Position of the first row whose key is `k`: `query.filter(key == k).first()`. */
  function Find<R>(rows: seq<R>, key: R -> string, k: string): (r: Option<nat>)
    ensures r.Some? ==> r.value < |rows| && key(rows[r.value]) == k
    ensures r.Some? ==> forall i :: 0 <= i < r.value ==> key(rows[i]) != k
    ensures r.None? <==> KeyFree(rows, key, k)
    decreases |rows|
  {
    if rows == [] then None
    else if key(rows[0]) == k then Some(0)
    else
      match Find(rows[1..], key, k)
      case None => None
      case Some(i) => Some(i + 1)
  }

  /** The rows satisfying `p`, in scan order: `query.filter(p).all()`. */
  function Select<R(!new)>(rows: seq<R>, p: R -> bool): (r: seq<R>)
    ensures |r| <= |rows|
    ensures forall x :: x in r <==> x in rows && p(x)
    decreases |rows|
  {
    if rows == [] then []
    else (if p(rows[0]) then [rows[0]] else []) + Select(rows[1..], p)
  }

  /** `OFFSET skip LIMIT limit`: at most `limit` consecutive rows starting at `skip`. */
  function Window<R>(rows: seq<R>, skip: nat, limit: nat): (w: seq<R>)
    ensures |w| <= limit
    ensures |w| == if skip >= |rows| then 0 else Min(limit, |rows| - skip)
    ensures forall k :: 0 <= k < |w| ==> skip + k < |rows| && w[k] == rows[skip + k]
  {
    if skip >= |rows| then [] else rows[skip..skip + Min(limit, |rows| - skip)]
  }

  /** `[f(x) for x in rows]` where `f` may raise: the first failure is the failure of the whole list. */
  function MapAll<R, V, E>(rows: seq<R>, f: R -> Result<V, E>): (r: Result<seq<V>, E>)
    ensures r.Ok? <==> forall k :: 0 <= k < |rows| ==> f(rows[k]).Ok?
    ensures r.Ok? ==> |r.value| == |rows| && forall k :: 0 <= k < |rows| ==> f(rows[k]) == Ok(r.value[k])
    ensures r.Err? ==> exists k :: 0 <= k < |rows| && f(rows[k]) == Err(r.error)
    decreases |rows|
  {
    if rows == [] then Ok([])
    else
      match (f(rows[0]), MapAll(rows[1..], f))
      case (Ok(x), Ok(xs)) => Ok([x] + xs)
      case (Err(e), _) => Err(e)
      case (_, Err(e)) => assert rows[1..][0] == rows[1]; Err(e)
  }

  /** The table after deleting the row at `i`; the others keep their order. */
  function Without<R>(rows: seq<R>, i: nat): (r: seq<R>)
    requires i < |rows|
    ensures |r| == |rows| - 1
    ensures forall k :: 0 <= k < i ==> r[k] == rows[k]
    ensures forall k :: i <= k < |r| ==> r[k] == rows[k + 1]
  {
    rows[..i] + rows[i + 1..]
  }

  /* ----------------------------------------------------------------- lemmas */

  /** On a table with unique keys, the row found for a key is the only row with it. */
  lemma FindUnique<R>(rows: seq<R>, key: R -> string, i: nat)
    requires UniqueKeys(rows, key) && i < |rows|
    ensures Find(rows, key, key(rows[i])) == Some(i)
  {
  }

  /** Deleting a row keeps keys unique, drops exactly that row's key, and keeps every other row. */
  lemma WithoutRemovesOnlyThatRow<R>(rows: seq<R>, key: R -> string, i: nat)
    requires UniqueKeys(rows, key) && i < |rows|
    ensures UniqueKeys(Without(rows, i), key)
    ensures KeyFree(Without(rows, i), key, key(rows[i]))
    ensures forall x :: x in Without(rows, i) <==> x in rows && key(x) != key(rows[i])
  {
    var r := Without(rows, i);
    forall a, b | 0 <= a < |r| && 0 <= b < |r| && a != b
      ensures key(r[a]) != key(r[b])
    {
      var a' := if a < i then a else a + 1;
      var b' := if b < i then b else b + 1;
      assert r[a] == rows[a'] && r[b] == rows[b'];
    }
    forall k | 0 <= k < |r|
      ensures key(r[k]) != key(rows[i])
    {
      var k' := if k < i then k else k + 1;
      assert r[k] == rows[k'];
    }
    forall x
      ensures x in r <==> x in rows && key(x) != key(rows[i])
    {
      if x in rows && key(x) != key(rows[i]) {
        var k :| 0 <= k < |rows| && rows[k] == x;
        assert k != i;
        if k < i {
          assert r[k] == x;
        } else {
          assert r[k - 1] == x;
        }
      }
    }
  }

  /** Two adjacent windows read the same rows as one window spanning both. */
  lemma {:induction false} WindowsTile<R>(rows: seq<R>, skip: nat, a: nat, b: nat)
    ensures Window(rows, skip, a) + Window(rows, skip + a, b) == Window(rows, skip, a + b)
  {
    var left := Window(rows, skip, a);
    var right := Window(rows, skip + a, b);
    var whole := Window(rows, skip, a + b);
    if skip + a < |rows| {
      assert |left| == a;
      forall k | 0 <= k < |whole|
        ensures (left + right)[k] == whole[k]
      {
        if k >= a {
          assert (left + right)[k] == right[k - a];
        }
      }
    }
  }

  /** Mapping two runs one after the other maps their concatenation. */
  lemma {:induction false} MapAllAppend<R, V, E>(a: seq<R>, b: seq<R>, f: R -> Result<V, E>)
    requires MapAll(a, f).Ok? && MapAll(b, f).Ok?
    ensures MapAll(a + b, f) == Ok(MapAll(a, f).value + MapAll(b, f).value)
  {
    var xs := MapAll(a, f).value;
    var ys := MapAll(b, f).value;
    var whole := MapAll(a + b, f);
    forall k | 0 <= k < |a + b| ensures f((a + b)[k]) == Ok((xs + ys)[k]) {
      if k < |a| {
        assert (a + b)[k] == a[k];
      } else {
        assert (a + b)[k] == b[k - |a|];
      }
    }
    assert whole.Ok?;
    assert whole.value == xs + ys;
  }

  /** The mapped rows before `skip` followed by the mapped window at `skip` are the mapped rows before `skip + size`. */
  lemma MapAllWindowsTile<R, V, E>(rows: seq<R>, skip: nat, size: nat, end: nat, earlier: seq<V>, page: seq<V>, f: R -> Result<V, E>)
    requires end == skip + size
    requires MapAll(Window(rows, 0, skip), f) == Ok(earlier) && MapAll(Window(rows, skip, size), f) == Ok(page)
    ensures MapAll(Window(rows, 0, end), f) == Ok(earlier + page)
  {
    WindowsTile(rows, 0, skip, size);
    MapAllAppend(Window(rows, 0, skip), Window(rows, skip, size), f);
  }

  /** The pages one after another. */
  function Concat<V>(pages: seq<seq<V>>): seq<V>
    decreases |pages|
  {
    if pages == [] then [] else Concat(pages[..|pages| - 1]) + pages[|pages| - 1]
  }

  /** Page `n - 1` ends where the first `n` pages end. */
  lemma NextPageEnd(n: nat, size: nat)
    requires n >= 1
    ensures (n - 1) * size + size == n * size
  {
  }

  /** Mapped pages `0 .. n-1` of `size` rows each, concatenated, are the mapped first `n * size` rows. */
  lemma {:induction false} MapAllPagesPrefix<R, V, E>(rows: seq<R>, size: nat, pages: seq<seq<V>>, f: R -> Result<V, E>)
    requires forall p :: 0 <= p < |pages| ==> MapAll(Window(rows, p * size, size), f) == Ok(pages[p])
    ensures MapAll(Window(rows, 0, |pages| * size), f) == Ok(Concat(pages))
    decreases |pages|
  {
    if pages != [] {
      var n := |pages|;
      var init := pages[..n - 1];
      forall p | 0 <= p < |init| ensures MapAll(Window(rows, p * size, size), f) == Ok(init[p]) {
        assert init[p] == pages[p];
      }
      MapAllPagesPrefix(rows, size, init, f);
      NextPageEnd(n, size);
      MapAllWindowsTile(rows, (n - 1) * size, size, n * size, Concat(init), pages[n - 1], f);
    }
  }

  /** Pages `0 .. n-1` of `size` rows each, concatenated. */
  function Pages<R>(rows: seq<R>, size: nat, n: nat): seq<R>
    decreases n
  {
    if n == 0 then [] else Pages(rows, size, n - 1) + Window(rows, (n - 1) * size, size)
  }

  /** Reading pages one after another neither skips nor repeats a row. */
  lemma {:induction false} PagesReadPrefix<R>(rows: seq<R>, size: nat, n: nat)
    ensures Pages(rows, size, n) == Window(rows, 0, n * size)
    decreases n
  {
    if n > 0 {
      PagesReadPrefix(rows, size, n - 1);
      assert (n - 1) * size + size == n * size;
      WindowsTile(rows, 0, (n - 1) * size, size);
    }
  }
}
