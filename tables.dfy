/** What the two tables have in common: rows in a map keyed by primary key,
    keys issued from a counter, lookup by key, and the table scan with
    OFFSET/LIMIT that the listing queries run. */
module Tables {
  import opened Domain

  /** Table invariant: each row is stored under its own key, and every key
      in use is a positive number below the next one to be issued. */
  predicate WellKeyed<T>(rows: map<int, T>, nextId: int, key: T -> int)
  {
    1 <= nextId && forall k :: k in rows ==> 1 <= k < nextId && key(rows[k]) == k
  }

  /** Every key in use lies in [0, hi). */
  predicate KeysBelow<T>(rows: map<int, T>, hi: int)
  {
    forall k :: k in rows ==> 0 <= k < hi
  }

  /** `query.filter(Model.id == id).first()`: the row with that primary
      key, or none. */
  function Lookup<T(==)>(rows: map<int, T>, id: int): (r: Option<T>)
    ensures r.None? <==> id !in rows
    ensures r.Some? ==> r.value in rows.Values && r.value == rows[id]
  {
    if id in rows then Some(rows[id]) else None
  }

  /** The keys below `hi` whose rows satisfy `keep`. */
  function Matching<T>(table: map<int, T>, keep: T -> bool, hi: int): set<int>
  {
    set k | k in table && 0 <= k < hi && keep(table[k])
  }

  /** The rows with keys below `hi` that satisfy `keep`, in ascending key
      order: a table scan. The queries have no ORDER BY; the scan fixes the
      row order to the primary key's. */
  function Scan<T(==)>(table: map<int, T>, keep: T -> bool, hi: int): (r: seq<T>)
    decreases hi
    ensures forall i :: 0 <= i < |r| ==> keep(r[i])
    ensures forall i :: 0 <= i < |r| ==> r[i] in table.Values
    ensures forall k :: 0 <= k < hi && k in table && keep(table[k]) ==> table[k] in r
  {
    if hi <= 0 then []
    else
      var prefix := Scan(table, keep, hi - 1);
      if hi - 1 in table && keep(table[hi - 1]) then
        var r := prefix + [table[hi - 1]];
        assert forall i :: 0 <= i < |prefix| ==> r[i] == prefix[i];
        assert r[|prefix|] == table[hi - 1];
        r
      else
        prefix
  }

  /** The scan returns one row per matching key. */
  lemma {:induction false} ScanCount<T>(table: map<int, T>, keep: T -> bool, hi: int)
    decreases hi
    ensures |Scan(table, keep, hi)| == |Matching(table, keep, hi)|
  {
    if hi <= 0 {
      assert Matching(table, keep, hi) == {};
    } else {
      ScanCount(table, keep, hi - 1);
      var m := Matching(table, keep, hi - 1);
      if hi - 1 in table && keep(table[hi - 1]) {
        assert Matching(table, keep, hi) == m + {hi - 1};
        assert hi - 1 !in m;
      } else {
        assert Matching(table, keep, hi) == m;
      }
    }
  }

  /** No two keys hold the same row. */
  ghost predicate Injective<T>(table: map<int, T>)
  {
    forall k1, k2 :: k1 in table && k2 in table && table[k1] == table[k2] ==> k1 == k2
  }

  /** In a table in which no two keys hold the same row, a row stored at
      a key at or above the bound is not in the scan. */
  lemma {:induction false} ScanExcludesAbove<T>(table: map<int, T>, keep: T -> bool, hi: int)
    requires Injective(table)
    decreases hi
    ensures forall k :: k in table && hi <= k ==> table[k] !in Scan(table, keep, hi)
  {
    if hi > 0 {
      ScanExcludesAbove(table, keep, hi - 1);
      var prefix := Scan(table, keep, hi - 1);
      forall k | k in table && hi <= k
        ensures table[k] !in Scan(table, keep, hi)
      {
        assert table[k] !in prefix;
        if hi - 1 in table {
          assert table[k] != table[hi - 1];
        }
      }
    } else {
      assert Scan(table, keep, hi) == [];
    }
  }

  /** A scan over a table in which no two keys hold the same row lists
      each row at most once, as a query returns each row once. */
  lemma {:induction false} ScanDistinct<T>(table: map<int, T>, keep: T -> bool, hi: int)
    requires Injective(table)
    decreases hi
    ensures forall i, j :: 0 <= i < j < |Scan(table, keep, hi)| ==> Scan(table, keep, hi)[i] != Scan(table, keep, hi)[j]
  {
    if hi > 0 {
      ScanDistinct(table, keep, hi - 1);
      ScanExcludesAbove(table, keep, hi - 1);
      var prefix := Scan(table, keep, hi - 1);
      var r := Scan(table, keep, hi);
      if hi - 1 in table && keep(table[hi - 1]) {
        assert r == prefix + [table[hi - 1]];
        assert table[hi - 1] !in prefix;
        forall i, j | 0 <= i < j < |r|
          ensures r[i] != r[j]
        {
          assert r[i] == prefix[i];
          if j < |prefix| {
            assert r[j] == prefix[j];
          } else {
            assert r[j] == table[hi - 1];
          }
        }
      }
    } else {
      assert Scan(table, keep, hi) == [];
    }
  }

  /** SQL `OFFSET skip LIMIT limit` applied to a row sequence. */
  function Page<T>(s: seq<T>, skip: nat, limit: nat): (r: seq<T>)
    ensures |r| == if skip >= |s| then 0 else if |s| - skip <= limit then |s| - skip else limit
    ensures forall i :: 0 <= i < |r| ==> skip + i < |s| && r[i] == s[skip + i]
  {
    if skip >= |s| then []
    else
      var rest := s[skip..];
      if |rest| <= limit then rest else rest[..limit]
  }

  /** When every row carries its own key, a page of a scan lists each row
      at most once. */
  lemma PageOfScanDistinct<T>(table: map<int, T>, keep: T -> bool, hi: int, skip: nat, limit: nat,
                                  key: T -> int)
    ensures (forall k :: k in table ==> key(table[k]) == k) ==>
      forall i, j :: 0 <= i < j < |Page(Scan(table, keep, hi), skip, limit)| ==>
        Page(Scan(table, keep, hi), skip, limit)[i] != Page(Scan(table, keep, hi), skip, limit)[j]
  {
    if forall k :: k in table ==> key(table[k]) == k {
      assert Injective(table) by {
        forall k1, k2 | k1 in table && k2 in table && table[k1] == table[k2]
          ensures k1 == k2
        {
          assert key(table[k1]) == k1 && key(table[k2]) == k2;
        }
      }
      ScanDistinct(table, keep, hi);
    }
  }

  /** The number of rows OFFSET/LIMIT keeps out of `n`. */
  function PageSize(n: nat, skip: nat, limit: nat): nat
  {
    if skip >= n then 0 else if n - skip <= limit then n - skip else limit
  }
}
