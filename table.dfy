/** The hosted table store, reduced to what the handlers use: rows with a
    store-assigned id, equality selects, `.maybeSingle()`, multi-row insert,
    update and delete by id. Failures of the store are inputs of the handlers. */
module Table {

  type Id = nat

  datatype Option<T> = None | Some(value: T)

  /** A stored row: the id the store assigned and the columns the client wrote. */
  datatype Row<T> = Row(id: Id, cols: T)

  /** What `.maybeSingle()` yields: the one matching row, no row, or an error
      (a transport error, or more than one matching row). */
  datatype Lookup<T> = Found(row: T) | Absent | Failed

  /** `Array.prototype.filter`: the elements satisfying `p`, in their order. */
  function Where<T>(s: seq<T>, p: T -> bool): (r: seq<T>)
    ensures |r| <= |s|
    ensures forall i :: 0 <= i < |r| ==> r[i] in s && p(r[i])
    ensures forall i :: 0 <= i < |s| && p(s[i]) ==> s[i] in r
  {
    if s == [] then [] else (if p(s[0]) then [s[0]] else []) + Where(s[1..], p)
  }

  /** Filtering a concatenation filters each part. */
  lemma {:induction false} WhereAppend<T>(s: seq<T>, t: seq<T>, p: T -> bool)
    ensures Where(s + t, p) == Where(s, p) + Where(t, p)
  {
    if s != [] {
      var st := s + t;
      assert st[0] == s[0] && st[1..] == s[1..] + t;
      var head := if p(s[0]) then [s[0]] else [];
      calc {
        Where(st, p);
        head + Where(s[1..] + t, p);
        { WhereAppend(s[1..], t, p); }
        head + (Where(s[1..], p) + Where(t, p));
        Where(s, p) + Where(t, p);
      }
    } else {
      assert s + t == t;
    }
  }

  /** Filtering by a predicate every element satisfies keeps everything. */
  lemma {:induction false} WhereAll<T>(s: seq<T>, p: T -> bool)
    requires forall i :: 0 <= i < |s| ==> p(s[i])
    ensures Where(s, p) == s
  {
    if s != [] {
      WhereAll(s[1..], p);
      assert [s[0]] + s[1..] == s;
    }
  }

  /** `.update(f)` with an equality filter `p` on a table without ids: every selected
      element is rewritten in place, the others stay. */
  function Patch<T>(s: seq<T>, p: T -> bool, f: T -> T): (r: seq<T>)
    ensures |r| == |s|
    ensures forall i :: 0 <= i < |s| && p(s[i]) ==> r[i] == f(s[i])
    ensures forall i :: 0 <= i < |s| && !p(s[i]) ==> r[i] == s[i]
  {
    seq(|s|, i requires 0 <= i < |s| => if p(s[i]) then f(s[i]) else s[i])
  }

  /** A patch that keeps every selected element selected leaves the count unchanged. */
  lemma {:induction false} PatchKeepsCount<T>(s: seq<T>, p: T -> bool, f: T -> T)
    requires forall x :: p(x) ==> p(f(x))
    ensures Count(Patch(s, p, f), p) == Count(s, p)
  {
    if s != [] {
      var r := Patch(s, p, f);
      assert r[1..] == Patch(s[1..], p, f);
      assert r == [r[0]] + r[1..];
      PatchKeepsCount(s[1..], p, f);
    }
  }

  /** Filtering depends only on the values of the predicate. */
  lemma {:induction false} WhereSame<T>(s: seq<T>, p: T -> bool, q: T -> bool)
    requires forall i :: 0 <= i < |s| ==> p(s[i]) == q(s[i])
    ensures Where(s, p) == Where(s, q)
  {
    if s != [] {
      WhereSame(s[1..], p, q);
    }
  }

  /** Filtering by a predicate no element satisfies keeps nothing. */
  lemma {:induction false} WhereNone<T>(s: seq<T>, p: T -> bool)
    requires forall i :: 0 <= i < |s| ==> !p(s[i])
    ensures Where(s, p) == []
  {
    if s != [] {
      WhereNone(s[1..], p);
    }
  }

  /** No two elements share a key. */
  predicate UniqueBy<T, K(==)>(s: seq<T>, key: T -> K) {
    forall i, j :: 0 <= i < j < |s| ==> key(s[i]) != key(s[j])
  }

  /** When keys are distinct and `p` selects one key, at most one element is selected. */
  lemma {:induction false} AtMostOneByKey<T, K>(s: seq<T>, key: T -> K, p: T -> bool, k: K)
    requires UniqueBy(s, key)
    requires forall x :: p(x) ==> key(x) == k
    ensures |Where(s, p)| <= 1
  {
    if s != [] {
      var rest := s[1..];
      assert UniqueBy(rest, key) by {
        forall i, j | 0 <= i < j < |rest| ensures key(rest[i]) != key(rest[j]) {
          assert rest[i] == s[i + 1] && rest[j] == s[j + 1];
        }
      }
      AtMostOneByKey(rest, key, p, k);
      if p(s[0]) {
        forall j | 0 <= j < |rest| ensures !p(rest[j]) {
          assert rest[j] == s[j + 1];
        }
        WhereNone(rest, p);
      }
    }
  }

  /** `.filter(p).length`. */
  function Count<T>(s: seq<T>, p: T -> bool): (n: nat)
    ensures n <= |s|
  {
    |Where(s, p)|
  }

  /** Every element either satisfies `p` or does not: the two counts add up to the length. */
  lemma {:induction false} CountComplement<T>(s: seq<T>, p: T -> bool, q: T -> bool)
    requires forall x :: q(x) == !p(x)
    ensures Count(s, p) + Count(s, q) == |s|
  {
    if s != [] {
      CountComplement(s[1..], p, q);
    }
  }

  /** Counting by a predicate that splits into two exclusive cases adds the two counts. */
  lemma {:induction false} CountSplit<T>(s: seq<T>, p: T -> bool, q: T -> bool, r: T -> bool)
    requires forall x :: p(x) == (q(x) || r(x))
    requires forall x :: !(q(x) && r(x))
    ensures Count(s, p) == Count(s, q) + Count(s, r)
  {
    if s != [] {
      CountSplit(s[1..], p, q, r);
    }
  }

  /** Counting is monotone in the predicate. */
  lemma {:induction false} CountMono<T>(s: seq<T>, p: T -> bool, q: T -> bool)
    requires forall x :: p(x) ==> q(x)
    ensures Count(s, p) <= Count(s, q)
  {
    if s != [] {
      CountMono(s[1..], p, q);
    }
  }

  /** `.maybeSingle()` over the rows selected by `p`; `failed` is a transport error. */
  function MaybeSingle<T>(s: seq<T>, p: T -> bool, failed: bool): (r: Lookup<T>)
    ensures r.Failed? <==> failed || |Where(s, p)| > 1
    ensures r.Absent? <==> !failed && forall i :: 0 <= i < |s| ==> !p(s[i])
    ensures r.Found? ==> !failed && Where(s, p) == [r.row] && r.row in s && p(r.row)
  {
    if failed then Failed
    else
      var m := Where(s, p);
      if |m| == 0 then
        Absent
      else if |m| == 1 then
        assert m[0] in m;
        Found(m[0])
      else
        assert m[0] in m;
        Failed
  }

  /** When at most one row can match, `.maybeSingle()` finds a row exactly when one exists. */
  lemma MaybeSingleUnique<T>(s: seq<T>, p: T -> bool, x: T)
    requires x in s && p(x)
    requires forall y :: y in s && p(y) ==> y == x
    requires Count(s, p) <= 1
    ensures MaybeSingle(s, p, false) == Found(x)
  {
    var m := Where(s, p);
    assert x in m;
    assert m[0] in m;
  }

  predicate UniqueIds<T>(t: seq<Row<T>>) {
    forall i, j :: 0 <= i < j < |t| ==> t[i].id != t[j].id
  }

  /** An id above every id in use. */
  function NextId<T>(t: seq<Row<T>>): (n: Id)
    ensures forall i :: 0 <= i < |t| ==> t[i].id < n
  {
    if t == [] then 0
    else
      var m := NextId(t[1..]);
      if t[0].id < m then m else t[0].id + 1
  }

  /** `.insert(items)`: one new row per item, in order, each with a fresh id. */
  function Insert<T>(t: seq<Row<T>>, items: seq<T>): (r: seq<Row<T>>)
    ensures |r| == |t| + |items| && r[..|t|] == t
    ensures forall i :: |t| <= i < |r| ==> r[i].cols == items[i - |t|]
    ensures forall i :: |t| <= i < |r| ==> r[i].id >= NextId(t)
    ensures forall i, j :: |t| <= i < j < |r| ==> r[i].id < r[j].id
  {
    var n := NextId(t);
    var added := seq(|items|, k requires 0 <= k < |items| => Row(n + k, items[k]));
    var r := t + added;
    assert forall i :: |t| <= i < |r| ==> r[i] == added[i - |t|];
    r
  }

  /** Inserting keeps the ids distinct. */
  lemma InsertKeepsIdsUnique<T>(t: seq<Row<T>>, items: seq<T>)
    requires UniqueIds(t)
    ensures UniqueIds(Insert(t, items))
  {
    var r := Insert(t, items);
    forall i, j | 0 <= i < j < |r| ensures r[i].id != r[j].id {
      if j >= |t| {
        if i < |t| {
          assert r[i] == t[i];
          assert t[i].id < NextId(t);
        } else {
        }
      } else {
        assert r[i] == t[i] && r[j] == t[j];
      }
    }
  }

  /** The columns of the rows. */
  function Cols<T>(t: seq<Row<T>>): (r: seq<T>)
    ensures |r| == |t| && forall i :: 0 <= i < |t| ==> r[i] == t[i].cols
  {
    seq(|t|, i requires 0 <= i < |t| => t[i].cols)
  }

  /** The rows an insert adds carry exactly the items, in order. */
  lemma InsertAdds<T>(t: seq<Row<T>>, items: seq<T>)
    ensures Cols(Insert(t, items)) == Cols(t) + items
  {
  }

  /** `.update(patch).eq('id', id)`: every row with that id gets `patch` applied; no other row changes. */
  function UpdateById<T>(t: seq<Row<T>>, id: Id, patch: T -> T): (r: seq<Row<T>>)
    ensures |r| == |t|
    ensures forall i :: 0 <= i < |t| ==> r[i].id == t[i].id
    ensures forall i :: 0 <= i < |t| && t[i].id != id ==> r[i] == t[i]
    ensures forall i :: 0 <= i < |t| && t[i].id == id ==> r[i].cols == patch(t[i].cols)
  {
    seq(|t|, i requires 0 <= i < |t| => if t[i].id == id then Row(id, patch(t[i].cols)) else t[i])
  }

  /** An update leaves the ids, and so their distinctness, as they were. */
  lemma UpdateKeepsIdsUnique<T>(t: seq<Row<T>>, id: Id, patch: T -> T)
    requires UniqueIds(t)
    ensures UniqueIds(UpdateById(t, id, patch))
  {
  }

  /** Updating an id no row has changes nothing. */
  lemma UpdateMissingId<T>(t: seq<Row<T>>, id: Id, patch: T -> T)
    requires forall i :: 0 <= i < |t| ==> t[i].id != id
    ensures UpdateById(t, id, patch) == t
  {
  }

  /** With distinct ids, updating the row at `k` moves it out of `p` when the patch does:
      the count drops by exactly one. */
  lemma {:induction false} CountUpdateOne<T>(t: seq<Row<T>>, id: Id, patch: T -> T, p: Row<T> -> bool, k: nat)
    requires UniqueIds(t) && k < |t| && t[k].id == id
    requires p(t[k]) && !p(Row(id, patch(t[k].cols)))
    ensures Count(UpdateById(t, id, patch), p) + 1 == Count(t, p)
    decreases |t|
  {
    var u := UpdateById(t, id, patch);
    var tail := t[1..];
    assert u[1..] == UpdateById(tail, id, patch);
    assert UniqueIds(tail) by {
      forall i, j | 0 <= i < j < |tail| ensures tail[i].id != tail[j].id {
        assert tail[i] == t[i + 1] && tail[j] == t[j + 1];
      }
    }
    assert u == [u[0]] + u[1..];
    if k == 0 {
      forall j | 0 <= j < |tail| ensures tail[j].id != id {
        assert tail[j] == t[j + 1];
      }
      UpdateMissingId(tail, id, patch);
      assert u[0] == Row(id, patch(t[0].cols));
    } else {
      assert t[0].id != id;
      assert tail[k - 1] == t[k];
      CountUpdateOne(tail, id, patch, p, k - 1);
    }
  }

  /** `.delete().eq('id', id)`: the rows with another id, in order. */
  function DeleteById<T>(t: seq<Row<T>>, id: Id): (r: seq<Row<T>>)
    ensures forall i :: 0 <= i < |r| ==> r[i] in t && r[i].id != id
    ensures forall i :: 0 <= i < |t| && t[i].id != id ==> t[i] in r
  {
    Where(t, (x: Row<T>) => x.id != id)
  }

  /** A delete keeps the surviving rows in their order and number: it works row by row,
      dropping a row exactly when it has the id, and distributes over concatenation. */
  lemma DeleteByIdKeepsOrder<T>(a: seq<Row<T>>, b: seq<Row<T>>, x: Row<T>, id: Id)
    ensures DeleteById(a + b, id) == DeleteById(a, id) + DeleteById(b, id)
    ensures DeleteById([x], id) == if x.id == id then [] else [x]
  {
    WhereAppend(a, b, (y: Row<T>) => y.id != id);
    assert [x][1..] == [];
  }

  /** Deleting an id no row has changes nothing, so deleting twice is deleting once. */
  lemma {:induction false} DeleteMissingId<T>(t: seq<Row<T>>, id: Id)
    requires forall i :: 0 <= i < |t| ==> t[i].id != id
    ensures DeleteById(t, id) == t
  {
    if t != [] {
      DeleteMissingId(t[1..], id);
    }
  }

  lemma DeleteIdempotent<T>(t: seq<Row<T>>, id: Id)
    ensures DeleteById(DeleteById(t, id), id) == DeleteById(t, id)
  {
    var d := DeleteById(t, id);
    assert forall i :: 0 <= i < |d| ==> d[i] in d;
    DeleteMissingId(d, id);
  }

  /** `.limit(n)` over rows already in the store's order. */
  function Take<T>(s: seq<T>, n: nat): (r: seq<T>)
    ensures |r| <= n && |r| <= |s|
    ensures r == s[..|r|]
    ensures |s| <= n ==> r == s
  {
    if |s| <= n then s else s[..n]
  }
}
