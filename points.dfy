/**
 The point store's values: a point `{i, x, y}` with an integer id and data
 coordinates, the rule that hands out ids, removal by id (an array
 `filter`), the table projection and the initial store.
 */
module Points {

  /** One dot: its id `i` and its data-space coordinates `x`, `y`. */
  datatype Point = Point(i: int, x: real, y: real)

  /** The number of dots drawn at start-up. */
  const N: nat := 10

  /** The store's invariant: no two points share an id. */
  predicate IdsDistinct(ps: seq<Point>)
  {
    forall a, b :: 0 <= a < b < |ps| ==> ps[a].i != ps[b].i
  }

  /** Some point of `ps` has id `i`. */
  predicate HasId(ps: seq<Point>, i: int)
  {
    exists k :: 0 <= k < |ps| && ps[k].i == i
  }

  /** The largest id in a non-empty store (`Math.max` over the ids). */
  function MaxId(ps: seq<Point>): (m: int)
    requires ps != []
    ensures HasId(ps, m)
    ensures forall k :: 0 <= k < |ps| ==> ps[k].i <= m
  {
    if |ps| == 1 then ps[0].i
    else
      var rest := MaxId(ps[1..]);
      assert forall k :: 1 <= k < |ps| ==> ps[k] == ps[1..][k - 1];
      if ps[0].i >= rest then ps[0].i
      else
        var j :| 0 <= j < |ps[1..]| && ps[1..][j].i == rest;
        assert ps[j + 1].i == rest;
        rest
  }

  /** The id `conjure` gives a new point: one past the largest id, or 1 in an empty store. */
  function NextId(ps: seq<Point>): (r: int)
    ensures forall k :: 0 <= k < |ps| ==> ps[k].i < r
    ensures ps == [] ==> r == 1
    ensures ps != [] ==> HasId(ps, r - 1)
  {
    if |ps| > 0 then MaxId(ps) + 1 else 1
  }

  /** `ps.filter(z => z.i !== i)`: the points whose id is not `i`, in their order. */
  function Remove(ps: seq<Point>, i: int): (r: seq<Point>)
    ensures |r| <= |ps|
    ensures forall k :: 0 <= k < |r| ==> r[k].i != i
  {
    if ps == [] then []
    else (if ps[0].i != i then [ps[0]] else []) + Remove(ps[1..], i)
  }

  /** The filter keeps exactly the points whose id differs from `i`. */
  lemma {:induction false} RemoveMembers(ps: seq<Point>, i: int)
    ensures forall p :: p in Remove(ps, i) <==> p in ps && p.i != i
  {
    if ps != [] {
      RemoveMembers(ps[1..], i);
      assert ps == [ps[0]] + ps[1..];
    }
  }

  /** Filtering distributes over concatenation, so it keeps the survivors' relative order. */
  lemma {:induction false} RemoveAppend(a: seq<Point>, b: seq<Point>, i: int)
    ensures Remove(a + b, i) == Remove(a, i) + Remove(b, i)
  {
    if a == [] {
      assert a + b == b;
    } else {
      assert (a + b)[0] == a[0];
      assert (a + b)[1..] == a[1..] + b;
      RemoveAppend(a[1..], b, i);
    }
  }

  /** Removing an id that no point has leaves the store as it was. */
  lemma {:induction false} RemoveAbsent(ps: seq<Point>, i: int)
    requires !HasId(ps, i)
    ensures Remove(ps, i) == ps
  {
    if ps != [] {
      assert !HasId(ps[1..], i) by {
        forall k | 0 <= k < |ps[1..]| ensures ps[1..][k].i != i {
          assert ps[1..][k] == ps[k + 1];
        }
      }
      RemoveAbsent(ps[1..], i);
      assert ps == [ps[0]] + ps[1..];
    }
  }

  /** In a store with distinct ids, no point before or after the k-th one shares its id. */
  lemma IdOnlyAt(ps: seq<Point>, k: nat)
    requires IdsDistinct(ps) && k < |ps|
    ensures !HasId(ps[..k], ps[k].i) && !HasId(ps[k + 1..], ps[k].i)
  {
    var pre, post := ps[..k], ps[k + 1..];
    forall j | 0 <= j < |pre| ensures pre[j].i != ps[k].i {
      assert pre[j] == ps[j];
    }
    forall j | 0 <= j < |post| ensures post[j].i != ps[k].i {
      assert post[j] == ps[k + 1 + j];
    }
  }

  /** Removing the id of a point that no other point shares takes out exactly that point. */
  lemma RemoveOnly(pre: seq<Point>, p: Point, post: seq<Point>)
    requires !HasId(pre, p.i) && !HasId(post, p.i)
    ensures Remove(pre + [p] + post, p.i) == pre + post
  {
    assert Remove([p], p.i) == [] by {
      assert [p][1..] == [];
    }
    RemoveAppend(pre + [p], post, p.i);
    RemoveAppend(pre, [p], p.i);
    RemoveAbsent(pre, p.i);
    RemoveAbsent(post, p.i);
  }

  /** In a store with distinct ids, removing the id of the k-th point removes exactly that point. */
  lemma RemoveUnique(ps: seq<Point>, k: nat)
    requires IdsDistinct(ps) && k < |ps|
    ensures Remove(ps, ps[k].i) == ps[..k] + ps[k + 1..]
    ensures |Remove(ps, ps[k].i)| == |ps| - 1
  {
    IdOnlyAt(ps, k);
    assert ps == ps[..k] + [ps[k]] + ps[k + 1..];
    RemoveOnly(ps[..k], ps[k], ps[k + 1..]);
  }

  /** Removal never breaks id distinctness. */
  lemma {:induction false} RemoveKeepsDistinct(ps: seq<Point>, i: int)
    requires IdsDistinct(ps)
    ensures IdsDistinct(Remove(ps, i))
  {
    if ps != [] {
      var tail := ps[1..];
      assert IdsDistinct(tail) by {
        forall a, b | 0 <= a < b < |tail| ensures tail[a].i != tail[b].i {
          assert tail[a] == ps[a + 1] && tail[b] == ps[b + 1];
        }
      }
      RemoveKeepsDistinct(tail, i);
      if ps[0].i != i {
        var r := Remove(tail, i);
        RemoveMembers(tail, i);
        forall q | q in r ensures q.i != ps[0].i {
          var j :| 0 <= j < |tail| && tail[j] == q;
          assert tail[j] == ps[j + 1];
        }
        var s := [ps[0]] + r;
        forall a, b | 0 <= a < b < |s| ensures s[a].i != s[b].i {
          assert s[b] == r[b - 1];
          if a > 0 {
            assert s[a] == r[a - 1];
          } else {
            assert r[b - 1] in r;
          }
        }
      }
    }
  }

  /** Appending a point with the id `conjure` hands out keeps ids distinct. */
  lemma ConjureKeepsDistinct(ps: seq<Point>, x: real, y: real)
    requires IdsDistinct(ps)
    ensures IdsDistinct(ps + [Point(NextId(ps), x, y)])
  {
    var s := ps + [Point(NextId(ps), x, y)];
    forall a, b | 0 <= a < b < |s| ensures s[a].i != s[b].i {
      assert s[a] == ps[a];
    }
  }

  /** Moving the k-th point keeps its id, so ids stay distinct. */
  lemma MoveKeepsDistinct(ps: seq<Point>, k: nat, x: real, y: real)
    requires IdsDistinct(ps) && k < |ps|
    ensures IdsDistinct(ps[k := Point(ps[k].i, x, y)])
  {
  }

  /** One table row: id, x and y, the numbers shown in the three cells. */
  function Row(p: Point): (r: seq<real>)
  {
    [p.i as real, p.x, p.y]
  }

  /** `points.map(d => [d.i, d.x, d.y])`: the table, one row per point in store order. */
  function Rows(ps: seq<Point>): (r: seq<seq<real>>)
    ensures |r| == |ps|
    ensures forall k :: 0 <= k < |ps| ==> |r[k]| == 3
    ensures forall k :: 0 <= k < |ps| ==>
              r[k][0] == ps[k].i as real && r[k][1] == ps[k].x && r[k][2] == ps[k].y
  {
    if ps == [] then [] else [Row(ps[0])] + Rows(ps[1..])
  }

  /** The table shows the store faithfully: two stores with the same table are equal. */
  lemma RowsDetermineStore(ps: seq<Point>, qs: seq<Point>)
    requires Rows(ps) == Rows(qs)
    ensures ps == qs
  {
    forall k | 0 <= k < |ps| ensures ps[k] == qs[k] {
      assert Rows(ps)[k] == Rows(qs)[k];
      assert (ps[k].i as real).Floor == ps[k].i;
    }
  }

  /**
   The store at start-up: N points with ids 1..N in order, x evenly spaced
   and centred in (0,1), and y taken from `ys` (the values `Math.random()`
   returned, each in [0,1)).
   */
  function InitialPoints(ys: seq<real>): (r: seq<Point>)
    requires |ys| == N
    requires forall k :: 0 <= k < |ys| ==> 0.0 <= ys[k] < 1.0
    ensures |r| == N && IdsDistinct(r)
    ensures forall k :: 0 <= k < N ==> r[k].i == k + 1
    ensures forall k :: 0 <= k < N ==> 0.0 < r[k].x < 1.0 && 0.0 <= r[k].y < 1.0 && r[k].y == ys[k]
    ensures forall a, b :: 0 <= a < b < N ==> r[a].x < r[b].x
    ensures forall k :: 0 <= k < N - 1 ==> r[k + 1].x - r[k].x == 1.0 / N as real
    ensures forall k :: 0 <= k < N ==> r[k].x + r[N - 1 - k].x == 1.0
  {
    seq(N, k requires 0 <= k < N => Point(k + 1, (k as real + 0.5) / N as real, ys[k]))
  }

  /**
   Ids are reused: after the point with the largest id is destroyed from the
   initial store, the next conjured point receives that same id again.
   */
  lemma InitialIdReuse(ys: seq<real>)
    requires |ys| == N
    requires forall k :: 0 <= k < |ys| ==> 0.0 <= ys[k] < 1.0
    ensures NextId(Remove(InitialPoints(ys), N)) == N
  {
    var ps := InitialPoints(ys);
    RemoveUnique(ps, N - 1);
    var rest := Remove(ps, N);
    assert rest == ps[..N - 1];
    assert rest[N - 2].i == N - 1;
  }
}
