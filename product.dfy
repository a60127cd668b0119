/** `itertools.product(*lists)`: every way of picking one entry from each
    list, the first list varying slowest and the last fastest, and the
    number of such rows. */
module Product {
  import Arith

  /** The product of a list of counts, multiplied in from the left. */
  function ProductOf(ns: seq<int>): int
  {
    if |ns| == 0 then 1 else ProductOf(ns[..|ns| - 1]) * ns[|ns| - 1]
  }

  /** The lengths of the lists, in order. */
  function Lengths<T>(lists: seq<seq<T>>): (ns: seq<int>)
    ensures |ns| == |lists| && forall j :: 0 <= j < |lists| ==> ns[j] == |lists[j]|
  {
    seq(|lists|, j requires 0 <= j < |lists| => |lists[j]|)
  }

  /** x put in front of each of the rows. */
  function Prefixed<T>(x: T, rows: seq<seq<T>>): (r: seq<seq<T>>)
    ensures |r| == |rows| && forall i :: 0 <= i < |rows| ==> r[i] == [x] + rows[i]
  {
    seq(|rows|, i requires 0 <= i < |rows| => [x] + rows[i])
  }

  /** Each entry of xs in turn, in front of each of the rows. */
  function Spread<T>(xs: seq<T>, rows: seq<seq<T>>): (r: seq<seq<T>>)
    ensures |r| == |xs| * |rows|
  {
    if |xs| == 0 then []
    else
      var r := Prefixed(xs[0], rows) + Spread(xs[1..], rows);
      Arith.MulSucc(|xs| - 1, |rows|);
      r
  }

  /** `list(itertools.product(*lists))` */
  function CartesianProduct<T>(lists: seq<seq<T>>): seq<seq<T>>
  {
    if |lists| == 0 then [[]] else Spread(lists[0], CartesianProduct(lists[1..]))
  }

  /** Multiplying in a count at the front gives the same product. */
  lemma {:induction false} ProductOfCons(a: int, ns: seq<int>)
    ensures ProductOf([a] + ns) == a * ProductOf(ns)
    decreases |ns|
  {
    var s := [a] + ns;
    if |ns| == 0 {
      assert s[..0] == [];
    } else {
      var init := ns[..|ns| - 1];
      assert s[..|s| - 1] == [a] + init;
      ProductOfCons(a, init);
      Arith.MulAssoc(a, ProductOf(init), ns[|ns| - 1]);
    }
  }

  /** There are as many rows as the product of the list lengths: one row for
      no lists at all, none as soon as one list is empty. */
  lemma {:induction false} CartesianProductSize<T>(lists: seq<seq<T>>)
    ensures |CartesianProduct(lists)| == ProductOf(Lengths(lists))
    decreases |lists|
  {
    if |lists| > 0 {
      CartesianProductSize(lists[1..]);
      assert Lengths(lists) == [|lists[0]|] + Lengths(lists[1..]);
      ProductOfCons(|lists[0]|, Lengths(lists[1..]));
    }
  }

  /** An empty list anywhere leaves no row. */
  lemma {:induction false} EmptyListNoRows<T>(lists: seq<seq<T>>, j: int)
    requires 0 <= j < |lists| && |lists[j]| == 0
    ensures CartesianProduct(lists) == []
    decreases |lists|
  {
    if j > 0 {
      EmptyListNoRows(lists[1..], j - 1);
    }
  }

  /** Row a * |rows| + b of a spread is entry a in front of row b. */
  lemma {:induction false} SpreadAt<T>(xs: seq<T>, rows: seq<seq<T>>, a: int, b: int, i: int)
    requires 0 <= a < |xs| && 0 <= b < |rows| && i == a * |rows| + b
    ensures 0 <= i < |Spread(xs, rows)|
    ensures Spread(xs, rows)[i] == [xs[a]] + rows[b]
    decreases a
  {
    Arith.MulSucc(a, |rows|);
    Arith.MulSucc(|xs| - 1, |rows|);
    if a > 0 {
      Arith.MulSucc(a - 1, |rows|);
      SpreadAt(xs[1..], rows, a - 1, b, i - |rows|);
      Arith.MulLe(a, |xs| - 1, |rows|);
    } else {
      Arith.MulLe(0, |xs| - 1, |rows|);
    }
  }

  /** i splits into a quotient below |xs| and a remainder below |rows|. */
  lemma DivModBound(i: int, x: nat, s: nat)
    requires 0 <= i < x * s
    ensures s > 0 && 0 <= i / s < x && 0 <= i % s < s && i == (i / s) * s + i % s
  {
    Arith.MulZero(x, s);
    if i / s >= x {
      Arith.MulLe(x, i / s, s);
    }
  }

  /** Row i of a spread is entry a in front of row b, where i is a * |rows| + b. */
  lemma SpreadIndex<T>(xs: seq<T>, rows: seq<seq<T>>, i: int) returns (a: int, b: int)
    requires 0 <= i < |Spread(xs, rows)|
    ensures 0 <= a < |xs| && 0 <= b < |rows| && i == a * |rows| + b
    ensures Spread(xs, rows)[i] == [xs[a]] + rows[b]
  {
    var s := |rows|;
    DivModBound(i, |xs|, s);
    a, b := i / s, i % s;
    SpreadAt(xs, rows, a, b, i);
  }

  /** Row i of the product is entry a of the first list in front of row b of
      the product of the rest, where i is a * S + b and S is that product's
      size: the first list varies slowest. */
  lemma CartesianProductAt<T>(lists: seq<seq<T>>, i: int) returns (a: int, b: int)
    requires |lists| > 0 && 0 <= i < |CartesianProduct(lists)|
    ensures var rest := CartesianProduct(lists[1..]);
      && 0 <= a < |lists[0]| && 0 <= b < |rest| && i == a * |rest| + b
      && CartesianProduct(lists)[i] == [lists[0][a]] + rest[b]
  {
    a, b := SpreadIndex(lists[0], CartesianProduct(lists[1..]), i);
  }

  /** The rows are exactly the picks of one entry from each list. */
  lemma {:induction false} CartesianProductMembers<T>(lists: seq<seq<T>>, row: seq<T>)
    ensures row in CartesianProduct(lists) <==>
      |row| == |lists| && forall j :: 0 <= j < |lists| ==> row[j] in lists[j]
    decreases |lists|
  {
    var p := CartesianProduct(lists);
    if |lists| == 0 {
      assert p == [[]];
    } else {
      var rest := CartesianProduct(lists[1..]);
      if row in p {
        var i :| 0 <= i < |p| && p[i] == row;
        var a, b := CartesianProductAt(lists, i);
        assert row[1..] == rest[b];
        CartesianProductMembers(lists[1..], row[1..]);
        forall j | 0 < j < |lists| ensures row[j] in lists[j] {
          assert row[j] == row[1..][j - 1];
        }
      }
      if |row| == |lists| && forall j :: 0 <= j < |lists| ==> row[j] in lists[j] {
        forall j | 0 <= j < |lists[1..]| ensures row[1..][j] in lists[1..][j] {
          assert row[1..][j] == row[j + 1];
        }
        CartesianProductMembers(lists[1..], row[1..]);
        var b :| 0 <= b < |rest| && rest[b] == row[1..];
        var a :| 0 <= a < |lists[0]| && lists[0][a] == row[0];
        SpreadAt(lists[0], rest, a, b, a * |rest| + b);
        assert row == [row[0]] + row[1..];
      }
    }
  }

  /** The worked example: two lists of two give four rows, last list fastest. */
  lemma ExampleProduct()
    ensures CartesianProduct([[1, 2], [3, 4]]) == [[1, 3], [1, 4], [2, 3], [2, 4]]
  {
    var lists: seq<seq<int>> := [[1, 2], [3, 4]];
    var last: seq<seq<int>> := [[3, 4]];
    var none: seq<seq<int>> := [];
    assert lists[1..] == last && last[1..] == none;
    var rest := CartesianProduct(last);
    assert rest == Spread([3, 4], [[]]);
    assert Prefixed(3, [[]])[0] == [3] && Prefixed(4, [[]])[0] == [4];
    assert [3, 4][1..] == [4] && [4][1..] == [];
    assert rest == [[3], [4]];
    assert Prefixed(1, rest)[0] == [1, 3] && Prefixed(1, rest)[1] == [1, 4];
    assert Prefixed(2, rest)[0] == [2, 3] && Prefixed(2, rest)[1] == [2, 4];
    assert [1, 2][1..] == [2] && [2][1..] == [];
  }
}
