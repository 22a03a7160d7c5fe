/** The iteration interface of an ordered map with integer keys: a position is
    either an element, named by its key, or the end of the map. */
module OrderedMap {

  datatype Position = At(key: int) | End

  /** The first element. */
  function Begin<V>(m: map<int, V>): (p: Position)
    ensures p.At? ==> p.key in m && forall x :: x in m ==> p.key <= x
    ensures p.End? ==> forall x :: x !in m
  {
    if exists x | x in m :: x <= x then
      BeginExists(m);
      var first :| first in m && forall x | x in m :: first <= x;
      At(first)
    else
      assert forall x :: x in m ==> x <= x;
      End
  }

  /** The first element whose key is not less than `k`. */
  function LowerBound<V>(m: map<int, V>, k: int): (p: Position)
    ensures p.At? ==> p.key in m && k <= p.key && forall x :: k <= x < p.key ==> x !in m
    ensures p.End? ==> forall x :: x in m ==> x < k
  {
    if exists x | x in m :: k <= x then
      FirstExists(m, k);
      var first :| first in m && k <= first && forall x | x in m :: k <= x ==> first <= x;
      At(first)
    else
      End
  }

  /** The first element whose key is greater than `k`; the successor of the element at `k`. */
  function UpperBound<V>(m: map<int, V>, k: int): (p: Position)
    ensures p.At? ==> p.key in m && k < p.key && forall x :: k < x < p.key ==> x !in m
    ensures p.End? ==> forall x :: x in m ==> x <= k
  {
    LowerBound(m, k + 1)
  }

  /** The last element whose key is less than `k`; End when there is none. */
  function Before<V>(m: map<int, V>, k: int): (p: Position)
    ensures p.At? ==> p.key in m && p.key < k && forall x :: p.key < x < k ==> x !in m
    ensures p.End? ==> forall x :: x in m ==> k <= x
  {
    if exists x | x in m :: x < k then
      LastExists(m, k);
      var last :| last in m && last < k && forall x | x in m :: x < k ==> x <= last;
      At(last)
    else
      End
  }

  lemma BeginExists<V>(m: map<int, V>)
    requires exists x :: x in m
    ensures exists first :: first in m && forall x | x in m :: first <= x
  {
    var y :| y in m;
    var first := LeastOf(m.Keys, y);
    assert first in m;
  }

  /** The least member of a set, found from any member. */
  lemma {:induction false} LeastOf(s: set<int>, y: int) returns (first: int)
    requires y in s
    ensures first in s && first <= y && forall x :: x in s ==> first <= x
  {
    first := y;
    if z :| z in s && z < y {
      first := LeastOf(s - {y}, z);
      forall x | x in s ensures first <= x {
        assert x == y || x in s - {y};
      }
    }
  }

  lemma FirstExists<V>(m: map<int, V>, k: int)
    requires exists x :: x in m && k <= x
    ensures exists first :: first in m && k <= first && forall x | x in m :: k <= x ==> first <= x
  {
    var y :| y in m && k <= y;
    var first := FirstFrom(m.Keys, k, y);
    assert first in m;
  }

  lemma FirstFrom(s: set<int>, k: int, y: int) returns (first: int)
    requires y in s && k <= y
    ensures first in s && k <= first && forall x :: x in s && k <= x ==> first <= x
  {
    var above := set x | x in s && k <= x;
    first := LeastOf(above, y);
    forall x | x in s && k <= x ensures first <= x {
      assert x in above;
    }
  }

  lemma LastExists<V>(m: map<int, V>, k: int)
    requires exists x :: x in m && x < k
    ensures exists last :: last in m && last < k && forall x | x in m :: x < k ==> x <= last
  {
    var y :| y in m && y < k;
    var last := GreatestOf(m.Keys, k, y);
    assert last in m;
  }

  lemma {:induction false} GreatestOf(s: set<int>, k: int, y: int) returns (last: int)
    requires y in s && y < k
    ensures last in s && y <= last < k && forall x :: x in s && x < k ==> x <= last
  {
    last := y;
    if z :| z in s && y < z < k {
      last := GreatestOf(s - {y}, k, z);
      forall x | x in s && x < k ensures x <= last {
        assert x == y || x in s - {y};
      }
    }
  }

  /** Maps whose keys agree from `from` on have the same lower bounds there. */
  lemma SameFrom<V>(m: map<int, V>, n: map<int, V>, from: int, x: int)
    requires from <= x
    requires forall k :: from <= k ==> (k in m <==> k in n)
    ensures LowerBound(m, x) == LowerBound(n, x)
  {
  }
}
