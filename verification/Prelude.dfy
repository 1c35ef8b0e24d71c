/** Small vocabulary shared by the other modules. */
module Prelude {

  datatype Option<+T> = None | Some(value: T)

  datatype Result<+T, +E> = Success(value: T) | Failure(error: E)

  /** Any element of a set. */
  method Pick<T>(s: set<T>) returns (x: T)
    requires s != {}
    ensures x in s
  {
    x :| x in s;
  }

  /** The sum of a finite map's values. */
  ghost function SumOf<K>(m: map<K, int>): int {
    if m == map[] then 0 else
      var k :| k in m;
      m[k] + SumOf(m - {k})
  }

  lemma {:induction false} SumWithout<K>(m: map<K, int>, k: K)
    requires k in m
    ensures SumOf(m) == m[k] + SumOf(m - {k})
    decreases |m|
  {
    var picked :| picked in m && SumOf(m) == m[picked] + SumOf(m - {picked});
    if picked != k {
      SumWithout(m - {picked}, k);
      SumWithout(m - {k}, picked);
      assert m - {picked} - {k} == m - {k} - {picked};
    }
  }

  lemma {:induction false} SumNotPositive<K>(m: map<K, int>)
    requires forall k :: k in m ==> m[k] <= 0
    ensures SumOf(m) <= 0
    decreases |m|
  {
    if m != map[] {
      var k :| k in m;
      SumWithout(m, k);
      SumNotPositive(m - {k});
    }
  }

  /** A key missing from large counts as zero there. */
  lemma {:induction false} SumDominated<K>(small: map<K, int>, large: map<K, int>)
    requires forall k :: k in small ==> if k in large then small[k] <= large[k] else small[k] <= 0
    requires forall k :: k in large ==> 0 <= large[k]
    ensures SumOf(small) <= SumOf(large)
    decreases |large|
  {
    if large == map[] {
      SumNotPositive(small);
    } else {
      var k :| k in large;
      SumWithout(large, k);
      if k in small {
        SumWithout(small, k);
      } else {
        assert small - {k} == small;
      }
      SumDominated(small - {k}, large - {k});
    }
  }

  /** All pieces laid end to end. */
  function Flatten<T>(pieces: seq<seq<T>>): seq<T> {
    if pieces == [] then [] else pieces[0] + Flatten(pieces[1..])
  }

  lemma {:induction false} FlattenAppend<T>(a: seq<seq<T>>, b: seq<seq<T>>)
    ensures Flatten(a + b) == Flatten(a) + Flatten(b)
  {
    if a == [] {
      assert a + b == b;
    } else {
      assert (a + b)[1..] == a[1..] + b;
      FlattenAppend(a[1..], b);
    }
  }

  lemma FlattenOne<T>(piece: seq<T>)
    ensures Flatten([piece]) == piece
  {
    assert [piece][1..] == [];
  }
}
