/** Carry rows, each after the row before it, are in order pair by pair. */
module CarryOrder {
  import opened Basics
  import opened Values
  import opened Evidence
  import opened Structure
  import opened JsonOrder

  /** Where the last carry row among the first `n` records is. */
  function LastCarry(entries: seq<Entry>, n: nat): (k: int)
    requires n <= |entries|
    ensures -1 <= k < n && (k >= 0 ==> Is(entries[k], ActiveCarry))
    ensures forall i :: k < i < n ==> !Is(entries[i], ActiveCarry)
  {
    if n == 0 then -1 else if Is(entries[n - 1], ActiveCarry) then n - 1 else LastCarry(entries, n - 1)
  }

  ghost predicate AllPlaced(entries: seq<Entry>, n: nat)
    requires n <= |entries|
  {
    forall i :: 0 <= i < n && Is(entries[i], ActiveCarry) ==> Placed(entries[i].row)
  }

  lemma {:induction false} LastPlaceIs(entries: seq<Entry>, n: nat)
    requires n <= |entries| && AllPlaced(entries, n)
    ensures var k := LastCarry(entries, n); LastPlace(entries, n) == if k < 0 then None else Some(Place(entries[k].row))
    decreases n
  {
    if n > 0 {
      LastPlaceIs(entries, n - 1);
    }
  }

  /** Row `i` is in a place below row `j`'s. */
  predicate Precedes(entries: seq<Entry>, i: int, j: int)
    requires 0 <= i < |entries| && 0 <= j < |entries|
  {
    Placed(entries[i].row) && Placed(entries[j].row) && AllLess(Place(entries[i].row), Place(entries[j].row))
  }

  ghost predicate PairsInOrder(entries: seq<Entry>, n: nat)
    requires n <= |entries|
  {
    forall i, j :: 0 <= i < j < n && Is(entries[i], ActiveCarry) && Is(entries[j], ActiveCarry) ==>
      Precedes(entries, i, j)
  }

  lemma NextPrecedes(entries: seq<Entry>, n: nat, k: int)
    requires n < |entries| && AllPlaced(entries, n + 1) && PairsInOrder(entries, n) && Is(entries[n], ActiveCarry)
    requires k == LastCarry(entries, n) >= 0 && Precedes(entries, k, n)
    ensures PairsInOrder(entries, n + 1)
  {
    forall i | 0 <= i < n && Is(entries[i], ActiveCarry) ensures Precedes(entries, i, n) {
      if i < k {
        assert Precedes(entries, i, k);
        AllLessTransitive(Place(entries[i].row), Place(entries[k].row), Place(entries[n].row));
      }
    }
  }

  lemma {:induction false} InOrderIsPairs(entries: seq<Entry>, n: nat)
    requires n <= |entries| && AllPlaced(entries, n)
    ensures CarryInOrder(entries, n) <==> PairsInOrder(entries, n)
    decreases n
  {
    if n > 0 {
      var m := n - 1;
      InOrderIsPairs(entries, m);
      LastPlaceIs(entries, m);
      var k := LastCarry(entries, m);
      if Is(entries[m], ActiveCarry) && k >= 0 {
        assert After(Place(entries[m].row), LastPlace(entries, m)) <==> Precedes(entries, k, m);
        if PairsInOrder(entries, m) && Precedes(entries, k, m) {
          NextPrecedes(entries, m, k);
        }
      }
    }
  }

  /** The check against the row before is strict order of every two carry rows,
      for whatever heights and numbers compare. */
  lemma CarryOrderIsPairwise(entries: seq<Entry>, n: nat)
    requires n <= |entries|
    ensures CarryInOrder(entries, n) <==> AllPlaced(entries, n) && PairsInOrder(entries, n)
  {
    if AllPlaced(entries, n) {
      InOrderIsPairs(entries, n);
    }
  }

  // ----- Integers

  predicate IntPlaced(row: Json) {
    Placed(row) && Place(row)[0].Int? && Place(row)[1].Int?
  }

  lemma LeInts(a: int, b: int)
    ensures Plain(Int(a)) == Plain(Int(b)) <==> a == b
    ensures Le(Int(a), Int(b)) == Ok(a <= b)
  {
  }

  lemma LeSingles(a: int, b: int)
    ensures LeAll([Int(a)], [Int(b)]) == Ok(a <= b)
  {
    LeInts(a, b);
    assert [Int(a)][1..] == [] && [Int(b)][1..] == [];
    assert LeAll([], []) == Ok(true);
  }

  lemma LePairs(a: int, b: int, c: int, d: int)
    ensures LeAll([Int(a), Int(b)], [Int(c), Int(d)]) == Ok(a < c || (a == c && b <= d))
  {
    LeInts(a, c);
    LeSingles(b, d);
    assert [Int(a), Int(b)][1..] == [Int(b)] && [Int(c), Int(d)][1..] == [Int(d)];
  }

  /** For integers the order is lexicographic: the height, then the number. */
  lemma IntegersInOrder(a: Json, b: Json)
    requires IntPlaced(a) && IntPlaced(b)
    ensures var (x, y) := (Place(a), Place(b));
            AllLess(x, y) <==> x[0].i < y[0].i || (x[0].i == y[0].i && x[1].i < y[1].i)
  {
    LePairs(Place(b)[0].i, Place(b)[1].i, Place(a)[0].i, Place(a)[1].i);
  }
}
