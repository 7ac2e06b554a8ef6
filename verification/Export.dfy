/** The parallel export: range predicates that part a table, and the writer
    that puts the parts out in order, the completion marker's part last. */
module Export {
  import opened Basics

  // ----- SQL's three-valued conditions on a key that may be NULL

  datatype Tri = Yes | No | Unknown

  function And(a: Tri, b: Tri): Tri {
    if a.No? || b.No? then No else if a.Unknown? || b.Unknown? then Unknown else Yes
  }

  function Or(a: Tri, b: Tri): Tri {
    if a.Yes? || b.Yes? then Yes else if a.Unknown? || b.Unknown? then Unknown else No
  }

  function Truth(b: bool): Tri { if b then Yes else No }

  datatype Condition<K> =
    | Always
    | Less(upper: K)
    | AtLeast(lower: K)
    | IsNull
    | Both(left: Condition<K>, right: Condition<K>)
    | Either(left: Condition<K>, right: Condition<K>)

  function Eval<K>(less: (K, K) -> bool, c: Condition<K>, key: Option<K>): Tri {
    match c
    case Always => Yes
    case Less(upper) => if key.None? then Unknown else Truth(less(key.value, upper))
    case AtLeast(lower) => if key.None? then Unknown else Truth(!less(key.value, lower))
    case IsNull => Truth(key.None?)
    case Both(left, right) => And(Eval(less, left, key), Eval(less, right, key))
    case Either(left, right) => Or(Eval(less, left, key), Eval(less, right, key))
  }

  datatype Range<K> = Range(lower: Option<K>, upper: Option<K>)

  /** From the lower bound up to the upper; a NULL key goes with the range that
      has no upper bound. */
  function Predicate<K>(r: Range<K>): Condition<K> {
    if r.lower.None? then (if r.upper.None? then Always else Less(r.upper.value))
    else if r.upper.None? then Either(AtLeast(r.lower.value), IsNull)
    else Both(AtLeast(r.lower.value), Less(r.upper.value))
  }

  /** One range between each two bounds, and one beyond either end. */
  function Ranges<K>(bounds: seq<K>): (ranges: seq<Range<K>>)
    ensures |ranges| == |bounds| + 1
  {
    seq(|bounds| + 1, i requires 0 <= i <= |bounds| =>
      Range(if i == 0 then None else Some(bounds[i - 1]), if i == |bounds| then None else Some(bounds[i])))
  }

  ghost predicate TotalOrder<K(!new)>(less: (K, K) -> bool) {
    && (forall a :: !less(a, a))
    && (forall a, b, c :: less(a, b) && less(b, c) ==> less(a, c))
    && (forall a, b :: less(a, b) || less(b, a) || a == b)
  }

  ghost predicate Ascending<K(!new)>(less: (K, K) -> bool, bounds: seq<K>) {
    forall i, j :: 0 <= i < j < |bounds| ==> !less(bounds[j], bounds[i])
  }

  ghost predicate InRange<K(!new)>(less: (K, K) -> bool, bounds: seq<K>, i: int, key: Option<K>)
    requires 0 <= i <= |bounds|
  {
    Eval(less, Predicate(Ranges(bounds)[i]), key) == Yes
  }

  /** What being in the i-th range says about a key. */
  lemma InRangeIs<K(!new)>(less: (K, K) -> bool, bounds: seq<K>, i: int, key: Option<K>)
    requires 0 <= i <= |bounds|
    ensures InRange(less, bounds, i, key) <==>
            if key.None? then i == |bounds|
            else (i == 0 || !less(key.value, bounds[i - 1])) && (i == |bounds| || less(key.value, bounds[i]))
  {
    var c := Predicate(Ranges(bounds)[i]);
    match c
    case Both(left, right) => assert Eval(less, c, key) == And(Eval(less, left, key), Eval(less, right, key));
    case Either(left, right) => assert Eval(less, c, key) == Or(Eval(less, left, key), Eval(less, right, key));
    case _ =>
  }

  /** The range of a key: past every bound that is not above it. */
  ghost function RangeOf<K(!new)>(less: (K, K) -> bool, bounds: seq<K>, key: Option<K>): (i: nat)
    ensures i <= |bounds|
    ensures key.None? ==> i == |bounds|
    ensures key.Some? ==> (forall j :: 0 <= j < i ==> !less(key.value, bounds[j])) &&
                          (i < |bounds| ==> less(key.value, bounds[i]))
  {
    if key.None? then |bounds| else FirstAbove(less, bounds, key.value, 0)
  }

  function FirstAbove<K>(less: (K, K) -> bool, bounds: seq<K>, key: K, from: nat): (i: nat)
    requires from <= |bounds| && forall j :: 0 <= j < from ==> !less(key, bounds[j])
    ensures from <= i <= |bounds|
    ensures (forall j :: 0 <= j < i ==> !less(key, bounds[j])) && (i < |bounds| ==> less(key, bounds[i]))
    decreases |bounds| - from
  {
    if from == |bounds| || less(key, bounds[from]) then from else FirstAbove(less, bounds, key, from + 1)
  }

  /** No key, not even NULL, satisfies two predicates or none. */
  lemma ExactlyOneRange<K(!new)>(less: (K, K) -> bool, bounds: seq<K>, key: Option<K>, i: int)
    requires TotalOrder(less) && Ascending(less, bounds) && 0 <= i <= |bounds|
    ensures InRange(less, bounds, i, key) <==> i == RangeOf(less, bounds, key)
  {
    InRangeIs(less, bounds, i, key);
    if key.Some? {
      var r := RangeOf(less, bounds, key);
      if i < r {
        assert !less(key.value, bounds[i]);
      } else if r < i && r < |bounds| {
        // bounds[r] is above the key, and bounds[i - 1] is not below it.
        assert less(key.value, bounds[r]);
        if r < i - 1 {
          assert !less(bounds[i - 1], bounds[r]);
        }
      }
    }
  }

  // ----- A sorted export of a table, NULL keys last

  ghost predicate NotAfter<K(!new)>(less: (K, K) -> bool, a: Option<K>, b: Option<K>) {
    b.None? || (a.Some? && !less(b.value, a.value))
  }

  ghost predicate Sorted<R(!new), K(!new)>(less: (K, K) -> bool, key: R -> Option<K>, out: seq<R>) {
    forall i, j :: 0 <= i < j < |out| ==> NotAfter(less, key(out[i]), key(out[j]))
  }

  function Times<R(==)>(rows: seq<R>, r: R, n: nat): nat
    requires n <= |rows|
  {
    if n == 0 then 0 else Times(rows, r, n - 1) + if rows[n - 1] == r then 1 else 0
  }

  ghost predicate SameRows<R(!new)>(a: seq<R>, b: seq<R>) {
    forall r :: Times(a, r, |a|) == Times(b, r, |b|)
  }

  /** `out` is the table's rows in key order. */
  ghost predicate IsExport<R(!new), K(!new)>(less: (K, K) -> bool, key: R -> Option<K>, table: seq<R>, out: seq<R>) {
    Sorted(less, key, out) && SameRows(table, out)
  }

  /** The table's rows that a condition keeps: those it is true of. */
  ghost function Where<R(!new), K(!new)>(less: (K, K) -> bool, key: R -> Option<K>, c: Condition<K>, table: seq<R>,
      n: nat): seq<R>
    requires n <= |table|
  {
    if n == 0 then []
    else Where(less, key, c, table, n - 1) + if Eval(less, c, key(table[n - 1])) == Yes then [table[n - 1]] else []
  }

  lemma {:induction false} TimesConcat<R(!new)>(a: seq<R>, b: seq<R>, r: R, n: nat)
    requires n <= |b|
    ensures Times(a + b, r, |a| + n) == Times(a, r, |a|) + Times(b, r, n)
    decreases n
  {
    if n == 0 {
      TimesPrefix(a, b, r, |a|);
    } else {
      TimesConcat(a, b, r, n - 1);
    }
  }

  lemma {:induction false} TimesPrefix<R(!new)>(a: seq<R>, b: seq<R>, r: R, n: nat)
    requires n <= |a|
    ensures Times(a + b, r, n) == Times(a, r, n)
    decreases n
  {
    if n > 0 {
      TimesPrefix(a, b, r, n - 1);
    }
  }

  lemma {:induction false} TimesWhere<R(!new), K(!new)>(less: (K, K) -> bool, key: R -> Option<K>, c: Condition<K>,
      table: seq<R>, r: R, n: nat)
    requires n <= |table|
    ensures var kept := Where(less, key, c, table, n);
            Times(kept, r, |kept|) == if Eval(less, c, key(r)) == Yes then Times(table, r, n) else 0
    decreases n
  {
    if n > 0 {
      TimesWhere(less, key, c, table, r, n - 1);
      var before := Where(less, key, c, table, n - 1);
      TimesConcat(before, if Eval(less, c, key(table[n - 1])) == Yes then [table[n - 1]] else [], r,
                  if Eval(less, c, key(table[n - 1])) == Yes then 1 else 0);
    }
  }

  lemma {:induction false} TimesPositive<R(!new)>(rows: seq<R>, k: nat, n: nat)
    requires k < n <= |rows|
    ensures Times(rows, rows[k], n) > 0
    decreases n
  {
    if k < n - 1 {
      TimesPositive(rows, k, n - 1);
    }
  }

  lemma {:induction false} TimesFound<R(!new)>(rows: seq<R>, r: R, n: nat) returns (k: nat)
    requires n <= |rows| && Times(rows, r, n) > 0
    ensures k < n && rows[k] == r
    decreases n
  {
    if rows[n - 1] == r {
      k := n - 1;
    } else {
      k := TimesFound(rows, r, n - 1);
    }
  }

  function Joined<R>(parts: seq<seq<R>>, n: nat): seq<R>
    requires n <= |parts|
  {
    if n == 0 then [] else Joined(parts, n - 1) + parts[n - 1]
  }

  /** Each part is the sorted export of its range. */
  ghost predicate RangeParts<R(!new), K(!new)>(less: (K, K) -> bool, key: R -> Option<K>, bounds: seq<K>,
      table: seq<R>, parts: seq<seq<R>>) {
    && |parts| == |bounds| + 1
    && forall i :: 0 <= i <= |bounds| ==>
         IsExport(less, key, Where(less, key, Predicate(Ranges(bounds)[i]), table, |table|), parts[i])
  }

  lemma PartRow<R(!new), K(!new)>(less: (K, K) -> bool, key: R -> Option<K>, bounds: seq<K>, table: seq<R>,
      parts: seq<seq<R>>, i: int, r: R)
    requires TotalOrder(less) && Ascending(less, bounds) && RangeParts(less, key, bounds, table, parts)
    requires 0 <= i <= |bounds|
    ensures Times(parts[i], r, |parts[i]|) == if i == RangeOf(less, bounds, key(r)) then Times(table, r, |table|) else 0
  {
    TimesWhere(less, key, Predicate(Ranges(bounds)[i]), table, r, |table|);
    ExactlyOneRange(less, bounds, key(r), i);
    var kept := Where(less, key, Predicate(Ranges(bounds)[i]), table, |table|);
    assert SameRows(kept, parts[i]);
    assert Times(kept, r, |kept|) == Times(parts[i], r, |parts[i]|);
  }

  /** Row `r` is in part `k` as often as `times` says, and in no other. */
  ghost predicate OnlyIn<R>(parts: seq<seq<R>>, r: R, k: nat, times: nat) {
    forall i :: 0 <= i < |parts| ==> Times(parts[i], r, |parts[i]|) == if i == k then times else 0
  }

  lemma {:induction false} TimesJoined<R(!new)>(parts: seq<seq<R>>, r: R, k: nat, times: nat, n: nat)
    requires OnlyIn(parts, r, k, times) && n <= |parts|
    ensures var out := Joined(parts, n); Times(out, r, |out|) == if k < n then times else 0
    decreases n
  {
    if n > 0 {
      TimesJoined(parts, r, k, times, n - 1);
      TimesConcat(Joined(parts, n - 1), parts[n - 1], r, |parts[n - 1]|);
    }
  }

  lemma JoinedTimes<R(!new), K(!new)>(less: (K, K) -> bool, key: R -> Option<K>, bounds: seq<K>,
      table: seq<R>, parts: seq<seq<R>>, n: nat, r: R)
    requires TotalOrder(less) && Ascending(less, bounds) && RangeParts(less, key, bounds, table, parts) && n <= |parts|
    ensures var out := Joined(parts, n);
            Times(out, r, |out|) == if RangeOf(less, bounds, key(r)) < n then Times(table, r, |table|) else 0
  {
    var k, times := RangeOf(less, bounds, key(r)), Times(table, r, |table|);
    forall i | 0 <= i < |parts| ensures Times(parts[i], r, |parts[i]|) == if i == k then times else 0 {
      PartRow(less, key, bounds, table, parts, i, r);
    }
    TimesJoined(parts, r, k, times, n);
  }

  /** A row of an earlier range is not after one of a later range. */
  lemma RangesInOrder<K(!new)>(less: (K, K) -> bool, bounds: seq<K>, a: Option<K>, b: Option<K>)
    requires TotalOrder(less) && Ascending(less, bounds) && RangeOf(less, bounds, a) < RangeOf(less, bounds, b)
    ensures NotAfter(less, a, b)
  {
    var i := RangeOf(less, bounds, a);
    if b.Some? {
      assert less(a.value, bounds[i]) && !less(b.value, bounds[i]);
    }
  }

  lemma RowInRange<R(!new), K(!new)>(less: (K, K) -> bool, key: R -> Option<K>, bounds: seq<K>, table: seq<R>,
      parts: seq<seq<R>>, n: nat, k: nat)
    requires TotalOrder(less) && Ascending(less, bounds) && RangeParts(less, key, bounds, table, parts)
    requires n <= |parts| && k < |Joined(parts, n)|
    ensures RangeOf(less, bounds, key(Joined(parts, n)[k])) < n
  {
    var out := Joined(parts, n);
    TimesPositive(out, k, |out|);
    JoinedTimes(less, key, bounds, table, parts, n, out[k]);
  }

  lemma {:induction false} JoinedSorted<R(!new), K(!new)>(less: (K, K) -> bool, key: R -> Option<K>, bounds: seq<K>,
      table: seq<R>, parts: seq<seq<R>>, n: nat)
    requires TotalOrder(less) && Ascending(less, bounds) && RangeParts(less, key, bounds, table, parts) && n <= |parts|
    ensures Sorted(less, key, Joined(parts, n))
    decreases n
  {
    if n > 0 {
      JoinedSorted(less, key, bounds, table, parts, n - 1);
      JoinedBelow(less, key, bounds, table, parts, n - 1);
      PartIn(less, key, bounds, table, parts, n - 1);
      SortedAcross(less, key, bounds, Joined(parts, n - 1), parts[n - 1], n - 1);
    }
  }

  lemma RowOfPart<R(!new), K(!new)>(less: (K, K) -> bool, key: R -> Option<K>, bounds: seq<K>, table: seq<R>,
      parts: seq<seq<R>>, n: nat, j: nat)
    requires TotalOrder(less) && Ascending(less, bounds) && RangeParts(less, key, bounds, table, parts)
    requires n < |parts| && j < |parts[n]|
    ensures RangeOf(less, bounds, key(parts[n][j])) == n
  {
    TimesPositive(parts[n], j, |parts[n]|);
    PartRow(less, key, bounds, table, parts, n, parts[n][j]);
  }

  ghost predicate RowsBelow<R, K(!new)>(less: (K, K) -> bool, key: R -> Option<K>, bounds: seq<K>, rows: seq<R>,
      n: nat) {
    forall i: nat :: i < |rows| ==> RangeOf(less, bounds, key(rows[i])) < n
  }

  ghost predicate RowsIn<R, K(!new)>(less: (K, K) -> bool, key: R -> Option<K>, bounds: seq<K>, rows: seq<R>, n: nat) {
    forall i: nat :: i < |rows| ==> RangeOf(less, bounds, key(rows[i])) == n
  }

  lemma JoinedBelow<R(!new), K(!new)>(less: (K, K) -> bool, key: R -> Option<K>, bounds: seq<K>, table: seq<R>,
      parts: seq<seq<R>>, n: nat)
    requires TotalOrder(less) && Ascending(less, bounds) && RangeParts(less, key, bounds, table, parts) && n <= |parts|
    ensures RowsBelow(less, key, bounds, Joined(parts, n), n)
  {
    var rows := Joined(parts, n);
    forall i: nat | i < |rows| ensures RangeOf(less, bounds, key(rows[i])) < n {
      RowInRange(less, key, bounds, table, parts, n, i);
    }
  }

  lemma PartIn<R(!new), K(!new)>(less: (K, K) -> bool, key: R -> Option<K>, bounds: seq<K>, table: seq<R>,
      parts: seq<seq<R>>, n: nat)
    requires TotalOrder(less) && Ascending(less, bounds) && RangeParts(less, key, bounds, table, parts) && n < |parts|
    ensures RowsIn(less, key, bounds, parts[n], n) && Sorted(less, key, parts[n])
  {
    forall i: nat | i < |parts[n]| ensures RangeOf(less, bounds, key(parts[n][i])) == n {
      RowOfPart(less, key, bounds, table, parts, n, i);
    }
  }

  /** Rows of earlier ranges, then rows of range `n`: sorted if both are. */
  lemma SortedAcross<R(!new), K(!new)>(less: (K, K) -> bool, key: R -> Option<K>, bounds: seq<K>, before: seq<R>,
      last: seq<R>, n: nat)
    requires TotalOrder(less) && Ascending(less, bounds) && Sorted(less, key, before) && Sorted(less, key, last)
    requires RowsBelow(less, key, bounds, before, n) && RowsIn(less, key, bounds, last, n)
    ensures Sorted(less, key, before + last)
  {
    forall i: nat, j: nat | i < |before| && j < |last| ensures NotAfter(less, key(before[i]), key(last[j])) {
      RangesInOrder(less, bounds, key(before[i]), key(last[j]));
    }
    SortedConcat(less, key, before, last);
  }

  lemma SortedConcat<R(!new), K(!new)>(less: (K, K) -> bool, key: R -> Option<K>, a: seq<R>, b: seq<R>)
    requires Sorted(less, key, a) && Sorted(less, key, b)
    requires forall i: nat, j: nat | i < |a| && j < |b| :: NotAfter(less, key(a[i]), key(b[j]))
    ensures Sorted(less, key, a + b)
  {
  }

  /** The sorted ranges, one after the other, are the sorted table. */
  lemma RangesExportTable<R(!new), K(!new)>(less: (K, K) -> bool, key: R -> Option<K>, bounds: seq<K>, table: seq<R>,
      parts: seq<seq<R>>)
    requires TotalOrder(less) && Ascending(less, bounds) && RangeParts(less, key, bounds, table, parts)
    ensures IsExport(less, key, table, Joined(parts, |parts|))
  {
    JoinedSorted(less, key, bounds, table, parts, |parts|);
    forall r { JoinedTimes(less, key, bounds, table, parts, |parts|, r); }
  }

  /** Where the key tells the rows apart, a table has one sorted export. */
  lemma {:induction false} OneExport<R(!new), K(!new)>(less: (K, K) -> bool, key: R -> Option<K>, a: seq<R>, b: seq<R>)
    requires TotalOrder(less) && Sorted(less, key, a) && Sorted(less, key, b) && SameRows(a, b)
    requires DistinctKeys(key, a)
    ensures a == b
    decreases |a|
  {
    if a == [] {
      if b != [] {
        TimesPositive(b, 0, |b|);
      }
    } else {
      var n := |a| - 1;
      TimesPositive(a, n, |a|);
      assert Times(b, a[n], |b|) > 0;
      var m := TimesFound(b, a[n], |b|);
      LastIsLast(less, key, a, b, m);
      forall r ensures Times(a[..n], r, n) == Times(b[..|b| - 1], r, |b| - 1) {
        assert Times(a, r, |a|) == Times(b, r, |b|);
        TimesPrefix(a[..n], a[n..], r, n);
        TimesPrefix(b[..|b| - 1], b[|b| - 1..], r, |b| - 1);
        assert a == a[..n] + a[n..] && b == b[..|b| - 1] + b[|b| - 1..];
      }
      OneExport(less, key, a[..n], b[..|b| - 1]);
      assert a == a[..n] + [a[n]] && b == b[..|b| - 1] + [b[|b| - 1]];
    }
  }

  lemma LastIsLast<R(!new), K(!new)>(less: (K, K) -> bool, key: R -> Option<K>, a: seq<R>, b: seq<R>, m: nat)
    requires TotalOrder(less) && Sorted(less, key, a) && Sorted(less, key, b) && SameRows(a, b)
    requires DistinctKeys(key, a)
    requires a != [] && m < |b| && b[m] == a[|a| - 1]
    ensures b[|b| - 1] == a[|a| - 1]
  {
    var n, last := |a| - 1, |b| - 1;
    TimesPositive(b, last, |b|);
    assert Times(a, b[last], |a|) > 0;
    var k := TimesFound(a, b[last], |a|);
  }

  ghost predicate DistinctKeys<R(!new), K(!new)>(key: R -> Option<K>, rows: seq<R>) {
    forall i, j :: 0 <= i < |rows| && 0 <= j < |rows| && key(rows[i]) == key(rows[j]) ==> i == j
  }

  lemma {:induction false} JoinedConcat<R>(a: seq<seq<R>>, b: seq<seq<R>>, n: nat)
    requires n <= |b|
    ensures Joined(a + b, |a| + n) == Joined(a, |a|) + Joined(b, n)
    decreases n
  {
    if n == 0 {
      JoinedFirst(a, b, |a|);
    } else {
      JoinedConcat(a, b, n - 1);
    }
  }

  lemma {:induction false} JoinedFirst<R>(a: seq<seq<R>>, b: seq<seq<R>>, n: nat)
    requires n <= |a|
    ensures Joined(a + b, n) == Joined(a, n)
    decreases n
  {
    if n > 0 {
      JoinedFirst(a, b, n - 1);
    }
  }

  /** One table: its ranges joined are its one sorted export. */
  lemma RangesAreSerial<R(!new), K(!new)>(less: (K, K) -> bool, key: R -> Option<K>, bounds: seq<K>, table: seq<R>,
      parts: seq<seq<R>>, serial: seq<R>)
    requires TotalOrder(less) && Ascending(less, bounds) && RangeParts(less, key, bounds, table, parts)
    requires IsExport(less, key, table, serial) && DistinctKeys(key, serial)
    ensures Joined(parts, |parts|) == serial
  {
    RangesExportTable(less, key, bounds, table, parts);
    OneExport(less, key, serial, Joined(parts, |parts|));
  }

  /** The parts of the whole export, in the script's order. */
  function Parts<R>(shares: seq<seq<R>>, middle: seq<R>, hashes: seq<seq<R>>, tail: seq<R>): seq<seq<R>> {
    shares + ([middle] + (hashes + [tail]))
  }

  /** Joined in order, the parts are what one session prints: the shares, the
      kinds between, the share hashes, the kinds after. */
  lemma ExportIsSerial<R(!new), K(!new), H(!new)>(
    lessShare: (K, K) -> bool, shareKey: R -> Option<K>, shareBounds: seq<K>, shareTable: seq<R>, shares: seq<seq<R>>,
    serialShares: seq<R>, middle: seq<R>,
    lessHash: (H, H) -> bool, hashKey: R -> Option<H>, hashBounds: seq<H>, hashTable: seq<R>, hashes: seq<seq<R>>,
    serialHashes: seq<R>, tail: seq<R>)
    requires TotalOrder(lessShare) && Ascending(lessShare, shareBounds)
    requires RangeParts(lessShare, shareKey, shareBounds, shareTable, shares)
    requires IsExport(lessShare, shareKey, shareTable, serialShares) && DistinctKeys(shareKey, serialShares)
    requires TotalOrder(lessHash) && Ascending(lessHash, hashBounds)
    requires RangeParts(lessHash, hashKey, hashBounds, hashTable, hashes)
    requires IsExport(lessHash, hashKey, hashTable, serialHashes) && DistinctKeys(hashKey, serialHashes)
    ensures var parts := Parts(shares, middle, hashes, tail);
            Joined(parts, |parts|) == serialShares + (middle + (serialHashes + tail))
  {
    RangesAreSerial(lessShare, shareKey, shareBounds, shareTable, shares, serialShares);
    RangesAreSerial(lessHash, hashKey, hashBounds, hashTable, hashes, serialHashes);
    PartsJoined(shares, middle, hashes, tail);
  }

  lemma PartsJoined<R>(shares: seq<seq<R>>, middle: seq<R>, hashes: seq<seq<R>>, tail: seq<R>)
    ensures var parts := Parts(shares, middle, hashes, tail);
            Joined(parts, |parts|) == Joined(shares, |shares|) + (middle + (Joined(hashes, |hashes|) + tail))
  {
    var end := hashes + [tail];
    JoinedConcat(hashes, [tail], 1);
    assert Joined([tail], 1) == Joined([tail], 0) + tail == tail;
    JoinedConcat([middle], end, |end|);
    assert Joined([middle], 1) == Joined([middle], 0) + middle == middle;
    JoinedConcat(shares, [middle] + end, |[middle] + end|);
  }

  // ----- The ordered writer

  /** A part's session ended, well or not. */
  datatype Completion = Completion(part: nat, ok: bool)

  /** The parts completed before the first failure. */
  function Done(events: seq<Completion>, n: nat): set<nat>
    requires n <= |events|
  {
    if n == 0 then {} else Done(events, n - 1) + {events[n - 1].part}
  }

  /** How many parts are ready from the first on, short of the last. */
  function Ready(done: set<nat>, last: nat): (w: nat)
    ensures w <= last
    ensures forall i :: 0 <= i < w ==> i in done
    ensures w < last ==> w !in done
  {
    ReadyFrom(done, last, 0)
  }

  function ReadyFrom(done: set<nat>, last: nat, from: nat): (w: nat)
    requires from <= last && forall i :: 0 <= i < from ==> i in done
    ensures from <= w <= last
    ensures forall i :: 0 <= i < w ==> i in done
    ensures w < last ==> w !in done
    decreases last - from
  {
    if from == last || from !in done then from else ReadyFrom(done, last, from + 1)
  }

  lemma ReadyIs(done: set<nat>, last: nat, w: nat)
    requires w <= last && (forall i :: 0 <= i < w ==> i in done) && (w < last ==> w !in done)
    ensures Ready(done, last) == w
  {
    var r := Ready(done, last);
    assert !(r < w) && !(w < r);
  }

  /** How many events came before the first failure. */
  function Survived(events: seq<Completion>, from: nat): (n: nat)
    requires from <= |events|
    ensures from <= n <= |events|
    ensures forall i :: from <= i < n ==> events[i].ok
    ensures n < |events| ==> !events[n].ok
    decreases |events| - from
  {
    if from == |events| || !events[from].ok then from else Survived(events, from + 1)
  }

  /** What is out once `n` parts completed well, in whatever order. */
  function OutAfter<B>(parts: seq<seq<B>>, events: seq<Completion>, n: nat): seq<B>
    requires parts != [] && n <= |events|
  {
    Joined(parts, Ready(Done(events, n), |parts| - 1))
  }

  /** Puts the parts out as they complete. `committed` is whether the
      coordinator's transaction then ended well. */
  method WriteInOrder<B>(parts: seq<seq<B>>, events: seq<Completion>, committed: bool)
    returns (out: seq<B>, ok: bool)
    requires parts != []
    ensures var n := Survived(events, 0);
            if n < |events| || Ready(Done(events, n), |parts| - 1) < |parts| - 1 ||
               (|parts| - 1) !in Done(events, n) || !committed
            then !ok && out == OutAfter(parts, events, n)
            else ok && out == Joined(parts, |parts|)
  {
    var last := |parts| - 1;
    var done: set<nat> := {};
    var written := 0;
    out := [];
    for k := 0 to |events|
      invariant forall i :: 0 <= i < k ==> events[i].ok
      invariant done == Done(events, k) && written == Ready(done, last) && out == Joined(parts, written)
    {
      if !events[k].ok {
        SurvivedIs(events, 0, k);
        return out, false;
      }
      done := done + {events[k].part};
      while written < last && written in done
        invariant written <= last && out == Joined(parts, written)
        invariant forall i :: 0 <= i < written ==> i in done
      {
        out := out + parts[written];
        written := written + 1;
      }
      ReadyIs(done, last, written);
    }
    SurvivedIs(events, 0, |events|);
    // Every part must have completed, and the transaction committed.
    if written < last || last !in done || !committed {
      return out, false;
    }
    out := out + parts[last];
    return out, true;
  }

  lemma {:induction false} SurvivedIs(events: seq<Completion>, from: nat, n: nat)
    requires from <= n <= |events| && (forall i :: from <= i < n ==> events[i].ok) && (n < |events| ==> !events[n].ok)
    ensures Survived(events, from) == n
    decreases n - from
  {
    if from < n {
      SurvivedIs(events, from + 1, n);
    }
  }

  /** Output only ever grows, part by part from the first. */
  lemma OutputGrows<B>(parts: seq<seq<B>>, events: seq<Completion>, i: nat, j: nat)
    requires parts != [] && i <= j <= |events|
    ensures OutAfter(parts, events, i) <= OutAfter(parts, events, j)
  {
    var last := |parts| - 1;
    DoneGrows(events, i, j);
    var a, b := Ready(Done(events, i), last), Ready(Done(events, j), last);
    assert a <= b;
    JoinedPrefix(parts, a, b);
  }

  lemma {:induction false} DoneGrows(events: seq<Completion>, i: nat, j: nat)
    requires i <= j <= |events|
    ensures Done(events, i) <= Done(events, j)
    decreases j - i
  {
    if i < j {
      DoneGrows(events, i, j - 1);
    }
  }

  lemma {:induction false} JoinedPrefix<B>(parts: seq<seq<B>>, a: nat, b: nat)
    requires a <= b <= |parts|
    ensures Joined(parts, a) <= Joined(parts, b)
    decreases b - a
  {
    if a < b {
      JoinedPrefix(parts, a, b - 1);
    }
  }

  /** The order parts are started in: the last, the middle one, then the
      others as they come. */
  function StartOrder(middle: nat, last: nat): (order: seq<nat>)
    requires middle < last
    ensures |order| == last + 1
  {
    [last, middle] + seq(last - 1, i => if i < middle then i else i + 1)
  }

  /** Every part is started exactly once. */
  lemma StartsEachOnce(middle: nat, last: nat, part: nat) returns (k: nat)
    requires middle < last && part <= last
    ensures k <= last && StartOrder(middle, last)[k] == part
    ensures forall j :: 0 <= j <= last && StartOrder(middle, last)[j] == part ==> j == k
  {
    var order := StartOrder(middle, last);
    k := if part == last then 0 else if part == middle then 1 else if part < middle then part + 2 else part + 1;
    assert order[0] == last && order[1] == middle;
    assert forall j :: 2 <= j <= last ==> order[j] == if j - 2 < middle then j - 2 else j - 1;
  }
}
