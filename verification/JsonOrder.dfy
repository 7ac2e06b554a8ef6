/** Python's order on values: where comparisons are defined, "less" is
    transitive, on numbers, texts, and lists of them at any depth. */
module JsonOrder {
  import opened Values

  /** a < b, as the negation of b <= a. */
  predicate Less(a: Json, b: Json) { Le(b, a) == Ok(false) }

  predicate AllLess(a: seq<Json>, b: seq<Json>) { LeAll(b, a) == Ok(false) }

  predicate SameAnswer(r: Result<bool>, q: Result<bool>) { r == q || (r.Err? && q.Err?) }

  /** A comparison that is refused is refused for its types. */
  lemma {:induction false} UnorderedValues(a: Json, b: Json)
    ensures Le(a, b).Err? ==> Le(a, b).error.Unordered?
    decreases a, 1
  {
    if a.Arr? && b.Arr? {
      UnorderedAll(a.a, b.a);
    }
  }

  lemma {:induction false} UnorderedAll(a: seq<Json>, b: seq<Json>)
    ensures LeAll(a, b).Err? ==> LeAll(a, b).error.Unordered?
    decreases a, 0
  {
    if a != [] && b != [] {
      if Plain(a[0]) == Plain(b[0]) {
        UnorderedAll(a[1..], b[1..]);
      } else {
        UnorderedValues(a[0], b[0]);
      }
    }
  }

  lemma {:induction false} TextSelf(s: string)
    ensures TextLe(s, s)
    decreases |s|
  {
    if s != [] {
      TextSelf(s[1..]);
    }
  }

  lemma {:induction false} TextTransitive(a: string, b: string, c: string)
    requires !TextLe(b, a) && !TextLe(c, b)
    ensures !TextLe(c, a)
    decreases |a|
  {
    if a != [] && a[0] == b[0] && b[0] == c[0] {
      TextTransitive(a[1..], b[1..], c[1..]);
    }
  }

  lemma PlainList(a: seq<Json>, b: seq<Json>)
    requires Plain(Arr(a)) == Plain(Arr(b))
    ensures |a| == |b| && forall k :: 0 <= k < |a| ==> Plain(a[k]) == Plain(b[k])
  {
    var x, y := Plain(Arr(a)).a, Plain(Arr(b)).a;
    assert |x| == |a| && |y| == |b|;
    forall k | 0 <= k < |a| ensures Plain(a[k]) == Plain(b[k]) {
      assert x[k] == Plain(a[k]) && y[k] == Plain(b[k]);
    }
  }

  predicate AllSame(a: seq<Json>, b: seq<Json>) {
    |a| == |b| && forall k :: 0 <= k < |a| ==> Plain(a[k]) == Plain(b[k])
  }

  /** Equal values compare alike. */
  lemma {:induction false} LeSame(a: Json, b: Json, c: Json, d: Json)
    requires Plain(a) == Plain(c) && Plain(b) == Plain(d)
    ensures SameAnswer(Le(a, b), Le(c, d))
    decreases a, 1
  {
    if a.Arr? && b.Arr? {
      PlainList(a.a, c.a);
      PlainList(b.a, d.a);
      LeAllSame(a.a, b.a, c.a, d.a);
    }
  }

  lemma {:induction false} LeAllSame(a: seq<Json>, b: seq<Json>, c: seq<Json>, d: seq<Json>)
    requires AllSame(a, c) && AllSame(b, d)
    ensures SameAnswer(LeAll(a, b), LeAll(c, d))
    decreases a, 0
  {
    if a != [] && b != [] {
      if Plain(a[0]) == Plain(b[0]) {
        LeAllSame(a[1..], b[1..], c[1..], d[1..]);
      } else {
        LeSame(a[0], b[0], c[0], d[0]);
      }
    }
  }

  /** No value is less than its equal. */
  lemma {:induction false} NotLessThanSame(a: Json, b: Json)
    requires Plain(a) == Plain(b)
    ensures Le(a, b) != Ok(false)
    decreases a, 1
  {
    if a.Str? {
      TextSelf(a.s);
    } else if a.Arr? {
      PlainList(a.a, b.a);
      NoneLess(a.a, b.a);
    }
  }

  lemma {:induction false} NoneLess(a: seq<Json>, b: seq<Json>)
    requires AllSame(a, b)
    ensures LeAll(a, b) != Ok(false)
    decreases a, 0
  {
    if a != [] {
      NoneLess(a[1..], b[1..]);
    }
  }

  lemma {:induction false} LessTransitive(a: Json, b: Json, c: Json)
    requires Less(a, b) && Less(b, c)
    ensures Less(a, c)
    decreases a, 1
  {
    if a.Str? {
      TextTransitive(a.s, b.s, c.s);
    } else if a.Arr? {
      AllLessTransitive(a.a, b.a, c.a);
    }
  }

  lemma {:induction false} AllLessTransitive(a: seq<Json>, b: seq<Json>, c: seq<Json>)
    requires AllLess(a, b) && AllLess(b, c)
    ensures AllLess(a, c)
    decreases a, 0
  {
    if a != [] {
      var x, y, z := a[0], b[0], c[0];
      if Plain(x) == Plain(y) && Plain(y) == Plain(z) {
        AllLessTransitive(a[1..], b[1..], c[1..]);
      } else {
        FirstLess(a, b, c);
      }
    }
  }

  /** The order is decided at the first place already. */
  lemma FirstLess(a: seq<Json>, b: seq<Json>, c: seq<Json>)
    requires a != [] && b != [] && c != [] && AllLess(a, b) && AllLess(b, c)
    requires Plain(a[0]) != Plain(b[0]) || Plain(b[0]) != Plain(c[0])
    ensures AllLess(a, c)
    decreases a[0], 2
  {
    var x, y, z := a[0], b[0], c[0];
    if Plain(x) == Plain(y) {
      LeSame(z, y, z, x);
    } else if Plain(y) == Plain(z) {
      LeSame(y, x, z, x);
    } else {
      LessTransitive(x, y, z);
      if Plain(z) == Plain(x) {
        NotLessThanSame(z, x);
      }
    }
  }
}
