/** JSON values as the recovery scripts hold them, and the Python operators
    they apply to them. A parsed value may have any shape, so every operator
    can refuse, and the refusal says what Python raises. */
module Values {
  import opened Basics

  const LF: byte := 10
  const CR: byte := 13

  datatype Json =
    | Null
    | Bool(b: bool)
    | Int(i: int)
    | Float(r: real)
    | Str(s: string)
    | Arr(a: seq<Json>)
    | Obj(m: map<string, Json>)

  datatype Type = NoneType | BoolType | IntType | FloatType | StrType | ListType | DictType

  function TypeOf(v: Json): Type {
    match v
    case Null => NoneType
    case Bool(_) => BoolType
    case Int(_) => IntType
    case Float(_) => FloatType
    case Str(_) => StrType
    case Arr(_) => ListType
    case Obj(_) => DictType
  }

  /** What a script says when it refuses an input of the right types. */
  datatype Reason =
    | NotJson(message: string)
    | NotAnAmount(field: string)
    | NotAnIntegerLiteral
    | AfterCompletion
    | BadCompletion
    | DuplicateIntegrity
    | AfterIntegrity
    | BlockAfterCarry
    | CarryOutOfOrder
    | ShareOutOfOrder
    | DuplicateDeferral
    | DeferralNotObject
    | UnknownKind
    | Incomplete
    | IntegrityNotObject
    | IntegrityLacks(field: string)
    | CurrentDrift
    | CarryCountDiffers
    | MismatchesNotListed
    | MismatchNotObject
    | AsIssuedFindings(count: nat)
    | LegacyBreaks(count: nat)
    | UnexplainedFindings(count: nat)
    | HashesBesideDeferral

  /** What the code raises. `Fatal` is anything outside the four classes the
      summarizer's `main` reports. */
  datatype Refusal =
    | ValueError(reason: Reason)
    | KeyError(key: string)
    | SubscriptError(of: Type)
    | AttributeError(of: Type)
    | Unhashable(of: Type)
    | Unordered(left: Type, right: Type)
    | NotIntegral(of: Type)
    | Fatal(about: string)

  datatype Result<+T> = Ok(value: T) | Err(error: Refusal) {
    predicate IsFailure() { Err? }
    function PropagateFailure<U>(): Result<U> requires Err? { Err(error) }
    function Extract(): T requires Ok? { value }
  }

  // ----- Steps in order, up to the first refusal

  function Fold<S, X>(step: (S, X) -> Result<S>, s: S, xs: seq<X>): Result<S>
    decreases |xs|
  {
    if xs == [] then Ok(s) else
    var t :- Fold(step, s, xs[..|xs| - 1]);
    step(t, xs[|xs| - 1])
  }

  /** One more step after `r`. */
  function Then<S, X>(step: (S, X) -> Result<S>, r: Result<S>, x: X): Result<S> {
    if r.Err? then r else step(r.value, x)
  }

  /** More steps after `r`. */
  function ThenAll<S, X>(step: (S, X) -> Result<S>, r: Result<S>, xs: seq<X>): Result<S> {
    if r.Err? then r else Fold(step, r.value, xs)
  }

  lemma FoldLast<S, X>(step: (S, X) -> Result<S>, s: S, xs: seq<X>, x: X)
    ensures Fold(step, s, xs + [x]) == Then(step, Fold(step, s, xs), x)
  {
    assert (xs + [x])[..|xs|] == xs;
  }

  lemma {:induction false} FoldConcat<S, X>(step: (S, X) -> Result<S>, s: S, a: seq<X>, b: seq<X>)
    ensures Fold(step, s, a + b) == ThenAll(step, Fold(step, s, a), b)
    decreases |b|
  {
    if b == [] {
      assert a + b == a;
    } else {
      var most := b[..|b| - 1];
      assert (a + b)[..|a + b| - 1] == a + most;
      assert (a + b)[|a + b| - 1] == b[|b| - 1];
      FoldConcat(step, s, a, most);
    }
  }

  lemma FoldFirst<S, X>(step: (S, X) -> Result<S>, s: S, x: X, xs: seq<X>)
    ensures Fold(step, s, [x] + xs) == ThenAll(step, step(s, x), xs)
  {
    assert [x][..0] == [];
    FoldConcat(step, s, [x], xs);
  }

  /** A refusal in a prefix is the whole's. */
  lemma FoldPrefix<S, X>(step: (S, X) -> Result<S>, s: S, prefix: seq<X>, all: seq<X>)
    requires prefix <= all
    ensures Fold(step, s, prefix).Err? ==> Fold(step, s, all) == Fold(step, s, prefix)
  {
    assert all == prefix + all[|prefix|..];
    FoldConcat(step, s, prefix, all[|prefix|..]);
  }

  /** Where one step does the work of two, so it does after any others. */
  lemma FoldMerged<S, X>(step: (S, X) -> Result<S>, s: S, xs: seq<X>, one: X, two: X, both: X)
    requires Fold(step, s, xs).Ok? ==>
               var t := Fold(step, s, xs).value; step(t, both) == Then(step, step(t, one), two)
    ensures Fold(step, s, xs + [both]) == Then(step, Fold(step, s, xs + [one]), two)
  {
    FoldLast(step, s, xs, one);
    FoldLast(step, s, xs, both);
  }

  // ----- Python's operators

  /** `v[key]` for a string key. */
  function GetItem(v: Json, key: string): Result<Json> {
    if !v.Obj? then Err(SubscriptError(TypeOf(v)))
    else if key in v.m then Ok(v.m[key])
    else Err(KeyError(key))
  }

  /** `v.get(key)`: a missing key reads as null. */
  function Get(v: Json, key: string): Result<Json> {
    if !v.Obj? then Err(AttributeError(TypeOf(v)))
    else Ok(if key in v.m then v.m[key] else Null)
  }

  /** The value `v` is compared by: `True == 1 == 1.0`, at any depth. */
  function Plain(v: Json): Json {
    match v
    case Bool(b) => Float(if b then 1.0 else 0.0)
    case Int(i) => Float(i as real)
    case Arr(a) => Arr(seq(|a|, k requires 0 <= k < |a| => Plain(a[k])))
    case Obj(m) => Obj(map k | k in m :: Plain(m[k]))
    case _ => v
  }

  /** The dictionary or set key `v` is, if it can be one at all. */
  function Hashable(v: Json): Result<Json> {
    if v.Arr? || v.Obj? then Err(Unhashable(TypeOf(v))) else Ok(Plain(v))
  }

  predicate Number(v: Json) { v.Bool? || v.Int? || v.Float? }

  function TextLe(a: string, b: string): bool {
    if a == [] then true
    else if b == [] then false
    else if a[0] == b[0] then TextLe(a[1..], b[1..])
    else a[0] < b[0]
  }

  /** `a <= b`. */
  function Le(a: Json, b: Json): Result<bool>
    decreases a, 1
  {
    if Number(a) && Number(b) then Ok(Plain(a).r <= Plain(b).r)
    else if a.Str? && b.Str? then Ok(TextLe(a.s, b.s))
    else if a.Arr? && b.Arr? then LeAll(a.a, b.a)
    else Err(Unordered(TypeOf(a), TypeOf(b)))
  }

  /** `a <= b` on lists and tuples: decided at the first unequal position. */
  function LeAll(a: seq<Json>, b: seq<Json>): Result<bool>
    decreases a, 0
  {
    if a == [] then Ok(true)
    else if b == [] then Ok(false)
    else if Plain(a[0]) == Plain(b[0]) then LeAll(a[1..], b[1..])
    else Le(a[0], b[0])
  }

  function Truncate(r: real): int {
    if r >= 0.0 then r.Floor else -((-r).Floor)
  }

  predicate Digits(s: string) {
    s != [] && forall k :: 0 <= k < |s| ==> '0' <= s[k] <= '9'
  }

  /** The pattern -?[0-9]+, matched in full. */
  predicate IntegerText(s: string) {
    Digits(s) || (s != [] && s[0] == '-' && Digits(s[1..]))
  }

  function DigitsValue(s: string): nat
    requires s == [] || Digits(s)
  {
    if s == [] then 0
    else
      assert |s| > 1 ==> Digits(s[..|s| - 1]);
      10 * DigitsValue(s[..|s| - 1]) + (s[|s| - 1] as int - '0' as int)
  }

  function IntegerValue(s: string): int
    requires IntegerText(s)
  {
    if Digits(s) then DigitsValue(s)
    else
      var magnitude: int := DigitsValue(s[1..]);
      -magnitude
  }

  function At<K, V>(m: map<K, V>, k: K, default: V): V {
    if k in m then m[k] else default
  }
}
