/** Version rolling: a miner may set the version bits of its negotiated mask.
    Bits are those of natural numbers, and versions eight hexadecimal digits. */
module VersionRolling {
  import opened Basics
  import opened ByteOrder
  import opened Header

  // ----- Bits

  /** A version has 32 bits. */
  const WIDTH := 32

  function Bit(n: nat, i: nat): bool
    decreases i
  {
    if i == 0 then n % 2 == 1 else Bit(n / 2, i - 1)
  }

  function Digit(b: bool): nat { if b then 1 else 0 }

  /** The lowest `k` bits of `a & b`. */
  function And(a: nat, b: nat, k: nat): nat {
    if k == 0 then 0 else 2 * And(a / 2, b / 2, k - 1) + Digit(Bit(a, 0) && Bit(b, 0))
  }

  function Or(a: nat, b: nat, k: nat): nat {
    if k == 0 then 0 else 2 * Or(a / 2, b / 2, k - 1) + Digit(Bit(a, 0) || Bit(b, 0))
  }

  function Not(a: nat, k: nat): nat {
    if k == 0 then 0 else 2 * Not(a / 2, k - 1) + Digit(!Bit(a, 0))
  }

  lemma Halved(n: nat, b: bool)
    ensures (2 * n + Digit(b)) / 2 == n && Bit(2 * n + Digit(b), 0) == b
  {
  }

  lemma {:induction false} AndBit(a: nat, b: nat, k: nat, i: nat)
    requires i < k
    ensures Bit(And(a, b, k), i) == (Bit(a, i) && Bit(b, i))
    decreases i
  {
    Halved(And(a / 2, b / 2, k - 1), Bit(a, 0) && Bit(b, 0));
    if i > 0 {
      AndBit(a / 2, b / 2, k - 1, i - 1);
    }
  }

  lemma {:induction false} OrBit(a: nat, b: nat, k: nat, i: nat)
    requires i < k
    ensures Bit(Or(a, b, k), i) == (Bit(a, i) || Bit(b, i))
    decreases i
  {
    Halved(Or(a / 2, b / 2, k - 1), Bit(a, 0) || Bit(b, 0));
    if i > 0 {
      OrBit(a / 2, b / 2, k - 1, i - 1);
    }
  }

  lemma {:induction false} NotBit(a: nat, k: nat, i: nat)
    requires i < k
    ensures Bit(Not(a, k), i) == !Bit(a, i)
    decreases i
  {
    Halved(Not(a / 2, k - 1), !Bit(a, 0));
    if i > 0 {
      NotBit(a / 2, k - 1, i - 1);
    }
  }

  predicate Both(a: nat, b: nat, i: nat) { Bit(a, i) && Bit(b, i) }

  /** The bits in common are zero exactly when there are none. */
  lemma {:induction false} ZeroAnd(a: nat, b: nat, k: nat)
    ensures And(a, b, k) == 0 <==> forall i: nat :: i < k ==> !Both(a, b, i)
    decreases k
  {
    if k > 0 {
      ZeroAnd(a / 2, b / 2, k - 1);
      if And(a, b, k) == 0 {
        forall i: nat | i < k ensures !Both(a, b, i) {
          AndBit(a, b, k, i);
          ZeroBits(i);
        }
      } else if And(a / 2, b / 2, k - 1) != 0 {
        var i: nat :| i < k - 1 && Both(a / 2, b / 2, i);
        assert Both(a, b, i + 1);
      } else {
        var lowest: nat := 0;
        assert Both(a, b, lowest);
      }
    }
  }

  lemma {:induction false} ZeroBits(i: nat)
    ensures !Bit(0, i)
    decreases i
  {
    if i > 0 {
      ZeroBits(i - 1);
    }
  }

  function Power2(k: nat): nat { if k == 0 then 1 else 2 * Power2(k - 1) }

  lemma {:induction false} OrFits(a: nat, b: nat, k: nat)
    ensures Or(a, b, k) < Power2(k)
    decreases k
  {
    if k > 0 {
      OrFits(a / 2, b / 2, k - 1);
    }
  }

  lemma ThirtyTwoBits()
    ensures Power2(WIDTH) == 0x1_0000_0000
  {
    assert Power2(8) == 256;
    assert Power2(16) == 65536;
    assert Power2(24) == 0x100_0000;
  }

  // ----- The version of a share

  function Rolled(job: nat, bits: nat, mask: nat): nat {
    Or(And(job, Not(mask, WIDTH), WIDTH), And(bits, mask, WIDTH), WIDTH)
  }

  predicate Negotiated(bits: nat, mask: nat) { And(bits, Not(mask, WIDTH), WIDTH) == 0 }

  /** str.lower() of hexadecimal text. */
  function Lower(s: string): (t: string)
    ensures |t| == |s|
  {
    seq(|s|, i requires 0 <= i < |s| => if 'A' <= s[i] <= 'F' then (s[i] as int + 32) as char else s[i])
  }

  /** `value & 0xFFFFFFFF`. */
  function Masked(n: int): nat { n % 0x1_0000_0000 }

  /** The version text of a share: the job's where no bits are given, none when
      a text is refused or a bit lies outside the mask. */
  function ApplyVersionBits(intHex: string -> Option<int>, job: string, bits: Option<string>, mask: nat): Option<string>
  {
    if !Validated(job, 8) then None
    else if bits.None? then Some(Lower(job))
    else if !Validated(bits.value, 8) then None
    else
      var rolled :- intHex(bits.value);
      if !Negotiated(Masked(rolled), mask) then None else
      var version :- intHex(Lower(job));
      Some(HexDigits(Rolled(Masked(version), Masked(rolled), mask), 8))
  }

  // ----- What it does

  /** Each bit of the mask is the miner's, every other the job's. */
  lemma RolledBit(job: nat, bits: nat, mask: nat, i: nat)
    requires i < WIDTH
    ensures Bit(Rolled(job, bits, mask), i) == if Bit(mask, i) then Bit(bits, i) else Bit(job, i)
  {
    OrBit(And(job, Not(mask, WIDTH), WIDTH), And(bits, mask, WIDTH), WIDTH, i);
    AndBit(job, Not(mask, WIDTH), WIDTH, i);
    NotBit(mask, WIDTH, i);
    AndBit(bits, mask, WIDTH, i);
  }

  ghost predicate Inside(bits: nat, mask: nat) {
    forall i: nat :: i < WIDTH && Bit(bits, i) ==> Bit(mask, i)
  }

  lemma NegotiatedExactly(bits: nat, mask: nat)
    ensures Negotiated(bits, mask) <==> Inside(bits, mask)
  {
    var others := Not(mask, WIDTH);
    ZeroAnd(bits, others, WIDTH);
    forall i: nat | i < WIDTH ensures Bit(others, i) == !Bit(mask, i) {
      NotBit(mask, WIDTH, i);
    }
    if Inside(bits, mask) {
      forall i: nat | i < WIDTH ensures !Both(bits, others, i) {
        assert Bit(bits, i) ==> Bit(mask, i);
      }
    } else {
      var i: nat :| i < WIDTH && Bit(bits, i) && !Bit(mask, i);
      assert Both(bits, others, i);
    }
  }

  lemma {:induction false} LowerSame(s: string)
    requires Clean(s, |s|)
    ensures Clean(Lower(s), |s|) && IntHex(Lower(s)) == IntHex(s)
    decreases |s|
  {
    if s != "" {
      var most := s[..|s| - 1];
      LowerSame(most);
      assert Lower(s)[..|s| - 1] == Lower(most);
    }
  }

  /** What the share's texts are read as; none when one is refused. */
  function VersionsOf(intHex: string -> Option<int>, job: string, bits: string): Option<(nat, nat)> {
    if !Validated(job, 8) || !Validated(bits, 8) then None else
    var b :- intHex(bits);
    var j :- intHex(Lower(job));
    Some((Masked(j), Masked(b)))
  }

  /** Whatever the texts, a share's version is refused exactly when one of them
      is or when a bit lies outside the mask, and is otherwise eight digits of
      the rolled number. */
  lemma VersionRolls(intHex: string -> Option<int>, job: string, bits: string, mask: nat)
    ensures var v, texts := ApplyVersionBits(intHex, job, Some(bits), mask), VersionsOf(intHex, job, bits);
            && (v.Some? <==> texts.Some? && Inside(texts.value.1, mask))
            && (v.Some? ==> Clean(v.value, 8) && IntHex(v.value) == Rolled(texts.value.0, texts.value.1, mask))
  {
    var texts := VersionsOf(intHex, job, bits);
    RolledText(intHex, job, bits, mask);
    if texts.Some? {
      NegotiatedExactly(texts.value.1, mask);
      RolledDigits(texts.value.0, texts.value.1, mask);
    }
  }

  lemma RolledText(intHex: string -> Option<int>, job: string, bits: string, mask: nat)
    ensures var v, texts := ApplyVersionBits(intHex, job, Some(bits), mask), VersionsOf(intHex, job, bits);
            v == if texts.Some? && Negotiated(texts.value.1, mask)
                 then Some(HexDigits(Rolled(texts.value.0, texts.value.1, mask), 8)) else None
  {
  }

  /** Plain digits are read as their number. */
  lemma PlainVersion(intHex: string -> Option<int>, job: string)
    requires ReadsDigits(intHex) && Clean(job, 8)
    ensures intHex(Lower(job)) == Some(IntHex(job)) && Masked(IntHex(job)) == IntHex(job)
  {
    LowerSame(job);
    FitsFour(job);
  }

  lemma RolledDigits(job: nat, bits: nat, mask: nat)
    ensures Clean(HexDigits(Rolled(job, bits, mask), 8), 8)
    ensures IntHex(HexDigits(Rolled(job, bits, mask), 8)) == Rolled(job, bits, mask)
  {
    OrFits(And(job, Not(mask, WIDTH), WIDTH), And(bits, mask, WIDTH), WIDTH);
    ThirtyTwoBits();
    Sixteens();
    DigitsOf(Rolled(job, bits, mask), 8);
  }

  lemma {:induction false} LowerReads(s: string)
    ensures FromHex(Lower(s)) == FromHex(s)
    decreases |s|
  {
    if s != "" {
      var t := Lower(s);
      assert t[1..] == Lower(s[1..]);
      LowerReads(s[1..]);
      if |s| > 1 {
        assert t[2..] == Lower(s[2..]);
        LowerReads(s[2..]);
      }
    }
  }

  /** Without bits the job's own version is used, if it passes its check: the
      same bytes, and for plain digits the same number. */
  lemma VersionStays(intHex: string -> Option<int>, job: string, mask: nat)
    ensures var v := ApplyVersionBits(intHex, job, None, mask);
            && (v.Some? <==> Validated(job, 8))
            && (v.Some? ==> |v.value| == 8 && FromHex(v.value) == FromHex(job))
            && (Clean(job, 8) ==> v.Some? && Clean(v.value, 8) && IntHex(v.value) == IntHex(job))
  {
    LowerReads(job);
    if Clean(job, 8) {
      CleanDecodes(job);
      LowerSame(job);
    }
  }

  // ----- The header of a rolled share

  lemma HeaderParts(f: Fields)
    requires Numeric(f)
    ensures CodecHeader(f).Some? && |CodecHeader(f).value| >= 4
    ensures FromLittleEndian(CodecHeader(f).value[..4]) == IntHex(f.version)
  {
    CodecLayout(f);
    assert CodecHeader(f).value[..4] == LittleEndian(IntHex(f.version), 4);
    LittleEndianField(f.version);
    DigitsAreBytes(f.version);
  }

  /** The header of a share that rolled a plain version is the job's header but
      for the version's bits inside the mask. */
  lemma OnlyMaskBitsDiffer(intHex: string -> Option<int>, f: Fields, bits: string, mask: nat, i: nat)
    requires ReadsDigits(intHex) && Numeric(f) && i < WIDTH
    requires ApplyVersionBits(intHex, f.version, Some(bits), mask).Some?
    ensures var mine := f.(version := ApplyVersionBits(intHex, f.version, Some(bits), mask).value);
            && Numeric(mine) && CodecHeader(mine).Some? && CodecHeader(f).Some? && intHex(bits).Some?
            && |CodecHeader(mine).value| == |CodecHeader(f).value| >= 4
            && CodecHeader(mine).value[4..] == CodecHeader(f).value[4..]
            && (Bit(FromLittleEndian(CodecHeader(mine).value[..4]), i) ==
                if Bit(mask, i) then Bit(Masked(intHex(bits).value), i)
                else Bit(FromLittleEndian(CodecHeader(f).value[..4]), i))
  {
    VersionRolls(intHex, f.version, bits, mask);
    PlainVersion(intHex, f.version);
    var mine := f.(version := ApplyVersionBits(intHex, f.version, Some(bits), mask).value);
    HeaderParts(f);
    HeaderParts(mine);
    SameTail(f, mine);
    RolledBit(IntHex(f.version), Masked(intHex(bits).value), mask, i);
  }

  lemma SameTail(f: Fields, mine: Fields)
    requires Numeric(f) && Numeric(mine) && mine == f.(version := mine.version)
    ensures CodecHeader(f).Some? && CodecHeader(mine).Some?
    ensures |CodecHeader(f).value| == |CodecHeader(mine).value| >= 4
    ensures CodecHeader(mine).value[4..] == CodecHeader(f).value[4..]
  {
    TailIs(f);
    TailIs(mine);
  }

  lemma TailIs(f: Fields)
    requires Numeric(f)
    ensures CodecHeader(f).Some? && |CodecHeader(f).value| >= 4
    ensures CodecHeader(f).value[4..] ==
            Previous(f) + (f.root + (LittleEndian(IntHex(f.ntime), 4) + (LittleEndian(IntHex(f.nbits), 4) +
                           LittleEndian(IntHex(f.nonce), 4))))
  {
    CodecLayout(f);
    NumericLayoutIs(f, IntHex(f.nonce));
  }
}
