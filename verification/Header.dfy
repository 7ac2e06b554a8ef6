/** The 80-byte block header of a Stratum job, as the server's codec, the miner
    simulator and the image lane each build it from hexadecimal fields. */
module Header {
  import opened Basics
  import opened ByteOrder

  // ----- Hexadecimal text

  predicate IsHex(c: char) { '0' <= c <= '9' || 'a' <= c <= 'f' || 'A' <= c <= 'F' }

  predicate IsSpace(c: char) {
    c == ' ' || c == '\t' || c == '\n' || c == '\r' || c == (11 as char) || c == (12 as char)
  }

  function HexValue(c: char): nat
    requires IsHex(c)
    ensures HexValue(c) < 16
  {
    if '0' <= c <= '9' then c as int - '0' as int
    else if 'a' <= c <= 'f' then c as int - 'a' as int + 10
    else c as int - 'A' as int + 10
  }

  function HexChar(n: nat): (c: char)
    requires n < 16
    ensures IsHex(c) && HexValue(c) == n
  {
    if n < 10 then ('0' as int + n) as char else ('a' as int + n - 10) as char
  }

  /** bytes.fromhex: two digits a byte, with white space between bytes. */
  function FromHex(s: string): Option<Bytes> {
    if s == "" then Some([])
    else if IsSpace(s[0]) then FromHex(s[1..])
    else if |s| == 1 || !IsHex(s[0]) || !IsHex(s[1]) then None
    else
      var rest :- FromHex(s[2..]);
      Some([(16 * HexValue(s[0]) + HexValue(s[1])) as byte] + rest)
  }

  function ToHex(b: Bytes): string {
    if b == [] then "" else [HexChar(b[0] as nat / 16), HexChar(b[0] as nat % 16)] + ToHex(b[1..])
  }

  function Spaces(s: string): nat {
    if s == "" then 0 else (if IsSpace(s[0]) then 1 else 0) + Spaces(s[1..])
  }

  predicate Clean(s: string, digits: nat) {
    |s| == digits && forall i :: 0 <= i < |s| ==> IsHex(s[i])
  }

  /** int(s, 16) of plain digits. */
  function IntHex(s: string): nat
    requires forall i :: 0 <= i < |s| ==> IsHex(s[i])
  {
    if s == "" then 0 else 16 * IntHex(s[..|s| - 1]) + HexValue(s[|s| - 1])
  }

  /** The last `k` hexadecimal digits of `n`; all of them when it fits. */
  function HexDigits(n: nat, k: nat): (s: string)
    ensures Clean(s, k)
  {
    if k == 0 then "" else HexDigits(n / 16, k - 1) + [HexChar(n % 16)]
  }

  function Pair(high: char, low: char): byte
    requires IsHex(high) && IsHex(low)
  {
    (16 * HexValue(high) + HexValue(low)) as byte
  }

  lemma FromHexStep(s: string)
    requires |s| >= 2 && !IsSpace(s[0])
    ensures FromHex(s).Some? <==> IsHex(s[0]) && IsHex(s[1]) && FromHex(s[2..]).Some?
    ensures FromHex(s).Some? ==> FromHex(s).value == [Pair(s[0], s[1])] + FromHex(s[2..]).value
  {
  }

  lemma {:induction false} FromHexConcat(a: string, b: string)
    requires FromHex(a).Some?
    ensures FromHex(a + b).Some? <==> FromHex(b).Some?
    ensures FromHex(b).Some? ==> FromHex(a + b).value == FromHex(a).value + FromHex(b).value
    decreases |a|
  {
    var both := a + b;
    if a == "" {
      assert both == b;
    } else if IsSpace(a[0]) {
      assert both[0] == a[0] && both[1..] == a[1..] + b;
      FromHexConcat(a[1..], b);
    } else {
      assert both[0] == a[0] && both[1] == a[1] && both[2..] == a[2..] + b;
      FromHexStep(a);
      FromHexConcat(a[2..], b);
      FromHexStep(both);
      PairConcat(Pair(a[0], a[1]), FromHex(a[2..]).value, FromHex(b));
    }
  }

  lemma PairConcat(first: byte, rest: Bytes, more: Option<Bytes>)
    ensures more.Some? ==> [first] + rest + more.value == [first] + (rest + more.value)
  {
    if more.Some? {
      assert [first] + rest + more.value == [first] + (rest + more.value);
    }
  }

  lemma {:induction false} HexRoundTrip(b: Bytes)
    ensures FromHex(ToHex(b)) == Some(b)
    decreases |b|
  {
    if b != [] {
      HexRoundTrip(b[1..]);
      var s := ToHex(b);
      assert s[2..] == ToHex(b[1..]);
      assert b == [b[0]] + b[1..];
    }
  }

  /** White space is what the decoded length misses. */
  lemma {:induction false} DecodedLength(s: string)
    requires FromHex(s).Some?
    ensures 2 * |FromHex(s).value| + Spaces(s) == |s|
    decreases |s|
  {
    if s != "" {
      if IsSpace(s[0]) {
        DecodedLength(s[1..]);
      } else {
        DecodedLength(s[2..]);
        assert s[1..][1..] == s[2..];
      }
    }
  }

  lemma {:induction false} CleanDecodes(s: string)
    requires Clean(s, |s|) && |s| % 2 == 0
    ensures FromHex(s).Some? && |FromHex(s).value| == |s| / 2
    decreases |s|
  {
    if s != "" {
      CleanDecodes(s[2..]);
    }
  }

  /** A number's digits and its bytes agree, highest first. */
  lemma {:induction false} DigitsAreBytes(s: string)
    requires Clean(s, |s|) && |s| % 2 == 0
    ensures FromHex(s).Some? && |FromHex(s).value| == |s| / 2
    ensures IntHex(s) == FromLittleEndian(Reversed(FromHex(s).value))
    decreases |s|
  {
    CleanDecodes(s);
    if s != "" {
      var front := s[..|s| - 2];
      DigitsAreBytes(front);
      LastPair(s);
      TwoDigits(s);
      LastByte(FromHex(front).value, Pair(s[|s| - 2], s[|s| - 1]));
    }
  }

  lemma LastPair(s: string)
    requires Clean(s, |s|) && |s| % 2 == 0 && s != "" && FromHex(s[..|s| - 2]).Some?
    ensures FromHex(s) == Some(FromHex(s[..|s| - 2]).value + [Pair(s[|s| - 2], s[|s| - 1])])
  {
    var front, pair := s[..|s| - 2], s[|s| - 2..];
    assert s == front + pair;
    OnePair(pair);
    FromHexConcat(front, pair);
  }

  lemma LastByte(bytes: Bytes, d: byte)
    ensures FromLittleEndian(Reversed(bytes + [d])) == d as nat + 256 * FromLittleEndian(Reversed(bytes))
  {
    assert Reversed(bytes + [d]) == [d] + Reversed(bytes);
  }

  lemma OnePair(s: string)
    requires Clean(s, 2)
    ensures FromHex(s) == Some([Pair(s[0], s[1])])
  {
    assert s[2..] == "" && FromHex(s[2..]) == Some([]);
    FromHexStep(s);
    assert [Pair(s[0], s[1])] + [] == [Pair(s[0], s[1])];
  }

  lemma TwoDigits(s: string)
    requires Clean(s, |s|) && |s| >= 2
    ensures IntHex(s) == 256 * IntHex(s[..|s| - 2]) + Pair(s[|s| - 2], s[|s| - 1]) as nat
  {
    assert s[..|s| - 1][..|s| - 2] == s[..|s| - 2];
  }

  /** int(s, 16).to_bytes(4, "little") is the four bytes of `s` reversed. */
  lemma LittleEndianField(s: string)
    requires Clean(s, 8)
    ensures FromHex(s).Some? && |FromHex(s).value| == 4
    ensures LittleEndian(IntHex(s), 4) == Reversed(FromHex(s).value)
  {
    DigitsAreBytes(s);
    BytesAsNumber(Reversed(FromHex(s).value));
  }

  function Power16(k: nat): nat { if k == 0 then 1 else 16 * Power16(k - 1) }

  lemma {:induction false} DigitsOf(n: nat, k: nat)
    requires n < Power16(k)
    ensures IntHex(HexDigits(n, k)) == n
    decreases k
  {
    if k > 0 {
      DigitsOf(n / 16, k - 1);
      var s := HexDigits(n, k);
      assert s[..k - 1] == HexDigits(n / 16, k - 1);
    }
  }

  // ----- Words

  /** Each four-byte word reversed. */
  function Flip(data: Bytes): (r: Bytes)
    ensures |data| % 4 == 0 ==> |r| == |data|
  {
    if |data| < 4 then [] else Reversed(data[..4]) + Flip(data[4..])
  }

  function FlipWords(data: Bytes): Option<Bytes> {
    if |data| % 4 != 0 then None else Some(Flip(data))
  }

  lemma {:induction false} FlipConcat(a: Bytes, b: Bytes)
    requires |a| % 4 == 0
    ensures Flip(a + b) == Flip(a) + Flip(b)
    decreases |a|
  {
    if a == [] {
      assert a + b == b;
    } else {
      assert (a + b)[..4] == a[..4] && (a + b)[4..] == a[4..] + b;
      FlipConcat(a[4..], b);
    }
  }

  lemma FlipOneWord(w: Bytes)
    requires |w| == 4
    ensures Flip(w) == Reversed(w)
  {
    assert w[..4] == w && w[4..] == [];
  }

  lemma {:induction false} FlipTwice(data: Bytes)
    requires |data| % 4 == 0
    ensures Flip(Flip(data)) == data
    decreases |data|
  {
    if data != [] {
      var first, rest := Reversed(data[..4]), Flip(data[4..]);
      FlipTwice(data[4..]);
      assert (first + rest)[..4] == first && (first + rest)[4..] == rest;
      ReversedTwice(data[..4]);
      assert data == data[..4] + data[4..];
    }
  }

  // ----- The three builders

  /** The fields of a notify and a submit, as hexadecimal text, and the Merkle
      root as the bytes it is hashed to. */
  datatype Fields = Fields(
    version: string,
    prevhash: string,
    root: Bytes,
    ntime: string,
    nbits: string,
    nonce: string)

  predicate Validated(s: string, chars: nat) { |s| == chars && chars % 2 == 0 && FromHex(s).Some? }

  function Text(f: Fields): string
    requires |f.root| % 4 == 0
  {
    f.version + (f.prevhash + (ToHex(Flip(f.root)) + (f.ntime + (f.nbits + f.nonce))))
  }

  /** The server's codec: every field is checked, then the words flipped. */
  function CodecHeader(f: Fields): Option<Bytes> {
    if !AllValidated(f) then None else
    var display :- FromHex(Text(f));
    FlipWords(display)
  }

  /** The miner simulator: no field is checked. */
  function MinerHeader(f: Fields): Option<Bytes> {
    if |f.root| % 4 != 0 then None else
    var display :- FromHex(Text(f));
    FlipWords(display)
  }

  /** The words of the first 32 bytes, each reversed. */
  function ReverseWords(data: Bytes, i: nat): Bytes
    requires i <= 32
    decreases 32 - i
  {
    if i + 4 > 32 then [] else
    var from, end := if i < |data| then i else |data|, if i + 4 < |data| then i + 4 else |data|;
    Reversed(data[from..end]) + ReverseWords(data, i + 4)
  }

  /** int(text, 16), which also reads signs, prefixes, underscores and outer
      white space, left open but for plain digits. */
  ghost predicate ReadsDigits(intHex: string -> Option<int>) {
    forall s :: Clean(s, |s|) && s != "" ==> intHex(s) == Some(IntHex(s))
  }

  /** to_bytes(4, "little"), which refuses what does not fit. */
  function FourBytes(n: int): Option<Bytes> {
    if 0 <= n < 0x1_0000_0000 then Some(LittleEndian(n, 4)) else None
  }

  /** The header in Bitcoin's own layout: every number little-endian, the root
      as hashed. */
  function Layout(version: Bytes, previous: Bytes, root: Bytes, ntime: Bytes, nbits: Bytes, nonce: Bytes): Bytes {
    version + (previous + (root + (ntime + (nbits + nonce))))
  }

  function NumberBytes(intHex: string -> Option<int>, s: string): Option<Bytes> {
    var n :- intHex(s);
    FourBytes(n)
  }

  /** The image lane: numbers are put down little-endian, nothing is flipped
      but the previous hash. */
  function LaneHeader(intHex: string -> Option<int>, f: Fields, nonce: nat): Option<Bytes> {
    var previous :- FromHex(f.prevhash);
    var version :- NumberBytes(intHex, f.version);
    var ntime :- NumberBytes(intHex, f.ntime);
    var nbits :- NumberBytes(intHex, f.nbits);
    var last :- FourBytes(nonce);
    Some(Layout(version, ReverseWords(previous, 0), f.root, ntime, nbits, last))
  }

  /** Plain fields: eight digits, sixty-four for the previous hash. */
  predicate Plain(f: Fields) {
    && Clean(f.version, 8) && Clean(f.prevhash, 64) && Clean(f.ntime, 8) && Clean(f.nbits, 8) && Clean(f.nonce, 8)
    && |f.root| == 32
  }

  lemma DisplayBytes(f: Fields)
    requires FromHex(f.version).Some? && FromHex(f.prevhash).Some? && FromHex(f.ntime).Some?
    requires FromHex(f.nbits).Some? && FromHex(f.nonce).Some? && |f.root| % 4 == 0
    ensures FromHex(Text(f)) == Some(FromHex(f.version).value + (FromHex(f.prevhash).value + (Flip(f.root) +
              (FromHex(f.ntime).value + (FromHex(f.nbits).value + FromHex(f.nonce).value)))))
  {
    HexRoundTrip(Flip(f.root));
    FromHexConcat(f.nbits, f.nonce);
    FromHexConcat(f.ntime, f.nbits + f.nonce);
    FromHexConcat(ToHex(Flip(f.root)), f.ntime + (f.nbits + f.nonce));
    FromHexConcat(f.prevhash, ToHex(Flip(f.root)) + (f.ntime + (f.nbits + f.nonce)));
    FromHexConcat(f.version, f.prevhash + (ToHex(Flip(f.root)) + (f.ntime + (f.nbits + f.nonce))));
  }

  lemma FlipNumbers(t: Bytes, b: Bytes, n: Bytes)
    requires |t| == 4 && |b| == 4 && |n| == 4
    ensures Flip(t + (b + n)) == Reversed(t) + (Reversed(b) + Reversed(n))
  {
    FlipConcat(b, n);
    FlipConcat(t, b + n);
    FlipOneWord(t);
    FlipOneWord(b);
    FlipOneWord(n);
  }

  lemma FlipFour(v: Bytes, p: Bytes, r: Bytes, numbers: Bytes)
    requires |v| % 4 == 0 && |p| % 4 == 0 && |r| % 4 == 0
    ensures Flip(v + (p + (r + numbers))) == Flip(v) + (Flip(p) + (Flip(r) + Flip(numbers)))
  {
    FlipConcat(r, numbers);
    FlipConcat(p, r + numbers);
    FlipConcat(v, p + (r + numbers));
  }

  lemma FlippedDisplay(v: Bytes, p: Bytes, root: Bytes, numbers: Bytes, flipped: Bytes)
    requires |v| == 4 && |p| % 4 == 0 && |root| == 32 && flipped == Flip(numbers)
    ensures Flip(v + (p + (Flip(root) + numbers))) == Reversed(v) + (Flip(p) + (root + flipped))
  {
    FlipFour(v, p, Flip(root), numbers);
    FlipTwice(root);
    FlipOneWord(v);
  }

  lemma {:induction false} ReverseWordsIsFlip(data: Bytes, i: nat)
    requires |data| <= 32 && |data| % 4 == 0 && i <= 32 && i % 4 == 0
    ensures ReverseWords(data, i) == if i < |data| then Flip(data[i..]) else []
    decreases 32 - i
  {
    if i < 32 {
      ReverseWordsIsFlip(data, i + 4);
      if i < |data| {
        assert data[i..][..4] == data[i..i + 4] && data[i..][4..] == data[i + 4..];
        assert Flip([]) == [];
      }
    }
  }

  /** Eight digits a number; the previous hash may hold white space, as long as
      whole words are left. */
  predicate Numeric(f: Fields) {
    && Clean(f.version, 8) && Clean(f.ntime, 8) && Clean(f.nbits, 8) && Clean(f.nonce, 8) && |f.root| == 32
    && Validated(f.prevhash, 64) && |FromHex(f.prevhash).value| % 4 == 0
  }

  lemma PlainIsNumeric(f: Fields)
    requires Plain(f)
    ensures Numeric(f) && |FromHex(f.prevhash).value| == 32
  {
    CleanDecodes(f.prevhash);
  }

  /** The previous hash as the header holds it. */
  function Previous(f: Fields): (b: Bytes)
    requires Numeric(f)
    ensures |b| == |FromHex(f.prevhash).value|
  {
    Flip(FromHex(f.prevhash).value)
  }

  /** Everything before the nonce, in Bitcoin's layout. */
  function Prefix(f: Fields): (b: Bytes)
    requires Numeric(f)
    ensures |b| == 44 + |FromHex(f.prevhash).value|
  {
    LittleEndian(IntHex(f.version), 4) +
    (Previous(f) + (f.root + (LittleEndian(IntHex(f.ntime), 4) + LittleEndian(IntHex(f.nbits), 4))))
  }

  lemma LayoutSplits(v: Bytes, p: Bytes, root: Bytes, t: Bytes, b: Bytes, n: Bytes)
    ensures Layout(v, p, root, t, b, n) == (v + (p + (root + (t + b)))) + n
  {
  }

  /** The codec accepts nothing the miner would build otherwise. */
  lemma MinerAgrees(f: Fields)
    requires CodecHeader(f).Some?
    ensures MinerHeader(f) == CodecHeader(f)
  {
  }

  /** The bytes of the fields, flipped word by word. */
  lemma Assembled(display: Bytes, v: Bytes, p: Bytes, root: Bytes, numbers: Bytes, t: Bytes, b: Bytes, n: Bytes)
    requires |v| == 4 && |p| % 4 == 0 && |root| == 32 && Flip(numbers) == t + (b + n)
    requires display == v + (p + (Flip(root) + numbers))
    ensures Flip(display) == Layout(Reversed(v), Flip(p), root, t, b, n)
  {
    FlippedDisplay(v, p, root, numbers, t + (b + n));
  }

  lemma CodecBytes(f: Fields)
    requires AllValidated(f) && TextSpaces(f) % 8 == 0
    ensures FromHex(Text(f)).Some? && CodecHeader(f) == MinerHeader(f) == Some(Flip(FromHex(Text(f)).value))
  {
    DisplayLength(f);
    DisplayFlips(f, FromHex(Text(f)).value);
  }

  lemma DisplayFlips(f: Fields, display: Bytes)
    requires AllValidated(f) && FromHex(Text(f)) == Some(display) && |display| % 4 == 0
    ensures CodecHeader(f) == MinerHeader(f) == Some(Flip(display))
  {
  }

  lemma NumericIsValidated(f: Fields)
    requires Numeric(f)
    ensures AllValidated(f) && TextSpaces(f) == Spaces(f.prevhash) && TextSpaces(f) % 8 == 0
  {
    CleanDecodes(f.version);
    CleanDecodes(f.ntime);
    CleanDecodes(f.nbits);
    CleanDecodes(f.nonce);
    NoSpaces(f.version);
    NoSpaces(f.ntime);
    NoSpaces(f.nbits);
    NoSpaces(f.nonce);
    DecodedLength(f.prevhash);
  }

  /** Bitcoin's layout of the numbers and the previous hash. */
  function NumericLayout(f: Fields, nonce: nat): Bytes
    requires Numeric(f)
  {
    Layout(LittleEndian(IntHex(f.version), 4), Previous(f), f.root, LittleEndian(IntHex(f.ntime), 4),
           LittleEndian(IntHex(f.nbits), 4), LittleEndian(nonce, 4))
  }

  lemma NumericLayoutIs(f: Fields, nonce: nat)
    requires Numeric(f)
    ensures NumericLayout(f, nonce) == Prefix(f) + LittleEndian(nonce, 4)
  {
    LayoutSplits(LittleEndian(IntHex(f.version), 4), Previous(f), f.root, LittleEndian(IntHex(f.ntime), 4),
                 LittleEndian(IntHex(f.nbits), 4), LittleEndian(nonce, 4));
  }

  lemma FlippedFields(f: Fields)
    requires Numeric(f) && FromHex(Text(f)).Some?
    ensures Flip(FromHex(Text(f)).value) == NumericLayout(f, IntHex(f.nonce))
  {
    LittleEndianField(f.version);
    LittleEndianField(f.ntime);
    LittleEndianField(f.nbits);
    LittleEndianField(f.nonce);
    DisplayBytes(f);
    var v, p, t := FromHex(f.version).value, FromHex(f.prevhash).value, FromHex(f.ntime).value;
    var b, n := FromHex(f.nbits).value, FromHex(f.nonce).value;
    FlipNumbers(t, b, n);
    Assembled(FromHex(Text(f)).value, v, p, f.root, t + (b + n), Reversed(t), Reversed(b), Reversed(n));
  }

  /** Where the numbers are plain the codec makes Bitcoin's little-endian
      header. */
  lemma CodecLayout(f: Fields)
    requires Numeric(f)
    ensures CodecHeader(f) == MinerHeader(f) == Some(Prefix(f) + LittleEndian(IntHex(f.nonce), 4))
  {
    NumericIsValidated(f);
    CodecBytes(f);
    FlippedFields(f);
    NumericLayoutIs(f, IntHex(f.nonce));
  }

  lemma LaneBytes(intHex: string -> Option<int>, f: Fields, nonce: nat)
    requires ReadsDigits(intHex) && Numeric(f) && nonce < 0x1_0000_0000
    ensures LaneHeader(intHex, f, nonce) ==
            Some(Layout(LittleEndian(IntHex(f.version), 4), ReverseWords(FromHex(f.prevhash).value, 0), f.root,
                        LittleEndian(IntHex(f.ntime), 4), LittleEndian(IntHex(f.nbits), 4), LittleEndian(nonce, 4)))
  {
    NumberIs(intHex, f.version);
    NumberIs(intHex, f.ntime);
    NumberIs(intHex, f.nbits);
  }

  lemma NumberIs(intHex: string -> Option<int>, s: string)
    requires ReadsDigits(intHex) && Clean(s, 8)
    ensures NumberBytes(intHex, s) == Some(LittleEndian(IntHex(s), 4))
  {
    FitsFour(s);
  }

  lemma PreviousIs(f: Fields)
    requires Numeric(f)
    ensures ReverseWords(FromHex(f.prevhash).value, 0) == Previous(f)
  {
    var p := FromHex(f.prevhash).value;
    DecodedLength(f.prevhash);
    ReverseWordsIsFlip(p, 0);
    assert p[0..] == p && Flip([]) == [];
  }

  lemma LaneLayout(intHex: string -> Option<int>, f: Fields, nonce: nat)
    requires ReadsDigits(intHex) && Numeric(f) && nonce < 0x1_0000_0000
    ensures LaneHeader(intHex, f, nonce) == Some(Prefix(f) + LittleEndian(nonce, 4))
  {
    LaneBytes(intHex, f, nonce);
    PreviousIs(f);
    NumericLayoutIs(f, nonce);
  }

  /** For plain fields the three builders make the same 80 bytes. */
  lemma BuildersAgree(intHex: string -> Option<int>, f: Fields)
    requires ReadsDigits(intHex) && Plain(f)
    ensures CodecHeader(f).Some? && |CodecHeader(f).value| == 80
    ensures MinerHeader(f) == CodecHeader(f) && LaneHeader(intHex, f, IntHex(f.nonce)) == CodecHeader(f)
  {
    PlainIsNumeric(f);
    CodecLayout(f);
    FitsFour(f.nonce);
    LaneLayout(intHex, f, IntHex(f.nonce));
  }

  lemma SpacelessIsNumeric(f: Fields)
    requires CodecHeader(f).Some? && Clean(f.nonce, 8) && Spaces(f.version) + Spaces(f.ntime) + Spaces(f.nbits) == 0
    ensures Numeric(f)
  {
    SpacelessIsClean(f.version);
    SpacelessIsClean(f.ntime);
    SpacelessIsClean(f.nbits);
    NoSpaces(f.nonce);
    WholeWords(f);
  }

  lemma WholeWords(f: Fields)
    requires CodecHeader(f).Some? && TextSpaces(f) == Spaces(f.prevhash)
    ensures Validated(f.prevhash, 64) && |FromHex(f.prevhash).value| % 4 == 0
  {
    CodecAcceptsExactly(f);
    DecodedLength(f.prevhash);
  }

  /** Whatever both accept, the codec and the lane build the same header if and
      only if the numbers hold no white space. */
  lemma BuildersAgreeExactly(intHex: string -> Option<int>, f: Fields)
    requires ReadsDigits(intHex) && CodecHeader(f).Some? && Clean(f.nonce, 8)
    requires LaneHeader(intHex, f, IntHex(f.nonce)).Some?
    ensures LaneHeader(intHex, f, IntHex(f.nonce)) == CodecHeader(f) <==>
            Spaces(f.version) + Spaces(f.ntime) + Spaces(f.nbits) == 0
  {
    if Spaces(f.version) + Spaces(f.ntime) + Spaces(f.nbits) == 0 {
      SpacelessIsNumeric(f);
      FitsFour(f.nonce);
      CodecLayout(f);
      LaneLayout(intHex, f, IntHex(f.nonce));
    } else {
      CodecHeaderLength(f);
      LaneLength(intHex, f, IntHex(f.nonce));
    }
  }

  lemma {:induction false} NoSpaces(s: string)
    requires Clean(s, |s|)
    ensures Spaces(s) == 0
    decreases |s|
  {
    if s != "" {
      NoSpaces(s[1..]);
    }
  }

  /** Text that decodes and holds no white space is digits. */
  lemma {:induction false} SpacelessIsClean(s: string)
    requires FromHex(s).Some? && Spaces(s) == 0
    ensures Clean(s, |s|)
    decreases |s|
  {
    if s != "" {
      assert s[1..][1..] == s[2..];
      SpacelessIsClean(s[2..]);
    }
  }

  lemma {:induction false} IntHexBound(s: string)
    requires Clean(s, |s|)
    ensures IntHex(s) < Power16(|s|)
    decreases |s|
  {
    if s != "" {
      IntHexBound(s[..|s| - 1]);
    }
  }

  lemma FitsFour(s: string)
    requires Clean(s, 8)
    ensures IntHex(s) < 0x1_0000_0000
  {
    IntHexBound(s);
    Sixteens();
  }

  lemma {:induction false} ReverseWordsLength(data: Bytes, i: nat)
    requires |data| <= 32 && i <= 32 && i % 4 == 0
    ensures |ReverseWords(data, i)| == if i < |data| then |data| - i else 0
    decreases 32 - i
  {
    if i < 32 {
      ReverseWordsLength(data, i + 4);
    }
  }

  lemma LaneLength(intHex: string -> Option<int>, f: Fields, nonce: nat)
    requires Validated(f.prevhash, 64) && |f.root| == 32 && LaneHeader(intHex, f, nonce).Some?
    ensures 2 * |LaneHeader(intHex, f, nonce).value| + Spaces(f.prevhash) == 160
  {
    DecodedLength(f.prevhash);
    ReverseWordsLength(FromHex(f.prevhash).value, 0);
  }

  function TextSpaces(f: Fields): nat {
    Spaces(f.version) + (Spaces(f.prevhash) + (Spaces(f.ntime) + (Spaces(f.nbits) + Spaces(f.nonce))))
  }

  predicate AllValidated(f: Fields) {
    && Validated(f.version, 8) && Validated(f.prevhash, 64) && Validated(f.ntime, 8) && Validated(f.nbits, 8)
    && Validated(f.nonce, 8) && |f.root| == 32
  }

  lemma DisplayLength(f: Fields)
    requires AllValidated(f)
    ensures FromHex(Text(f)).Some? && 2 * |FromHex(Text(f)).value| + TextSpaces(f) == 160
  {
    DisplayBytes(f);
    DecodedLength(f.version);
    DecodedLength(f.prevhash);
    DecodedLength(f.ntime);
    DecodedLength(f.nbits);
    DecodedLength(f.nonce);
  }

  /** A field the codec checks may hold white space, which decodes to nothing:
      what it builds is short by half of it, so it is a whole header exactly
      when there is none. */
  lemma CodecHeaderLength(f: Fields)
    requires CodecHeader(f).Some?
    ensures 2 * |CodecHeader(f).value| + TextSpaces(f) == 160
    ensures |CodecHeader(f).value| == 80 <==> TextSpaces(f) == 0
  {
    DisplayLength(f);
  }

  /** Fields that pass their own checks make a header exactly when their white
      space leaves whole words: any other amount the word flip refuses. */
  lemma CodecAcceptsExactly(f: Fields)
    requires AllValidated(f)
    ensures CodecHeader(f).Some? <==> TextSpaces(f) % 8 == 0
  {
    DisplayLength(f);
  }

  const GAPPED := "00  00  "

  lemma GapDecodes(s: string)
    requires |s| >= 4 && s[0] == '0' && s[1] == '0' && IsSpace(s[2]) && IsSpace(s[3]) && FromHex(s[4..]).Some?
    ensures FromHex(s) == Some([0] + FromHex(s[4..]).value)
    ensures Spaces(s) == 2 + Spaces(s[4..])
  {
    assert s[2..][1..] == s[3..] && s[3..][1..] == s[4..] && s[1..][1..] == s[2..];
    assert s[1..][0] == s[1] && s[2..][0] == s[2] && s[3..][0] == s[3];
    FromHexStep(s);
    assert Spaces(s) == Spaces(s[1..]);
    assert Spaces(s[1..]) == Spaces(s[2..]);
    assert Spaces(s[2..]) == 1 + Spaces(s[3..]);
  }

  lemma GappedDecodes()
    ensures FromHex(GAPPED) == Some([0, 0]) && Spaces(GAPPED) == 4
  {
    var rest := GAPPED[4..];
    assert rest == "00  " && rest[4..] == "" && FromHex("") == Some([]);
    GapDecodes(rest);
    GapDecodes(GAPPED);
    assert [0 as byte] + ([0] + []) == [0, 0];
  }

  function Zeros(n: nat): (b: Bytes)
    ensures |b| == n
  {
    seq(n, i => 0)
  }

  function GappedFields(): Fields {
    Fields(ToHex(Zeros(4)), ToHex(Zeros(32)), Zeros(32), GAPPED, ToHex(Zeros(4)), GAPPED)
  }

  lemma HexHasNoSpaces(b: Bytes)
    ensures Spaces(ToHex(b)) == 0
  {
    HexIsClean(b);
    NoSpaces(ToHex(b));
  }

  lemma HexIsValidated(b: Bytes, chars: nat)
    requires chars == 2 * |b|
    ensures Validated(ToHex(b), chars)
  {
    HexRoundTrip(b);
    HexIsClean(b);
    DecodedIsValidated(ToHex(b), b);
  }

  lemma DecodedIsValidated(s: string, b: Bytes)
    requires |s| == 2 * |b| && FromHex(s) == Some(b)
    ensures Validated(s, 2 * |b|)
  {
  }

  lemma GappedIsValidated()
    ensures AllValidated(GappedFields()) && TextSpaces(GappedFields()) == 8
  {
    GappedDecodes();
    HexIsValidated(Zeros(4), 8);
    HexIsValidated(Zeros(32), 64);
    HexHasNoSpaces(Zeros(4));
    HexHasNoSpaces(Zeros(32));
  }

  /** Such fields exist: with white space in two of them, 76 bytes are built. */
  lemma ShortHeader()
    ensures CodecHeader(GappedFields()).Some? && |CodecHeader(GappedFields()).value| == 76
  {
    GappedIsValidated();
    Shortened(GappedFields());
  }

  lemma Shortened(f: Fields)
    requires AllValidated(f) && TextSpaces(f) == 8
    ensures CodecHeader(f).Some? && |CodecHeader(f).value| == 76
  {
    CodecAcceptsExactly(f);
    CodecHeaderLength(f);
  }

  // ----- The previous hash

  /** The notify's previous hash for a display hash. */
  function StratumPrevhash(display: string): Option<string> {
    if !Validated(display, 64) then None else
    var serialized := Reversed(FromHex(display).value);
    if |serialized| % 4 != 0 then None else Some(ToHex(Flip(serialized)))
  }

  /** With the previous hash a notify carries, the header holds the display
      hash reversed, as Bitcoin serializes it. */
  lemma PrevhashSerializes(f: Fields, display: string)
    requires Clean(display, 64) && StratumPrevhash(display) == Some(f.prevhash)
    requires Clean(f.version, 8) && Clean(f.ntime, 8) && Clean(f.nbits, 8) && Clean(f.nonce, 8) && |f.root| == 32
    ensures Plain(f) && Numeric(f) && FromHex(display).Some? && Previous(f) == Reversed(FromHex(display).value)
    ensures CodecHeader(f) == Some(Prefix(f) + LittleEndian(IntHex(f.nonce), 4))
  {
    PrevhashDecodes(display);
    PlainIsNumeric(f);
    CodecLayout(f);
  }

  lemma PrevhashDecodes(display: string)
    requires Clean(display, 64)
    ensures FromHex(display).Some? && StratumPrevhash(display).Some?
    ensures var p := StratumPrevhash(display).value;
            Clean(p, 64) && FromHex(p).Some? && Flip(FromHex(p).value) == Reversed(FromHex(display).value)
  {
    CleanDecodes(display);
    FlippedText(Reversed(FromHex(display).value));
  }

  lemma FlippedText(data: Bytes)
    requires |data| % 4 == 0
    ensures Clean(ToHex(Flip(data)), 2 * |data|) && FromHex(ToHex(Flip(data))) == Some(Flip(data))
    ensures Flip(Flip(data)) == data
  {
    HexRoundTrip(Flip(data));
    HexIsClean(Flip(data));
    FlipTwice(data);
  }

  lemma {:induction false} HexIsClean(b: Bytes)
    ensures Clean(ToHex(b), 2 * |b|)
    decreases |b|
  {
    if b != [] {
      HexIsClean(b[1..]);
    }
  }

  // ----- Solving a share

  /** header[76:80] = nonce: the bytes there are replaced, and a header that
      ends before them grows. */
  function PutNonce(header: Bytes, nonce: nat): Bytes {
    var from, end := if |header| < 76 then |header| else 76, if |header| < 80 then |header| else 80;
    header[..from] + (LittleEndian(nonce, 4) + header[end..])
  }

  /** The header hashed for `nonce`: written over what the nonces before it
      left. */
  function HashedFor(zero: Bytes, nonce: nat): Bytes {
    PutNonce(if nonce == 0 then zero else HashedFor(zero, nonce - 1), nonce)
  }

  const ZERO := "00000000"

  /** The fields as the miner assembles them, and as the server does. */
  function Blank(f: Fields): Fields { f.(nonce := ZERO) }

  function Submitted(f: Fields, nonce: nat): Fields { f.(nonce := HexDigits(nonce, 8)) }

  lemma {:induction false} HashedWhole(zero: Bytes, nonce: nat)
    requires |zero| == 80
    ensures HashedFor(zero, nonce) == zero[..76] + LittleEndian(nonce, 4)
    decreases nonce
  {
    if nonce > 0 {
      HashedWhole(zero, nonce - 1);
    }
  }

  /** A short header only grows. */
  lemma {:induction false} HashedGrows(zero: Bytes, nonce: nat)
    requires |zero| <= 76
    ensures |HashedFor(zero, nonce)| >= |zero| + 4
    decreases nonce
  {
    if nonce > 0 {
      HashedGrows(zero, nonce - 1);
    }
  }

  /** The header the miner hashes for a nonce is the header the server rebuilds
      from the nonce it submits. */
  lemma NonceRebuilds(f: Fields, nonce: nat)
    requires Plain(Blank(f)) && nonce < 0x1_0000_0000
    ensures var zero := MinerHeader(Blank(f));
            zero.Some? && |zero.value| == 80 && CodecHeader(Submitted(f, nonce)) == Some(HashedFor(zero.value, nonce))
  {
    var zero, mine := Blank(f), Submitted(f, nonce);
    PlainIsNumeric(zero);
    Sixteens();
    DigitsOf(nonce, 8);
    CodecLayout(zero);
    CodecLayout(mine);
    assert Prefix(mine) == Prefix(zero);
    assert MinerHeader(zero).value[..76] == Prefix(zero);
    HashedWhole(MinerHeader(zero).value, nonce);
  }

  lemma Sixteens()
    ensures Power16(8) == 0x1_0000_0000
  {
    assert Power16(2) == 256;
    assert Power16(4) == 65536;
    assert Power16(6) == 0x100_0000;
  }

  /** Checked fields are plain exactly when they hold no white space. */
  lemma PlainExactly(f: Fields)
    ensures Plain(f) <==> AllValidated(f) && TextSpaces(f) == 0
  {
    if Plain(f) {
      PlainIsNumeric(f);
      NumericIsValidated(f);
      NoSpaces(f.prevhash);
    } else if AllValidated(f) && TextSpaces(f) == 0 {
      SpacelessIsClean(f.version);
      SpacelessIsClean(f.prevhash);
      SpacelessIsClean(f.ntime);
      SpacelessIsClean(f.nbits);
      SpacelessIsClean(f.nonce);
    }
  }

  lemma NonceIsPlain(s: string)
    requires Clean(s, 8)
    ensures Validated(s, 8) && Spaces(s) == 0
  {
    CleanDecodes(s);
    NoSpaces(s);
  }

  /** No nonce passes the checks any differently. */
  lemma SameChecks(f: Fields, nonce: nat)
    ensures AllValidated(Submitted(f, nonce)) <==> AllValidated(Blank(f))
    ensures TextSpaces(Submitted(f, nonce)) == TextSpaces(Blank(f))
  {
    NonceIsPlain(ZERO);
    NonceIsPlain(HexDigits(nonce, 8));
  }

  /** White space makes the server's header shorter than what the miner hashes. */
  lemma ShortIsOther(f: Fields, nonce: nat)
    requires AllValidated(Blank(f)) && TextSpaces(Blank(f)) > 0 && MinerHeader(Blank(f)).Some?
    ensures CodecHeader(Submitted(f, nonce)) != Some(HashedFor(MinerHeader(Blank(f)).value, nonce))
  {
    var zero, mine := Blank(f), Submitted(f, nonce);
    SameChecks(f, nonce);
    if CodecHeader(mine).Some? {
      CodecAcceptsExactly(mine);
      CodecAcceptsExactly(zero);
      CodecHeaderLength(mine);
      CodecHeaderLength(zero);
      MinerAgrees(zero);
      HashedGrows(MinerHeader(zero).value, nonce);
    }
  }

  /** The server rebuilds, from the share with this nonce, what the miner hashed. */
  ghost predicate Rebuilds(f: Fields, nonce: nat) {
    var zero := MinerHeader(Blank(f));
    zero.Some? && CodecHeader(Submitted(f, nonce)) == Some(HashedFor(zero.value, nonce))
  }

  /** Whenever the miner builds a header at all, the server rebuilds the one it
      hashes if and only if the fields are plain: whole, and without white
      space. */
  lemma RebuildsExactly(f: Fields, nonce: nat)
    requires MinerHeader(Blank(f)).Some? && nonce < 0x1_0000_0000
    ensures Rebuilds(f, nonce) <==> Plain(Blank(f))
  {
    if Plain(Blank(f)) {
      NonceRebuilds(f, nonce);
    } else {
      SameChecks(f, nonce);
      PlainExactly(Blank(f));
      if AllValidated(Blank(f)) {
        ShortIsOther(f, nonce);
      }
    }
  }

  predicate Meets(hash: Bytes -> Bytes, header: Bytes, target: nat) {
    FromLittleEndian(hash(header)) <= target
  }

  /** The miner would submit `nonce`. */
  ghost predicate MinerMeets(hash: Bytes -> Bytes, f: Fields, nonce: nat, target: nat) {
    var zero := MinerHeader(Blank(f));
    zero.Some? && Meets(hash, HashedFor(zero.value, nonce), target)
  }

  /** The share a miner would submit for `nonce` meets the target, on the
      header the server rebuilds. */
  ghost predicate ServerMeets(hash: Bytes -> Bytes, f: Fields, nonce: nat, target: nat) {
    var h := CodecHeader(Submitted(f, nonce));
    h.Some? && Meets(hash, h.value, target)
  }

  lemma ServerMeetsIs(hash: Bytes -> Bytes, f: Fields, nonce: nat, target: nat)
    requires Plain(Blank(f)) && nonce < 0x1_0000_0000
    ensures ServerMeets(hash, f, nonce, target) <==> MinerMeets(hash, f, nonce, target)
  {
    NonceRebuilds(f, nonce);
  }

  /** Tries nonces on the miner's header until one meets the target, the range
      is done, or the deadline passed at a check. */
  method SolveNonce(hash: Bytes -> Bytes, zero: Bytes, target: nat, expired: nat -> bool) returns (nonce: Option<nat>)
    ensures nonce.Some? ==> nonce.value < 0x1_0000_0000 && Meets(hash, HashedFor(zero, nonce.value), target)
    ensures nonce.Some? ==> forall n: nat :: n < nonce.value ==> !Meets(hash, HashedFor(zero, n), target)
    ensures nonce.None? && (forall k :: !expired(k)) ==>
              forall n: nat :: n < 0x1_0000_0000 ==> !Meets(hash, HashedFor(zero, n), target)
  {
    var header := zero;
    var n := 0;
    while n < 0x1_0000_0000
      invariant 0 <= n <= 0x1_0000_0000
      invariant header == if n == 0 then zero else HashedFor(zero, n - 1)
      invariant forall k: nat :: k < n ==> !Meets(hash, HashedFor(zero, k), target)
    {
      if n % 65536 == 0 && expired(n) {
        return None;
      }
      header := PutNonce(header, n);
      assert header == HashedFor(zero, n);
      if Meets(hash, header, target) {
        return Some(n);
      }
      n := n + 1;
    }
    return None;
  }

  /** What a search ends with: the fields do not decode, nothing was found, or
      something was. */
  datatype Search<T> = Raised | InVain | Found(value: T)

  /** For plain fields a nonce the miner found is one the server accepts, and a
      range it searched in vain holds none the server would. */
  method SolveShare(hash: Bytes -> Bytes, f: Fields, target: nat, expired: nat -> bool) returns (r: Search<nat>)
    ensures r.Raised? <==> MinerHeader(Blank(f)).None?
    ensures r.Found? ==> r.value < 0x1_0000_0000 && MinerMeets(hash, f, r.value, target)
    ensures r.InVain? && (forall k :: !expired(k)) ==>
              forall n: nat :: n < 0x1_0000_0000 ==> !MinerMeets(hash, f, n, target)
    ensures Plain(Blank(f)) ==> !r.Raised? && (r.Found? ==> ServerMeets(hash, f, r.value, target))
    ensures Plain(Blank(f)) && r.InVain? && (forall k :: !expired(k)) ==>
              forall n: nat :: n < 0x1_0000_0000 ==> !ServerMeets(hash, f, n, target)
  {
    var zero := MinerHeader(Blank(f));
    if Plain(Blank(f)) {
      forall n: nat | n < 0x1_0000_0000 ensures ServerMeets(hash, f, n, target) <==> MinerMeets(hash, f, n, target) {
        ServerMeetsIs(hash, f, n, target);
      }
      NonceRebuilds(f, 0);
    }
    if zero.None? {
      return Raised;
    }
    var nonce := SolveNonce(hash, zero.value, target, expired);
    r := if nonce.Some? then Found(nonce.value) else InVain;
  }
}
