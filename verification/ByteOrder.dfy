/** Bytes as numbers, and numbers as bytes. */
module ByteOrder {
  import opened Basics

  /** `n` as `k` bytes, lowest first; what does not fit is dropped. */
  function LittleEndian(n: nat, k: nat): (b: Bytes)
    ensures |b| == k
  {
    if k == 0 then [] else [(n % 256) as byte] + LittleEndian(n / 256, k - 1)
  }

  function FromLittleEndian(b: Bytes): nat {
    if b == [] then 0 else b[0] as nat + 256 * FromLittleEndian(b[1..])
  }

  function Reversed(b: Bytes): (r: Bytes)
    ensures |r| == |b|
    ensures forall i :: 0 <= i < |b| ==> r[i] == b[|b| - 1 - i]
  {
    seq(|b|, i requires 0 <= i < |b| => b[|b| - 1 - i])
  }

  lemma {:induction false} BytesAsNumber(b: Bytes)
    ensures LittleEndian(FromLittleEndian(b), |b|) == b
    decreases |b|
  {
    if b != [] {
      BytesAsNumber(b[1..]);
      var rest := FromLittleEndian(b[1..]);
      assert FromLittleEndian(b) % 256 == b[0] as nat && FromLittleEndian(b) / 256 == rest;
    }
  }

  lemma ReversedTwice(b: Bytes)
    ensures Reversed(Reversed(b)) == b
  {
  }
}
