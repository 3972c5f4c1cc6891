/** Byte strings: little-endian numbers, and strings cut into consecutive parts. */
module Bytes {
  import opened FixedPoint

  type Blob = seq<u8>

  function Zeros(n: nat): (b: Blob)
    ensures |b| == n
  {
    seq(n, _ => 0)
  }

  // ---------- little-endian numbers ----------

  function LeValue(bytes: Blob): nat {
    if bytes == [] then 0 else bytes[0] + 256 * LeValue(bytes[1..])
  }

  function LeBytes(n: nat, width: nat): (bytes: Blob)
    ensures |bytes| == width
  {
    if width == 0 then [] else [n % 256] + LeBytes(n / 256, width - 1)
  }

  function Pow256(k: nat): (p: nat)
    ensures p > 0
  {
    if k == 0 then 1 else 256 * Pow256(k - 1)
  }

  lemma {:induction false} ValueFits(bytes: Blob)
    ensures LeValue(bytes) < Pow256(|bytes|)
  {
    if bytes != [] { ValueFits(bytes[1..]); }
  }

  lemma {:induction false} ValueOfBytes(n: nat, width: nat)
    requires n < Pow256(width)
    ensures LeValue(LeBytes(n, width)) == n
    decreases width
  {
    if width > 0 { ValueOfBytes(n / 256, width - 1); }
  }

  lemma {:induction false} BytesOfValue(bytes: Blob)
    ensures LeBytes(LeValue(bytes), |bytes|) == bytes
  {
    if bytes != [] {
      var rest := LeValue(bytes[1..]);
      assert (bytes[0] + 256 * rest) % 256 == bytes[0] && (bytes[0] + 256 * rest) / 256 == rest;
      BytesOfValue(bytes[1..]);
    }
  }

  lemma EightBytes()
    ensures Pow256(8) == U64_MAX + 1
  {
    assert Pow256(4) == 0x1_0000_0000;
    assert Pow256(6) == 0x1_0000_0000_0000;
  }

  // ---------- parts ----------

  function Concat(parts: seq<Blob>): Blob {
    if parts == [] then [] else Concat(parts[..|parts| - 1]) + parts[|parts| - 1]
  }

  lemma ConcatAppends(parts: seq<Blob>, part: Blob)
    ensures Concat(parts + [part]) == Concat(parts) + part
  {
    assert (parts + [part])[..|parts|] == parts;
  }

  /** Where part `i` begins. */
  function Offset(parts: seq<Blob>, i: nat): nat
    requires i <= |parts|
  {
    |Concat(parts[..i])|
  }

  lemma NextOffset(parts: seq<Blob>, i: nat)
    requires i < |parts|
    ensures Offset(parts, i + 1) == Offset(parts, i) + |parts[i]|
  {
    assert parts[..i + 1][..i] == parts[..i];
  }

  lemma {:induction false} PrefixOfConcat(parts: seq<Blob>, i: nat)
    requires i <= |parts|
    ensures Offset(parts, i) <= |Concat(parts)| && Concat(parts)[..Offset(parts, i)] == Concat(parts[..i])
    decreases |parts|
  {
    if i < |parts| {
      var n := |parts| - 1;
      assert parts[..n][..i] == parts[..i];
      PrefixOfConcat(parts[..n], i);
    } else {
      assert parts[..i] == parts;
    }
  }

  /** Every part is found at its offset. */
  lemma PartAt(parts: seq<Blob>, i: nat)
    requires i < |parts|
    ensures Offset(parts, i + 1) == Offset(parts, i) + |parts[i]| <= |Concat(parts)|
    ensures Concat(parts)[Offset(parts, i)..Offset(parts, i + 1)] == parts[i]
  {
    NextOffset(parts, i);
    PrefixOfConcat(parts, i + 1);
    var front := Concat(parts[..i + 1]);
    assert parts[..i + 1][..i] == parts[..i];
    assert front == Concat(parts[..i]) + parts[i];
    assert Concat(parts)[..Offset(parts, i + 1)][Offset(parts, i)..] == front[Offset(parts, i)..];
  }

  /** A string that begins with some parts, and then with one more. */
  lemma NextPart(data: Blob, parts: seq<Blob>, part: Blob, at: nat)
    requires at + |part| <= |data| && Concat(parts) == data[..at] && data[at..at + |part|] == part
    ensures Concat(parts + [part]) == data[..at + |part|]
  {
    assert (parts + [part])[..|parts|] == parts;
  }
}
