/**
 The folded checksum of a message: a one's-complement sum, in the arithmetic of section 1 of RFC 1071, over the
 header fields, the command and the payload words.
 */
module Checksum {

  type byte = x: int | 0 <= x < 0x100
  type u16 = x: int | 0 <= x < 0x1_0000
  type u32 = x: int | 0 <= x < 0x1_0000_0000

  /** What a message carries besides its length and checksum. */
  datatype Content = Content(
    magic: byte, version: byte, flags: byte, seqNo: u16, timestamp: u32, cmd: u16, payload: seq<byte>)

  /** Sum of the big-endian words of `p` from index `i`; an odd last byte counts as a high byte. */
  function SumFrom(p: seq<byte>, i: nat): nat
    requires i <= |p|
    decreases |p| - i
  {
    if i == |p| then 0
    else if i == |p| - 1 then p[i] * 0x100
    else p[i] * 0x100 + p[i + 1] + SumFrom(p, i + 2)
  }

  function HeaderSum(c: Content, len: u16): nat {
    c.magic + c.version + c.flags + c.seqNo + c.timestamp / 0x1_0000 + c.timestamp % 0x1_0000 + len + c.cmd
  }

  /** The exact sum, before it is kept in 32 bits. */
  function WordSum(c: Content, len: u16): nat {
    HeaderSum(c, len) + SumFrom(c.payload, 0)
  }

  function Fold(s: nat): nat {
    if s / 0x1_0000 > 0 then Fold(s % 0x1_0000 + s / 0x1_0000) else s
  }

  function ChecksumOf(c: Content, len: u16): u16 {
    FoldRange(WordSum(c, len) % 0x1_0000_0000);
    0xFFFF - Fold(WordSum(c, len) % 0x1_0000_0000)
  }

  lemma {:induction false} FoldRange(s: nat)
    ensures Fold(s) < 0x1_0000
  {
    if s / 0x1_0000 > 0 {
      FoldRange(s % 0x1_0000 + s / 0x1_0000);
    }
  }

  /** Folding a positive sum yields the one value in 1..65535 congruent to it modulo 65535. */
  lemma {:induction false} FoldIsResidue(s: nat)
    ensures Fold(s) == if s == 0 then 0 else (s - 1) % 0xFFFF + 1
  {
    if s / 0x1_0000 > 0 {
      var t := s % 0x1_0000 + s / 0x1_0000;
      FoldIsResidue(t);
      assert s - 1 == (t - 1) + (s / 0x1_0000) * 0xFFFF;
      AddMultiple(t - 1, s / 0x1_0000);
    }
  }

  lemma {:induction false} AddMultiple(a: int, k: nat)
    ensures (a + k * 0xFFFF) % 0xFFFF == a % 0xFFFF
  {
    if k > 0 {
      AddMultiple(a, k - 1);
      assert a + k * 0xFFFF == (a + (k - 1) * 0xFFFF) + 0xFFFF;
    }
  }

  lemma {:induction false} SumBound(p: seq<byte>, i: nat)
    requires i <= |p|
    ensures SumFrom(p, i) <= 0xFFFF * ((|p| - i + 1) / 2)
    decreases |p| - i
  {
    if i + 2 <= |p| {
      SumBound(p, i + 2);
    }
  }

  /** For payloads up to 65535 bytes the 32-bit accumulator never wraps. */
  lemma SumFits(c: Content, len: u16)
    requires |c.payload| <= 0xFFFF
    ensures WordSum(c, len) < 0x1_0000_0000
  {
    SumBound(c.payload, 0);
  }

  /** The sum as the 32-bit accumulator holds it. */
  function Sum32(c: Content, len: u16): u32 {
    WordSum(c, len) % 0x1_0000_0000
  }

  // ----- what number the checksum is -----

  /** A checksum makes the sum up to all ones; of the two ways to add nothing, all bits set stands for an empty sum. */
  predicate Completes(sum: nat, checksum: u16) {
    Fold(sum + checksum) == 0xFFFF && (checksum == 0xFFFF ==> sum == 0)
  }

  /** The law determines the number. */
  lemma CompletesOnce(sum: nat, checksum: u16)
    ensures Completes(sum, checksum) <==> checksum == 0xFFFF - Fold(sum)
  {
    if sum == 0 {
      FoldIsResidue(checksum);
    } else {
      FoldAdd(sum, checksum);
      OneRound(Fold(sum), checksum);
    }
  }

  /** What is already folded may be added to before folding on. */
  lemma FoldAdd(sum: nat, x: nat)
    requires sum > 0
    ensures 1 <= Fold(sum) <= 0xFFFF && Fold(sum + x) == Fold(Fold(sum) + x)
  {
    FoldIsResidue(sum);
    FoldIsResidue(sum + x);
    FoldIsResidue(Fold(sum) + x);
    SumResidue(sum - 1, x);
  }

  lemma SumResidue(a: nat, x: nat)
    ensures (a + x) % 0xFFFF == (a % 0xFFFF + x) % 0xFFFF
  {
    assert a + x == (a % 0xFFFF + x) + (a / 0xFFFF) * 0xFFFF;
    AddMultiple(a % 0xFFFF + x, a / 0xFFFF);
  }

  lemma OneRound(r: int, x: u16)
    requires 1 <= r <= 0xFFFF
    ensures Fold(r + x) == 0xFFFF && x != 0xFFFF <==> x == 0xFFFF - r
  {
    FoldIsResidue(r + x);
  }

  /** The one's complement: added to the 32-bit sum the checksum of any content folds to all ones, and no other does. */
  lemma ChecksumCompletes(c: Content, len: u16, checksum: u16)
    ensures Completes(Sum32(c, len), checksum) <==> checksum == ChecksumOf(c, len)
    ensures Fold(Sum32(c, len) + ChecksumOf(c, len)) == 0xFFFF
  {
    CompletesOnce(Sum32(c, len), checksum);
    CompletesOnce(Sum32(c, len), ChecksumOf(c, len));
  }

  /** Equal modulo 65535, and zero only together: what a folded sum can tell apart. */
  predicate Alike(a: nat, b: nat) {
    (a == 0 <==> b == 0) && (a - b) % 0xFFFF == 0
  }

  lemma SameFold(a: nat, b: nat)
    ensures Fold(a) == Fold(b) <==> Alike(a, b)
  {
    FoldIsResidue(a);
    FoldIsResidue(b);
    SameResidue(a - 1, b - 1);
  }

  lemma SameResidue(a: int, b: int)
    ensures a % 0xFFFF == b % 0xFFFF <==> (a - b) % 0xFFFF == 0
  {
  }

  /** Two messages of any length have the same checksum exactly when their accumulators are alike. */
  lemma SameChecksum32(c: Content, len: u16, d: Content, len': u16)
    ensures ChecksumOf(c, len) == ChecksumOf(d, len') <==> Alike(Sum32(c, len), Sum32(d, len'))
  {
    SameFold(Sum32(c, len), Sum32(d, len'));
  }

  /** With payloads up to 65535 bytes: exactly when their exact sums agree modulo 65535. */
  lemma SameChecksum(c: Content, len: u16, d: Content, len': u16)
    requires |c.payload| <= 0xFFFF && |d.payload| <= 0xFFFF && c.magic > 0 && d.magic > 0
    ensures ChecksumOf(c, len) == ChecksumOf(d, len') <==> (WordSum(c, len) - WordSum(d, len')) % 0xFFFF == 0
  {
    SumFits(c, len);
    SumFits(d, len');
    SameChecksum32(c, len, d, len');
  }

  // ----- changing one summand -----

  /** A change of less than 65534 shows in the folded sum, even when the 32-bit accumulator wraps. */
  lemma SmallChangeShows(x: nat, y: nat)
    requires x != y && -0xFFFE < x - y < 0xFFFE
    ensures !Alike(x % 0x1_0000_0000, y % 0x1_0000_0000)
  {
    WrapResidue(x, y);
  }

  /** What the two remainders differ by, modulo 65535: the change, less one for a wrap. */
  lemma WrapResidue(x: nat, y: nat)
    requires -0x1_0000 < x - y < 0x1_0000
    ensures var a, b, k := x % 0x1_0000_0000, y % 0x1_0000_0000, x / 0x1_0000_0000 - y / 0x1_0000_0000;
      && a - b == (x - y) - k * 0x1_0000_0000 && -1 <= k <= 1
      && ((a - b) % 0xFFFF == 0 <==> (x - y) - k in {0, 0xFFFF, -0xFFFF})
  {
    var a, b, k := x % 0x1_0000_0000, y % 0x1_0000_0000, x / 0x1_0000_0000 - y / 0x1_0000_0000;
    assert a - b == ((x - y) - k) - (k * 0x1_0001) * 0xFFFF;
  }

  /** One word has all bits clear and the other all bits set. */
  predicate AllFlips(x: u16, y: u16) {
    (x == 0 && y == 0xFFFF) || (x == 0xFFFF && y == 0)
  }

  /** Adding 65535 to this much neither wraps nor starts from zero. */
  predicate Roomy(rest: nat) {
    0 < rest % 0x1_0000_0000 < 0x1_0000_0000 - 0xFFFF
  }

  /** One word among others goes unnoticed exactly when 0x0000 and 0xFFFF are exchanged and the others leave room. */
  lemma WordChangeShows(rest: nat, a: u16, b: u16)
    requires a != b
    ensures Alike((rest + a) % 0x1_0000_0000, (rest + b) % 0x1_0000_0000) <==> AllFlips(a, b) && Roomy(rest)
  {
    WrapResidue(rest + a, rest + b);
  }
}
