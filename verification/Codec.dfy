/** Frames: the bytes a message is packed into, and the two readers. */
module Codec {
  import opened Checksum

  const HEADER_LEN := 13
  const MAGIC := 0x12

  datatype Error = ShortHeader | BadMagic | ShortCmd | ShortPayload | BadChecksum | OddFourteen
  datatype Result<T> = Ok(value: T) | Err(error: Error)

  /** A parsed frame: its content, the length and checksum fields it carried, and how many bytes it took. */
  datatype Parsed = Parsed(content: Content, len: u16, checksum: u16, size: nat)

  function U16(x: u16): seq<byte> {
    [x / 0x100, x % 0x100]
  }

  function U32(x: u32): seq<byte> {
    U16(x / 0x1_0000) + U16(x % 0x1_0000)
  }

  function Word(s: seq<byte>, i: nat): u16
    requires i + 2 <= |s|
  {
    (s[i] as int) * 0x100 + s[i + 1]
  }

  /** The length field keeps the low 16 bits of the payload length. */
  function LenField(c: Content): u16 {
    |c.payload| % 0x1_0000
  }

  function Head(c: Content, len: u16, checksum: u16): seq<byte> {
    [c.magic, c.version, c.flags] + U16(c.seqNo) + U32(c.timestamp) + U16(len) + U16(checksum) + U16(c.cmd)
  }

  /** The bytes of a packed message. */
  function Frame(c: Content): seq<byte> {
    Head(c, LenField(c), ChecksumOf(c, LenField(c))) + c.payload
  }

  function ContentAt(s: seq<byte>, payload: seq<byte>): Content
    requires |s| >= 15
  {
    Content(s[0], s[1], s[2], Word(s, 3), Word(s, 5) * 0x1_0000 + Word(s, 7), Word(s, 13), payload)
  }

  /** The stream reader: fixed header, command, then as many payload bytes as the length field says. */
  function TcpParse(s: seq<byte>): Result<Parsed> {
    if |s| < HEADER_LEN then Err(ShortHeader)
    else if s[0] != MAGIC then Err(BadMagic)
    else if |s| < 15 then Err(ShortCmd)
    else if |s| < 15 + Word(s, 9) then Err(ShortPayload)
    else
      var c := ContentAt(s, s[15..15 + Word(s, 9)]);
      if Word(s, 11) != ChecksumOf(c, Word(s, 9)) then Err(BadChecksum)
      else Ok(Parsed(c, Word(s, 9), Word(s, 11), 15 + Word(s, 9)))
  }

  /** The datagram reader: everything after the command is payload, whatever the length field says. */
  function WsParse(s: seq<byte>): Result<Parsed> {
    if |s| < HEADER_LEN then Err(ShortHeader)
    else if s[0] != MAGIC then Err(BadMagic)
    else if |s| == 14 then Err(OddFourteen)
    else
      var c := if |s| > HEADER_LEN then ContentAt(s, s[15..])
               else Content(s[0], s[1], s[2], Word(s, 3), Word(s, 5) * 0x1_0000 + Word(s, 7), 0, []);
      if Word(s, 11) != ChecksumOf(c, Word(s, 9)) then Err(BadChecksum)
      else Ok(Parsed(c, Word(s, 9), Word(s, 11), |s|))
  }

  // ----- round trips -----

  lemma FrameFields(c: Content, rest: seq<byte>)
    ensures var s := Frame(c) + rest;
      && s[0] == c.magic
      && |Frame(c)| == 15 + |c.payload|
      && ContentAt(s, c.payload) == c
      && Word(s, 9) == LenField(c) && Word(s, 11) == ChecksumOf(c, LenField(c))
      && s[15..15 + |c.payload|] == c.payload && s[15..] == c.payload + rest
  {
    var t := c.timestamp;
    assert (t / 0x1_0000) * 0x1_0000 + t % 0x1_0000 == t;
  }

  // ----- the layout, byte by byte -----

  /** These bytes carry this content: single bytes, then big-endian numbers of two and four bytes, then the payload. */
  predicate Carries(s: seq<byte>, c: Content) {
    && |s| == 15 + |c.payload| && s[15..] == c.payload
    && s[0] == c.magic && s[1] == c.version && s[2] == c.flags
    && (s[3] as int) * 0x100 + s[4] == c.seqNo
    && (s[5] as int) * 0x100_0000 + (s[6] as int) * 0x1_0000 + (s[7] as int) * 0x100 + s[8] == c.timestamp
    && (s[13] as int) * 0x100 + s[14] == c.cmd
  }

  /** Where everything is in a packed message. */
  lemma FrameLayout(c: Content)
    ensures var s := Frame(c);
      && Carries(s, c)
      && (s[9] as int) * 0x100 + s[10] == |c.payload| % 0x1_0000
      && (s[11] as int) * 0x100 + s[12] == ChecksumOf(c, |c.payload| % 0x1_0000)
  {
    FrameFields(c, []);
    assert Frame(c) + [] == Frame(c);
  }

  /** Where the readers take everything from. */
  lemma ReadLayout(s: seq<byte>)
    ensures TcpParse(s).Ok? ==> var p := TcpParse(s).value;
      && p.len == (s[9] as int) * 0x100 + s[10] && p.size == 15 + p.len <= |s| && Carries(s[..p.size], p.content)
    ensures WsParse(s).Ok? && |s| >= 15 ==> var p := WsParse(s).value;
      && p.len == (s[9] as int) * 0x100 + s[10] && p.size == |s| && Carries(s, p.content)
  {
  }

  /** Reading a packed message gives back its content exactly when its magic is right and its length fits 16 bits. */
  lemma TcpRoundTrip(c: Content, rest: seq<byte>)
    ensures TcpParse(Frame(c) + rest) == Ok(Parsed(c, LenField(c), ChecksumOf(c, LenField(c)), |Frame(c)|))
      <==> c.magic == MAGIC && |c.payload| <= 0xFFFF
  {
    FrameFields(c, rest);
  }

  /** A frame that the stream reader accepts is, byte for byte, what packing its content would write. */
  lemma TcpRepack(s: seq<byte>)
    requires TcpParse(s).Ok?
    ensures var p := TcpParse(s).value;
      p.size <= |s| && Frame(p.content) == s[..p.size] && |p.content.payload| == p.len <= 0xFFFF
  {
    var p := TcpParse(s).value;
    var payload := s[15..p.size];
    assert |payload| == p.len && p.content == ContentAt(s, payload);
    FrameOfBytes(s, payload);
    assert s[..15] + payload == s[..p.size];
  }

  lemma FrameOfBytes(s: seq<byte>, payload: seq<byte>)
    requires |s| >= 15 && |payload| == Word(s, 9)
    requires Word(s, 11) == ChecksumOf(ContentAt(s, payload), Word(s, 9))
    ensures Frame(ContentAt(s, payload)) == s[..15] + payload
  {
    var c := ContentAt(s, payload);
    HeadOfBytes(s, payload);
    assert c.payload == payload && LenField(c) == Word(s, 9);
    assert Frame(c) == Head(c, Word(s, 9), Word(s, 11)) + payload;
  }

  lemma HeadOfBytes(s: seq<byte>, payload: seq<byte>)
    requires |s| >= 15
    ensures Head(ContentAt(s, payload), Word(s, 9), Word(s, 11)) == s[..15]
  {
    var t := Word(s, 5) * 0x1_0000 + Word(s, 7);
    assert t / 0x1_0000 == Word(s, 5) && t % 0x1_0000 == Word(s, 7);
    SplitWord(s, 3);
    SplitWord(s, 5);
    SplitWord(s, 7);
    SplitWord(s, 9);
    SplitWord(s, 11);
    SplitWord(s, 13);
    assert s[..15] == [s[0], s[1], s[2]] + s[3..5] + (s[5..7] + s[7..9]) + s[9..11] + s[11..13] + s[13..15];
  }

  lemma SplitWord(s: seq<byte>, i: nat)
    requires i + 2 <= |s|
    ensures U16(Word(s, i)) == s[i..i + 2]
  {
  }

  /** No strict prefix of a packed message is accepted. */
  lemma PrefixRejected(c: Content, k: nat)
    requires |c.payload| <= 0xFFFF && k < |Frame(c)|
    ensures !TcpParse(Frame(c)[..k]).Ok?
  {
    FrameFields(c, []);
    assert Frame(c) + [] == Frame(c);
    if k >= 15 {
      assert Word(Frame(c)[..k], 9) == Word(Frame(c), 9);
    }
  }

  /** A message the stream reader can return. */
  predicate Sendable(c: Content) {
    c.magic == MAGIC && |c.payload| <= 0xFFFF
  }

  function Stream(cs: seq<Content>): seq<byte> {
    if cs == [] then [] else Frame(cs[0]) + Stream(cs[1..])
  }

  /** `n` messages read one after the other, with the bytes left over. */
  function ReadMany(s: seq<byte>, n: nat): Result<(seq<Content>, seq<byte>)> {
    if n == 0 then Ok(([], s))
    else
      match TcpParse(s)
      case Err(e) => Err(e)
      case Ok(p) =>
        match ReadMany(s[p.size..], n - 1)
        case Err(e) => Err(e)
        case Ok((cs, rest)) => Ok(([p.content] + cs, rest))
  }

  lemma ReadOne(c: Content, tail: seq<byte>, n: nat)
    requires Sendable(c) && ReadMany(tail, n).Ok?
    ensures var (cs, rest) := ReadMany(tail, n).value;
      ReadMany(Frame(c) + tail, n + 1) == Ok(([c] + cs, rest))
  {
    TcpRoundTrip(c, tail);
    assert (Frame(c) + tail)[|Frame(c)|..] == tail;
  }

  /** A stream of packed messages reads back as the same messages in order, and nothing more is consumed. */
  lemma {:induction false} StreamRoundTrip(cs: seq<Content>, rest: seq<byte>)
    requires forall c | c in cs :: Sendable(c)
    ensures ReadMany(Stream(cs) + rest, |cs|) == Ok((cs, rest))
  {
    if cs == [] {
      assert Stream(cs) + rest == rest;
    } else {
      var tail := Stream(cs[1..]) + rest;
      assert Stream(cs) + rest == Frame(cs[0]) + tail;
      StreamRoundTrip(cs[1..], rest);
      assert Sendable(cs[0]);
      ReadOne(cs[0], tail, |cs| - 1);
      assert [cs[0]] + cs[1..] == cs;
    }
  }

  /** Whatever was read is what was sent: the bytes consumed are the packed messages. */
  lemma {:induction false} StreamRepack(s: seq<byte>, n: nat)
    requires ReadMany(s, n).Ok?
    ensures var (cs, rest) := ReadMany(s, n).value;
      |cs| == n && s == Stream(cs) + rest && forall c | c in cs :: Sendable(c)
  {
    if n > 0 {
      var p := TcpParse(s).value;
      StreamRepack(s[p.size..], n - 1);
      var (cs, rest) := ReadMany(s[p.size..], n - 1).value;
      StreamCons(s, cs, rest);
    }
  }

  lemma StreamCons(s: seq<byte>, cs: seq<Content>, rest: seq<byte>)
    requires TcpParse(s).Ok? && TcpParse(s).value.size <= |s| && s[TcpParse(s).value.size..] == Stream(cs) + rest
    ensures var c := TcpParse(s).value.content;
      Sendable(c) && s == Stream([c] + cs) + rest
  {
    TcpRepack(s);
    var p := TcpParse(s).value;
    assert s == s[..p.size] + s[p.size..];
    StreamPush(p.content, cs, rest);
  }

  lemma StreamPush(c: Content, cs: seq<Content>, rest: seq<byte>)
    ensures Frame(c) + (Stream(cs) + rest) == Stream([c] + cs) + rest
  {
    assert ([c] + cs)[1..] == cs;
  }

  /** The datagram reader gives back every packed message, of any length. */
  lemma WsRoundTrip(c: Content)
    ensures WsParse(Frame(c)).Ok? <==> c.magic == MAGIC
    ensures c.magic == MAGIC ==> WsParse(Frame(c)).value.content == c
  {
    FrameFields(c, []);
    assert Frame(c) + [] == Frame(c);
  }

  // ----- error detection by the datagram reader -----

  /** The sum the checksum is taken of, read off the bytes of a frame. */
  function FrameSum(s: seq<byte>): nat
    requires |s| >= 15
  {
    s[0] + s[1] + s[2] + Word(s, 3) + Word(s, 5) + Word(s, 7) + Word(s, 9) + Word(s, 13) + SumFrom(s, 15)
  }

  lemma {:induction false} SumShift(s: seq<byte>, k: nat, i: nat)
    requires k + i <= |s|
    ensures SumFrom(s[k..], i) == SumFrom(s, k + i)
    decreases |s| - i
  {
    if k + i + 2 <= |s| {
      SumShift(s, k, i + 2);
    }
  }

  lemma FrameSumIsWordSum(s: seq<byte>)
    requires |s| >= 15
    ensures FrameSum(s) == WordSum(ContentAt(s, s[15..]), Word(s, 9))
  {
    SumShift(s, 15, 0);
  }

  /** A frame is accepted exactly when its magic is right and its checksum field makes up its own sum to all ones. */
  lemma WsAcceptedIff(s: seq<byte>)
    requires |s| >= 15
    ensures WsParse(s).Ok? <==> s[0] == 0x12 && Completes(FrameSum(s) % 0x1_0000_0000, Word(s, 11))
  {
    FrameSumIsWordSum(s);
    ChecksumCompletes(ContentAt(s, s[15..]), Word(s, 9), Word(s, 11));
  }

  /** The stream reader accepts exactly a whole frame that the datagram reader would accept. */
  lemma TcpAcceptedIff(s: seq<byte>)
    ensures TcpParse(s).Ok? <==>
      && |s| >= 15 && |s| >= 15 + Word(s, 9)
      && s[0] == 0x12 && Completes(FrameSum(s[..15 + Word(s, 9)]) % 0x1_0000_0000, Word(s, 11))
  {
    if |s| >= 15 && |s| >= 15 + Word(s, 9) {
      var t := s[..15 + Word(s, 9)];
      assert t[15..] == s[15..15 + Word(s, 9)];
      WsAcceptedIff(t);
    }
  }

  /** A bare header, which the datagram reader takes for a message without command and payload. */
  lemma BareHeaderIff(s: seq<byte>)
    requires |s| == 13
    ensures WsParse(s).Ok? <==>
      s[0] == 0x12 &&
      Completes(s[0] + s[1] + s[2] + Word(s, 3) + Word(s, 5) + Word(s, 7) + Word(s, 9), Word(s, 11))
  {
    var c := Content(s[0], s[1], s[2], Word(s, 3), Word(s, 5) * 0x1_0000 + Word(s, 7), 0, []);
    TwoWords(Word(s, 5), Word(s, 7));
    assert WordSum(c, Word(s, 9)) == Sum32(c, Word(s, 9));
    ChecksumCompletes(c, Word(s, 9), Word(s, 11));
  }

  lemma TwoWords(high: u16, low: u16)
    ensures (high * 0x1_0000 + low) / 0x1_0000 == high && (high * 0x1_0000 + low) % 0x1_0000 == low
  {
  }

  /** Which error the readers report: what is missing first, then the magic, then the checksum. */
  lemma Rejections(s: seq<byte>)
    ensures TcpParse(s) == Err(ShortHeader) <==> |s| < 13
    ensures TcpParse(s) == Err(BadMagic) <==> |s| >= 13 && s[0] != 0x12
    ensures TcpParse(s) == Err(ShortCmd) <==> 13 <= |s| < 15 && s[0] == 0x12
    ensures TcpParse(s) == Err(ShortPayload) <==> |s| >= 15 && s[0] == 0x12 && |s| < 15 + Word(s, 9)
    ensures WsParse(s) == Err(ShortHeader) <==> |s| < 13
    ensures WsParse(s) == Err(BadMagic) <==> |s| >= 13 && s[0] != 0x12
    ensures !TcpParse(s).Ok? && |s| >= 15 && s[0] == 0x12 && |s| >= 15 + Word(s, 9) ==> TcpParse(s) == Err(BadChecksum)
    ensures !WsParse(s).Ok? && |s| >= 13 && |s| != 14 && s[0] == 0x12 ==> WsParse(s) == Err(BadChecksum)
  {
  }

  /** Of two frames with the same checksum field, if one is accepted the other is exactly when their sums are alike. */
  lemma AcceptedIffAlike(s: seq<byte>, t: seq<byte>)
    requires 15 <= |s| && 15 <= |t|
    requires WsParse(s).Ok? && t[0] == MAGIC && Word(t, 11) == Word(s, 11)
    ensures WsParse(t).Ok? <==> Alike(FrameSum(t) % 0x1_0000_0000, FrameSum(s) % 0x1_0000_0000)
  {
    FrameSumIsWordSum(s);
    FrameSumIsWordSum(t);
    SameChecksum32(ContentAt(t, t[15..]), Word(t, 9), ContentAt(s, s[15..]), Word(s, 9));
  }

  /** For payloads up to 65535 bytes, where no sum wraps: exactly when their sums are congruent modulo 65535. */
  lemma AcceptedIffCongruent(s: seq<byte>, t: seq<byte>)
    requires 15 <= |s| <= 15 + 0xFFFF && 15 <= |t| <= 15 + 0xFFFF
    requires WsParse(s).Ok? && t[0] == MAGIC && Word(t, 11) == Word(s, 11)
    ensures WsParse(t).Ok? <==> (FrameSum(t) - FrameSum(s)) % 0xFFFF == 0
  {
    assert s[0] == MAGIC;
    FrameSumFits(s);
    FrameSumFits(t);
    AcceptedIffAlike(s, t);
  }

  lemma FrameSumFits(s: seq<byte>)
    requires 15 <= |s| <= 15 + 0xFFFF && s[0] == MAGIC
    ensures 0 < FrameSum(s) == FrameSum(s) % 0x1_0000_0000 < 0x1_0000_0000 - 0xFFFF
  {
    SumBound(s, 15);
  }

  lemma {:induction false} SumUpdate(s: seq<byte>, i: nat, j: nat, b: byte)
    requires i <= |s| && j < |s|
    ensures SumFrom(s[j := b], i) == SumFrom(s, i) +
      if j < i then 0 else if (j - i) % 2 == 0 then (b - s[j]) * 0x100 else b - s[j]
    decreases |s| - i
  {
    if i + 2 <= |s| {
      SumUpdate(s, i + 2, j, b);
    }
  }

  /** What changing one byte outside the checksum field does to the sum. */
  lemma FrameSumUpdate(s: seq<byte>, j: nat, b: byte)
    requires |s| >= 15 && j < |s| && j != 11 && j != 12
    ensures FrameSum(s[j := b]) == FrameSum(s) +
      if j < 3 || (j >= 3 && j % 2 == 0) then b - s[j] else (b - s[j]) * 0x100
  {
    SumUpdate(s, 15, j, b);
  }

  /** Changing the checksum field alone leaves the content and so the expected checksum. */
  lemma ChecksumByteDetected(s: seq<byte>, j: nat, b: byte)
    requires 15 <= |s| && WsParse(s).Ok? && (j == 11 || j == 12) && b != s[j]
    ensures !WsParse(s[j := b]).Ok?
  {
    var t := s[j := b];
    assert t[15..] == s[15..];
    assert ContentAt(t, t[15..]) == ContentAt(s, s[15..]) && Word(t, 9) == Word(s, 9);
  }

  /** Changing any single byte of an accepted frame of any length, anywhere and to any value, makes it rejected. */
  lemma SingleByteDetected(s: seq<byte>, j: nat, b: byte)
    requires 15 <= |s| && WsParse(s).Ok? && j < |s| && b != s[j]
    ensures !WsParse(s[j := b]).Ok?
  {
    if j == 11 || j == 12 {
      ChecksumByteDetected(s, j, b);
    } else if j > 0 {
      AcceptedIffAlike(s, s[j := b]);
      FrameSumUpdate(s, j, b);
      SmallChangeShows(FrameSum(s[j := b]), FrameSum(s));
    }
  }

  /** Positions at which a 16-bit summed word starts. */
  predicate WordStart(s: seq<byte>, j: nat) {
    j + 2 <= |s| && j % 2 == 1 && j >= 3 && j != 11
  }

  /** What the other words of a frame sum up to. */
  function SumBeside(s: seq<byte>, j: nat): int
    requires |s| >= 15 && WordStart(s, j)
  {
    FrameSum(s) - Word(s, j)
  }

  /**
   Replacing one summed word of an accepted frame, of any length, goes undetected exactly when 0x0000 and 0xFFFF are
   exchanged and the other words leave room in 32 bits.
   */
  lemma WordChange(s: seq<byte>, j: nat, a: byte, b: byte)
    requires 15 <= |s| && WsParse(s).Ok? && WordStart(s, j)
    requires (a as int) * 0x100 + b != Word(s, j)
    ensures SumBeside(s, j) > 0
    ensures WsParse(s[j := a][j + 1 := b]).Ok? <==>
      AllFlips((a as int) * 0x100 + b, Word(s, j)) && Roomy(SumBeside(s, j))
  {
    WordSums(s, j, a, b);
    AcceptedIffAlike(s, s[j := a][j + 1 := b]);
  }

  lemma WordSums(s: seq<byte>, j: nat, a: byte, b: byte)
    requires 15 <= |s| && s[0] == MAGIC && WordStart(s, j)
    requires (a as int) * 0x100 + b != Word(s, j)
    ensures SumBeside(s, j) > 0
    ensures var t := s[j := a][j + 1 := b];
      && t[0] == s[0] && Word(t, 11) == Word(s, 11)
      && (Alike(FrameSum(t) % 0x1_0000_0000, FrameSum(s) % 0x1_0000_0000) <==>
          AllFlips((a as int) * 0x100 + b, Word(s, j)) && Roomy(SumBeside(s, j)))
  {
    TwoByteSum(s, j, a, b);
    SumBesidePositive(s, j);
    WordChangeShows(SumBeside(s, j), (a as int) * 0x100 + b, Word(s, j));
  }

  lemma SumBesidePositive(s: seq<byte>, j: nat)
    requires 15 <= |s| && s[0] == MAGIC && WordStart(s, j)
    ensures SumBeside(s, j) > 0
  {
    SumHasWord(s, 15, j);
  }

  lemma {:induction false} SumHasWord(s: seq<byte>, i: nat, j: nat)
    requires i <= |s| && i % 2 == 1 && WordStart(s, j)
    ensures i <= j ==> SumFrom(s, i) >= Word(s, j)
    decreases |s| - i
  {
    if i < j {
      SumHasWord(s, i + 2, j);
    }
  }

  /** Payloads up to 65535 bytes always leave room: then only the exchange of 0x0000 and 0xFFFF goes undetected. */
  lemma ShortWordChange(s: seq<byte>, j: nat, a: byte, b: byte)
    requires 15 <= |s| <= 15 + 0xFFFF && WsParse(s).Ok? && WordStart(s, j)
    requires (a as int) * 0x100 + b != Word(s, j)
    ensures WsParse(s[j := a][j + 1 := b]).Ok? <==> AllFlips((a as int) * 0x100 + b, Word(s, j))
  {
    WordChange(s, j, a, b);
    ShortIsRoomy(s, j);
  }

  lemma ShortIsRoomy(s: seq<byte>, j: nat)
    requires 15 <= |s| <= 15 + 0xFFFF && s[0] == MAGIC && WordStart(s, j)
    ensures SumBeside(s, j) > 0 && Roomy(SumBeside(s, j))
  {
    FrameSumFits(s);
    SumBesidePositive(s, j);
  }

  lemma TwoByteSum(s: seq<byte>, j: nat, a: byte, b: byte)
    requires |s| >= 15 && WordStart(s, j)
    ensures FrameSum(s[j := a][j + 1 := b]) - FrameSum(s) == (a as int) * 0x100 + b - Word(s, j)
  {
    FrameSumUpdate(s, j, a);
    FrameSumUpdate(s[j := a], j + 1, b);
  }
}
