/** The message object: packing into a reusable buffer, and reading from a byte stream. */
module MessageModel {
  import opened Checksum
  import opened Codec

  /** A byte stream with a read position. */
  class Reader {
    const data: seq<byte>
    var pos: nat

    ghost predicate Valid()
      reads this
    {
      pos <= |data|
    }

    /** The bytes still to be read. */
    ghost function Left(): seq<byte>
      requires Valid()
      reads this
    {
      data[pos..]
    }

    constructor (data: seq<byte>)
      ensures Valid() && Left() == data
    {
      this.data := data;
      pos := 0;
    }

    /** Reads exactly `n` bytes, or consumes what is there and fails. */
    method ReadFull(n: nat) returns (ok: bool, bytes: seq<byte>)
      requires Valid()
      modifies this
      ensures Valid() && ok == (n <= |old(Left())|)
      ensures ok ==> bytes == old(Left())[..n] && Left() == old(Left())[n..]
      ensures !ok ==> Left() == []
    {
      ok := pos + n <= |data|;
      if ok {
        bytes := data[pos..pos + n];
        pos := pos + n;
      } else {
        bytes := data[pos..];
        pos := |data|;
      }
    }
  }

  class Message {
    var magic: byte
    var version: byte
    var flags: byte
    var seqNo: u16
    var timestamp: u32
    var len: u16
    var checksum: u16
    var cmd: u16
    var payload: seq<byte>
    var all: array?<byte>  // backing buffer of the packed bytes; its Length is the capacity
    var allLen: nat        // how much of the buffer is in use

    ghost function Content(): Content
      reads this
    {
      Checksum.Content.Content(magic, version, flags, seqNo, timestamp, cmd, payload)
    }

    constructor ()
      ensures all == null && allLen == 0 && payload == [] && cmd == 0
    {
      magic, version, flags, seqNo, timestamp, len, checksum, cmd := 0, 0, 0, 0, 0, 0, 0, 0;
      payload, all, allLen := [], null, 0;
    }

    /** The checksum of the message with its present length field; the accumulator keeps 32 bits. */
    method CalculateChecksum() returns (r: u16)
      ensures r == ChecksumOf(Content(), len)
    {
      var sum: nat := magic + version + flags + seqNo + timestamp / 0x1_0000 + timestamp % 0x1_0000 + len + cmd;
      sum := AddPayload(sum);
      sum := FoldDown(sum);
      r := (0xFFFF_FFFF - sum) % 0x1_0000;
    }

    method AddPayload(start: u32) returns (sum: u32)
      ensures sum == (start + SumFrom(payload, 0)) % 0x1_0000_0000
    {
      sum := start;
      var i := 0;
      while i < |payload| - 1
        invariant 0 <= i <= |payload| && i % 2 == 0
        invariant (sum + SumFrom(payload, i)) % 0x1_0000_0000 == (start + SumFrom(payload, 0)) % 0x1_0000_0000
      {
        var word := (payload[i] as int) * 0x100 + payload[i + 1];
        Wrap(sum + word, SumFrom(payload, i + 2));
        sum := (sum + word) % 0x1_0000_0000;
        i := i + 2;
      }
      if |payload| % 2 == 1 {
        sum := (sum + (payload[|payload| - 1] as int) * 0x100) % 0x1_0000_0000;
      }
    }

    /** The end-around carries. */
    method FoldDown(start: u32) returns (sum: u32)
      ensures sum == Fold(start) < 0x1_0000
    {
      sum := start;
      while sum / 0x1_0000 > 0
        invariant Fold(sum) == Fold(start)
        decreases sum
      {
        sum := sum % 0x1_0000 + sum / 0x1_0000;
      }
    }

    /** Fills the header fields from the first 13 bytes of a frame. */
    method TakeHeader(head: seq<byte>)
      requires |head| == HEADER_LEN
      modifies this
      ensures Content() == old(Content()).(magic := head[0], version := head[1], flags := head[2],
                seqNo := Word(head, 3), timestamp := Word(head, 5) * 0x1_0000 + Word(head, 7))
      ensures len == Word(head, 9) && checksum == Word(head, 11)
    {
      magic := head[0];
      version := head[1];
      flags := head[2];
      seqNo := Word(head, 3);
      timestamp := Word(head, 5) * 0x1_0000 + Word(head, 7);
      len := Word(head, 9);
      checksum := Word(head, 11);
    }

    /** Writes bytes into the buffer behind a filled prefix. */
    method Put(off: nat, bytes: seq<byte>)
      requires all != null && off + |bytes| <= all.Length
      modifies all
      ensures all[..off + |bytes|] == old(all[..off]) + bytes
    {
      for i := 0 to |bytes|
        invariant all[..off] == old(all[..off])
        invariant all[off..off + i] == bytes[..i]
      {
        all[off + i] := bytes[i];
      }
      assert all[off..off + |bytes|] == bytes[..|bytes|] == bytes;
      assert all[..off + |bytes|] == all[..off] + all[off..off + |bytes|];
    }

    method PutHead()
      requires all != null && 15 <= all.Length
      modifies all
      ensures all[..15] == Head(Content(), len, checksum)
    {
      Put(0, [magic]);
      Put(1, [version]);
      Put(2, [flags]);
      Put(3, U16(seqNo));
      Put(5, U32(timestamp));
      Put(9, U16(len));
      Put(11, U16(checksum));
      Put(13, U16(cmd));
    }

    /**
     Packs the message, in the old buffer when it is large enough. The bytes are the frame of the content and do not
     depend on what the buffer held before.
     */
    method Pack() returns (data: seq<byte>)
      modifies this`all, this`allLen, this`len, this`checksum, if all == null then {} else {all}
      ensures data == Frame(old(Content())) && Content() == old(Content())
      ensures all != null && allLen == |data| <= all.Length && all[..allLen] == data
      ensures len == LenField(Content()) && checksum == ChecksumOf(Content(), len)
      ensures old(all) != null && old(all).Length >= 15 + |payload| ==> all == old(all)
    {
      if all == null || all.Length < HEADER_LEN + 2 + |payload| {
        all := new byte[HEADER_LEN + 2 + |payload|];
      }
      allLen := HEADER_LEN + 2 + |payload|;
      len := |payload| % 0x1_0000;
      checksum := CalculateChecksum();
      PutHead();
      Put(15, payload);
      data := all[..allLen];
    }
  }

  lemma Wrap(a: nat, b: nat)
    ensures (a % 0x1_0000_0000 + b) % 0x1_0000_0000 == (a + b) % 0x1_0000_0000
  {
  }

  /** Reads one message from a stream, in the order and with the checks of the stream reader. */
  method TcpRead(r: Reader) returns (res: Result<Message>)
    requires r.Valid()
    modifies r
    ensures r.Valid()
    ensures match TcpParse(old(r.Left()))
      case Ok(p) =>
        && res.Ok? && fresh(res.value) && res.value.Content() == p.content
        && res.value.len == p.len && res.value.checksum == p.checksum
        && r.Left() == old(r.Left())[p.size..]
      case Err(e) => res == Err(e)
  {
    ghost var s := r.Left();
    var ok, head := r.ReadFull(HEADER_LEN);
    if !ok {
      return Err(ShortHeader);
    }
    var msg := new Message();
    if head[0] != MAGIC {
      return Err(BadMagic);
    }
    msg.TakeHeader(head);
    var cmdBuf;
    ok, cmdBuf := r.ReadFull(2);
    if !ok {
      return Err(ShortCmd);
    }
    msg.cmd := Word(cmdBuf, 0);
    if msg.len > 0 {
      var payloadBuf;
      ok, payloadBuf := r.ReadFull(msg.len);
      if !ok {
        return Err(ShortPayload);
      }
      msg.payload := payloadBuf;
    }
    assert msg.Content() == ContentAt(s, s[15..15 + Word(s, 9)]);
    var expected := msg.CalculateChecksum();
    if msg.checksum != expected {
      return Err(BadChecksum);
    }
    return Ok(msg);
  }

  /** Reads one message from a whole datagram; whatever follows the command is payload, kept with the frame itself. */
  method WsRead(data: seq<byte>) returns (res: Result<Message>)
    ensures match WsParse(data)
      case Ok(p) =>
        && res.Ok? && fresh(res.value) && res.value.Content() == p.content
        && res.value.len == p.len && res.value.checksum == p.checksum
      case Err(e) => res == Err(e)
  {
    if |data| < HEADER_LEN {
      return Err(ShortHeader);
    }
    var msg := new Message();
    if data[0] != MAGIC {
      return Err(BadMagic);
    }
    msg.TakeHeader(data[..HEADER_LEN]);
    if |data| > HEADER_LEN {
      if |data| < HEADER_LEN + 2 {
        return Err(OddFourteen);
      }
      msg.cmd := Word(data, HEADER_LEN);
      if |data| > HEADER_LEN + 2 {
        msg.payload := data[HEADER_LEN + 2..];
      }
    }
    var expected := msg.CalculateChecksum();
    if msg.checksum != expected {
      return Err(BadChecksum);
    }
    return Ok(msg);
  }
}
