/**
 Encode, encode, DecodeMessage and decodeFrame as they are written: buffers that grow, and a
 position that moves over the data.
 */
module MessageLoops {
  import opened Basics
  import opened Decimal
  import opened Wire
  import opened WireLoops
  import opened PortMapping

  method AppendNumber(buf: Bytes, num: nat, text: string, limit: nat) returns (out: Option<Bytes>)
    ensures out == if NumberFields(num, text, limit).None? then None
                   else Some(buf + EncodeFields(NumberFields(num, text, limit).value))
  {
    hide EncodeField;
    if text == "" {
      assert buf + [] == buf;
      return Some(buf);
    }
    var v := ParseUint(text, limit);
    if v.None? { return None; }
    EncodeOne(VarintField(num, v.value));
    var more := AppendFieldVarint(buf, num, v.value);
    return Some(more);
  }

  /** PortMappingFrame.encode. */
  method EncodeFrame(f: Frame) returns (out: Option<Bytes>)
    ensures out == if FrameFields(f).None? then None else Some(EncodeFields(FrameFields(f).value))
  {
    hide NumberFields, EncodeFields, EncodeField;
    out := AppendNumber([], 1, f.sessionID, TWO32);
    if out.None? { return; }
    out := AppendNumber(out.value, 2, f.ruleID, TWO64);
    if out.None? { return; }
    out := AppendNumber(out.value, 3, f.streamID, TWO32);
    if out.None? { return; }
    var buf := out.value;
    var typ := FrameTypeValue(f.typ);
    if typ.None? { return None; }
    ghost var s, r, t := NumberFields(1, f.sessionID, TWO32).value, NumberFields(2, f.ruleID, TWO64).value,
        NumberFields(3, f.streamID, TWO32).value;
    assert [] + EncodeFields(s) == EncodeFields(s);
    EncodeConcat(s, r);
    EncodeConcat(s + r, t);
    EncodeConcat(s + r + t, TypeFields(f.typ).value);
    EncodeConcat(s + r + t + TypeFields(f.typ).value, PayloadFields(f.payload));
    EncodeOne(VarintField(4, typ.value));
    EncodeOne(BytesField(5, f.payload));
    if typ.value != 0 {
      buf := AppendFieldVarint(buf, 4, typ.value);
    } else {
      assert buf + [] == buf;
    }
    if |f.payload| > 0 {
      buf := AppendFieldBytes(buf, 5, f.payload);
    } else {
      assert buf + [] == buf;
    }
    return Some(buf);
  }

  /** Message.Encode. */
  method EncodeMessage(m: Message) returns (out: Option<Bytes>)
    ensures out == Encode(m)
  {
    hide NumberFields, EncodeFields, EncodeField, FrameFields;
    out := AppendNumber([], 1, m.seqNo, TWO64);
    if out.None? { return; }
    out := AppendNumber(out.value, 2, m.timestamp, TWO64);
    if out.None? { return; }
    ghost var s, t := NumberFields(1, m.seqNo, TWO64).value, NumberFields(2, m.timestamp, TWO64).value;
    assert [] + EncodeFields(s) == EncodeFields(s);
    EncodeConcat(s, t);
    if m.frame.Some? {
      var frame := EncodeFrame(m.frame.value);
      if frame.None? { return None; }
      EncodeOne(BytesField(27, frame.value));
      EncodeConcat(s + t, [BytesField(27, frame.value)]);
      var buf := AppendFieldBytes(out.value, 27, frame.value);
      return Some(buf);
    }
  }

  // --- the reading loops

  /** What is still to be read, and what has been read. */
  function FrameRest(data: Bytes, f: Frame): Option<Frame> {
    match Fields(data)
    case None => None
    case Some(fs) => FrameOf(fs, f)
  }

  function MessageRest(data: Bytes, m: Message): Option<Message> {
    match Fields(data)
    case None => None
    case Some(fs) => MessageOf(fs, m)
  }

  lemma FrameStep(data: Bytes, f: Frame)
    requires data != []
    ensures ReadField(data).None? ==> FrameRest(data, f) == None
    ensures ReadField(data).Some? ==>
              var (x, n) := ReadField(data).value;
              FrameRest(data, f) == match SetFrame(f, x) case None => None case Some(g) => FrameRest(Drop(data, n), g)
  {
    hide ReadField, SetFrame, Drop;
    if ReadField(data).Some? {
      var (x, n) := ReadField(data).value;
      FieldsCons(data, x, n);
      if Fields(Drop(data, n)).Some? { assert ([x] + Fields(Drop(data, n)).value)[1..] == Fields(Drop(data, n)).value; }
    }
  }

  lemma MessageStep(data: Bytes, m: Message)
    requires data != []
    ensures ReadField(data).None? ==> MessageRest(data, m) == None
    ensures ReadField(data).Some? ==>
              var (x, n) := ReadField(data).value;
              MessageRest(data, m)
              == match SetMessage(m, x) case None => None case Some(g) => MessageRest(Drop(data, n), g)
  {
    hide ReadField, SetMessage, Drop;
    if ReadField(data).Some? {
      var (x, n) := ReadField(data).value;
      FieldsCons(data, x, n);
      if Fields(Drop(data, n)).Some? { assert ([x] + Fields(Drop(data, n)).value)[1..] == Fields(Drop(data, n)).value; }
    }
  }

  lemma DropTwice(data: Bytes, pos: nat, n: nat)
    requires pos <= |data|
    ensures Drop(Drop(data, pos), n) == Drop(data, pos + n)
    ensures Drop(data, pos) == data[pos..]
  {
  }

  /** decodeFrame; the position grows with every field. */
  method DecodeFrameLoop(data: Bytes) returns (r: Option<Frame>)
    ensures r == DecodeFrame(data)
  {
    hide Fields, FrameOf, ReadField, Varint, ReadBytes, Drop;
    var f := NO_FRAME;
    var pos := 0;
    Whole(data);
    while pos < |data|
      invariant FrameRest(data, NO_FRAME) == FrameRest(Drop(data, pos), f)
      decreases |data| - pos
    {
      ghost var here := Drop(data, pos);
      DropTwice(data, pos, 0);
      FrameStep(here, f);
      SkipsTheField(here);
      var tag, n := DecodeVarint(data[pos..]);
      if n == 0 { return None; }
      ghost var start := pos;
      pos := pos + n;
      assert data[pos..] == here[n..];
      var num, wire := tag / 8, tag % 8;
      FieldAt(here);
      if 1 <= num <= 4 {
        if wire != 0 { return None; }
        var v, k := DecodeVarint(data[pos..]);
        if k == 0 { return None; }
        pos := pos + k;
        var text := FormatUint(v);
        match num
        case 1 => f := f.(sessionID := text);
        case 2 => f := f.(ruleID := text);
        case 3 => f := f.(streamID := text);
        case _ => f := f.(typ := FrameTypeName(v));
      } else if num == 5 {
        var b := DecodeBytesField(data[pos..], wire);
        if b.None? { return None; }
        pos := pos + b.value.1;
        f := f.(payload := b.value.0);
      } else {
        var k := SkipField(data[pos..], wire);
        if k.None? { return None; }
        pos := pos + k.value;
      }
      DropTwice(data, start, pos - start);
    }
    AtEnd(data, pos, f);
    if f.typ == "" { f := f.(typ := CONNECT); }
    return Some(f);
  }

  lemma Whole(data: Bytes)
    ensures Drop(data, 0) == data
  {
  }

  lemma AtEnd(data: Bytes, pos: nat, f: Frame)
    requires pos >= |data|
    ensures FrameRest(Drop(data, pos), f) == Some(f)
  {
    NoFields();
    FrameOne(VarintField(0, 0), f);
    hide Fields, FrameOf;
  }

  lemma MessageAtEnd(data: Bytes, pos: nat, m: Message)
    requires pos >= |data|
    ensures MessageRest(Drop(data, pos), m) == Some(m)
  {
    NoFields();
    MessageOne(VarintField(0, 0), m);
    hide Fields, MessageOf;
  }

  /** The field at the start of data, by its wire type. */
  lemma FieldAt(data: Bytes)
    ensures var (tag, n) := Varint(data);
            n > 0 ==>
              && (tag % 8 == 0 ==>
                    var (v, k) := Varint(data[n..]);
                    ReadField(data) == if k == 0 then None else Some((VarintField(tag / 8, v), n + k)))
              && (tag % 8 == 2 ==>
                    var b := ReadBytes(data[n..]);
                    ReadField(data) == if b.None? then None else Some((BytesField(tag / 8, b.value.0), n + b.value.1)))
              && (ReadField(data).Some? ==>
                    ReadField(data).value.0.num == tag / 8
                    && (ReadField(data).value.0.VarintField? <==> tag % 8 == 0)
                    && (ReadField(data).value.0.BytesField? <==> tag % 8 == 2))
  {
    hide Varint, ReadBytes;
  }

  /** DecodeMessage. */
  method DecodeMessageLoop(data: Bytes) returns (r: Option<Message>)
    ensures r == DecodeMessage(data)
  {
    hide Fields, MessageOf, ReadField, Varint, ReadBytes, Drop, DecodeFrame;
    var m := NO_MESSAGE;
    var pos := 0;
    Whole(data);
    while pos < |data|
      invariant MessageRest(data, NO_MESSAGE) == MessageRest(Drop(data, pos), m)
      decreases |data| - pos
    {
      ghost var here := Drop(data, pos);
      DropTwice(data, pos, 0);
      MessageStep(here, m);
      SkipsTheField(here);
      var tag, n := DecodeVarint(data[pos..]);
      if n == 0 { return None; }
      ghost var start := pos;
      pos := pos + n;
      assert data[pos..] == here[n..];
      var num, wire := tag / 8, tag % 8;
      FieldAt(here);
      if num == 1 || num == 2 {
        if wire != 0 { return None; }
        var v, k := DecodeVarint(data[pos..]);
        if k == 0 { return None; }
        pos := pos + k;
        if num == 1 { m := m.(seqNo := FormatUint(v)); } else { m := m.(timestamp := FormatUint(v)); }
      } else if num == 27 {
        var b := DecodeBytesField(data[pos..], wire);
        if b.None? { return None; }
        pos := pos + b.value.1;
        var frame := DecodeFrameLoop(b.value.0);
        if frame.None? { return None; }
        m := m.(frame := Some(frame.value));
      } else {
        var k := SkipField(data[pos..], wire);
        if k.None? { return None; }
        pos := pos + k.value;
      }
      DropTwice(data, start, pos - start);
    }
    MessageAtEnd(data, pos, m);
    return Some(m);
  }
}
