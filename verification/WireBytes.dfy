/**
 The very bytes on the wire, written out: every message and handshake as the official client
 sends it, apart from the tables and field lists they are built from.
 */
module WireBytes {
  import opened Basics
  import opened Decimal
  import opened Wire
  import opened PortMapping
  import opened Handshake

  // --- small numbers

  lemma OneByte(v: nat)
    requires v < 128
    ensures EncodeVarint(v) == [v]
  {
  }

  lemma TwoBytes(v: nat)
    requires 128 <= v < 16384
    ensures EncodeVarint(v) == [v % 128 + 128, v / 128]
  {
    OneByte(v / 128);
  }

  /** The bytes of a field behind its tag. */
  function Sized(b: Bytes): Bytes { EncodeVarint(|b|) + b }

  lemma NumberBytes(num: nat, v: nat)
    requires 0 < num < 16
    ensures EncodeField(VarintField(num, v)) == [8 * num] + EncodeVarint(v)
    ensures v < 128 ==> EncodeField(VarintField(num, v)) == [8 * num, v]
  {
    OneByte(8 * num);
    if v < 128 { OneByte(v); }
  }

  lemma ContentBytes(num: nat, b: Bytes)
    requires 0 < num < 16
    ensures EncodeField(BytesField(num, b)) == [8 * num + 2] + Sized(b)
    ensures |b| < 128 ==> EncodeField(BytesField(num, b)) == [8 * num + 2, |b|] + b
  {
    OneByte(8 * num + 2);
    if |b| < 128 { OneByte(|b|); }
    hide EncodeVarint;
    Assoc([8 * num + 2], EncodeVarint(|b|), b);
  }

  lemma Two(f: Field, g: Field)
    ensures EncodeFields([f, g]) == EncodeField(f) + EncodeField(g)
  {
    hide EncodeField;
    EncodeOne(f);
    EncodeOne(g);
    EncodeConcat([f], [g]);
    assert [f] + [g] == [f, g];
  }

  lemma Three(f: Field, g: Field, h: Field)
    ensures EncodeFields([f, g, h]) == EncodeField(f) + EncodeField(g) + EncodeField(h)
  {
    hide EncodeField;
    Two(f, g);
    EncodeOne(h);
    EncodeConcat([f, g], [h]);
    assert [f, g] + [h] == [f, g, h];
  }

  // --- the tunnel's messages

  /** A decimal text as a number on the wire, behind its tag; an empty text is left out. */
  function NumberOnWire(tag: Byte, text: string): Bytes
    requires AllDigits(text)
  {
    if text == "" then [] else [tag] + EncodeVarint(Value(text))
  }

  /** The five types: SYN, which is also the type of a frame without one, is left out. */
  function TypeOnWire(t: string): Bytes {
    if t == "FIN" then [0x20, 1]
    else if t == "DATA" then [0x20, 2]
    else if t == "SYN_ACK" then [0x20, 3]
    else if t == "DATA_ACK" then [0x20, 4]
    else []
  }

  function FrameOnWire(f: Frame): Bytes
    requires AllDigits(f.sessionID) && AllDigits(f.ruleID) && AllDigits(f.streamID)
  {
    NumberOnWire(0x08, f.sessionID) + NumberOnWire(0x10, f.ruleID) + NumberOnWire(0x18, f.streamID)
    + TypeOnWire(f.typ) + (if f.payload == [] then [] else [0x2a] + Sized(f.payload))
  }

  lemma NumberIsOnWire(num: nat, text: string, limit: nat)
    requires 0 < num < 16 && NumberFields(num, text, limit).Some?
    ensures AllDigits(text) && EncodeFields(NumberFields(num, text, limit).value) == NumberOnWire(8 * num, text)
  {
    if text != "" {
      EncodeOne(VarintField(num, Value(text)));
      NumberBytes(num, Value(text));
    }
  }

  lemma TypeIsOnWire(t: string)
    requires TypeFields(t).Some?
    ensures EncodeFields(TypeFields(t).value) == TypeOnWire(t)
  {
    hide EncodeFields, EncodeField;
    EncodeOne(VarintField(4, 1));
    EncodeOne(VarintField(4, 2));
    EncodeOne(VarintField(4, 3));
    EncodeOne(VarintField(4, 4));
    NumberBytes(4, 1);
    NumberBytes(4, 2);
    NumberBytes(4, 3);
    NumberBytes(4, 4);
  }

  lemma PayloadIsOnWire(payload: Bytes)
    ensures EncodeFields(PayloadFields(payload)) == if payload == [] then [] else [0x2a] + Sized(payload)
  {
    hide EncodeField;
    if payload != [] {
      EncodeOne(BytesField(5, payload));
      ContentBytes(5, payload);
    }
  }

  /** A frame that encodes, byte for byte. */
  lemma FrameBytes(f: Frame)
    requires FrameFields(f).Some?
    ensures AllDigits(f.sessionID) && AllDigits(f.ruleID) && AllDigits(f.streamID)
    ensures EncodeFields(FrameFields(f).value) == FrameOnWire(f)
  {
    hide EncodeFields, NumberFields, TypeFields, PayloadFields, TypeOnWire;
    var a, b, c := NumberFields(1, f.sessionID, TWO32).value, NumberFields(2, f.ruleID, TWO64).value,
        NumberFields(3, f.streamID, TWO32).value;
    var d, e := TypeFields(f.typ).value, PayloadFields(f.payload);
    NumberIsOnWire(1, f.sessionID, TWO32);
    NumberIsOnWire(2, f.ruleID, TWO64);
    NumberIsOnWire(3, f.streamID, TWO32);
    TypeIsOnWire(f.typ);
    PayloadIsOnWire(f.payload);
    EncodeConcat(a, b);
    EncodeConcat(a + b, c);
    EncodeConcat(a + b + c, d);
    EncodeConcat(a + b + c + d, e);
  }

  lemma FrameTag(b: Bytes)
    ensures EncodeFields([BytesField(27, b)]) == [0xda, 0x01] + Sized(b)
  {
    EncodeOne(BytesField(27, b));
    TwoBytes(218);
    hide EncodeVarint;
    assert [0xda, 0x01] + EncodeVarint(|b|) + b == [0xda, 0x01] + Sized(b);
  }

  /** A message that encodes, byte for byte: field 27 is the frame. */
  lemma MessageBytes(m: Message)
    requires Encode(m).Some?
    ensures AllDigits(m.seqNo) && AllDigits(m.timestamp)
    ensures m.frame == None ==> Encode(m).value == NumberOnWire(0x08, m.seqNo) + NumberOnWire(0x10, m.timestamp)
    ensures m.frame.Some? ==>
              var f := m.frame.value;
              && AllDigits(f.sessionID) && AllDigits(f.ruleID) && AllDigits(f.streamID)
              && Encode(m).value == NumberOnWire(0x08, m.seqNo) + NumberOnWire(0x10, m.timestamp)
                                    + ([0xda, 0x01] + Sized(FrameOnWire(f)))
  {
    hide EncodeFields, NumberFields, FrameFields, FrameOnWire, Sized;
    var a, b := NumberFields(1, m.seqNo, TWO64).value, NumberFields(2, m.timestamp, TWO64).value;
    NumberIsOnWire(1, m.seqNo, TWO64);
    NumberIsOnWire(2, m.timestamp, TWO64);
    EncodeConcat(a, b);
    if m.frame.Some? {
      var body := EncodeFields(FrameFields(m.frame.value).value);
      FrameBytes(m.frame.value);
      FrameTag(body);
      EncodeConcat(a + b, [BytesField(27, body)]);
    }
  }

  // --- the handshakes

  /** TextHandshake, byte for byte. */
  lemma TextBytes(seqNo: nat, timestamp: nat)
    ensures EncodeFields(TextFields(seqNo, timestamp))
            == [0x08] + EncodeVarint(seqNo) + ([0x10] + EncodeVarint(timestamp)) + [0x6a, 4, 0x0a, 2, 1, 2]
  {
    hide EncodeFields, EncodeField;
    EncodeOne(BytesField(1, [1, 2]));
    ContentBytes(1, [1, 2]);
    var list := EncodeFields([BytesField(1, [1, 2])]);
    assert list == [0x0a, 2, 1, 2];
    Three(VarintField(1, seqNo), VarintField(2, timestamp), BytesField(13, list));
    NumberBytes(1, seqNo);
    NumberBytes(2, timestamp);
    ContentBytes(13, list);
  }

  /** ControlHandshake; the sequence number zero is left out. */
  lemma ControlBytes(seqNo: nat, timestamp: nat, capabilities: Bytes)
    ensures EncodeFields(ControlFields(seqNo, timestamp, capabilities))
            == (if seqNo == 0 then [] else [0x08] + EncodeVarint(seqNo)) + ([0x10] + EncodeVarint(timestamp))
               + ([0x1a] + Sized([0x22] + Sized(capabilities)))
  {
    hide EncodeFields, EncodeField, Sized, EncodeVarint;
    EncodeOne(BytesField(4, capabilities));
    ContentBytes(4, capabilities);
    var inner := EncodeFields([BytesField(4, capabilities)]);
    NumberBytes(1, seqNo);
    NumberBytes(2, timestamp);
    ContentBytes(3, inner);
    if seqNo == 0 {
      Two(VarintField(2, timestamp), BytesField(3, inner));
      assert ControlFields(seqNo, timestamp, capabilities) == [VarintField(2, timestamp), BytesField(3, inner)];
      assert [] + ([0x10] + EncodeVarint(timestamp)) == [0x10] + EncodeVarint(timestamp);
    } else {
      Three(VarintField(1, seqNo), VarintField(2, timestamp), BytesField(3, inner));
      assert ControlFields(seqNo, timestamp, capabilities)
          == [VarintField(1, seqNo), VarintField(2, timestamp), BytesField(3, inner)];
    }
  }

  /** The answer of handleControlEcho. */
  lemma EchoBytes(seqNo: nat, timestamp: nat, args: Bytes, flags: Bytes)
    ensures EncodeFields(EchoFields(seqNo, timestamp, args, flags))
            == [0x08] + EncodeVarint(seqNo) + ([0x10] + EncodeVarint(timestamp))
               + ([0x1a] + Sized([0x08, 1] + ([0x12] + Sized(args)) + ([0x22] + Sized(flags))))
  {
    hide EncodeFields, EncodeField, Sized, EncodeVarint;
    var inner := EncodeFields(EchoInner(args, flags));
    Three(VarintField(1, 1), BytesField(2, args), BytesField(4, flags));
    NumberBytes(1, 1);
    ContentBytes(2, args);
    ContentBytes(4, flags);
    Three(VarintField(1, seqNo), VarintField(2, timestamp), BytesField(3, inner));
    NumberBytes(1, seqNo);
    NumberBytes(2, timestamp);
    ContentBytes(3, inner);
  }

  /** The table of default capabilities. */
  lemma DefaultBytes()
    ensures EncodeFields(DEFAULT_CAPABILITIES) == [8, 6, 0x10, 2, 0x18, 1, 0x20, 2, 0x30, 2, 0x38, 2, 0x40, 2, 0x48, 1]
  {
    hide EncodeFields, EncodeField;
    Three(VarintField(1, 6), VarintField(2, 2), VarintField(3, 1));
    Three(VarintField(4, 2), VarintField(6, 2), VarintField(7, 2));
    Two(VarintField(8, 2), VarintField(9, 1));
    var a, b, c := [VarintField(1, 6), VarintField(2, 2), VarintField(3, 1)],
        [VarintField(4, 2), VarintField(6, 2), VarintField(7, 2)], [VarintField(8, 2), VarintField(9, 1)];
    assert DEFAULT_CAPABILITIES == a + b + c;
    EncodeConcat(a, b);
    EncodeConcat(a + b, c);
    NumberBytes(1, 6);
    NumberBytes(2, 2);
    NumberBytes(3, 1);
    NumberBytes(4, 2);
    NumberBytes(6, 2);
    NumberBytes(7, 2);
    NumberBytes(8, 2);
    NumberBytes(9, 1);
  }

  const SIZE: Bytes := [0x08, 0x80, 0x28, 0x10, 0xc0, 0x16]

  lemma SizeBytes()
    ensures EncodeFields(RESOLUTION) == SIZE
  {
    Two(VarintField(1, 5120), VarintField(2, 2880));
    NumberBytes(1, 5120);
    NumberBytes(2, 2880);
    TwoBytes(5120);
    TwoBytes(2880);
    hide EncodeFields, EncodeField, EncodeVarint;
  }

  const VIDEO: Bytes :=
    [0x08, 2, 0x10, 6, 0x20, 1, 0x2a, 6] + SIZE + [0x32, 0, 0x38, 1, 0x40, 0x80, 0x87, 0xa7, 0x0e, 0x58, 0x3c]

  lemma BitRate()
    ensures EncodeVarint(30000000) == [0x80, 0x87, 0xa7, 0x0e]
  {
    OneByte(14);
    TwoBytes(1831);
    assert EncodeVarint(234375) == [0x87] + EncodeVarint(1831);
    assert EncodeVarint(30000000) == [0x80] + EncodeVarint(234375);
  }

  lemma VideoBytes()
    ensures EncodeFields(Video(SIZE)) == VIDEO && |VIDEO| == 25
  {
    hide EncodeFields, EncodeField, EncodeVarint;
    Three(VarintField(1, 2), VarintField(2, 6), VarintField(4, 1));
    Two(BytesField(5, SIZE), BytesField(6, []));
    Three(VarintField(7, 1), VarintField(8, 30000000), VarintField(11, 60));
    var a, b, c := [VarintField(1, 2), VarintField(2, 6), VarintField(4, 1)],
        [BytesField(5, SIZE), BytesField(6, [])], [VarintField(7, 1), VarintField(8, 30000000), VarintField(11, 60)];
    assert Video(SIZE) == a + b + c;
    EncodeConcat(a, b);
    EncodeConcat(a + b, c);
    BitRate();
    NumberBytes(1, 2);
    NumberBytes(2, 6);
    NumberBytes(4, 1);
    ContentBytes(5, SIZE);
    ContentBytes(6, []);
    NumberBytes(7, 1);
    NumberBytes(8, 30000000);
    NumberBytes(11, 60);
  }

  lemma CodecFront(first: nat)
    requires first < 128
    ensures EncodeFields([VarintField(1, 120), VarintField(2, first), VarintField(3, 3840)])
            == [0x08, 0x78, 0x10, first, 0x18, 0x80, 0x1e]
  {
    TwoBytes(3840);
    hide EncodeFields, EncodeField, EncodeVarint;
    Three(VarintField(1, 120), VarintField(2, first), VarintField(3, 3840));
    NumberBytes(1, 120);
    NumberBytes(2, first);
    NumberBytes(3, 3840);
  }

  lemma CodecBack(second: nat)
    requires second < 128
    ensures EncodeFields([VarintField(4, 2160), VarintField(5, second)]) == [0x20, 0xf0, 0x10, 0x28, second]
  {
    TwoBytes(2160);
    hide EncodeFields, EncodeField, EncodeVarint;
    Two(VarintField(4, 2160), VarintField(5, second));
    NumberBytes(4, 2160);
    NumberBytes(5, second);
  }

  lemma CodecBytes(first: nat, second: nat)
    requires first < 128 && second < 128
    ensures EncodeFields(Codec(first, second))
            == [0x08, 0x78, 0x10, first, 0x18, 0x80, 0x1e, 0x20, 0xf0, 0x10, 0x28, second]
  {
    hide EncodeFields;
    CodecFront(first);
    CodecBack(second);
    var a, b := [VarintField(1, 120), VarintField(2, first), VarintField(3, 3840)],
        [VarintField(4, 2160), VarintField(5, second)];
    assert Codec(first, second) == a + b;
    EncodeConcat(a, b);
  }

  function CodecOnWire(first: Byte, second: Byte): Bytes {
    [0x22, 12, 0x08, 0x78, 0x10, first, 0x18, 0x80, 0x1e, 0x20, 0xf0, 0x10, 0x28, second]
  }

  lemma CodecField(first: nat, second: nat)
    requires first < 128 && second < 128
    ensures EncodeField(BytesField(4, EncodeFields(Codec(first, second)))) == CodecOnWire(first, second)
  {
    CodecBytes(first, second);
    ContentBytes(4, EncodeFields(Codec(first, second)));
    hide EncodeField, EncodeFields;
  }

  lemma CodecsBytes()
    ensures EncodeFields(CodecFields(MODES))
            == CodecOnWire(2, 1) + CodecOnWire(2, 3) + (CodecOnWire(1, 1) + CodecOnWire(1, 3))
  {
    hide EncodeFields, EncodeField, Codec, CodecOnWire;
    var fs := CodecFields(MODES);
    CodecField(2, 1);
    CodecField(2, 3);
    CodecField(1, 1);
    CodecField(1, 3);
    Two(fs[0], fs[1]);
    Two(fs[2], fs[3]);
    assert fs == [fs[0], fs[1]] + [fs[2], fs[3]];
    EncodeConcat([fs[0], fs[1]], [fs[2], fs[3]]);
  }

  function Ones(k: nat): (b: Bytes)
    ensures |b| == k
  {
    if k == 0 then [] else [0xff] + Ones(k - 1)
  }

  lemma {:induction false} OnesBytes(k: nat)
    ensures EncodeVarint(2 * Pow128(k) - 1) == Ones(k) + [1]
  {
    if k == 0 {
      OneByte(1);
    } else {
      OnesBytes(k - 1);
      var v, w := 2 * Pow128(k) - 1, 2 * Pow128(k - 1) - 1;
      assert v == 128 * w + 127 && v / 128 == w && v % 128 == 127;
      assert [0xff] + (Ones(k - 1) + [1]) == Ones(k) + [1];
    }
  }

  lemma AllOnes()
    ensures EncodeVarint(TWO64 - 1) == [0xff, 0xff, 0xff, 0xff, 0xff, 0xff, 0xff, 0xff, 0xff, 1]
  {
    OnesBytes(9);
    assert Pow128(5) == 0x8_0000_0000;
    assert Pow128(9) == 0x8000_0000_0000_0000;
    assert Ones(4) == [0xff, 0xff, 0xff, 0xff];
    assert Ones(9) == [0xff, 0xff, 0xff, 0xff, 0xff] + Ones(4);
  }

  // --- ConnectOptions

  const HEAD: Bytes := [0x08, 1, 0x10, 0xff, 0xff, 0xff, 0xff, 0xff, 0xff, 0xff, 0xff, 0xff, 1, 0x1a, 25] + VIDEO

  lemma HeadBytes()
    ensures EncodeFields(ConnectHead(SIZE)) == HEAD
  {
    VideoBytes();
    AllOnes();
    hide EncodeFields, EncodeField, EncodeVarint, Video, VIDEO;
    Three(VarintField(1, 1), VarintField(2, TWO64 - 1), BytesField(3, VIDEO));
    NumberBytes(1, 1);
    NumberBytes(2, TWO64 - 1);
    ContentBytes(3, VIDEO);
  }

  /** What follows the media options: the three sizes, then device, capabilities and version. */
  function TailOnWire(device: Bytes, version: Bytes, capabilities: Bytes): Bytes {
    [0x32, 8] + SIZE + [0x18, 0x78, 0x3a, 6] + SIZE + [0x40, 4] + ([0x4a] + Sized(device)) + [0x50, 1]
    + ([0x5a] + Sized(capabilities)) + ([0x62] + Sized(version))
  }

  lemma LargerBytes()
    ensures EncodeField(BytesField(6, SIZE + EncodeField(VarintField(3, 120)))) == [0x32, 8] + (SIZE + [0x18, 0x78])
    ensures EncodeField(BytesField(7, SIZE)) == [0x3a, 6] + SIZE
  {
    NumberBytes(3, 120);
    assert |SIZE| == 6;
    hide EncodeField, SIZE, Sized;
    ContentBytes(6, SIZE + [0x18, 0x78]);
    ContentBytes(7, SIZE);
  }

  lemma SizesBytes()
    ensures EncodeFields([BytesField(6, SIZE + EncodeField(VarintField(3, 120))), BytesField(7, SIZE),
                          VarintField(8, 4)])
            == [0x32, 8] + SIZE + [0x18, 0x78, 0x3a, 6] + SIZE + [0x40, 4]
  {
    hide EncodeFields, EncodeField, SIZE;
    LargerBytes();
    Three(BytesField(6, SIZE + EncodeField(VarintField(3, 120))), BytesField(7, SIZE), VarintField(8, 4));
    NumberBytes(8, 4);
    Regrouped([0x32, 8], SIZE, [0x18, 0x78], [0x3a, 6], SIZE, [0x40, 4]);
  }

  lemma Regrouped(a: Bytes, b: Bytes, c: Bytes, d: Bytes, e: Bytes, f: Bytes)
    ensures a + (b + c) + (d + e) + f == a + b + (c + d) + e + f
  {
  }

  lemma TailBytes(device: Bytes, version: Bytes, capabilities: Bytes)
    ensures EncodeFields(ConnectTail(SIZE, device, version, capabilities)) == TailOnWire(device, version, capabilities)
  {
    hide EncodeFields, EncodeField, Sized, SIZE;
    var larger := SIZE + EncodeField(VarintField(3, 120));
    var a := [BytesField(6, larger), BytesField(7, SIZE), VarintField(8, 4)];
    var b := [BytesField(9, device), VarintField(10, 1)];
    var c := [BytesField(11, capabilities), BytesField(12, version)];
    SizesBytes();
    Two(b[0], b[1]);
    Two(c[0], c[1]);
    ContentBytes(9, device);
    NumberBytes(10, 1);
    ContentBytes(11, capabilities);
    ContentBytes(12, version);
    EncodeConcat(a, b);
    EncodeConcat(a + b, c);
    assert ConnectTail(SIZE, device, version, capabilities) == a + b + c;
    Regroup(EncodeFields(a), [0x4a] + Sized(device), [0x50, 1], [0x5a] + Sized(capabilities), [0x62] + Sized(version));
  }

  lemma Regroup(a: Bytes, b: Bytes, c: Bytes, d: Bytes, e: Bytes)
    ensures a + (b + c) + (d + e) == a + b + c + d + e
  {
  }

  /** ConnectOptions, byte for byte: the captured defaults, with device, capabilities and version put in. */
  lemma ConnectBytes(device: Bytes, version: Bytes, capabilities: Bytes)
    ensures EncodeFields(ConnectFields(device, version, capabilities))
            == HEAD + (CodecOnWire(2, 1) + CodecOnWire(2, 3) + (CodecOnWire(1, 1) + CodecOnWire(1, 3)))
               + TailOnWire(device, version, capabilities)
  {
    hide EncodeFields, ConnectHead, ConnectTail, CodecFields, HEAD, SIZE, TailOnWire, CodecOnWire;
    SizeBytes();
    HeadBytes();
    CodecsBytes();
    TailBytes(device, version, capabilities);
    EncodeConcat(ConnectHead(SIZE), CodecFields(MODES));
    EncodeConcat(ConnectHead(SIZE) + CodecFields(MODES), ConnectTail(SIZE, device, version, capabilities));
  }

  const DEVICE: Bytes :=
    [0x30, 0x30, 0x30, 0x30, 0x30, 0x30, 0x30, 0x30, 0x30, 0x30, 0x30, 0x30, 0x30, 0x30, 0x30, 0x30]

  const VERSION: Bytes := [0x34, 0x2e, 0x33, 0x38, 0x2e, 0x30]

  /** The regression fixture of the repository: the profile captured from the official client. */
  const CAPTURE: Bytes := CAPTURED_HEAD + CAPTURED_CODECS + CAPTURED_TAIL

  const CAPTURED_HEAD: Bytes :=
    [0x08, 0x01, 0x10, 0xff, 0xff, 0xff, 0xff, 0xff, 0xff, 0xff, 0xff, 0xff, 0x01, 0x1a, 0x19, 0x08, 0x02, 0x10, 0x06,
     0x20, 0x01, 0x2a, 0x06, 0x08, 0x80, 0x28, 0x10, 0xc0, 0x16, 0x32, 0x00, 0x38, 0x01, 0x40, 0x80, 0x87, 0xa7, 0x0e,
     0x58, 0x3c]

  const CAPTURED_CODECS: Bytes :=
    [0x22, 0x0c, 0x08, 0x78, 0x10, 0x02, 0x18, 0x80, 0x1e, 0x20, 0xf0, 0x10, 0x28, 0x01]
    + [0x22, 0x0c, 0x08, 0x78, 0x10, 0x02, 0x18, 0x80, 0x1e, 0x20, 0xf0, 0x10, 0x28, 0x03]
    + ([0x22, 0x0c, 0x08, 0x78, 0x10, 0x01, 0x18, 0x80, 0x1e, 0x20, 0xf0, 0x10, 0x28, 0x01]
       + [0x22, 0x0c, 0x08, 0x78, 0x10, 0x01, 0x18, 0x80, 0x1e, 0x20, 0xf0, 0x10, 0x28, 0x03])

  const CAPTURED_TAIL: Bytes :=
    [0x32, 0x08, 0x08, 0x80, 0x28, 0x10, 0xc0, 0x16, 0x18, 0x78, 0x3a, 0x06, 0x08, 0x80, 0x28, 0x10, 0xc0, 0x16, 0x40,
     0x04]
    + [0x4a, 0x10, 0x30, 0x30, 0x30, 0x30, 0x30, 0x30, 0x30, 0x30, 0x30, 0x30, 0x30, 0x30, 0x30, 0x30, 0x30, 0x30]
    + [0x50, 0x01]
    + [0x5a, 0x10, 0x08, 0x06, 0x10, 0x02, 0x18, 0x01, 0x20, 0x02, 0x30, 0x02, 0x38, 0x02, 0x40, 0x02, 0x48, 0x01]
    + [0x62, 0x06, 0x34, 0x2e, 0x33, 0x38, 0x2e, 0x30]

  lemma SmallSized(b: Bytes)
    requires |b| < 128
    ensures Sized(b) == [|b|] + b
  {
    OneByte(|b|);
  }

  lemma CaptureHead()
    ensures HEAD == CAPTURED_HEAD
  {
    assert SIZE == [0x08, 0x80, 0x28, 0x10, 0xc0, 0x16];
  }

  lemma CaptureCodecs()
    ensures CodecOnWire(2, 1) + CodecOnWire(2, 3) + (CodecOnWire(1, 1) + CodecOnWire(1, 3)) == CAPTURED_CODECS
  {
  }

  lemma CaptureSizes()
    ensures [0x32, 8] + SIZE + [0x18, 0x78, 0x3a, 6] + SIZE + [0x40, 4]
            == [0x32, 0x08, 0x08, 0x80, 0x28, 0x10, 0xc0, 0x16, 0x18, 0x78, 0x3a, 0x06, 0x08, 0x80, 0x28, 0x10, 0xc0,
                0x16, 0x40, 0x04]
  {
    assert SIZE == [0x08, 0x80, 0x28, 0x10, 0xc0, 0x16];
  }

  lemma CaptureStrings()
    ensures [0x4a] + Sized(DEVICE)
            == [0x4a, 0x10, 0x30, 0x30, 0x30, 0x30, 0x30, 0x30, 0x30, 0x30, 0x30, 0x30, 0x30, 0x30, 0x30, 0x30, 0x30,
                0x30]
    ensures [0x62] + Sized(VERSION) == [0x62, 0x06, 0x34, 0x2e, 0x33, 0x38, 0x2e, 0x30]
  {
    SmallSized(DEVICE);
    SmallSized(VERSION);
    hide Sized;
  }

  lemma CaptureDefaults()
    ensures [0x5a] + Sized(EncodeFields(DEFAULT_CAPABILITIES))
            == [0x5a, 0x10, 0x08, 0x06, 0x10, 0x02, 0x18, 0x01, 0x20, 0x02, 0x30, 0x02, 0x38, 0x02, 0x40, 0x02, 0x48,
                0x01]
  {
    DefaultBytes();
    SmallSized(EncodeFields(DEFAULT_CAPABILITIES));
    hide Sized, EncodeFields;
  }

  lemma CaptureTail()
    ensures TailOnWire(DEVICE, VERSION, EncodeFields(DEFAULT_CAPABILITIES)) == CAPTURED_TAIL
  {
    hide EncodeFields, Sized, SIZE, DEVICE, VERSION;
    CaptureSizes();
    CaptureStrings();
    CaptureDefaults();
  }

  /** ConnectOptions without overrides gives exactly the capture. */
  lemma MatchesCapture()
    ensures EncodeFields(ConnectFields(DEVICE, VERSION, Capabilities(None))) == CAPTURE
  {
    hide EncodeFields, ConnectFields, TailOnWire, CodecOnWire, HEAD, CAPTURED_HEAD, CAPTURED_CODECS, CAPTURED_TAIL;
    ConnectBytes(DEVICE, VERSION, Capabilities(None));
    CaptureHead();
    CaptureCodecs();
    CaptureTail();
    assert Capabilities(None) == EncodeFields(DEFAULT_CAPABILITIES);
    assert CAPTURE == CAPTURED_HEAD + CAPTURED_CODECS + CAPTURED_TAIL;
  }
}
