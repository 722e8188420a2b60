/**
 The port mapping messages as values: what their fields say, how they are printed and read, and
 what survives the trip.
 */
module PortMapping {
  import opened Basics
  import opened Decimal
  import opened Wire

  datatype Frame = Frame(sessionID: string, ruleID: string, streamID: string, typ: string, payload: Bytes)

  datatype Message = Message(seqNo: string, timestamp: string, frame: Option<Frame>)

  const TWO32: nat := 0x1_0000_0000

  const CONNECT := "SYN"
  const FIN := "FIN"
  const DATA := "DATA"
  const SYN_ACK := "SYN_ACK"
  const DATA_ACK := "DATA_ACK"

  function FrameTypeValue(t: string): Option<nat> {
    if t == "" || t == CONNECT then Some(0)
    else if t == DATA then Some(2)
    else if t == FIN then Some(1)
    else if t == SYN_ACK then Some(3)
    else if t == DATA_ACK then Some(4)
    else None
  }

  function FrameTypeName(v: nat): string {
    match v
    case 0 => CONNECT
    case 1 => FIN
    case 2 => DATA
    case 3 => SYN_ACK
    case 4 => DATA_ACK
    case _ => "UNKNOWN_" + FormatUint(v)
  }

  /** The two tables are inverse to each other on the five types; an unknown value never looks like one of them. */
  lemma TypeTables(t: string, v: nat)
    ensures FrameTypeValue(t).Some? && t != "" ==> FrameTypeName(FrameTypeValue(t).value) == t
    ensures FrameTypeValue(FrameTypeName(v)) == if v <= 4 then Some(v) else None
  {
    if v > 4 {
      assert FrameTypeName(v)[0] == 'U';
    }
  }

  /** Different type numbers have different names, also the unknown ones. */
  lemma TypesStayApart(v: nat, w: nat)
    requires FrameTypeName(v) == FrameTypeName(w)
    ensures v == w
  {
    TypeTables("", v);
    TypeTables("", w);
    if v > 4 && w > 4 {
      assert FrameTypeName(v)[8..] == FormatUint(v) && FrameTypeName(w)[8..] == FormatUint(w);
      ValueOfFormat(v);
      ValueOfFormat(w);
    }
  }

  // --- fields of a frame and of a message

  function NumberFields(num: nat, text: string, limit: nat): Option<seq<Field>> {
    if text == "" then Some([])
    else match ParseUint(text, limit)
         case None => None
         case Some(v) => Some([VarintField(num, v)])
  }

  function TypeFields(t: string): Option<seq<Field>> {
    match FrameTypeValue(t)
    case None => None
    case Some(v) => Some(if v != 0 then [VarintField(4, v)] else [])
  }

  function PayloadFields(payload: Bytes): seq<Field> { if payload == [] then [] else [BytesField(5, payload)] }

  /** What encode writes for a frame, if its numbers and its type are good. */
  function FrameFields(f: Frame): Option<seq<Field>> {
    var session, rule, stream := NumberFields(1, f.sessionID, TWO32), NumberFields(2, f.ruleID, TWO64),
        NumberFields(3, f.streamID, TWO32);
    if session.None? || rule.None? || stream.None? || TypeFields(f.typ).None? then None
    else Some(session.value + rule.value + stream.value + TypeFields(f.typ).value + PayloadFields(f.payload))
  }

  function MessageFields(m: Message): Option<seq<Field>> {
    var s, t := NumberFields(1, m.seqNo, TWO64), NumberFields(2, m.timestamp, TWO64);
    if s.None? || t.None? then None
    else match m.frame
         case None => Some(s.value + t.value)
         case Some(f) =>
           match FrameFields(f)
           case None => None
           case Some(fs) => Some(s.value + t.value + [BytesField(27, EncodeFields(fs))])
  }

  /** Message.Encode. */
  function Encode(m: Message): Option<Bytes> {
    match MessageFields(m)
    case None => None
    case Some(fs) => Some(EncodeFields(fs))
  }

  // --- reading

  const NO_FRAME: Frame := Frame("", "", "", "", [])
  const NO_MESSAGE: Message := Message("", "", None)

  function SetFrame(f: Frame, x: Field): Option<Frame> {
    match x.num
    case 1 => if x.VarintField? then Some(f.(sessionID := FormatUint(x.value))) else None
    case 2 => if x.VarintField? then Some(f.(ruleID := FormatUint(x.value))) else None
    case 3 => if x.VarintField? then Some(f.(streamID := FormatUint(x.value))) else None
    case 4 => if x.VarintField? then Some(f.(typ := FrameTypeName(x.value))) else None
    case 5 => if x.BytesField? then Some(f.(payload := x.bytes)) else None
    case _ => Some(f)
  }

  /** The frame a field list stands for: later fields overwrite earlier ones, unknown ones are passed over. */
  function FrameOf(fs: seq<Field>, f: Frame): Option<Frame> {
    if fs == [] then Some(f)
    else match SetFrame(f, fs[0])
         case None => None
         case Some(f2) => FrameOf(fs[1..], f2)
  }

  /** decodeFrame: a frame without a type is a SYN. */
  function DecodeFrame(data: Bytes): Option<Frame> {
    match Fields(data)
    case None => None
    case Some(fs) =>
      match FrameOf(fs, NO_FRAME)
      case None => None
      case Some(f) => Some(if f.typ == "" then f.(typ := CONNECT) else f)
  }

  function SetMessage(m: Message, x: Field): Option<Message> {
    match x.num
    case 1 => if x.VarintField? then Some(m.(seqNo := FormatUint(x.value))) else None
    case 2 => if x.VarintField? then Some(m.(timestamp := FormatUint(x.value))) else None
    case 27 =>
      if !x.BytesField? then None
      else (match DecodeFrame(x.bytes)
            case None => None
            case Some(f) => Some(m.(frame := Some(f))))
    case _ => Some(m)
  }

  function MessageOf(fs: seq<Field>, m: Message): Option<Message> {
    if fs == [] then Some(m)
    else match SetMessage(m, fs[0])
         case None => None
         case Some(m2) => MessageOf(fs[1..], m2)
  }

  function DecodeMessage(data: Bytes): Option<Message> {
    match Fields(data)
    case None => None
    case Some(fs) => MessageOf(fs, NO_MESSAGE)
  }

  // --- the round trip

  function CanonicalText(text: string): string {
    if text == "" || !AllDigits(text) then text else FormatUint(Value(text))
  }

  function NormalFrame(f: Frame): Frame {
    Frame(CanonicalText(f.sessionID), CanonicalText(f.ruleID), CanonicalText(f.streamID),
          if f.typ == "" then CONNECT else f.typ, f.payload)
  }

  /** What a message is after one trip: canonical numbers, and SYN for a missing type. */
  function Normal(m: Message): Message {
    Message(CanonicalText(m.seqNo), CanonicalText(m.timestamp),
        match m.frame case None => None case Some(f) => Some(NormalFrame(f)))
  }

  lemma {:induction false} FrameOfConcat(xs: seq<Field>, ys: seq<Field>, f: Frame)
    ensures FrameOf(xs + ys, f) == match FrameOf(xs, f) case None => None case Some(g) => FrameOf(ys, g)
  {
    if xs == [] {
      assert xs + ys == ys;
    } else {
      assert (xs + ys)[1..] == xs[1..] + ys && (xs + ys)[0] == xs[0];
      if SetFrame(f, xs[0]).Some? { FrameOfConcat(xs[1..], ys, SetFrame(f, xs[0]).value); }
    }
  }

  lemma {:induction false} MessageOfConcat(xs: seq<Field>, ys: seq<Field>, m: Message)
    ensures MessageOf(xs + ys, m) == match MessageOf(xs, m) case None => None case Some(g) => MessageOf(ys, g)
  {
    if xs == [] {
      assert xs + ys == ys;
    } else {
      assert (xs + ys)[1..] == xs[1..] + ys && (xs + ys)[0] == xs[0];
      hide SetMessage;
      if SetMessage(m, xs[0]).Some? { MessageOfConcat(xs[1..], ys, SetMessage(m, xs[0]).value); }
    }
  }

  lemma NumberGood(num: nat, text: string, limit: nat)
    requires 0 < num < 1000 && limit <= TWO64 && NumberFields(num, text, limit).Some?
    ensures AllWritable(NumberFields(num, text, limit).value)
    ensures text == "" ==> NumberFields(num, text, limit).value == []
    ensures text != "" ==> AllDigits(text) && NumberFields(num, text, limit).value == [VarintField(num, Value(text))]
                           && CanonicalText(text) == FormatUint(Value(text))
  {
  }

  lemma FrameOne(x: Field, f: Frame)
    ensures FrameOf([x], f) == SetFrame(f, x) && FrameOf([], f) == Some(f)
  {
    assert [x][1..] == [];
  }

  lemma MessageOne(x: Field, m: Message)
    ensures MessageOf([x], m) == SetMessage(m, x) && MessageOf([], m) == Some(m)
  {
    assert [x][1..] == [];
    hide SetMessage;
  }

  /** Each part of a frame sets its own slot and no other. */
  lemma NumberSets(num: nat, text: string, limit: nat, f: Frame)
    requires 1 <= num <= 3 && limit <= TWO64 && NumberFields(num, text, limit).Some?
    requires num == 1 ==> f.sessionID == ""
    requires num == 2 ==> f.ruleID == ""
    requires num == 3 ==> f.streamID == ""
    ensures FrameOf(NumberFields(num, text, limit).value, f)
            == Some(if num == 1 then f.(sessionID := CanonicalText(text))
                    else if num == 2 then f.(ruleID := CanonicalText(text)) else f.(streamID := CanonicalText(text)))
  {
    NumberGood(num, text, limit);
    hide NumberFields, CanonicalText, FrameOf;
    if text != "" {
      FrameOne(VarintField(num, Value(text)), f);
    } else {
      FrameOne(VarintField(num, 0), f);
      assert CanonicalText("") == "" by { Unprinted(); }
    }
  }

  lemma Unprinted()
    ensures CanonicalText("") == ""
  {
  }

  lemma TypeSets(t: string, f: Frame)
    requires TypeFields(t).Some? && f.typ == ""
    ensures AllWritable(TypeFields(t).value)
    ensures FrameOf(TypeFields(t).value, f).Some?
    ensures var g := FrameOf(TypeFields(t).value, f).value;
            g.(typ := "") == f && (if g.typ == "" then CONNECT else g.typ) == (if t == "" then CONNECT else t)
  {
    var v := FrameTypeValue(t).value;
    FrameOne(VarintField(4, v), f);
    hide FrameOf;
  }

  lemma PayloadSets(payload: Bytes, f: Frame)
    requires f.payload == []
    ensures FrameOf(PayloadFields(payload), f) == Some(f.(payload := payload))
  {
    FrameOne(BytesField(5, payload), f);
    hide FrameOf;
  }

  lemma FrameWritable(f: Frame)
    requires FrameFields(f).Some? && |f.payload| < TWO64
    ensures AllWritable(FrameFields(f).value)
  {
    NumberGood(1, f.sessionID, TWO32);
    NumberGood(2, f.ruleID, TWO64);
    NumberGood(3, f.streamID, TWO32);
    TypeSets(f.typ, NO_FRAME);
    hide NumberFields, TypeFields, Writable;
    assert Writable(BytesField(5, f.payload)) by { Small(f.payload); }
  }

  lemma Small(payload: Bytes)
    requires |payload| < TWO64
    ensures Writable(BytesField(5, payload)) && Writable(BytesField(27, payload))
  {
  }

  lemma FrameReadsBack(f: Frame)
    requires FrameFields(f).Some?
    ensures FrameOf(FrameFields(f).value, NO_FRAME).Some?
    ensures var g := FrameOf(FrameFields(f).value, NO_FRAME).value;
            (if g.typ == "" then g.(typ := CONNECT) else g) == NormalFrame(f)
  {
    var s, r, t := NumberFields(1, f.sessionID, TWO32).value, NumberFields(2, f.ruleID, TWO64).value,
        NumberFields(3, f.streamID, TWO32).value;
    var y, p := TypeFields(f.typ).value, PayloadFields(f.payload);
    var g1 := NO_FRAME.(sessionID := CanonicalText(f.sessionID));
    var g2 := g1.(ruleID := CanonicalText(f.ruleID));
    var g3 := g2.(streamID := CanonicalText(f.streamID));
    NumberSets(1, f.sessionID, TWO32, NO_FRAME);
    NumberSets(2, f.ruleID, TWO64, g1);
    NumberSets(3, f.streamID, TWO32, g2);
    TypeSets(f.typ, g3);
    hide FrameOf, NumberFields, TypeFields, PayloadFields, CanonicalText;
    var g4 := FrameOf(y, g3).value;
    PayloadSets(f.payload, g4);
    FrameOfConcat(s, r, NO_FRAME);
    FrameOfConcat(s + r, t, NO_FRAME);
    FrameOfConcat(s + r + t, y, NO_FRAME);
    FrameOfConcat(s + r + t + y, p, NO_FRAME);
  }

  /** A frame that can be written is read back in its normal form. */
  lemma FrameRoundTrip(f: Frame)
    requires FrameFields(f).Some? && |f.payload| < TWO64
    ensures DecodeFrame(EncodeFields(FrameFields(f).value)) == Some(NormalFrame(f))
  {
    FrameWritable(f);
    FieldsRoundTrip(FrameFields(f).value);
    FrameReadsBack(f);
    hide FrameFields, FrameOf, Fields, EncodeFields, NormalFrame;
  }

  lemma NumberSetsMessage(num: nat, text: string, m: Message)
    requires 1 <= num <= 2 && NumberFields(num, text, TWO64).Some?
    requires num == 1 ==> m.seqNo == ""
    requires num == 2 ==> m.timestamp == ""
    ensures MessageOf(NumberFields(num, text, TWO64).value, m)
            == Some(if num == 1 then m.(seqNo := CanonicalText(text)) else m.(timestamp := CanonicalText(text)))
  {
    NumberGood(num, text, TWO64);
    hide NumberFields, CanonicalText, MessageOf;
    if text != "" {
      MessageOne(VarintField(num, Value(text)), m);
    } else {
      MessageOne(VarintField(num, 0), m);
      Unprinted();
    }
  }

  /** The message behind the field list that is written. */
  lemma MessageReadsBack(m: Message)
    requires MessageFields(m).Some? && (m.frame.Some? ==> |m.frame.value.payload| < TWO64)
    ensures MessageOf(MessageFields(m).value, NO_MESSAGE) == Some(Normal(m))
  {
    var s, t := NumberFields(1, m.seqNo, TWO64).value, NumberFields(2, m.timestamp, TWO64).value;
    var m1 := NO_MESSAGE.(seqNo := CanonicalText(m.seqNo));
    var m2 := m1.(timestamp := CanonicalText(m.timestamp));
    NumberSetsMessage(1, m.seqNo, NO_MESSAGE);
    NumberSetsMessage(2, m.timestamp, m1);
    hide MessageOf, NumberFields, CanonicalText, FrameFields, EncodeFields, DecodeFrame, NormalFrame;
    MessageOfConcat(s, t, NO_MESSAGE);
    if m.frame.Some? {
      var b := EncodeFields(FrameFields(m.frame.value).value);
      FrameRoundTrip(m.frame.value);
      MessageOne(BytesField(27, b), m2);
      MessageOfConcat(s + t, [BytesField(27, b)], NO_MESSAGE);
    }
  }

  lemma MessageWritable(m: Message)
    requires MessageFields(m).Some?
    requires forall f <- MessageFields(m).value :: f.BytesField? ==> |f.bytes| < TWO64
    ensures AllWritable(MessageFields(m).value)
  {
    NumberGood(1, m.seqNo, TWO64);
    NumberGood(2, m.timestamp, TWO64);
    hide NumberFields, FrameFields, EncodeFields;
  }
}
