/** What survives between two codecs: round trips, unknown fields, repeated fields, and the frames the tunnel builds. */
module MessageRoundTrip {
  import opened Basics
  import opened Decimal
  import opened Wire
  import opened PortMapping

  // No Go byte slice is longer.
  const MAX_LENGTH: nat := 0x8000_0000_0000_0000

  lemma {:induction false} BytesFit(fs: seq<Field>, f: Field)
    requires f in fs && f.BytesField?
    ensures |f.bytes| <= |EncodeFields(fs)|
  {
    if fs[0] != f { BytesFit(fs[1..], f); }
  }

  /** Every message that encodes decodes to its normal form. */
  lemma RoundTrip(m: Message)
    requires Encode(m).Some? && |Encode(m).value| < MAX_LENGTH
    ensures DecodeMessage(Encode(m).value) == Some(Normal(m))
  {
    var fs := MessageFields(m).value;
    forall f | f in fs && f.BytesField? ensures |f.bytes| < TWO64 { BytesFit(fs, f); }
    if m.frame.Some? {
      var inner := FrameFields(m.frame.value).value;
      assert BytesField(27, EncodeFields(inner)) in fs;
      PayloadFits(m.frame.value);
    }
    MessageWritable(m);
    FieldsRoundTrip(fs);
    MessageReadsBack(m);
    hide MessageFields, MessageOf, Fields, EncodeFields, Normal;
  }

  lemma PayloadFits(f: Frame)
    requires FrameFields(f).Some?
    ensures |f.payload| <= |EncodeFields(FrameFields(f).value)|
  {
    if f.payload != [] {
      assert BytesField(5, f.payload) in FrameFields(f).value;
      hide FrameFields;
      BytesFit(FrameFields(f).value, BytesField(5, f.payload));
    }
  }

  /** Empty, or without leading zeros. */
  predicate Plain(text: string) { text == "" || Canonical(text) }

  lemma PlainStays(text: string)
    requires text == "" || AllDigits(text)
    ensures CanonicalText(text) == text <==> Plain(text)
  {
    if text != "" { PrintsBack(text); }
  }

  predicate PlainMessage(m: Message) {
    && Plain(m.seqNo) && Plain(m.timestamp)
    && (m.frame.Some? ==>
          var f := m.frame.value; Plain(f.sessionID) && Plain(f.ruleID) && Plain(f.streamID) && f.typ != "")
  }

  lemma NumbersAreDigits(m: Message)
    requires MessageFields(m).Some?
    ensures (m.seqNo == "" || AllDigits(m.seqNo)) && (m.timestamp == "" || AllDigits(m.timestamp))
    ensures m.frame.Some? ==>
              var f := m.frame.value;
              && (f.sessionID == "" || AllDigits(f.sessionID)) && (f.ruleID == "" || AllDigits(f.ruleID))
              && (f.streamID == "" || AllDigits(f.streamID))
  {
    hide EncodeFields, Value;
  }

  /** The trip changes nothing exactly when every number is canonical and the type is given. */
  lemma RoundTripIsExact(m: Message)
    requires Encode(m).Some? && |Encode(m).value| < MAX_LENGTH
    ensures DecodeMessage(Encode(m).value) == Some(m) <==> PlainMessage(m)
  {
    RoundTrip(m);
    NumbersAreDigits(m);
    hide Encode, DecodeMessage, CanonicalText, Canonical;
    PlainStays(m.seqNo);
    PlainStays(m.timestamp);
    if m.frame.Some? {
      PlainStays(m.frame.value.sessionID);
      PlainStays(m.frame.value.ruleID);
      PlainStays(m.frame.value.streamID);
    }
  }

  // --- unknown fields

  predicate UnknownToMessage(f: Field) { f.num != 1 && f.num != 2 && f.num != 27 }

  predicate UnknownToFrame(f: Field) { f.num == 0 || f.num > 5 }

  lemma {:induction false} UnknownSkipped(us: seq<Field>, m: Message)
    requires forall u <- us :: UnknownToMessage(u)
    ensures MessageOf(us, m) == Some(m)
  {
    if us != [] {
      assert UnknownToMessage(us[0]);
      assert forall u <- us[1..] :: u in us;
      UnknownSkipped(us[1..], m);
    }
  }

  lemma {:induction false} UnknownSkippedInFrame(us: seq<Field>, f: Frame)
    requires forall u <- us :: UnknownToFrame(u)
    ensures FrameOf(us, f) == Some(f)
  {
    if us != [] {
      assert UnknownToFrame(us[0]);
      assert forall u <- us[1..] :: u in us;
      UnknownSkippedInFrame(us[1..], f);
    }
  }

  /** Complete fields with unknown numbers, at any field boundary, change nothing about a message. */
  lemma UnknownFieldsAreTransparent(before: Bytes, unknown: Bytes, after: Bytes)
    requires Complete(before) && Complete(unknown) && Fields(unknown).Some?
    requires forall u <- Fields(unknown).value :: UnknownToMessage(u)
    ensures DecodeMessage(before + unknown + after) == DecodeMessage(before + after)
  {
    hide Complete, Fields, MessageOf;
    FieldsConcat(before, unknown);
    FieldsConcat(before + unknown, after);
    FieldsConcat(before, after);
    if Fields(after).Some? {
      var xs, us, ys := Fields(before).value, Fields(unknown).value, Fields(after).value;
      MessageOfConcat(xs + us, ys, NO_MESSAGE);
      MessageOfConcat(xs, us, NO_MESSAGE);
      MessageOfConcat(xs, ys, NO_MESSAGE);
      if MessageOf(xs, NO_MESSAGE).Some? { UnknownSkipped(us, MessageOf(xs, NO_MESSAGE).value); }
    }
  }

  /** Nor about a frame. */
  lemma UnknownFieldsAreTransparentInFrame(before: Bytes, unknown: Bytes, after: Bytes)
    requires Complete(before) && Complete(unknown) && Fields(unknown).Some?
    requires forall u <- Fields(unknown).value :: UnknownToFrame(u)
    ensures DecodeFrame(before + unknown + after) == DecodeFrame(before + after)
  {
    hide Complete, Fields, FrameOf;
    FieldsConcat(before, unknown);
    FieldsConcat(before + unknown, after);
    FieldsConcat(before, after);
    if Fields(after).Some? {
      var xs, us, ys := Fields(before).value, Fields(unknown).value, Fields(after).value;
      FrameOfConcat(xs + us, ys, NO_FRAME);
      FrameOfConcat(xs, us, NO_FRAME);
      FrameOfConcat(xs, ys, NO_FRAME);
      if FrameOf(xs, NO_FRAME).Some? { UnknownSkippedInFrame(us, FrameOf(xs, NO_FRAME).value); }
    }
  }

  /** Tag of a fixed-size field with fewer bytes behind it than the field has. */
  predicate CutOffFixed(data: Bytes) {
    var (tag, n) := Varint(data);
    n > 0 && ((tag % 8 == 1 && |data| - n < 8) || (tag % 8 == 5 && |data| - n < 4))
  }

  function FixedField(tag: nat): Field { if tag % 8 == 1 then Fixed64Field(tag / 8) else Fixed32Field(tag / 8) }

  /** Only fixed-size fields can reach beyond the data. */
  lemma CutOffReads(data: Bytes)
    ensures CutOffFixed(data) <==> ReadField(data).Some? && ReadField(data).value.1 > |data|
    ensures CutOffFixed(data) ==> ReadField(data).value.0 == FixedField(Varint(data).0)
  {
    hide Varint;
  }

  /**
   A fixed-size field cut off at the end of the data is read like a whole one: nothing checks that
   its bytes are there.
   */
  lemma CutOffFixedFieldIsRead(before: Bytes, tail: Bytes)
    requires Complete(before) && CutOffFixed(tail)
    ensures Fields(before).Some? && Fields(before + tail) == Some(Fields(before).value + [FixedField(Varint(tail).0)])
    ensures !Complete(before + tail)
  {
    CutOffReads(tail);
    var f := FixedField(Varint(tail).0);
    assert tail != [];
    hide Fields, Complete, ReadField, Varint, CutOffFixed, FixedField;
    NoFields();
    FieldsCons(tail, f, ReadField(tail).value.1);
    assert Drop(tail, ReadField(tail).value.1) == [];
    assert [f] + [] == [f];
    FieldsConcat(before, tail);
    CompleteCons(tail);
  }

  lemma {:induction false} LengthCut(data: Bytes, m: nat, limit: nat)
    requires 0 < VarintLength(data, limit) <= m <= |data|
    ensures VarintLength(data[..m], limit) == VarintLength(data, limit)
  {
    if data[0] >= 128 {
      assert data[..m][1..] == data[1..][..m - 1];
      LengthCut(data[1..], m - 1, limit - 1);
    }
  }

  lemma VarintCut(data: Bytes, m: nat)
    requires 0 < Varint(data).1 <= m <= |data|
    ensures Varint(data[..m]) == Varint(data)
  {
    LengthCut(data, m, MAX_VARINT);
    var n := VarintLength(data, MAX_VARINT);
    assert data[..m][..n] == data[..n];
  }

  /** A field does not depend on what is cut off behind it. */
  lemma FieldCut(data: Bytes, m: nat)
    requires ReadField(data).Some? && ReadField(data).value.1 <= m <= |data|
    ensures ReadField(data[..m]) == ReadField(data)
  {
    var n := Varint(data).1;
    var rest := data[n..];
    VarintCut(data, m);
    assert data[..m][n..] == rest[..m - n];
    var (length, k) := Varint(rest);
    if 0 < k <= m - n { VarintCut(rest, m - n); }
    if length + k <= m - n { assert rest[..m - n][k..k + length] == rest[k..k + length]; }
    hide Varint;
  }

  ghost predicate EndsCutOff(data: Bytes) {
    exists i: nat :: i < |data| && Complete(data[..i]) && CutOffFixed(data[i..])
  }

  lemma {:induction false} CutOffAtEnd(data: Bytes)
    requires Fields(data).Some? && !Complete(data)
    ensures EndsCutOff(data)
    decreases |data|
  {
    hide ReadField, Fields, Complete, Drop, CutOffFixed;
    NoFields();
    CompleteCons(data);
    NotReadable(data);
    var (f, n) := ReadField(data).value;
    CutOffReads(data);
    if n > |data| {
      assert data[..0] == [] && data[0..] == data;
    } else {
      var rest := data[n..];
      FieldsCons(data, f, n);
      DropIs(data, n);
      CutOffAtEnd(rest);
      var j: nat :| j < |rest| && Complete(rest[..j]) && CutOffFixed(rest[j..]);
      var m := n + j;
      FieldCut(data, m);
      CompleteCons(data[..m]);
      DropIs(data[..m], n);
      assert data[..m][n..] == rest[..j] && data[m..] == rest[j..];
    }
  }

  lemma NotReadable(data: Bytes)
    requires data != [] && Fields(data).Some?
    ensures ReadField(data).Some? && ReadField(data).value.1 > 0
  {
    hide ReadField;
  }

  /**
   Data is read although it does not end with a field exactly when it ends with a fixed-size field
   that is cut off.
   */
  lemma CutOffExactly(data: Bytes)
    ensures Fields(data).Some? && !Complete(data) <==> EndsCutOff(data)
  {
    hide Fields, Complete, CutOffFixed;
    if Fields(data).Some? && !Complete(data) { CutOffAtEnd(data); }
    if EndsCutOff(data) {
      var i: nat :| i < |data| && Complete(data[..i]) && CutOffFixed(data[i..]);
      CutOffFixedFieldIsRead(data[..i], data[i..]);
      assert data == data[..i] + data[i..];
    }
  }

  // --- repeated fields

  /** The last field with this number. */
  function Last(fs: seq<Field>, num: nat): (r: Option<Field>)
    ensures r.Some? ==> r.value in fs && r.value.num == num
  {
    if fs == [] then None
    else var rest := Last(fs[1..], num); if rest.Some? then rest else if fs[0].num == num then Some(fs[0]) else None
  }

  /** Numbers 1 to 4 are varints and 5 is bytes. */
  predicate WellTyped(f: Field) { (1 <= f.num <= 4 ==> f.VarintField?) && (f.num == 5 ==> f.BytesField?) }

  function LastText(fs: seq<Field>, num: nat, text: string): string {
    match Last(fs, num)
    case None => text
    case Some(f) => if f.VarintField? then FormatUint(f.value) else text
  }

  /** A frame is read exactly when its known fields have their types, and then each slot holds its last field. */
  lemma {:induction false} LastFieldWins(fs: seq<Field>, f: Frame)
    ensures FrameOf(fs, f).Some? <==> forall x <- fs :: WellTyped(x)
    ensures FrameOf(fs, f).Some? ==>
              var g := FrameOf(fs, f).value;
              && g.sessionID == LastText(fs, 1, f.sessionID) && g.ruleID == LastText(fs, 2, f.ruleID)
              && g.streamID == LastText(fs, 3, f.streamID)
              && g.typ == (match Last(fs, 4) case None => f.typ case Some(x) =>
                   if x.VarintField? then FrameTypeName(x.value) else f.typ)
              && g.payload == (match Last(fs, 5) case None => f.payload case Some(x) =>
                   if x.BytesField? then x.bytes else f.payload)
  {
    if fs != [] {
      assert fs == [fs[0]] + fs[1..];
      assert SetFrame(f, fs[0]).Some? <==> WellTyped(fs[0]);
      if SetFrame(f, fs[0]).Some? { LastFieldWins(fs[1..], SetFrame(f, fs[0]).value); }
    }
  }

  /** In a message, 1 and 2 are varints and 27 is the bytes of a frame that is read itself. */
  predicate WellFormed(f: Field) {
    && (f.num == 1 || f.num == 2 ==> f.VarintField?)
    && (f.num == 27 ==> f.BytesField? && DecodeFrame(f.bytes).Some?)
  }

  /** A message is read exactly when its known fields are well-formed, and then each slot holds its last field. */
  lemma {:induction false} LastMessageFieldWins(fs: seq<Field>, m: Message)
    ensures MessageOf(fs, m).Some? <==> forall x <- fs :: WellFormed(x)
    ensures MessageOf(fs, m).Some? ==>
              var g := MessageOf(fs, m).value;
              && g.seqNo == LastText(fs, 1, m.seqNo) && g.timestamp == LastText(fs, 2, m.timestamp)
              && g.frame == (match Last(fs, 27) case None => m.frame case Some(x) =>
                   if x.BytesField? then DecodeFrame(x.bytes) else m.frame)
  {
    hide DecodeFrame;
    if fs != [] {
      assert fs == [fs[0]] + fs[1..];
      assert SetMessage(m, fs[0]).Some? <==> WellFormed(fs[0]);
      if SetMessage(m, fs[0]).Some? { LastMessageFieldWins(fs[1..], SetMessage(m, fs[0]).value); }
    }
  }

  /** What is decoded of any data: its fields, each slot by its last one; a frame without a type is a SYN. */
  lemma DecodingIsExact(data: Bytes)
    ensures DecodeMessage(data).Some? <==> Fields(data).Some? && forall x <- Fields(data).value :: WellFormed(x)
    ensures DecodeMessage(data).Some? ==>
              var (fs, m) := (Fields(data).value, DecodeMessage(data).value);
              && m.seqNo == LastText(fs, 1, "") && m.timestamp == LastText(fs, 2, "")
              && m.frame == (match Last(fs, 27) case None => None case Some(x) =>
                   if x.BytesField? then DecodeFrame(x.bytes) else None)
    ensures DecodeFrame(data).Some? <==> Fields(data).Some? && forall x <- Fields(data).value :: WellTyped(x)
    ensures DecodeFrame(data).Some? ==>
              var (fs, f) := (Fields(data).value, DecodeFrame(data).value);
              && f.sessionID == LastText(fs, 1, "") && f.ruleID == LastText(fs, 2, "")
              && f.streamID == LastText(fs, 3, "")
              && f.typ == (match Last(fs, 4) case None => "SYN" case Some(x) =>
                   if x.VarintField? then FrameTypeName(x.value) else "SYN")
              && f.payload == (match Last(fs, 5) case None => [] case Some(x) =>
                   if x.BytesField? then x.bytes else [])
  {
    hide Fields, WellFormed, WellTyped, LastText;
    if Fields(data).Some? {
      LastMessageFieldWins(Fields(data).value, NO_MESSAGE);
      LastFieldWins(Fields(data).value, NO_FRAME);
      NamesAreNotEmpty();
      hide MessageOf, FrameOf;
    }
  }

  lemma NamesAreNotEmpty()
    ensures forall v :: FrameTypeName(v) != ""
  {
  }

  // --- the frames the tunnel builds

  const MAPPING_SESSION := "1"

  /** buildMsg, the sequence number and the clock given. */
  function BuildMessage(rule: string, stream: string, typ: string, payload: Bytes, seqNo: nat, now: nat): Message {
    Message(FormatUint(seqNo), FormatUint(now), Some(Frame(MAPPING_SESSION, rule, stream, typ, payload)))
  }

  predicate FrameType(t: string) { t == CONNECT || t == FIN || t == DATA || t == SYN_ACK || t == DATA_ACK }

  predicate SmallNumber(text: string, limit: nat) { text == "" || ParseUint(text, limit).Some? }

  lemma BuiltFields(rule: string, stream: string, typ: string, payload: Bytes, seqNo: nat, now: nat)
    requires seqNo < TWO64 && now < TWO64 && FrameType(typ)
    ensures Encode(BuildMessage(rule, stream, typ, payload, seqNo, now)).Some? <==>
              SmallNumber(rule, TWO64) && SmallNumber(stream, TWO32)
  {
    ParseOfFormat(seqNo, TWO64);
    ParseOfFormat(now, TWO64);
    assert ParseUint(MAPPING_SESSION, TWO32) == Some(1)
           by { assert FormatUint(1) == MAPPING_SESSION; ParseOfFormat(1, TWO32); }
    hide ParseUint, EncodeFields;
  }

  /**
   A frame the tunnel sends: it can be built exactly when its IDs fit, and the peer then sees the
   same IDs, type and payload.
   */
  lemma TunnelFramesArrive(rule: string, stream: string, typ: string, payload: Bytes, seqNo: nat, now: nat)
    requires seqNo < TWO64 && now < TWO64 && FrameType(typ)
    ensures var m := BuildMessage(rule, stream, typ, payload, seqNo, now);
            && (Encode(m).Some? <==> SmallNumber(rule, TWO64) && SmallNumber(stream, TWO32))
            && (Encode(m).Some? && |Encode(m).value| < MAX_LENGTH ==>
                  && DecodeMessage(Encode(m).value).Some? && DecodeMessage(Encode(m).value).value.frame.Some?
                  && var f := DecodeMessage(Encode(m).value).value.frame.value;
                     && f.typ == typ && f.payload == payload
                     && (f.ruleID == rule <==> Plain(rule)) && (f.streamID == stream <==> Plain(stream)))
  {
    var m := BuildMessage(rule, stream, typ, payload, seqNo, now);
    BuiltFields(rule, stream, typ, payload, seqNo, now);
    if Encode(m).Some? && |Encode(m).value| < MAX_LENGTH {
      RoundTrip(m);
      NumbersAreDigits(m);
      hide Encode, DecodeMessage, CanonicalText, Canonical, SmallNumber;
      PlainStays(rule);
      PlainStays(stream);
    }
  }

  /** So two different streams with canonical IDs never arrive as one. */
  lemma IDsStayApart(m: Message, m2: Message)
    requires Encode(m).Some? && |Encode(m).value| < MAX_LENGTH && PlainMessage(m)
    requires Encode(m2).Some? && |Encode(m2).value| < MAX_LENGTH && PlainMessage(m2)
    requires Encode(m) == Encode(m2)
    ensures m == m2
  {
    RoundTripIsExact(m);
    RoundTripIsExact(m2);
    hide Encode, DecodeMessage, PlainMessage;
  }
}
