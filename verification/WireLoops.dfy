/** The loops behind the wire format: each computes the function of Wire it is named after. */
module WireLoops {
  import opened Basics
  import opened Wire

  /** appendVarint: seven bits at a time, the continuation bit on all but the last. */
  method AppendVarint(buf: Bytes, value: nat) returns (out: Bytes)
    ensures out == buf + EncodeVarint(value)
  {
    out := buf;
    var v := value;
    while v >= 128
      invariant out + EncodeVarint(v) == buf + EncodeVarint(value)
    {
      Shift(out, v);
      out := out + [v % 128 + 128];
      v := v / 128;
    }
    out := out + [v];
  }

  lemma Shift(out: Bytes, v: nat)
    requires v >= 128
    ensures out + EncodeVarint(v) == out + [v % 128 + 128] + EncodeVarint(v / 128)
  {
  }

  method AppendFieldVarint(buf: Bytes, num: nat, value: nat) returns (out: Bytes)
    ensures out == buf + EncodeField(VarintField(num, value))
  {
    hide EncodeVarint;
    Assoc(buf, EncodeVarint(Tag(num, 0)), EncodeVarint(value));
    out := AppendVarint(buf, num * 8);
    out := AppendVarint(out, value);
  }

  method AppendFieldBytes(buf: Bytes, num: nat, b: Bytes) returns (out: Bytes)
    ensures out == buf + EncodeField(BytesField(num, b))
  {
    hide EncodeVarint;
    var tag, len := EncodeVarint(Tag(num, 2)), EncodeVarint(|b|);
    Assoc(buf, tag, len);
    Assoc(buf, tag + len, b);
    out := AppendVarint(buf, num * 8 + 2);
    out := AppendVarint(out, |b|);
    out := out + b;
  }

  lemma {:induction false} GroupsSnoc(data: Bytes, b: Byte)
    ensures Groups(data + [b]) == Groups(data) + (b % 128) * Pow128(|data|)
  {
    if data == [] {
      assert data + [b] == [b] && [b][1..] == [];
    } else {
      assert (data + [b])[1..] == data[1..] + [b] && (data + [b])[0] == data[0];
      GroupsSnoc(data[1..], b);
      assert 128 * ((b % 128) * Pow128(|data| - 1)) == (b % 128) * (128 * Pow128(|data| - 1));
    }
  }

  lemma {:induction false} GroupsBound(data: Bytes)
    ensures Groups(data) < Pow128(|data|)
  {
    if data != [] { GroupsBound(data[1..]); }
  }

  lemma Powers(i: nat)
    requires i < MAX_VARINT
    ensures Pow128(9) == TWO64 / 2 && Pow128(i) <= Pow128(9)
    ensures i < 9 ==> 128 * Pow128(i) <= Pow128(9)
  {
    assert Pow128(3) == 0x20_0000;
    assert Pow128(6) == 0x400_0000_0000;
    assert Pow128(9) == 0x8000_0000_0000_0000;
    assert Pow128(4) == 0x1000_0000 && Pow128(5) == 0x8_0000_0000;
    assert Pow128(7) == 0x2_0000_0000_0000 && Pow128(8) == 0x100_0000_0000_0000;
    assert Pow128(1) == 128 && Pow128(2) == 0x4000;
  }

  lemma TimesAtMost(x: nat, y: nat, p: nat)
    requires x <= y
    ensures x * p <= y * p
  {
    assert (y - x) * p >= 0;
    assert y * p == x * p + (y - x) * p;
  }

  lemma EarlyGroup(low: nat, group: nat, p: nat)
    requires group < 128 && low < p && 128 * p <= TWO64 / 2
    ensures low + group * p < 128 * p
    ensures (low + group * p) % TWO64 == low + group * p % TWO64
  {
    TimesAtMost(group, 127, p);
    var x := group * p;
    assert x <= 127 * p;
  }

  lemma LastGroup(low: nat, group: nat)
    requires group < 128 && low < TWO64 / 2
    ensures (low + group * (TWO64 / 2)) % TWO64 == low + group * (TWO64 / 2) % TWO64
  {
    var half, r, h := TWO64 / 2, group % 2, group / 2;
    assert group == 2 * h + r && group * half == r * half + h * TWO64;
    Wraps(r * half, h);
    Wraps(low + r * half, h);
  }

  /** Setting the next seven bits, where only the lowest of them fits behind the 63rd. */
  lemma NextGroup(low: nat, group: nat, i: nat)
    requires i < MAX_VARINT && group < 128 && low < Pow128(i)
    ensures (low + group * Pow128(i)) % TWO64 == low + group * Pow128(i) % TWO64
    ensures i < 9 ==> low + group * Pow128(i) < Pow128(i + 1) <= TWO64
  {
    Powers(i);
    if i < 9 { EarlyGroup(low, group, Pow128(i)); } else { LastGroup(low, group); }
  }

  lemma Wraps(x: nat, h: nat)
    requires x < TWO64
    ensures (x + h * TWO64) % TWO64 == x
  {
  }

  lemma LengthStep(data: Bytes, i: nat)
    requires i < |data| && i < MAX_VARINT
    ensures VarintLength(data[i..], MAX_VARINT - i)
            == if data[i] < 128 then 1
               else var k := VarintLength(data[i + 1..], MAX_VARINT - i - 1); if k == 0 then 0 else k + 1
  {
    assert data[i..][1..] == data[i + 1..];
  }

  /** decodeVarint, and readPBVarint which is the same loop. */
  method DecodeVarint(data: Bytes) returns (v: nat, n: nat)
    ensures (v, n) == Varint(data)
  {
    v := 0;
    var i := 0;
    assert data[0..] == data && data[..0] == [];
    while i < |data| && i < MAX_VARINT
      invariant i <= |data| && i <= MAX_VARINT
      invariant i == MAX_VARINT || v == Groups(data[..i])
      invariant VarintLength(data, MAX_VARINT)
                == var k := VarintLength(data[i..], MAX_VARINT - i); if k == 0 then 0 else i + k
    {
      var b := data[i];
      GroupsBound(data[..i]);
      GroupsSnoc(data[..i], b);
      assert data[..i + 1] == data[..i] + [b];
      NextGroup(v, b % 128, i);
      LengthStep(data, i);
      // v is below 128^i, so the OR of the source is a sum; the shift drops what is beyond 64 bits
      v := v + (b % 128) * Pow128(i) % TWO64;
      if b < 128 {
        return v, i + 1;
      }
      i := i + 1;
    }
    return 0, 0;
  }

  /** decodeBytesField: None is the error, be it the wire type, the length or its varint. */
  method DecodeBytesField(data: Bytes, wire: nat) returns (r: Option<(Bytes, nat)>)
    ensures r == if wire != 2 then None else ReadBytes(data)
  {
    if wire != 2 { return None; }
    var length, n := DecodeVarint(data);
    if n == 0 { return None; }
    if length > |data| - n { return None; }
    return Some((data[n..n + length], n + length));
  }

  /** What skipField passes over. */
  function Skipped(data: Bytes, wire: nat): Option<nat> {
    match wire
    case 0 => if Varint(data).1 == 0 then None else Some(Varint(data).1)
    case 1 => Some(8)
    case 2 => if ReadBytes(data).None? then None else Some(ReadBytes(data).value.1)
    case 5 => Some(4)
    case _ => None
  }

  method SkipField(data: Bytes, wire: nat) returns (r: Option<nat>)
    ensures r == Skipped(data, wire)
  {
    match wire
    case 0 =>
      var v, n := DecodeVarint(data);
      return if n == 0 then None else Some(n);
    case 1 => return Some(8);
    case 2 =>
      var b := DecodeBytesField(data, 2);
      return if b.None? then None else Some(b.value.1);
    case 5 => return Some(4);
    case _ => return None;
  }

  /** Skipping after the tag passes over exactly the field that is there. */
  lemma SkipsTheField(data: Bytes)
    requires data != []
    ensures var (tag, n) := Varint(data);
            n > 0 ==>
              && (ReadField(data).None? <==> Skipped(data[n..], tag % 8).None?)
              && (ReadField(data).Some? ==>
                    ReadField(data).value.0.num == tag / 8
                        && ReadField(data).value.1 == n + Skipped(data[n..], tag % 8).value)
    ensures Varint(data).1 == 0 ==> ReadField(data).None?
  {
    hide Varint, ReadBytes;
  }
}
