// Canonical base-128 integers as the two relay readers accept them: exactly
// the encodings of the values in range, and nothing else.
module Varint {
  import opened Common
  import opened Geometry

  type Byte = n: nat | n < 256

  datatype Reading = Read(value: nat, next: nat) | Malformed

  /** Seven bits a byte, least significant first, the high bit marking continuation. */
  function Encode(value: nat): (bytes: seq<Byte>)
    ensures |bytes| >= 1 && bytes[|bytes| - 1] < 128
    ensures forall i :: 0 <= i < |bytes| - 1 ==> bytes[i] >= 128
  {
    if value < 128 then [value] else [value % 128 + 128] + Encode(value / 128)
  }

  function Pow128(k: nat): (p: nat)
    ensures p >= 1
  {
    if k == 0 then 1 else 128 * Pow128(k - 1)
  }

  /** Value of the low seven bits of the bytes, least significant first. */
  function Groups(bytes: seq<Byte>): nat {
    if bytes == [] then 0 else Groups(bytes[..|bytes| - 1]) + bytes[|bytes| - 1] % 128 * Pow128(|bytes| - 1)
  }

  lemma {:induction false} GroupsFromFront(bytes: seq<Byte>)
    requires bytes != []
    ensures Groups(bytes) == bytes[0] % 128 + 128 * Groups(bytes[1..])
  {
    if |bytes| > 1 {
      var short, last := bytes[..|bytes| - 1], bytes[|bytes| - 1];
      GroupsFromFront(short);
      assert short[1..] == bytes[1..][..|bytes| - 2];
      assert last % 128 * Pow128(|bytes| - 1) == 128 * (last % 128 * Pow128(|bytes| - 2));
    }
  }

  lemma {:induction false} GroupsBelow(bytes: seq<Byte>)
    ensures Groups(bytes) < Pow128(|bytes|)
    ensures bytes != [] && bytes[|bytes| - 1] % 128 != 0 ==> Groups(bytes) >= Pow128(|bytes| - 1)
  {
    if bytes != [] {
      GroupsBelow(bytes[..|bytes| - 1]);
      MulMonotone(bytes[|bytes| - 1] % 128, 127, Pow128(|bytes| - 1));
      if bytes[|bytes| - 1] % 128 != 0 {
        MulMonotone(1, bytes[|bytes| - 1] % 128, Pow128(|bytes| - 1));
      }
    }
  }

  /** Continuation bytes followed by a last one. */
  predicate Terminated(bytes: seq<Byte>) {
    && bytes != [] && bytes[|bytes| - 1] < 128
    && forall i :: 0 <= i < |bytes| - 1 ==> bytes[i] >= 128
  }

  /** A terminated group without a zero top byte is the encoding of its value. */
  lemma {:induction false} TerminatedIsEncoding(bytes: seq<Byte>)
    requires Terminated(bytes) && (|bytes| > 1 ==> bytes[|bytes| - 1] != 0)
    ensures Encode(Groups(bytes)) == bytes
  {
    GroupsFromFront(bytes);
    if |bytes| > 1 {
      TerminatedIsEncoding(bytes[1..]);
      GroupsBelow(bytes[1..]);
    }
  }

  lemma {:induction false} EncodingHasValue(value: nat)
    ensures Groups(Encode(value)) == value
    ensures |Encode(value)| > 1 ==> Encode(value)[|Encode(value)| - 1] != 0
  {
    hide Pow128;
    GroupsFromFront(Encode(value));
    if value >= 128 {
      EncodingHasValue(value / 128);
      assert Encode(value)[1..] == Encode(value / 128);
      hide Groups;
    }
  }

  /** Whether the payload holds the encoding of `value` at `offset`. */
  predicate Holds(payload: seq<Byte>, offset: nat, value: nat) {
    offset + |Encode(value)| <= |payload| && payload[offset..offset + |Encode(value)|] == Encode(value)
  }

  /** No encoding is a prefix of another, so at most one value stands at an offset. */
  lemma HoldsOne(payload: seq<Byte>, offset: nat, a: nat, b: nat)
    requires Holds(payload, offset, a) && Holds(payload, offset, b)
    ensures a == b
  {
    NotLonger(payload, offset, Encode(a), Encode(b));
    NotLonger(payload, offset, Encode(b), Encode(a));
    EncodingHasValue(a);
    EncodingHasValue(b);
  }

  lemma NotLonger(payload: seq<Byte>, offset: nat, a: seq<Byte>, b: seq<Byte>)
    requires Terminated(a) && offset + |a| <= |payload| && payload[offset..offset + |a|] == a
    requires Terminated(b) && offset + |b| <= |payload| && payload[offset..offset + |b|] == b
    ensures |b| <= |a|
  {
    var last := |a| - 1;
    assert a[last] == payload[offset + last];
    assert last < |b| ==> b[last] == payload[offset + last];
  }

  // ---------------------------------------------------------------- bit length

  function BitLength(value: nat): nat { if value == 0 then 0 else 1 + BitLength(value / 2) }

  lemma {:induction false} BitLengthBound(value: nat, k: nat)
    ensures BitLength(value) <= k <==> value < Pow2(k)
    decreases k
  {
    if k > 0 {
      BitLengthBound(value / 2, k - 1);
    }
  }

  lemma {:induction false} Pow2OfSevens(k: nat)
    ensures Pow2(7 * k) == Pow128(k)
  {
    if k > 0 {
      Pow2OfSevens(k - 1);
      assert Pow2(7 * k) == 2 * Pow2(7 * k - 1) && Pow2(7 * k - 1) == 2 * Pow2(7 * k - 2);
      assert Pow2(7 * k - 2) == 2 * Pow2(7 * k - 3) && Pow2(7 * k - 3) == 2 * Pow2(7 * k - 4);
      assert Pow2(7 * k - 4) == 2 * Pow2(7 * k - 5) && Pow2(7 * k - 5) == 2 * Pow2(7 * k - 6);
      assert Pow2(7 * k - 6) == 2 * Pow2(7 * k - 7);
    }
  }

  /** Bytes a canonical encoding takes, from the bit length. */
  function CanonicalLength(value: nat): nat {
    var n := (BitLength(value) + 6) / 7;
    if n < 1 then 1 else n
  }

  /** The length test rejects exactly the groups whose top byte is an idle zero. */
  lemma LengthTestIsCanonical(bytes: seq<Byte>)
    requires Terminated(bytes)
    ensures |bytes| == CanonicalLength(Groups(bytes)) <==> (|bytes| > 1 ==> bytes[|bytes| - 1] != 0)
  {
    var value, n := Groups(bytes), |bytes|;
    GroupsBelow(bytes);
    GroupsBelow(bytes[..n - 1]);
    BitLengthBound(value, 7 * n);
    Pow2OfSevens(n);
    BitLengthBound(value, 7 * (n - 1));
    Pow2OfSevens(n - 1);
  }

  // ---------------------------------------------------------------- the readers

  /** What both readers have to return: the value below the limit that stands at the offset. */
  ghost predicate ReadsCanonical(payload: seq<Byte>, offset: nat, limit: nat, reading: Reading) {
    match reading
    case Read(value, next) => value < limit && Holds(payload, offset, value) && next == offset + |Encode(value)|
    case Malformed => forall value: nat :: value < limit ==> !Holds(payload, offset, value)
  }

  /** Continuation bytes up to here decide the prefix of any value that stands at the offset. */
  lemma HeldStartsWith(payload: seq<Byte>, offset: nat, value: nat, count: nat)
    requires Holds(payload, offset, value) && offset + count <= |payload|
    requires forall i :: offset <= i < offset + count ==> payload[i] >= 128
    ensures count < |Encode(value)| && offset + count < |payload|
    ensures payload[offset + count] < 128 ==>
      |Encode(value)| == count + 1 && payload[offset..offset + count + 1] == Encode(value)
  {
    var e := Encode(value);
    assert forall i :: 0 <= i < |e| ==> payload[offset + i] == e[i];
    assert payload[offset + (|e| - 1)] == e[|e| - 1] < 128;
    assert payload[offset + count] == e[count];
  }

  /** Nothing canonical stands here when the bytes run out or too many continue. */
  lemma NothingHeld(payload: seq<Byte>, offset: nat, count: nat, limit: nat)
    requires offset + count <= |payload|
    requires forall i :: offset <= i < offset + count ==> payload[i] >= 128
    requires offset + count == |payload| || (count > 0 && limit <= Pow128(count))
    ensures forall value: nat :: value < limit ==> !Holds(payload, offset, value)
  {
    forall value: nat | value < limit ensures !Holds(payload, offset, value) {
      if Holds(payload, offset, value) {
        HeldStartsWith(payload, offset, value, count);
        EncodingHasValue(value);
        GroupsBelow(Encode(value));
        Pow128Monotone(count, |Encode(value)| - 1);
      }
    }
  }

  lemma {:induction false} Pow128Monotone(a: nat, b: nat)
    requires a <= b
    ensures Pow128(a) <= Pow128(b)
    decreases b
  {
    if a < b {
      Pow128Monotone(a, b - 1);
    }
  }

  /** The group that ends at `offset + count` is what any value standing there encodes to. */
  lemma TerminatedReading(payload: seq<Byte>, offset: nat, count: nat, limit: nat)
    requires offset + count < |payload| && payload[offset + count] < 128
    requires forall i :: offset <= i < offset + count ==> payload[i] >= 128
    ensures var bytes := payload[offset..offset + count + 1];
      && Terminated(bytes)
      && (if (count > 0 ==> payload[offset + count] != 0) && Groups(bytes) < limit
          then ReadsCanonical(payload, offset, limit, Read(Groups(bytes), offset + count + 1))
          else ReadsCanonical(payload, offset, limit, Malformed))
  {
    var bytes := payload[offset..offset + count + 1];
    forall value: nat | Holds(payload, offset, value) ensures bytes == Encode(value) && Groups(bytes) == value {
      HeldStartsWith(payload, offset, value, count);
      EncodingHasValue(value);
    }
    if count > 0 ==> payload[offset + count] != 0 {
      TerminatedIsEncoding(bytes);
    } else {
      forall value: nat ensures !Holds(payload, offset, value) {
        EncodingHasValue(value);
      }
    }
  }

  lemma GroupsGrow(payload: seq<Byte>, offset: nat, count: nat)
    requires offset + count < |payload|
    ensures Groups(payload[offset..offset + count + 1])
         == Groups(payload[offset..offset + count]) + payload[offset + count] % 128 * Pow128(count)
  {
    hide Pow128, Groups;
    var bytes := payload[offset..offset + count + 1];
    assert bytes[..count] == payload[offset..offset + count];
    GroupsOfLast(bytes);
  }

  lemma GroupsOfLast(bytes: seq<Byte>)
    requires bytes != []
    ensures Groups(bytes) == Groups(bytes[..|bytes| - 1]) + bytes[|bytes| - 1] % 128 * Pow128(|bytes| - 1)
  {
    hide Pow128;
  }

  lemma FivePowers()
    ensures Pow128(4) == 0x1000_0000 && Pow128(5) == 0x8_0000_0000
    ensures Pow128(10) == 0x40_0000_0000_0000_0000
  {
    assert Pow128(2) == 0x4000 && Pow128(3) == 0x20_0000;
    assert Pow128(6) == 128 * Pow128(5) && Pow128(7) == 128 * Pow128(6);
    assert Pow128(8) == 128 * Pow128(7) && Pow128(9) == 128 * Pow128(8);
  }

  lemma BeyondPayload(payload: seq<Byte>, offset: nat, limit: nat)
    requires offset > |payload|
    ensures ReadsCanonical(payload, offset, limit, Malformed)
  {
  }

  lemma RunsOut(payload: seq<Byte>, offset: nat, count: nat, limit: nat)
    requires offset + count <= |payload|
    requires forall i :: offset <= i < offset + count ==> payload[i] >= 128
    requires offset + count == |payload| || (count > 0 && limit <= Pow128(count))
    ensures ReadsCanonical(payload, offset, limit, Malformed)
  {
    NothingHeld(payload, offset, count, limit);
  }

  /** A fifth byte above fifteen puts every value standing here past 32 bits. */
  lemma FifthByteTooLarge(payload: seq<Byte>, offset: nat)
    requires offset + 4 < |payload| && payload[offset + 4] > 15
    requires forall i :: offset <= i < offset + 4 ==> payload[i] >= 128
    ensures ReadsCanonical(payload, offset, 0x1_0000_0000, Malformed)
  {
    FivePowers();
    if payload[offset + 4] >= 128 {
      RunsOut(payload, offset, 5, 0x1_0000_0000);
    } else {
      TerminatedReading(payload, offset, 4, 0x1_0000_0000);
      GroupsGrow(payload, offset, 4);
      MulMonotone(16, payload[offset + 4], Pow128(4));
    }
  }

  /** Reads one 32-bit integer; the fifth byte may carry four bits only. */
  method ReadU32(payload: seq<Byte>, start: nat) returns (reading: Reading)
    ensures ReadsCanonical(payload, start, 0x1_0000_0000, reading)
  {
    hide ReadsCanonical, Groups, Pow128;
    FivePowers();
    if start > |payload| {
      BeyondPayload(payload, start, 0x1_0000_0000);
      return Malformed;
    }
    var offset, value := start, 0;
    NoGroups(payload, start);
    for index := 0 to 5
      invariant offset == start + index <= |payload|
      invariant forall i :: start <= i < offset ==> payload[i] >= 128
      invariant value == Groups(payload[start..offset]) && index <= 4
    {
      if offset >= |payload| {
        RunsOut(payload, start, index, 0x1_0000_0000);
        return Malformed;
      }
      var byte := payload[offset];
      GroupsGrow(payload, start, index);
      offset := offset + 1;
      if index == 4 && byte > 15 {
        FifthByteTooLarge(payload, start);
        return Malformed;
      }
      value := value + byte % 128 * Pow128(index);
      if byte < 128 {
        TerminatedReading(payload, start, index, 0x1_0000_0000);
        LengthTestIsCanonical(payload[start..offset]);
        FitsU32(payload, start, index);
        if offset - start != CanonicalLength(value) {
          return Malformed;
        }
        return Read(value, offset);
      }
    }
    assert false;
  }

  lemma NoGroups(payload: seq<Byte>, start: nat)
    requires start <= |payload|
    ensures Groups(payload[start..start]) == 0
  {
  }

  lemma FitsU32(payload: seq<Byte>, offset: nat, count: nat)
    requires offset + count < |payload| && count <= 4
    requires count == 4 ==> payload[offset + count] <= 15
    ensures Groups(payload[offset..offset + count + 1]) < 0x1_0000_0000
  {
    FivePowers();
    GroupsBelow(payload[offset..offset + count + 1]);
    Pow128Monotone(count + 1, if count < 4 then 4 else 5);
    GroupsGrow(payload, offset, count);
    GroupsBelow(payload[offset..offset + count]);
    MulMonotone(payload[offset + count] % 128, if count == 4 then 15 else 127, Pow128(count));
  }

  /** Reads one integer of the given width from at most ten bytes. */
  method ReadVarint(payload: seq<Byte>, offset: nat, bits: nat) returns (reading: Reading)
    requires bits in {16, 32, 64}
    ensures ReadsCanonical(payload, offset, Pow2(bits), reading)
  {
    hide ReadsCanonical, Groups, Pow128;
    var limit := Pow2(bits);
    WidthFits(bits);
    FivePowers();
    if offset > |payload| {
      BeyondPayload(payload, offset, limit);
      return Malformed;
    }
    var value := 0;
    NoGroups(payload, offset);
    for index := 0 to 10
      invariant offset + index <= |payload|
      invariant forall i :: offset <= i < offset + index ==> payload[i] >= 128
      invariant value == Groups(payload[offset..offset + index])
    {
      if offset + index >= |payload| {
        RunsOut(payload, offset, index, limit);
        return Malformed;
      }
      var byte := payload[offset + index];
      GroupsGrow(payload, offset, index);
      value := value + byte % 128 * Pow128(index);
      if byte < 128 {
        TerminatedReading(payload, offset, index, limit);
        if value >= limit || (index > 0 && byte == 0) {
          return Malformed;
        }
        return Read(value, offset + index + 1);
      }
    }
    RunsOut(payload, offset, 10, limit);
    reading := Malformed;
  }

  lemma WidthFits(bits: nat)
    requires bits in {16, 32, 64}
    ensures Pow2(bits) <= Pow128(10)
  {
    Pow2OfSevens(10);
    Pow2Monotone(bits, 70);
  }

  lemma {:induction false} Pow2Monotone(a: nat, b: nat)
    requires a <= b
    ensures Pow2(a) <= Pow2(b)
    decreases b
  {
    if a < b {
      Pow2Monotone(a, b - 1);
    }
  }

  /** Reading back what was written, whatever follows it. */
  lemma EncodedIsHeld(value: nat, before: seq<Byte>, after: seq<Byte>)
    ensures Holds(before + Encode(value) + after, |before|, value)
  {
  }

  /** The reading of an offset is determined by the bytes, so both readers agree on 32-bit integers. */
  lemma ReadingIsUnique(payload: seq<Byte>, offset: nat, limit: nat, a: Reading, b: Reading)
    requires ReadsCanonical(payload, offset, limit, a) && ReadsCanonical(payload, offset, limit, b)
    ensures a == b
  {
    if a.Read? && b.Read? {
      HoldsOne(payload, offset, a.value, b.value);
    }
  }

  /** The reading every canonical reader has to give. */
  ghost function ReadAt(payload: seq<Byte>, offset: nat, limit: nat): (reading: Reading)
    ensures ReadsCanonical(payload, offset, limit, reading)
  {
    if value: nat :| value < limit && Holds(payload, offset, value) then Read(value, offset + |Encode(value)|)
    else Malformed
  }
}
