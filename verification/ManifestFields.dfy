// Fields of the binary manifest: little-endian integers, bounded text and raw
// bytes, read one after the other from a byte string.
module ManifestFields {
  import opened Common
  import opened Geometry
  import Varint

  type Byte = Varint.Byte

  const MAX_TEXT_BYTES: nat := 4096

  // ---------------------------------------------------------------- little-endian integers

  function Pow256(k: nat): (p: nat)
    ensures p >= 1
  {
    if k == 0 then 1 else 256 * Pow256(k - 1)
  }

  function Le(value: nat, width: nat): (bytes: seq<Byte>)
    ensures |bytes| == width
  {
    if width == 0 then [] else [value % 256] + Le(value / 256, width - 1)
  }

  function FromLe(bytes: seq<Byte>): (value: nat)
    ensures value < Pow256(|bytes|)
  {
    if bytes == [] then 0 else bytes[0] + 256 * FromLe(bytes[1..])
  }

  lemma {:induction false} FromLeOfLe(value: nat, width: nat)
    requires value < Pow256(width)
    ensures FromLe(Le(value, width)) == value
  {
    if width > 0 {
      FromLeOfLe(value / 256, width - 1);
      assert Le(value, width)[1..] == Le(value / 256, width - 1);
    }
  }

  lemma {:induction false} LeOfFromLe(bytes: seq<Byte>)
    ensures Le(FromLe(bytes), |bytes|) == bytes
  {
    if bytes != [] {
      LeOfFromLe(bytes[1..]);
      assert FromLe(bytes) % 256 == bytes[0] && FromLe(bytes) / 256 == FromLe(bytes[1..]);
    }
  }

  // ---------------------------------------------------------------- one field

  datatype Kind = Uint(width: nat) | Text | Raw(count: nat)

  datatype Value = Number(n: nat) | Octets(bytes: seq<Byte>)

  /** Which byte strings are valid UTF-8, and which of those have no control character. */
  datatype TextRules = TextRules(utf8: seq<Byte> -> bool, plain: seq<Byte> -> bool)

  predicate Fits(rules: TextRules, kind: Kind, value: Value) {
    match kind
    case Uint(width) => value.Number? && value.n < Pow256(width)
    case Text => value.Octets? && 1 <= |value.bytes| <= MAX_TEXT_BYTES && rules.utf8(value.bytes)
    case Raw(count) => value.Octets? && |value.bytes| == count
  }

  function FieldBytes(kind: Kind, value: Value): seq<Byte> {
    match value
    case Number(n) => Le(n, if kind.Uint? then kind.width else 0)
    case Octets(bytes) => if kind.Text? then Le(|bytes|, 2) + bytes else bytes
  }

  datatype Parse<+T> = Parsed(value: T, rest: seq<Byte>) | Rejected {
    predicate IsFailure() { Rejected? }

    function PropagateFailure<U>(): Parse<U>
      requires IsFailure()
    {
      Rejected
    }

    function Extract(): (T, seq<Byte>)
      requires !IsFailure()
    {
      (value, rest)
    }
  }

  function ReadField(rules: TextRules, s: seq<Byte>, kind: Kind): (read: Parse<Value>)
    ensures read.Parsed? ==> Fits(rules, kind, read.value)
  {
    match kind
    case Uint(width) => if |s| < width then Rejected else Parsed(Number(FromLe(s[..width])), s[width..])
    case Raw(count) => if |s| < count then Rejected else Parsed(Octets(s[..count]), s[count..])
    case Text =>
      if |s| < 2 then Rejected
      else
        var count := FromLe(s[..2]);
        if count == 0 || count > MAX_TEXT_BYTES || |s| < 2 + count || !rules.utf8(s[2..2 + count]) then Rejected
        else Parsed(Octets(s[2..2 + count]), s[2 + count..])
  }

  /** A written field reads back, whatever follows it. */
  lemma FieldReads(rules: TextRules, kind: Kind, value: Value, rest: seq<Byte>)
    requires Fits(rules, kind, value)
    ensures ReadField(rules, FieldBytes(kind, value) + rest, kind) == Parsed(value, rest)
  {
    var s := FieldBytes(kind, value) + rest;
    match kind
    case Uint(width) =>
      FromLeOfLe(value.n, width);
      assert s[..width] == Le(value.n, width) && s[width..] == rest;
    case Raw(count) =>
      assert s[..count] == value.bytes && s[count..] == rest;
    case Text =>
      var count := |value.bytes|;
      assert Pow256(2) == 65536;
      FromLeOfLe(count, 2);
      assert s[..2] == Le(count, 2) && s[2..2 + count] == value.bytes && s[2 + count..] == rest;
  }

  /** A field is only read from its own bytes. */
  lemma FieldIsCanonical(rules: TextRules, s: seq<Byte>, kind: Kind)
    requires ReadField(rules, s, kind).Parsed?
    ensures var read := ReadField(rules, s, kind);
      Fits(rules, kind, read.value) && s == FieldBytes(kind, read.value) + read.rest
  {
    match kind
    case Uint(width) =>
      LeOfFromLe(s[..width]);
      assert s == s[..width] + s[width..];
    case Raw(count) =>
      assert s == s[..count] + s[count..];
    case Text =>
      LeOfFromLe(s[..2]);
      var count := FromLe(s[..2]);
      assert s == s[..2] + s[2..2 + count] + s[2 + count..];
  }

  // ---------------------------------------------------------------- a list of fields

  predicate AllFit(rules: TextRules, kinds: seq<Kind>, values: seq<Value>) {
    |kinds| == |values| && forall i :: 0 <= i < |kinds| ==> Fits(rules, kinds[i], values[i])
  }

  function FieldsBytes(kinds: seq<Kind>, values: seq<Value>): seq<Byte>
    requires |kinds| == |values|
  {
    if kinds == [] then [] else FieldBytes(kinds[0], values[0]) + FieldsBytes(kinds[1..], values[1..])
  }

  function ReadFields(rules: TextRules, s: seq<Byte>, kinds: seq<Kind>): (read: Parse<seq<Value>>)
    ensures read.Parsed? ==> AllFit(rules, kinds, read.value)
  {
    if kinds == [] then Parsed([], s)
    else
      var (first, s1) :- ReadField(rules, s, kinds[0]);
      var (others, s2) :- ReadFields(rules, s1, kinds[1..]);
      Parsed([first] + others, s2)
  }

  lemma {:induction false} FieldsRead(rules: TextRules, kinds: seq<Kind>, values: seq<Value>, rest: seq<Byte>)
    requires AllFit(rules, kinds, values)
    ensures ReadFields(rules, FieldsBytes(kinds, values) + rest, kinds) == Parsed(values, rest)
  {
    hide FieldBytes, ReadField, Fits;
    if kinds == [] {
      assert FieldsBytes(kinds, values) + rest == rest;
    } else {
      var tail := FieldsBytes(kinds[1..], values[1..]);
      FieldReads(rules, kinds[0], values[0], tail + rest);
      FieldsRead(rules, kinds[1..], values[1..], rest);
      Regroup(FieldBytes(kinds[0], values[0]), tail, rest);
      assert values == [values[0]] + values[1..];
    }
  }

  lemma {:induction false} FieldsAreCanonical(rules: TextRules, s: seq<Byte>, kinds: seq<Kind>)
    requires ReadFields(rules, s, kinds).Parsed?
    ensures var read := ReadFields(rules, s, kinds);
      AllFit(rules, kinds, read.value) && s == FieldsBytes(kinds, read.value) + read.rest
    decreases |kinds|
  {
    hide FieldBytes, ReadField, Fits;
    var read := ReadFields(rules, s, kinds);
    if kinds == [] {
      assert FieldsBytes(kinds, read.value) + s == s;
    } else {
      FieldIsCanonical(rules, s, kinds[0]);
      var first := ReadField(rules, s, kinds[0]);
      FieldsAreCanonical(rules, first.rest, kinds[1..]);
      var others := ReadFields(rules, first.rest, kinds[1..]);
      assert read.value[1..] == others.value;
      Regroup(FieldBytes(kinds[0], first.value), FieldsBytes(kinds[1..], others.value), others.rest);
    }
  }

  lemma {:induction false} FieldsInTurn(rules: TextRules, s: seq<Byte>, kinds: seq<Kind>, kind: Kind)
    ensures ReadFields(rules, s, kinds + [kind]) ==
      (match ReadFields(rules, s, kinds)
       case Rejected => Rejected
       case Parsed(values, rest) =>
         match ReadField(rules, rest, kind)
         case Rejected => Rejected
         case Parsed(last, end) => Parsed(values + [last], end))
    decreases |kinds|
  {
    hide ReadField;
    if kinds == [] {
      assert kinds + [kind] == [kind] && [kind][1..] == [];
      assert forall value: Value :: [value] + [] == [] + [value];
    } else {
      assert (kinds + [kind])[1..] == kinds[1..] + [kind];
      var first := ReadField(rules, s, kinds[0]);
      if first.Parsed? {
        FieldsInTurn(rules, first.rest, kinds[1..], kind);
        var others := ReadFields(rules, first.rest, kinds[1..]);
        if others.Parsed? && ReadField(rules, others.rest, kind).Parsed? {
          var last := ReadField(rules, others.rest, kind).value;
          assert ([first.value] + others.value) + [last] == [first.value] + (others.value + [last]);
        }
      }
    }
  }

  lemma {:induction false} BytesInTurn(kinds: seq<Kind>, values: seq<Value>, kind: Kind, value: Value)
    requires |kinds| == |values|
    ensures FieldsBytes(kinds + [kind], values + [value]) == FieldsBytes(kinds, values) + FieldBytes(kind, value)
  {
    hide FieldBytes;
    if kinds == [] {
      assert [kind][1..] == [] && [value][1..] == [];
    } else {
      assert (kinds + [kind])[1..] == kinds[1..] + [kind] && (values + [value])[1..] == values[1..] + [value];
      BytesInTurn(kinds[1..], values[1..], kind, value);
    }
  }

  // ---------------------------------------------------------------- the writer and the reader

  class ManifestWriter {
    var bytes: seq<Byte>

    constructor ()
      ensures bytes == []
    {
      bytes := [];
    }

    method Uint(value: nat, width: nat)
      modifies this
      ensures bytes == old(bytes) + Le(value, width)
    {
      bytes := bytes + Le(value, width);
    }

    /** Length-prefixed text; refuses what a reader would refuse and control characters. */
    method Text(rules: TextRules, text: seq<Byte>) returns (ok: bool)
      modifies this
      ensures ok <==> 1 <= |text| <= MAX_TEXT_BYTES && rules.plain(text)
      ensures ok ==> bytes == old(bytes) + (Le(|text|, 2) + text)
    {
      if |text| == 0 || |text| > MAX_TEXT_BYTES || !rules.plain(text) {
        return false;
      }
      Uint(|text|, 2);
      Regroup(old(bytes), Le(|text|, 2), text);
      bytes := bytes + text;
      return true;
    }

    /** One field after the other; every text has to be plain. */
    method Fields(rules: TextRules, kinds: seq<Kind>, values: seq<Value>) returns (ok: bool)
      requires AllFit(rules, kinds, values)
      modifies this
      ensures ok <==> forall i :: 0 <= i < |kinds| && kinds[i].Text? ==> rules.plain(values[i].bytes)
      ensures ok ==> bytes == old(bytes) + FieldsBytes(kinds, values)
    {
      hide FieldsBytes;
      NoFields(kinds, values);
      for n := 0 to |kinds|
        invariant bytes == old(bytes) + FieldsBytes(kinds[..n], values[..n])
        invariant forall i :: 0 <= i < n && kinds[i].Text? ==> rules.plain(values[i].bytes)
      {
        var kind, value := kinds[n], values[n];
        BytesInTurn(kinds[..n], values[..n], kind, value);
        assert kinds[..n] + [kind] == kinds[..n + 1] && values[..n] + [value] == values[..n + 1];
        Regroup(old(bytes), FieldsBytes(kinds[..n], values[..n]), FieldBytes(kind, value));
        match kind {
          case Uint(width) => Uint(value.n, width);
          case Raw(_) => bytes := bytes + value.bytes;
          case Text =>
            var fine := this.Text(rules, value.bytes);
            if !fine {
              return false;
            }
        }
      }
      assert kinds[..|kinds|] == kinds && values[..|kinds|] == values;
      return true;
    }
  }

  lemma NoFields(kinds: seq<Kind>, values: seq<Value>)
    requires |kinds| == |values|
    ensures FieldsBytes(kinds[..0], values[..0]) == []
  {
  }

  class ManifestReader {
    const bytes: seq<Byte>
    var offset: nat

    ghost predicate Valid()
      reads this
    {
      offset <= |bytes|
    }

    ghost function Rest(): seq<Byte>
      reads this
      requires Valid()
    {
      bytes[offset..]
    }

    constructor (bytes: seq<Byte>)
      ensures this.bytes == bytes && Valid() && Rest() == bytes
    {
      this.bytes, offset := bytes, 0;
    }

    /** The next bytes, or None at the end of the manifest. */
    method Take(count: nat) returns (taken: Option<seq<Byte>>)
      requires Valid()
      modifies this
      ensures Valid()
      ensures taken == if count <= |old(Rest())| then Some(old(Rest())[..count]) else None
      ensures taken.Some? ==> Rest() == old(Rest())[count..]
    {
      if offset + count > |bytes| {
        return None;
      }
      assert bytes[offset..][..count] == bytes[offset..offset + count];
      taken := Some(bytes[offset..offset + count]);
      offset := offset + count;
    }

    /** Whether the whole manifest has been read. */
    method Finish() returns (done: bool)
      requires Valid()
      ensures done <==> Rest() == []
    {
      done := offset == |bytes|;
    }

    /** One field; the cursor stands behind it on success. */
    method Field(rules: TextRules, kind: Kind) returns (value: Option<Value>)
      requires Valid()
      modifies this
      ensures Valid()
      ensures value.None? ==> ReadField(rules, old(Rest()), kind).Rejected?
      ensures value.Some? ==> ReadField(rules, old(Rest()), kind) == Parsed(value.value, Rest())
    {
      match kind {
        case Uint(width) =>
          var taken := Take(width);
          if taken.None? { return None; }
          return Some(Number(FromLe(taken.value)));
        case Raw(count) =>
          var taken := Take(count);
          if taken.None? { return None; }
          return Some(Octets(taken.value));
        case Text =>
          var length := Take(2);
          if length.None? { return None; }
          var count := FromLe(length.value);
          if count == 0 || count > MAX_TEXT_BYTES { return None; }
          assert old(Rest())[2..][..] == Rest();
          var text := Take(count);
          assert 2 + count <= |old(Rest())| ==> old(Rest())[2..][..count] == old(Rest())[2..2 + count];
          assert 2 + count <= |old(Rest())| ==> old(Rest())[2..][count..] == old(Rest())[2 + count..];
          if text.None? || !rules.utf8(text.value) { return None; }
          return Some(Octets(text.value));
      }
    }

    /** One field after the other. */
    method Fields(rules: TextRules, kinds: seq<Kind>) returns (values: Option<seq<Value>>)
      requires Valid()
      modifies this
      ensures Valid()
      ensures values.None? ==> ReadFields(rules, old(Rest()), kinds).Rejected?
      ensures values.Some? ==> ReadFields(rules, old(Rest()), kinds) == Parsed(values.value, Rest())
    {
      hide ReadField, ReadFields;
      var read: seq<Value> := [];
      ghost var start := Rest();
      NothingRead(rules, start, kinds);
      for n := 0 to |kinds|
        invariant Valid() && ReadFields(rules, start, kinds[..n]) == Parsed(read, Rest())
      {
        FieldsInTurn(rules, start, kinds[..n], kinds[n]);
        assert kinds[..n] + [kinds[n]] == kinds[..n + 1];
        var value := Field(rules, kinds[n]);
        if value.None? {
          RejectedStays(rules, start, kinds, n + 1);
          return None;
        }
        read := read + [value.value];
      }
      assert kinds[..|kinds|] == kinds;
      return Some(read);
    }
  }

  lemma NothingRead(rules: TextRules, s: seq<Byte>, kinds: seq<Kind>)
    ensures ReadFields(rules, s, kinds[..0]) == Parsed([], s)
  {
  }

  /** A list of fields that fails on its first `n` fails as a whole. */
  lemma {:induction false} RejectedStays(rules: TextRules, s: seq<Byte>, kinds: seq<Kind>, n: nat)
    requires n <= |kinds| && ReadFields(rules, s, kinds[..n]).Rejected?
    ensures ReadFields(rules, s, kinds).Rejected?
    decreases |kinds| - n
  {
    if n == |kinds| {
      assert kinds[..n] == kinds;
    } else {
      FieldsInTurn(rules, s, kinds[..n], kinds[n]);
      assert kinds[..n] + [kinds[n]] == kinds[..n + 1];
      RejectedStays(rules, s, kinds, n + 1);
    }
  }

  /** The lowest byte of an integer comes first. */
  lemma {:induction false} LowestByteFirst(value: nat, width: nat, i: nat)
    requires i < width
    ensures Le(value, width)[i] as nat == value / Pow256(i) % 256
    decreases width
  {
    if i > 0 {
      LowestByteFirst(value / 256, width - 1, i - 1);
      DivideTwice(value, Pow256(i - 1));
    }
  }

  lemma DivideTwice(value: nat, divisor: nat)
    requires divisor > 0
    ensures value / 256 / divisor == value / (256 * divisor)
  {
    var q := value / 256 / divisor;
    var r := value - 256 * divisor * q;
    var inner := value / 256 - divisor * q;
    assert 0 <= inner < divisor;
    assert r == 256 * inner + value % 256;
    QuotientIs(value, 256 * divisor, q, r);
  }

  lemma QuotientIs(value: nat, divisor: nat, q: nat, r: int)
    requires divisor > 0 && value == divisor * q + r && 0 <= r < divisor
    ensures value / divisor == q
  {
    var p := value / divisor;
    assert value == divisor * p + value % divisor;
    Distribute(p, q, divisor);
    SmallMultiple(p - q, divisor);
  }

  lemma Distribute(p: int, q: int, d: int)
    ensures (p - q) * d == d * p - d * q
  {
  }

  lemma SmallMultiple(t: int, d: int)
    requires -d < t * d < d
    ensures t == 0
  {
  }
}
