// The packed form of head targets: one activity bit and one class byte per
// head, and all legal masks side by side in a bit string of 39 bytes.
module PackedTargets {
  import opened Geometry
  import opened ActionMasks
  import opened HeadTargets
  import opened Labelling

  const HEAD_MASK_BITS: nat := 307
  const HEAD_MASK_BYTES: nat := 39

  /** First mask bit of each head. */
  function Start(head: nat): (bit: nat)
    requires head <= HEADS
    ensures head == HEADS ==> bit == HEAD_MASK_BITS
    ensures head < HEADS ==> bit + Width(head) == Start(head + 1) <= HEAD_MASK_BITS
    decreases HEADS - head
  {
    if head == HEADS then HEAD_MASK_BITS else Start(head + 1) - Width(head)
  }

  lemma StartsAtZero()
    ensures Start(0) == 0
  {
    assert Start(10) == 147 && Start(8) == 142 && Start(6) == 62 && Start(4) == 41 && Start(2) == 18;
  }

  lemma {:induction false} StartGrows(low: nat, high: nat)
    requires low < high <= HEADS
    ensures Start(low) + Width(low) <= Start(high)
  {
    hide Width;
    if low + 1 < high { StartGrows(low, high - 1); }
  }

  // ---------------------------------------------------------------- bits

  function Bit(i: nat): bv8
    requires i < 8
  {
    match i
    case 0 => 1 case 1 => 2 case 2 => 4 case 3 => 8
    case 4 => 16 case 5 => 32 case 6 => 64 case 7 => 128
  }

  predicate Meets(byte: bv8, bit: bv8) { byte & bit != 0 }

  function Join(byte: bv8, bit: bv8): bv8 { byte | bit }

  lemma BitsAreApart(i: nat, j: nat)
    requires i < 8 && j < 8
    ensures Meets(Bit(i), Bit(j)) <==> i == j
  {
  }

  lemma JoinMeets(byte: bv8, bit: bv8, other: bv8)
    ensures Meets(bit, bit) ==> Meets(Join(byte, bit), bit)
    ensures !Meets(bit, other) ==> (Meets(Join(byte, bit), other) <==> Meets(byte, other))
  {
  }

  predicate TestBit(bytes: seq<bv8>, bit: nat)
    requires bit / 8 < |bytes|
  {
    Meets(bytes[bit / 8], Bit(bit % 8))
  }

  function WithBit(bytes: seq<bv8>, bit: nat): (r: seq<bv8>)
    requires bit / 8 < |bytes|
    ensures |r| == |bytes|
  {
    bytes[bit / 8 := Join(bytes[bit / 8], Bit(bit % 8))]
  }

  /** Setting a bit changes that bit only. */
  lemma SettingOneBit(bytes: seq<bv8>, bit: nat, k: nat)
    requires bit / 8 < |bytes| && k / 8 < |bytes|
    ensures TestBit(WithBit(bytes, bit), k) <==> k == bit || TestBit(bytes, k)
  {
    hide Bit, Meets, Join;
    BitsAreApart(bit % 8, k % 8);
    JoinMeets(bytes[bit / 8], Bit(bit % 8), Bit(k % 8));
  }

  function Flag(head: nat): bv16
    requires head < HEADS
  {
    match head
    case 0 => 0x1 case 1 => 0x2 case 2 => 0x4 case 3 => 0x8
    case 4 => 0x10 case 5 => 0x20 case 6 => 0x40 case 7 => 0x80
    case 8 => 0x100 case 9 => 0x200 case 10 => 0x400 case 11 => 0x800
  }

  predicate HasFlag(word: bv16, flag: bv16) { word & flag != 0 }

  function AddFlag(word: bv16, flag: bv16): bv16 { word | flag }

  lemma FlagsAreApart(i: nat, j: nat)
    requires i < HEADS && j < HEADS
    ensures HasFlag(Flag(i), Flag(j)) <==> i == j
  {
  }

  lemma AddedFlag(word: bv16, flag: bv16)
    requires HasFlag(flag, flag)
    ensures HasFlag(AddFlag(word, flag), flag)
  {
  }

  lemma OtherFlagStays(word: bv16, flag: bv16, other: bv16)
    requires !HasFlag(flag, other)
    ensures HasFlag(AddFlag(word, flag), other) <==> HasFlag(word, other)
  {
  }

  predicate TestFlag(word: bv16, head: nat)
    requires head < HEADS
  {
    HasFlag(word, Flag(head))
  }

  lemma SettingOneFlag(word: bv16, head: nat, k: nat)
    requires head < HEADS && k < HEADS
    ensures TestFlag(AddFlag(word, Flag(head)), k) <==> k == head || TestFlag(word, k)
  {
    hide Flag, HasFlag, AddFlag;
    FlagsAreApart(head, k);
    if k == head { AddedFlag(word, Flag(head)); } else { OtherFlagStays(word, Flag(head), Flag(k)); }
  }

  // ---------------------------------------------------------------- the packed record

  /** Plain contents of a packed record. */
  datatype Record = Record(active: bv16, selected: seq<nat>, masks: seq<bv8>, prefix: Prefix) {
    predicate Sized() { |selected| == HEADS && |masks| == HEAD_MASK_BYTES }

    /** Heads before `upto` are stored; nothing is set beyond them. */
    ghost predicate Stores(t: Targets, upto: nat)
      requires t.Shaped() && upto <= HEADS
    {
      && Sized() && StoresFlags(active, t, upto) && StoresBits(masks, t, upto)
      && (forall h :: 0 <= h < upto ==> selected[h] == t.heads[h].selected % 256)
    }

    /** The target of a head, read from its flag, its class and its mask bits. */
    function Head(h: nat): (target: HeadTarget)
      requires Sized() && h < HEADS
      ensures |target.mask| == Width(h)
    {
      HeadTarget(TestFlag(active, h), seq(Width(h), j requires 0 <= j < Width(h) => TestBit(masks, Start(h) + j)), selected[h])
    }
  }

  /** Bits of one more head, written from its first bit on, are the only change. */
  ghost predicate Appended(before: seq<bv8>, after: seq<bv8>, start: nat, mask: Mask) {
    && |before| == |after| && start + |mask| <= 8 * |before|
    && (forall k :: 0 <= k < start ==> (TestBit(after, k) <==> TestBit(before, k)))
    && (forall j :: 0 <= j < |mask| ==> (TestBit(after, start + j) <==> mask[j]))
    && (forall k :: start + |mask| <= k < 8 * |before| ==> !TestBit(after, k))
  }

  lemma AppendBit(before: seq<bv8>, after: seq<bv8>, start: nat, mask: Mask, bit: bool)
    requires Appended(before, after, start, mask) && start + |mask| < 8 * |before|
    ensures Appended(before, if bit then WithBit(after, start + |mask|) else after, start, mask + [bit])
  {
    var next := if bit then WithBit(after, start + |mask|) else after;
    forall k | 0 <= k < 8 * |before| ensures TestBit(next, k) <==> (bit && k == start + |mask|) || TestBit(after, k) {
      if bit { SettingOneBit(after, start + |mask|, k); }
    }
    hide TestBit, WithBit;
    forall j | 0 <= j < |mask + [bit]| ensures TestBit(next, start + j) <==> (mask + [bit])[j] {
      assert !TestBit(after, start + |mask|);
    }
  }

  ghost predicate StoresFlags(active: bv16, t: Targets, upto: nat)
    requires t.Shaped() && upto <= HEADS
  {
    forall h :: 0 <= h < HEADS ==> (TestFlag(active, h) <==> h < upto && t.heads[h].active)
  }

  ghost predicate StoresBits(masks: seq<bv8>, t: Targets, upto: nat)
    requires t.Shaped() && upto <= HEADS && |masks| == HEAD_MASK_BYTES
  {
    && (forall h, j :: 0 <= h < upto && 0 <= j < Width(h) ==> (TestBit(masks, Start(h) + j) <==> t.heads[h].mask[j]))
    && (forall k :: Start(upto) <= k < 8 * HEAD_MASK_BYTES ==> !TestBit(masks, k))
  }

  lemma StoreFlag(t: Targets, h: nat, before: bv16)
    requires t.Shaped() && h < HEADS && StoresFlags(before, t, h)
    ensures StoresFlags(if t.heads[h].active then AddFlag(before, Flag(h)) else before, t, h + 1)
  {
    hide Flag, TestFlag;
    var after := if t.heads[h].active then AddFlag(before, Flag(h)) else before;
    forall k | 0 <= k < HEADS ensures TestFlag(after, k) <==> k < h + 1 && t.heads[k].active {
      if t.heads[h].active { SettingOneFlag(before, h, k); }
      assert TestFlag(before, k) <==> k < h && t.heads[k].active;
    }
  }

  lemma StoreBits(t: Targets, h: nat, before: seq<bv8>, after: seq<bv8>)
    requires t.Shaped() && h < HEADS && |before| == |after| == HEAD_MASK_BYTES && StoresBits(before, t, h)
    requires Appended(before, after, Start(h), t.heads[h].mask)
    ensures StoresBits(after, t, h + 1)
  {
    hide TestBit, Start, StoresBits, Appended;
    StartIsInside(h);
    forall i, j | 0 <= i < h + 1 && 0 <= j < Width(i)
      ensures TestBit(after, Start(i) + j) <==> t.heads[i].mask[j]
    {
      StoredBit(t, h, before, after, i, j);
    }
    NothingBeyond(t, h, before, after);
    BitsAreStored(after, t, h + 1);
  }

  lemma BitsAreStored(masks: seq<bv8>, t: Targets, upto: nat)
    requires t.Shaped() && upto <= HEADS && |masks| == HEAD_MASK_BYTES
    requires forall h, j :: 0 <= h < upto && 0 <= j < Width(h) ==> (TestBit(masks, Start(h) + j) <==> t.heads[h].mask[j])
    requires forall k :: Start(upto) <= k < 8 * HEAD_MASK_BYTES ==> !TestBit(masks, k)
    ensures StoresBits(masks, t, upto)
  {
    hide TestBit, Start;
  }

  lemma StoredBit(t: Targets, h: nat, before: seq<bv8>, after: seq<bv8>, i: nat, j: nat)
    requires t.Shaped() && h < HEADS && |before| == |after| == HEAD_MASK_BYTES && StoresBits(before, t, h)
    requires Appended(before, after, Start(h), t.heads[h].mask) && i <= h && j < Width(i)
    ensures Start(i) + j < 8 * HEAD_MASK_BYTES && (TestBit(after, Start(i) + j) <==> t.heads[i].mask[j])
  {
    hide TestBit, Start, Width, StoresBits, Appended;
    StartIsInside(h);
    if i < h {
      StartGrows(i, h);
      KeptBit(before, after, Start(h), t.heads[h].mask, Start(i) + j);
      EarlierBit(before, t, h, i, j);
    } else {
      NewBit(before, after, Start(h), t.heads[h].mask, j);
    }
  }

  lemma KeptBit(before: seq<bv8>, after: seq<bv8>, start: nat, mask: Mask, k: nat)
    requires Appended(before, after, start, mask) && k < start
    ensures k / 8 < |before| == |after| && (TestBit(after, k) <==> TestBit(before, k))
  {
  }

  lemma NewBit(before: seq<bv8>, after: seq<bv8>, start: nat, mask: Mask, j: nat)
    requires Appended(before, after, start, mask) && j < |mask|
    ensures (start + j) / 8 < |after| && (TestBit(after, start + j) <==> mask[j])
  {
  }

  lemma EarlierBit(masks: seq<bv8>, t: Targets, upto: nat, i: nat, j: nat)
    requires t.Shaped() && upto <= HEADS && |masks| == HEAD_MASK_BYTES && StoresBits(masks, t, upto)
    requires i < upto && j < Width(i) && Start(i) + j < 8 * HEAD_MASK_BYTES
    ensures TestBit(masks, Start(i) + j) <==> t.heads[i].mask[j]
  {
    hide TestBit, Start, Width;
  }

  lemma NothingBeyond(t: Targets, h: nat, before: seq<bv8>, after: seq<bv8>)
    requires t.Shaped() && h < HEADS && |before| == |after| == HEAD_MASK_BYTES
    requires Appended(before, after, Start(h), t.heads[h].mask)
    ensures forall k :: Start(h + 1) <= k < 8 * HEAD_MASK_BYTES ==> !TestBit(after, k)
  {
    hide TestBit, Start;
    StartIsInside(h);
  }

  /** One more head: its flag, its class byte and its bits. */
  lemma StoreHead(t: Targets, h: nat, before: Record, after: Record)
    requires t.Shaped() && h < HEADS && before.Stores(t, h) && after.Sized()
    requires after.active == if t.heads[h].active then AddFlag(before.active, Flag(h)) else before.active
    requires after.selected == before.selected[h := t.heads[h].selected % 256]
    requires Appended(before.masks, after.masks, Start(h), t.heads[h].mask)
    ensures after.Stores(t, h + 1)
  {
    hide StoresFlags, StoresBits, Appended, Flag, Start;
    StoreFlag(t, h, before.active);
    StoreBits(t, h, before.masks, after.masks);
  }

  class PackedActionHeadTargets {
    var active: bv16
    const selected: array<nat>
    const masks: array<bv8>
    var prefix: Prefix

    ghost function Contents(): Record
      reads this, selected, masks
    {
      Record(active, selected[..], masks[..], prefix)
    }

    ghost predicate Valid()
      reads this, selected, masks
    {
      selected.Length == HEADS && masks.Length == HEAD_MASK_BYTES && Contents().Sized()
    }

    /** All fields zero. */
    constructor Empty(t: Targets)
      requires t.Shaped()
      ensures Valid() && Contents().Stores(t, 0) && prefix == t.prefix
      ensures fresh(selected) && fresh(masks)
    {
      active := 0;
      selected := new nat[HEADS](_ => 0);
      masks := new bv8[HEAD_MASK_BYTES](_ => 0);
      prefix := t.prefix;
      new;
      StartsAtZero();
      ZeroesAreClear(masks[..]);
    }

    /** Sets the bits of a mask from the cursor on. */
    method PackMask(mask: Mask, bit: nat) returns (next: nat)
      requires Appended(masks[..], masks[..], bit, []) && bit + |mask| <= 8 * masks.Length
      modifies masks
      ensures next == bit + |mask| && Appended(old(masks[..]), masks[..], bit, mask)
    {
      hide Appended, TestBit;
      next := bit;
      ghost var before := masks[..];
      for j := 0 to |mask|
        invariant next == bit + j
        invariant Appended(before, masks[..], bit, mask[..j])
      {
        AppendBit(before, masks[..], bit, mask[..j], mask[j]);
        assert mask[..j] + [mask[j]] == mask[..j + 1];
        ghost var was := masks[..];
        if mask[j] {
          masks[next / 8] := Join(masks[next / 8], Bit(next % 8));
          assert masks[..] == WithBit(was, next);
        }
        next := next + 1;
      }
      assert mask[..|mask|] == mask;
    }

    /** Stores one head from the bit cursor on and advances the cursor past its mask. */
    method PackHead(t: Targets, index: nat, bit: nat) returns (next: nat)
      requires Valid() && t.Shaped() && index < HEADS && bit == Start(index) && Contents().Stores(t, index)
      modifies this`active, selected, masks
      ensures Valid() && next == Start(index + 1) && Contents().Stores(t, index + 1)
    {
      hide Record.Stores, Appended, TestBit, Start, Flag;
      ghost var before := Contents();
      var head := t.heads[index];
      if head.active {
        active := AddFlag(active, Flag(index));
      }
      selected[index] := head.selected % 256;
      StartsAppending(t, index, before, masks[..]);
      StartIsInside(index);
      next := PackMask(head.mask, bit);
      StoreHead(t, index, before, Contents());
    }

    /** Reads one head from the bit cursor on. */
    method UnpackHead(index: nat, bit: nat) returns (head: HeadTarget, next: nat)
      requires Valid() && index < HEADS && bit == Start(index)
      ensures head == Contents().Head(index) && next == Start(index + 1)
    {
      hide TestBit, Start;
      StartIsInside(index);
      var mask: Mask := [];
      next := bit;
      for j := 0 to Width(index)
        invariant next == bit + j
        invariant |mask| == j && forall i :: 0 <= i < j ==> (mask[i] <==> TestBit(masks[..], bit + i))
      {
        mask := mask + [Meets(masks[next / 8], Bit(next % 8))];
        BitIsTested(masks[..], next);
        next := next + 1;
      }
      head := HeadTarget(HasFlag(active, Flag(index)), mask, selected[index]);
    }

    /** Restores the targets. */
    method Unpack() returns (t: Targets)
      requires Valid()
      ensures t.Shaped() && t.prefix == prefix
      ensures forall h :: 0 <= h < HEADS ==> t.heads[h] == Contents().Head(h)
    {
      hide Record.Head, Start;
      StartsAtZero();
      var kind, bit0 := UnpackHead(KIND, 0);
      var controlled, bit1 := UnpackHead(UNIT, bit0);
      var ability, bit2 := UnpackHead(ABILITY, bit1);
      var item, bit3 := UnpackHead(ITEM, bit2);
      var swap, bit4 := UnpackHead(SWAP, bit3);
      var learn, bit5 := UnpackHead(LEARN, bit4);
      var shop, bit6 := UnpackHead(SHOP, bit5);
      var loot, bit7 := UnpackHead(LOOT, bit6);
      var targetMode, bit8 := UnpackHead(TARGET_MODE, bit7);
      var putMode, bit9 := UnpackHead(PUT_MODE, bit8);
      var entity, bit10 := UnpackHead(ENTITY, bit9);
      var point, bit11 := UnpackHead(POINT, bit10);
      t := Targets([kind, controlled, ability, item, swap, learn, shop, loot, targetMode, putMode, entity, point], prefix);
    }
  }

  lemma NothingMeetsZero(bit: bv8)
    ensures !Meets(0, bit)
  {
  }

  lemma ZeroesAreClear(bytes: seq<bv8>)
    requires forall i :: 0 <= i < |bytes| ==> bytes[i] == 0
    ensures forall k :: 0 <= k < 8 * |bytes| ==> !TestBit(bytes, k)
  {
    forall k | 0 <= k < 8 * |bytes| ensures !TestBit(bytes, k) {
      NothingMeetsZero(Bit(k % 8));
    }
  }

  lemma BitIsTested(bytes: seq<bv8>, bit: nat)
    requires bit / 8 < |bytes|
    ensures TestBit(bytes, bit) <==> Meets(bytes[bit / 8], Bit(bit % 8))
  {
  }

  lemma StartIsInside(head: nat)
    requires head < HEADS
    ensures Start(head) + Width(head) == Start(head + 1) <= HEAD_MASK_BITS < 8 * HEAD_MASK_BYTES
  {
  }

  lemma StartsAppending(t: Targets, h: nat, before: Record, masks: seq<bv8>)
    requires t.Shaped() && h < HEADS && before.Stores(t, h) && masks == before.masks
    ensures Appended(before.masks, masks, Start(h), [])
  {
    hide TestBit, Start;
    StartIsInside(h);
  }

  /** Packs all heads in order. */
  method Pack(t: Targets) returns (packed: PackedActionHeadTargets)
    requires t.Shaped()
    ensures packed.Valid() && packed.Contents().Stores(t, HEADS) && packed.prefix == t.prefix
    ensures fresh(packed)
  {
    hide Record.Stores, Start;
    packed := new PackedActionHeadTargets.Empty(t);
    StartsAtZero();
    var bit := packed.PackHead(t, KIND, 0);
    bit := packed.PackHead(t, UNIT, bit);
    bit := packed.PackHead(t, ABILITY, bit);
    bit := packed.PackHead(t, ITEM, bit);
    bit := packed.PackHead(t, SWAP, bit);
    bit := packed.PackHead(t, LEARN, bit);
    bit := packed.PackHead(t, SHOP, bit);
    bit := packed.PackHead(t, LOOT, bit);
    bit := packed.PackHead(t, TARGET_MODE, bit);
    bit := packed.PackHead(t, PUT_MODE, bit);
    bit := packed.PackHead(t, ENTITY, bit);
    bit := packed.PackHead(t, POINT, bit);
  }

  // ---------------------------------------------------------------- round trip

  /** Every class fits its byte. */
  predicate ClassesFit(t: Targets) { forall h :: 0 <= h < |t.heads| ==> t.heads[h].selected < 256 }

  /** What was stored reads back, each class cut to a byte. */
  lemma StoredReadsBack(t: Targets, record: Record, h: nat)
    requires t.Shaped() && record.Stores(t, HEADS) && h < HEADS
    ensures record.Head(h) == t.heads[h].(selected := t.heads[h].selected % 256)
  {
    hide TestBit, TestFlag, Start;
    assert record.Head(h).mask == t.heads[h].mask;
  }

  /** Packing and unpacking restores the targets exactly when every class fits a byte. */
  method RoundTrip(t: Targets) returns (restored: Targets)
    requires t.Shaped()
    ensures restored == t <==> ClassesFit(t)
  {
    hide Record.Stores, Record.Head;
    var packed := Pack(t);
    restored := packed.Unpack();
    forall h | 0 <= h < HEADS ensures restored.heads[h] == t.heads[h].(selected := t.heads[h].selected % 256) {
      StoredReadsBack(t, packed.Contents(), h);
    }
    if ClassesFit(t) {
      assert restored.heads == t.heads;
    } else {
      var h :| 0 <= h < |t.heads| && t.heads[h].selected >= 256;
      assert restored.heads[h].selected < 256;
    }
  }

  /** Labels of a legal action always fit, so nothing the policy is trained on is lost. */
  lemma LabelsFit(space: ActionSpace, action: Action)
    requires WellBuilt(space) && |space.masks| == 2 && |space.kindMask| == 16
    requires Allows(space, action) && LearnFits(space, action)
    ensures UnitAllows(MasksOf(space, action), action) && ClassesFit(Labels(space, action))
  {
    hide WellBuilt, Allows, UnitAllows, Label, HeadMask, Validate;
    AllowsIsConditional(space, action);
    var t := Labels(space, action);
    LabelsAreValid(space, action);
    SelectionsInRange(t);
    forall h | 0 <= h < |t.heads| ensures t.heads[h].selected < 256 {
      if t.heads[h].active { assert t.heads[h].selected < Width(h); }
    }
  }
}
