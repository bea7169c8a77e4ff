// Which shop items may be bought: the requirements of every candidate, the buy
// mask over them, and the run of purchases that completes a recipe.
module Buying {
  import opened Geometry
  import opened Recipes
  import opened Purchases

  const MANGO_ITEM: ItemId := 42
  const MANGO_STACK_MAX: nat := 3
  const STASH_SLOTS: nat := 6

  datatype HeldItem = HeldItem(id: ItemId, charges: Option<nat>, hasMode: bool, forSale: bool)

  type Slots = seq<Option<HeldItem>>

  // ---------------------------------------------------------------- what is still missing

  /** Leaves a purchase of the item still needs: the item itself when it has no recipe. */
  ghost function Leaves(shop: seq<ShopEntry>, item: ItemId, held: multiset<ItemId>): (leaves: seq<ItemId>)
    requires SoundShop(shop) && Sold(shop, item)
  {
    if Components(shop, item) == [] then [item]
    else
      ComponentsRankLower(shop, item);
      Missing(shop, Components(shop, item), held).leaves
  }

  /** Costs as the wire admits them: 32-bit and not negative. */
  predicate CostsValid(shop: seq<ShopEntry>) {
    forall i :: 0 <= i < |shop| ==> 0 <= shop[i].cost && FitsI32(shop[i].cost)
  }

  predicate IsLeaf(shop: seq<ShopEntry>, item: ItemId) { Sold(shop, item) && Components(shop, item) == [] }

  lemma {:induction false} MissingAreLeaves(shop: seq<ShopEntry>, items: seq<ItemId>, held: multiset<ItemId>)
    requires SoundShop(shop) && AllSold(shop, items)
    ensures forall leaf :: leaf in Missing(shop, items, held).leaves ==> IsLeaf(shop, leaf)
    decreases Height(shop, items), |items| + 1
  {
    hide SoundShop;
    if items != [] {
      HeightOfTail(shop, items);
      if items[0] !in held && Components(shop, items[0]) != [] {
        ComponentsRankLower(shop, items[0]);
        MissingAreLeaves(shop, Components(shop, items[0]), held);
      }
      MissingAreLeaves(shop, items[1..], MissingOne(shop, items[0], held).held);
    }
  }

  // ---------------------------------------------------------------- buying one leaf more

  /** A shortage once one more copy of `leaf` is held: one need for it is met, or the copy stays. */
  ghost function Met(was: Shortage, leaf: ItemId): Shortage {
    match PositionOf(was.leaves, leaf)
    case None => Shortage(was.leaves, was.held + multiset{leaf})
    case Some(i) => Shortage(was.leaves[..i] + was.leaves[i + 1..], was.held)
  }

  lemma {:induction false} PositionInConcat(a: seq<ItemId>, b: seq<ItemId>, item: ItemId)
    ensures PositionOf(a + b, item) ==
      (match PositionOf(a, item)
       case Some(i) => Some(i)
       case None => match PositionOf(b, item) case None => None case Some(j) => Some(|a| + j))
  {
    if a == [] {
      assert a + b == b;
    } else {
      assert (a + b)[1..] == a[1..] + b;
      PositionInConcat(a[1..], b, item);
    }
  }

  lemma CutLeft(a: seq<ItemId>, b: seq<ItemId>, i: nat)
    requires i < |a|
    ensures (a + b)[..i] + (a + b)[i + 1..] == (a[..i] + a[i + 1..]) + b
  {
  }

  lemma CutRight(a: seq<ItemId>, b: seq<ItemId>, j: nat)
    requires j < |b|
    ensures (a + b)[..|a| + j] + (a + b)[|a| + j + 1..] == a + (b[..j] + b[j + 1..])
  {
  }

  lemma MetInFirst(first: Shortage, rest: Shortage, leaf: ItemId)
    requires leaf in first.leaves
    ensures Met(Shortage(first.leaves + rest.leaves, rest.held), leaf)
         == Shortage(Met(first, leaf).leaves + rest.leaves, rest.held)
  {
    hide PositionOf;
    PositionInConcat(first.leaves, rest.leaves, leaf);
    CutLeft(first.leaves, rest.leaves, PositionOf(first.leaves, leaf).value);
  }

  lemma MetInRest(first: Shortage, rest: Shortage, leaf: ItemId)
    requires leaf !in first.leaves
    ensures Met(Shortage(first.leaves + rest.leaves, rest.held), leaf)
         == Shortage(first.leaves + Met(rest, leaf).leaves, Met(rest, leaf).held)
  {
    hide PositionOf;
    PositionInConcat(first.leaves, rest.leaves, leaf);
    if PositionOf(rest.leaves, leaf).Some? {
      CutRight(first.leaves, rest.leaves, PositionOf(rest.leaves, leaf).value);
    }
  }

  lemma {:induction false} OneMoreForOne(shop: seq<ShopEntry>, item: ItemId, held: multiset<ItemId>, leaf: ItemId)
    requires SoundShop(shop) && Sold(shop, item) && IsLeaf(shop, leaf)
    ensures MissingOne(shop, item, held + multiset{leaf}) == Met(MissingOne(shop, item, held), leaf)
    decreases Rank(shop, item) + 1, 0
  {
    hide SoundShop, Missing, Met;
    if item in held {
      assert held + multiset{leaf} - multiset{item} == held - multiset{item} + multiset{leaf};
      NothingMet(held - multiset{item}, leaf);
    } else if Components(shop, item) == [] {
      LeafMet(held, item, leaf);
    } else {
      assert item != leaf;
      ComponentsRankLower(shop, item);
      OneMoreLeaf(shop, Components(shop, item), held, leaf);
    }
  }

  lemma LeafMet(held: multiset<ItemId>, item: ItemId, leaf: ItemId)
    ensures item == leaf ==> held + multiset{leaf} - multiset{item} == held
    ensures Met(Shortage([item], held), leaf)
         == if item == leaf then Shortage([], held) else Shortage([item], held + multiset{leaf})
  {
    assert [item][1..] == [] && [item][..0] == [];
  }

  /** One more held copy of a leaf meets the first need for it and changes nothing else. */
  lemma {:induction false} OneMoreLeaf(shop: seq<ShopEntry>, items: seq<ItemId>, held: multiset<ItemId>, leaf: ItemId)
    requires SoundShop(shop) && AllSold(shop, items) && IsLeaf(shop, leaf)
    ensures Missing(shop, items, held + multiset{leaf}) == Met(Missing(shop, items, held), leaf)
    decreases Height(shop, items), |items| + 1
  {
    hide SoundShop, MissingOne, Met;
    if items == [] {
      NothingMet(held, leaf);
    } else {
      HeightOfTail(shop, items);
      OneMoreForOne(shop, items[0], held, leaf);
      var first := MissingOne(shop, items[0], held);
      var rest := Missing(shop, items[1..], first.held);
      OneMoreLeaf(shop, items[1..], first.held, leaf);
      MetHeld(first, leaf);
      if leaf in first.leaves { MetInFirst(first, rest, leaf); } else { MetInRest(first, rest, leaf); }
    }
  }

  lemma NothingMet(held: multiset<ItemId>, leaf: ItemId)
    ensures Met(Shortage([], held), leaf) == Shortage([], held + multiset{leaf})
  {
  }

  lemma MetHeld(was: Shortage, leaf: ItemId)
    ensures leaf in was.leaves ==> Met(was, leaf).held == was.held
    ensures leaf !in was.leaves ==> Met(was, leaf) == Shortage(was.leaves, was.held + multiset{leaf})
  {
  }

  /** Holding the first missing leaf as well leaves exactly the other missing leaves. */
  lemma FirstLeafHelps(shop: seq<ShopEntry>, items: seq<ItemId>, held: multiset<ItemId>)
    requires SoundShop(shop) && AllSold(shop, items)
    requires Missing(shop, items, held).leaves != []
    ensures var was := Missing(shop, items, held);
      Missing(shop, items, held + multiset{was.leaves[0]}) == Shortage(was.leaves[1..], was.held)
  {
    hide SoundShop, Missing;
    var was := Missing(shop, items, held);
    MissingAreLeaves(shop, items, held);
    OneMoreLeaf(shop, items, held, was.leaves[0]);
    assert PositionOf(was.leaves, was.leaves[0]) == Some(0);
    assert was.leaves[..0] + was.leaves[1..] == was.leaves[1..];
  }

  /** Buying the missing leaves, whatever else is held, completes the recipe and keeps the spare parts. */
  lemma {:induction false} LeavesComplete(shop: seq<ShopEntry>, items: seq<ItemId>, held: multiset<ItemId>)
    requires SoundShop(shop) && AllSold(shop, items)
    ensures var was := Missing(shop, items, held);
      Missing(shop, items, held + multiset(was.leaves)) == Shortage([], was.held)
    decreases |Missing(shop, items, held).leaves|
  {
    hide SoundShop, Missing;
    var was := Missing(shop, items, held);
    if was.leaves == [] {
      assert held + multiset(was.leaves) == held;
    } else {
      FirstLeafHelps(shop, items, held);
      LeavesComplete(shop, items, held + multiset{was.leaves[0]});
      assert was.leaves == [was.leaves[0]] + was.leaves[1..];
      assert held + multiset{was.leaves[0]} + multiset(was.leaves[1..]) == held + multiset(was.leaves);
    }
  }

  // ---------------------------------------------------------------- prices

  lemma CostIsValid(shop: seq<ShopEntry>, item: ItemId)
    requires CostsValid(shop)
    ensures 0 <= Cost(shop, item) && FitsI32(Cost(shop, item))
  {
  }

  lemma {:induction false} PriceOfTail(shop: seq<ShopEntry>, leaves: seq<ItemId>)
    requires leaves != []
    ensures Price(shop, leaves) == Cost(shop, leaves[0]) + Price(shop, leaves[1..])
  {
    var last := |leaves| - 1;
    if last == 0 {
      assert leaves[..0] == [] && leaves[1..] == [];
    } else {
      PriceOfTail(shop, leaves[..last]);
      assert leaves[..last][1..] == leaves[1..][..last - 1];
    }
  }

  lemma {:induction false} PriceIsNotNegative(shop: seq<ShopEntry>, leaves: seq<ItemId>)
    requires CostsValid(shop)
    ensures 0 <= Price(shop, leaves)
  {
    if leaves != [] {
      CostIsValid(shop, leaves[|leaves| - 1]);
      PriceIsNotNegative(shop, leaves[..|leaves| - 1]);
    }
  }

  // ---------------------------------------------------------------- the requirements of all candidates

  datatype Requirements = Listed(needs: seq<BuyRequirement>) | Refused(fault: BuyFault)

  function HeldIds(slots: Slots): (ids: seq<ItemId>) {
    if slots == [] then []
    else (if slots[0].Some? then [slots[0].value.id] else []) + HeldIds(slots[1..])
  }

  /** One candidate's requirement is the priced list of its missing leaves. */
  ghost predicate IsRequirement(shop: seq<ShopEntry>, item: ItemId, held: multiset<ItemId>, needs: BuyRequirement)
    requires SoundShop(shop)
  {
    Sold(shop, item) && Requirement(shop, Leaves(shop, item, held)) == Needs(needs)
  }

  method LeafRequirement(shop: seq<ShopEntry>, item: ItemId, held: seq<ItemId>) returns (outcome: Outcome)
    requires SoundShop(shop) && CostsValid(shop) && Sold(shop, item)
    ensures outcome == Requirement(shop, Leaves(shop, item, multiset(held)))
  {
    hide SoundShop, Missing, Requirement;
    outcome := MissingBuyRequirement(shop, item, held);
    if Components(shop, item) == [] {
      RequirementOfLeaf(shop, item);
    }
  }

  lemma RequirementOfLeaf(shop: seq<ShopEntry>, item: ItemId)
    requires CostsValid(shop)
    ensures Requirement(shop, [item]) == Needs(BuyRequirement(Cost(shop, item), 1, Some(item)))
  {
    CostIsValid(shop, item);
    assert [item][..1] == [item] && [item][..0] == [];
    assert Price(shop, [item]) == Cost(shop, item);
    forall k | 0 <= k <= 1 ensures FitsI32(Price(shop, [item][..k])) {
    }
  }

  /** Every candidate against the same held parts; the first price that overflows refuses the whole space. */
  method BuildBuyRequirements(shop: seq<ShopEntry>, candidates: seq<ItemId>, bag: Slots, stash: Slots)
    returns (all: Requirements)
    requires SoundShop(shop) && CostsValid(shop) && AllSold(shop, candidates)
    requires |bag| <= HERO_BAG_SLOTS && |stash| <= STASH_SLOTS
    ensures var held := multiset(HeldIds(bag) + HeldIds(stash));
      match all
      case Listed(needs) => && |needs| == |candidates|
                            && forall i :: 0 <= i < |needs| ==> IsRequirement(shop, candidates[i], held, needs[i])
      case Refused(fault) => && fault == CostOverflow
                             && exists i :: 0 <= i < |candidates|
                                  && Requirement(shop, Leaves(shop, candidates[i], held)) == Failed(CostOverflow)
  {
    hide SoundShop, Missing, Leaves, Requirement;
    var held := HeldIds(bag) + HeldIds(stash);
    var needs := [];
    for n := 0 to |candidates|
      invariant |needs| == n
      invariant forall i :: 0 <= i < n ==> IsRequirement(shop, candidates[i], multiset(held), needs[i])
    {
      var outcome := LeafRequirement(shop, candidates[n], held);
      RequirementIsNoLimit(shop, Leaves(shop, candidates[n], multiset(held)));
      if outcome.Failed? {
        return Refused(outcome.fault);
      }
      needs := needs + [outcome.requirement];
    }
    all := Listed(needs);
  }

  // ---------------------------------------------------------------- the buy mask

  function FreeSlots(slots: Slots): (n: nat)
    ensures n <= |slots|
  {
    if slots == [] then 0 else (if slots[0].None? then 1 else 0) + FreeSlots(slots[1..])
  }

  predicate MangoRoom(slots: Slots) {
    exists i :: 0 <= i < |slots| && slots[i].Some? && CanMerge(slots[i].value)
  }

  predicate CanMerge(item: HeldItem) {
    && item.id == MANGO_ITEM && item.charges.Some? && 1 <= item.charges.value < MANGO_STACK_MAX
    && !item.hasMode && !item.forSale
  }

  /** Slots a purchase can fill from here: the stash anywhere, the bag only at the shop. */
  function RoomFor(bag: Slots, stash: Slots, atShop: bool): (n: nat)
    ensures n <= |bag| + |stash|
  {
    FreeSlots(stash) + if atShop then FreeSlots(bag) else 0
  }

  predicate MangoFits(bag: Slots, stash: Slots, atShop: bool) {
    RoomFor(bag, stash, atShop) > 0 || MangoRoom(stash) || (atShop && MangoRoom(bag))
  }

  /** Indices of empty slots. */
  ghost function EmptySlots(slots: Slots): set<nat> { set i | 0 <= i < |slots| && slots[i].None? }

  lemma {:induction false} FreeAreEmpty(slots: Slots)
    ensures FreeSlots(slots) == |EmptySlots(slots)|
    decreases |slots|
  {
    if slots != [] {
      FreeAreEmpty(slots[1..]);
      OneSlotMore(EmptySlots(slots), EmptySlots(slots[1..]), slots[0].None?);
    }
  }

  /** Indices behind the first slot are those of the rest, one higher. */
  lemma OneSlotMore(all: set<nat>, rest: set<nat>, first: bool)
    requires forall i: nat :: i in all <==> (i == 0 && first) || (i > 0 && i - 1 in rest)
    ensures |all| == |rest| + if first then 1 else 0
  {
    var later := set i | i in rest :: i + 1;
    Shifted(rest, later);
    assert all == later + if first then {0} else {} by {
      forall i: nat | i in all ensures i in later || (i == 0 && first) {
        if i > 0 { assert i - 1 in rest; }
      }
    }
  }

  lemma {:induction false} Shifted(s: set<nat>, t: set<nat>)
    requires t == set i | i in s :: i + 1
    ensures |t| == |s|
    decreases s
  {
    if s != {} {
      var x :| x in s;
      assert x + 1 in t;
      var fewer := set i | i in s - {x} :: i + 1;
      assert t - {x + 1} == fewer by {
        forall y | y in t - {x + 1} ensures y in fewer {
          var i :| i in s && i + 1 == y;
          assert i in s - {x};
        }
      }
      Shifted(s - {x}, t - {x + 1});
    }
  }

  /** Slots that hold an item. */
  ghost function SlotsHolding(slots: Slots, id: ItemId): set<nat> {
    set i | 0 <= i < |slots| && slots[i].Some? && slots[i].value.id == id
  }

  /** An item is held once for every slot that holds it. */
  lemma {:induction false} HeldPerSlot(slots: Slots, id: ItemId)
    ensures multiset(HeldIds(slots))[id] == |SlotsHolding(slots, id)|
    decreases |slots|
  {
    if slots != [] {
      HeldPerSlot(slots[1..], id);
      var first: seq<ItemId> := if slots[0].Some? then [slots[0].value.id] else [];
      assert HeldIds(slots) == first + HeldIds(slots[1..]);
      OneSlotMore(SlotsHolding(slots, id), SlotsHolding(slots[1..], id), slots[0].Some? && slots[0].value.id == id);
    }
  }

  /** Empty slots a purchase can fill: those of the stash, and beside the fountain those of the bag. */
  ghost function Room(bag: Slots, stash: Slots, atShop: bool): nat {
    |EmptySlots(stash)| + if atShop then |EmptySlots(bag)| else 0
  }

  /** A mango goes into an empty slot or onto a plain stack of one or two. */
  ghost predicate MangoGoes(bag: Slots, stash: Slots, atShop: bool) {
    || Room(bag, stash, atShop) >= 1
    || exists item: HeldItem ::
         && (Some(item) in stash || (atShop && Some(item) in bag))
         && item.id == 42 && item.charges in {Some(1), Some(2)} && !item.hasMode && !item.forSale
  }

  lemma RoomIsRoom(bag: Slots, stash: Slots, atShop: bool)
    ensures RoomFor(bag, stash, atShop) == Room(bag, stash, atShop)
    ensures MangoFits(bag, stash, atShop) <==> MangoGoes(bag, stash, atShop)
  {
    FreeAreEmpty(bag);
    FreeAreEmpty(stash);
    StackIsHeld(stash);
    StackIsHeld(bag);
    hide FreeSlots, EmptySlots, MangoRoom;
  }

  lemma StackIsHeld(slots: Slots)
    ensures MangoRoom(slots) <==>
      exists item: HeldItem :: Some(item) in slots && item.id == 42 && item.charges in {Some(1), Some(2)} && !item.hasMode && !item.forSale
  {
    if MangoRoom(slots) {
      var i :| 0 <= i < |slots| && slots[i].Some? && CanMerge(slots[i].value);
      assert slots[i] == Some(slots[i].value);
    }
  }

  method CountFree(slots: Slots) returns (n: nat)
    ensures n == FreeSlots(slots)
  {
    n := 0;
    var i := |slots|;
    while i > 0
      invariant 0 <= i <= |slots|
      invariant n == FreeSlots(slots[i..])
    {
      i := i - 1;
      assert slots[i..][1..] == slots[i + 1..];
      if slots[i].None? {
        n := n + 1;
      }
    }
    assert slots[0..] == slots;
  }

  /**
   * What a set bit means: something is missing, all of it fits, and the gold
   * covers all of it. A mango may join a stack, so its leaves are not counted
   * against the room and only the capped list is priced.
   */
  ghost predicate Buyable(shop: seq<ShopEntry>, item: ItemId, held: multiset<ItemId>, gold: int, room: nat, mangoFits: bool)
    requires SoundShop(shop)
  {
    && Sold(shop, item)
    && var leaves := Leaves(shop, item, held);
       && 1 <= |leaves|
       && (if item == MANGO_ITEM then mangoFits else |leaves| <= room)
       && Price(shop, if item == MANGO_ITEM then leaves[..Counted(leaves)] else leaves) <= gold
  }

  predicate BitOf(item: ItemId, needs: BuyRequirement, gold: int, room: nat, mangoFits: bool) {
    && needs.missingSlots > 0
    && (if item == MANGO_ITEM then mangoFits else room >= needs.missingSlots)
    && gold >= needs.missingCost
  }

  /** The capped requirement decides as the full list of missing leaves would. */
  lemma BitIsBuyable(shop: seq<ShopEntry>, item: ItemId, held: multiset<ItemId>, needs: BuyRequirement,
                     gold: int, room: nat, mangoFits: bool)
    requires SoundShop(shop) && IsRequirement(shop, item, held, needs)
    requires room <= MAX_PURCHASE_SLOTS
    ensures BitOf(item, needs, gold, room, mangoFits) <==> Buyable(shop, item, held, gold, room, mangoFits)
    ensures needs.missingSlots > 0 <==> needs.firstMissing.Some?
  {
    hide SoundShop, Missing, Price, PricesFit;
    var leaves := Leaves(shop, item, held);
    if |leaves| <= MAX_PURCHASE_SLOTS {
      assert leaves[..|leaves|] == leaves;
    }
  }

  /** The buy mask of one unit; couriers buy nothing. */
  method FillBuyMask(shop: seq<ShopEntry>, candidates: seq<ItemId>, needs: seq<BuyRequirement>, hero: bool,
                     bag: Slots, stash: Slots, atShop: bool, gold: int)
    returns (buy: seq<bool>)
    requires SoundShop(shop) && |needs| == |candidates|
    requires |bag| <= HERO_BAG_SLOTS && |stash| <= STASH_SLOTS
    requires forall i :: 0 <= i < |needs| ==>
      IsRequirement(shop, candidates[i], multiset(HeldIds(bag) + HeldIds(stash)), needs[i])
    ensures |buy| == |candidates|
    ensures forall i :: 0 <= i < |buy| ==> (buy[i] <==> hero && Buyable(shop, candidates[i],
        multiset(HeldIds(bag) + HeldIds(stash)), gold, Room(bag, stash, atShop), MangoGoes(bag, stash, atShop)))
    ensures forall i :: 0 <= i < |buy| && buy[i] ==> needs[i].firstMissing.Some?
  {
    hide SoundShop, Missing, Buyable, IsRequirement, MangoRoom, MangoGoes, Room;
    RoomIsRoom(bag, stash, atShop);
    buy := seq(|candidates|, i requires 0 <= i < |candidates| => false);
    if !hero {
      return;
    }
    ghost var held := multiset(HeldIds(bag) + HeldIds(stash));
    var stashSlots := CountFree(stash);
    var heroSlots := 0;
    if atShop {
      heroSlots := CountFree(bag);
    }
    var room := stashSlots + heroSlots;
    var mangoFits := room > 0 || MangoRoom(stash) || (atShop && MangoRoom(bag));
    for n := 0 to |needs|
      invariant |buy| == |candidates|
      invariant forall i :: 0 <= i < n ==>
        (buy[i] <==> Buyable(shop, candidates[i], held, gold, room, mangoFits))
      invariant forall i :: 0 <= i < n && buy[i] ==> needs[i].firstMissing.Some?
    {
      BitIsBuyable(shop, candidates[n], held, needs[n], gold, room, mangoFits);
      buy := buy[n := BitOf(candidates[n], needs[n], gold, room, mangoFits)];
    }
  }

  // ---------------------------------------------------------------- part by part

  /** The gold for a purchase covers its first missing leaf, which is sold. */
  lemma FirstLeafIsAffordable(shop: seq<ShopEntry>, item: ItemId, held: multiset<ItemId>, gold: int, room: nat, mangoFits: bool)
    requires SoundShop(shop) && CostsValid(shop)
    requires Buyable(shop, item, held, gold, room, mangoFits)
    ensures var first := Leaves(shop, item, held)[0]; Sold(shop, first) && Cost(shop, first) <= gold
  {
    hide SoundShop, Missing;
    var leaves := Leaves(shop, item, held);
    LeavesAreSold(shop, item, held);
    assert leaves[0] in leaves;
    var priced := if item == MANGO_ITEM then leaves[..Counted(leaves)] else leaves;
    assert priced[0] == leaves[0];
    PriceOfTail(shop, priced);
    PriceIsNotNegative(shop, priced[1..]);
  }

  lemma LeavesAreSold(shop: seq<ShopEntry>, item: ItemId, held: multiset<ItemId>)
    requires SoundShop(shop) && Sold(shop, item)
    ensures forall leaf :: leaf in Leaves(shop, item, held) ==> IsLeaf(shop, leaf)
  {
    hide SoundShop, Missing;
    if Components(shop, item) != [] {
      ComponentsRankLower(shop, item);
      MissingAreLeaves(shop, Components(shop, item), held);
    }
  }

  /** After the first leaf is paid for and put into a slot, exactly the others are missing, and they stay buyable. */
  lemma PurchaseGoesOn(shop: seq<ShopEntry>, item: ItemId, held: multiset<ItemId>, gold: int, room: nat, mangoFits: bool)
    requires SoundShop(shop) && CostsValid(shop) && Buyable(shop, item, held, gold, room, mangoFits)
    requires Components(shop, item) != [] && item != MANGO_ITEM
    ensures var leaves := Leaves(shop, item, held);
      && Leaves(shop, item, held + multiset{leaves[0]}) == leaves[1..]
      && (|leaves| > 1 ==>
            Buyable(shop, item, held + multiset{leaves[0]}, gold - Cost(shop, leaves[0]), room - 1, mangoFits))
  {
    hide SoundShop, Missing;
    var leaves := Leaves(shop, item, held);
    ComponentsRankLower(shop, item);
    FirstLeafHelps(shop, Components(shop, item), held);
    PriceOfTail(shop, leaves);
  }

  /** After `steps` purchases of the then first missing leaf, each paid for and put into a slot. */
  ghost function Bought(shop: seq<ShopEntry>, item: ItemId, held: multiset<ItemId>, steps: nat): multiset<ItemId>
    requires SoundShop(shop) && Sold(shop, item)
    decreases steps
  {
    if steps == 0 || Leaves(shop, item, held) == [] then held
    else Bought(shop, item, held + multiset{Leaves(shop, item, held)[0]}, steps - 1)
  }

  lemma BuyableCovers(shop: seq<ShopEntry>, item: ItemId, held: multiset<ItemId>, gold: int, room: nat, mangoFits: bool)
    requires SoundShop(shop) && Buyable(shop, item, held, gold, room, mangoFits) && item != MANGO_ITEM
    ensures var leaves := Leaves(shop, item, held); 1 <= |leaves| <= room && Price(shop, leaves) <= gold
  {
    hide SoundShop, Missing, Leaves, Price;
  }

  /**
   * A purchase begun part by part is never stranded: while some leaf is
   * missing, the rest is buyable with the gold and room that are left, and
   * after as many purchases as there were missing leaves nothing is missing.
   */
  lemma {:induction false} PurchaseIsNeverStranded(shop: seq<ShopEntry>, item: ItemId, held: multiset<ItemId>, gold: int,
                                                  room: nat, mangoFits: bool, steps: nat)
    requires SoundShop(shop) && CostsValid(shop) && Buyable(shop, item, held, gold, room, mangoFits)
    requires Sold(shop, item) && Components(shop, item) != [] && item != MANGO_ITEM && steps <= |Leaves(shop, item, held)|
    ensures var leaves, now := Leaves(shop, item, held), Bought(shop, item, held, steps);
      && Leaves(shop, item, now) == leaves[steps..] && steps <= room
      && (steps < |leaves| ==> Buyable(shop, item, now, gold - Price(shop, leaves[..steps]), room - steps, mangoFits))
      && Price(shop, leaves[..steps]) <= gold
    decreases steps
  {
    hide SoundShop, Missing, Leaves, Buyable, Price;
    var leaves := Leaves(shop, item, held);
    BuyableCovers(shop, item, held, gold, room, mangoFits);
    if steps == 0 {
      assert leaves[0..] == leaves && leaves[..0] == [];
      NothingIsFree(shop);
      PriceIsNotNegative(shop, leaves);
    } else {
      var first := held + multiset{leaves[0]};
      PurchaseGoesOn(shop, item, held, gold, room, mangoFits);
      assert leaves[..steps][1..] == leaves[1..][..steps - 1];
      PriceOfTail(shop, leaves[..steps]);
      if |leaves| == 1 {
        assert leaves[..steps] == leaves && leaves[steps..] == leaves[1..];
      } else {
        PurchaseIsNeverStranded(shop, item, first, gold - Cost(shop, leaves[0]), room - 1, mangoFits, steps - 1);
        assert leaves[1..][steps - 1..] == leaves[steps..];
      }
    }
  }

  lemma NothingIsFree(shop: seq<ShopEntry>)
    ensures Price(shop, []) == 0
  {
  }
}
