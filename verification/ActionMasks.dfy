// The structured action space: conditional legality masks, their projections
// to kinds, units and slots, and the decoding of legal actions to orders.
module ActionMasks {
  import opened Geometry
  import opened Recipes
  import opened Purchases

  type Mask = seq<bool>
  type EntityId = nat

  const WIRE_ITEM_SLOTS: nat := 15
  const ACTIVE_ITEM_SLOTS: nat := 6
  const MAX_ABILITY_SLOTS: nat := 8
  const UNIT_TOKENS: nat := 96
  const MAX_POINT_CANDIDATES: nat := 64
  const MAX_LOOT: nat := 16

  predicate Any(mask: Mask) { exists i :: 0 <= i < |mask| && mask[i] }

  predicate At(mask: Mask, i: nat) { i < |mask| && mask[i] }

  function Falses(count: nat): (mask: Mask)
    ensures |mask| == count && !Any(mask) && forall i: nat :: !At(mask, i)
  {
    seq(count, i => false)
  }

  // ---------------------------------------------------------------- actions

  datatype Kind =
    | Continue | Stop | MovePoint | FollowUnit | Hold | AttackMovePoint | AttackUnit | Cast
    | Use | PutPoint | PutUnit | Take | Buy | Sell | Swap | Learn

  const KINDS: seq<Kind> := [Continue, Stop, MovePoint, FollowUnit, Hold, AttackMovePoint, AttackUnit, Cast,
                             Use, PutPoint, PutUnit, Take, Buy, Sell, Swap, Learn]

  function KindIndex(kind: Kind): (i: nat)
    ensures i < 16 && KINDS[i] == kind
  {
    match kind
    case Continue => 0 case Stop => 1 case MovePoint => 2 case FollowUnit => 3
    case Hold => 4 case AttackMovePoint => 5 case AttackUnit => 6 case Cast => 7
    case Use => 8 case PutPoint => 9 case PutUnit => 10 case Take => 11
    case Buy => 12 case Sell => 13 case Swap => 14 case Learn => 15
  }

  datatype Unit = Hero | Courier

  function UnitIndex(unit: Unit): (i: nat)
    ensures i < 2
  {
    if unit == Hero then 0 else 1
  }

  datatype Target = NoTarget | EntityTarget(entity: nat) | PointTarget(point: nat)

  datatype PutTarget = Underfoot | PutAt(point: nat)

  datatype Action =
    | ContinueAction
    | StopAction(unit: Unit)
    | MovePointAction(unit: Unit, point: nat)
    | FollowUnitAction(unit: Unit, entity: nat)
    | HoldAction(unit: Unit)
    | AttackMovePointAction(unit: Unit, point: nat)
    | AttackUnitAction(unit: Unit, entity: nat)
    | CastAction(unit: Unit, slot: nat, target: Target)
    | UseAction(unit: Unit, slot: nat, target: Target)
    | PutPointAction(unit: Unit, slot: nat, place: PutTarget)
    | PutUnitAction(unit: Unit, slot: nat, entity: nat)
    | TakeAction(unit: Unit, loot: nat)
    | BuyAction(unit: Unit, item: nat)
    | SellAction(unit: Unit, slot: nat)
    | SwapAction(unit: Unit, slot: nat, to: nat)
    | LearnAction(slot: nat)

  function KindOf(action: Action): Kind {
    match action
    case ContinueAction => Continue
    case StopAction(_) => Stop
    case MovePointAction(_, _) => MovePoint
    case FollowUnitAction(_, _) => FollowUnit
    case HoldAction(_) => Hold
    case AttackMovePointAction(_, _) => AttackMovePoint
    case AttackUnitAction(_, _) => AttackUnit
    case CastAction(_, _, _) => Cast
    case UseAction(_, _, _) => Use
    case PutPointAction(_, _, _) => PutPoint
    case PutUnitAction(_, _, _) => PutUnit
    case TakeAction(_, _) => Take
    case BuyAction(_, _) => Buy
    case SellAction(_, _) => Sell
    case SwapAction(_, _, _) => Swap
    case LearnAction(_) => Learn
  }

  /** Unit the action selects; Continue and Learn select none. */
  function UnitOf(action: Action): Option<Unit> {
    if action.ContinueAction? || action.LearnAction? then None else Some(action.unit)
  }

  // ---------------------------------------------------------------- masks

  datatype TargetMask = TargetMask(none: bool, entities: Mask, points: Mask) {
    predicate Allows(target: Target) {
      match target
      case NoTarget => none
      case EntityTarget(i) => At(entities, i)
      case PointTarget(i) => At(points, i)
    }

    predicate Some() { none || Any(entities) || Any(points) }
  }

  datatype PutPointMask = PutPointMask(underfoot: bool, points: Mask) {
    predicate Allows(place: PutTarget) {
      match place case Underfoot => underfoot case PutAt(i) => At(points, i)
    }

    predicate Some() { underfoot || Any(points) }
  }

  datatype ControlledMasks = ControlledMasks(
    stop: bool, movePoints: Mask, followEntities: Mask, hold: bool, attackMovePoints: Mask, attackEntities: Mask,
    casts: seq<TargetMask>, uses: seq<TargetMask>, putPoints: seq<PutPointMask>, putUnits: seq<Mask>,
    take: Mask, buy: Mask, sell: Mask, swap: seq<Mask>, learn: Mask)

  /** Whether the family has any legal member for this unit. */
  predicate FamilyAllowed(m: ControlledMasks, kind: Kind) {
    match kind
    case Continue => false
    case Stop => m.stop
    case MovePoint => Any(m.movePoints)
    case FollowUnit => Any(m.followEntities)
    case Hold => m.hold
    case AttackMovePoint => Any(m.attackMovePoints)
    case AttackUnit => Any(m.attackEntities)
    case Cast => exists s :: 0 <= s < |m.casts| && m.casts[s].Some()
    case Use => exists s :: 0 <= s < |m.uses| && m.uses[s].Some()
    case PutPoint => exists s :: 0 <= s < |m.putPoints| && m.putPoints[s].Some()
    case PutUnit => exists s :: 0 <= s < |m.putUnits| && Any(m.putUnits[s])
    case Take => Any(m.take)
    case Buy => Any(m.buy)
    case Sell => Any(m.sell)
    case Swap => exists s :: 0 <= s < |m.swap| && Any(m.swap[s])
    case Learn => Any(m.learn)
  }

  /** Legality of a complete action for its unit; Learn and Continue carry none. */
  predicate UnitAllows(m: ControlledMasks, action: Action) {
    match action
    case ContinueAction => true
    case StopAction(_) => m.stop
    case MovePointAction(_, point) => At(m.movePoints, point)
    case FollowUnitAction(_, entity) => At(m.followEntities, entity)
    case HoldAction(_) => m.hold
    case AttackMovePointAction(_, point) => At(m.attackMovePoints, point)
    case AttackUnitAction(_, entity) => At(m.attackEntities, entity)
    case CastAction(_, slot, target) => slot < |m.casts| && m.casts[slot].Allows(target)
    case UseAction(_, slot, target) => slot < |m.uses| && m.uses[slot].Allows(target)
    case PutPointAction(_, slot, place) => slot < |m.putPoints| && m.putPoints[slot].Allows(place)
    case PutUnitAction(_, slot, entity) => slot < |m.putUnits| && At(m.putUnits[slot], entity)
    case TakeAction(_, loot) => At(m.take, loot)
    case BuyAction(_, item) => At(m.buy, item)
    case SellAction(_, slot) => At(m.sell, slot)
    case SwapAction(_, slot, to) => slot < |m.swap| && At(m.swap[slot], to)
    case LearnAction(slot) => At(m.learn, slot)
  }

  // ---------------------------------------------------------------- the space

  datatype ShopCandidate = ShopCandidate(item: ItemId, cost: int)

  datatype ActionSpace = ActionSpace(
    controlled: seq<Option<EntityId>>, entities: seq<EntityId>, points: seq<Vec2>, loot: seq<EntityId>,
    shop: seq<ShopCandidate>, needs: seq<BuyRequirement>, gold: int, masks: seq<ControlledMasks>, kindMask: Mask)

  function BuildKindMask(masks: seq<ControlledMasks>): (kindMask: Mask)
    ensures |kindMask| == 16
  {
    seq(16, i requires 0 <= i < 16 =>
      i == 0 || exists u :: 0 <= u < |masks| && FamilyAllowed(masks[u], KINDS[i]))
  }

  predicate AllWidth(masks: seq<Mask>, width: nat) { forall i :: 0 <= i < |masks| ==> |masks[i]| == width }

  /** One unit's masks have one bit per candidate, within the candidate caps. */
  predicate Fitted(space: ActionSpace, m: ControlledMasks) {
    && |m.movePoints| == |m.attackMovePoints| == |space.points| <= MAX_POINT_CANDIDATES
    && |m.followEntities| == |m.attackEntities| == |space.entities| <= UNIT_TOKENS
    && |m.take| == |space.loot| <= MAX_LOOT && |m.buy| == |space.shop| <= MAX_SHOP_ITEMS
    && |m.sell| == |m.swap| == WIRE_ITEM_SLOTS && AllWidth(m.swap, WIRE_ITEM_SLOTS)
    && |m.casts| <= MAX_ABILITY_SLOTS && |m.uses| <= ACTIVE_ITEM_SLOTS && |m.learn| <= MAX_ABILITY_SLOTS
    && |m.putPoints| == |m.putUnits| <= HERO_BAG_SLOTS && AllWidth(m.putUnits, |space.entities|)
    && (forall s :: 0 <= s < |m.putPoints| ==> |m.putPoints[s].points| == |space.points|)
    && (forall s :: 0 <= s < |m.casts| ==> TargetsFit(space, m.casts[s]))
    && (forall s :: 0 <= s < |m.uses| ==> TargetsFit(space, m.uses[s]))
  }

  predicate TargetsFit(space: ActionSpace, mask: TargetMask) {
    |mask.entities| == |space.entities| && |mask.points| == |space.points|
  }

  /** What building a space from a snapshot establishes. */
  ghost predicate WellBuilt(space: ActionSpace) {
    && |space.controlled| == |space.masks| == 2
    && Fitted(space, space.masks[0]) && Fitted(space, space.masks[1])
    && (forall u :: 0 <= u < 2 && space.controlled[u].None? ==> NothingAllowed(space.masks[u]))
    && space.masks[1].learn == []
    && |space.needs| == |space.shop|
    && (forall u, i: nat :: 0 <= u < 2 && At(space.masks[u].buy, i) ==> space.needs[i].firstMissing.Some?)
    && space.kindMask == BuildKindMask(space.masks)
  }

  /** A unit that is absent or dead has empty masks. */
  ghost predicate NothingAllowed(m: ControlledMasks) { forall kind :: !FamilyAllowed(m, kind) }

  function MasksOf(space: ActionSpace, action: Action): ControlledMasks
    requires |space.masks| == 2
  {
    match UnitOf(action) case Some(unit) => space.masks[UnitIndex(unit)] case None => space.masks[0]
  }

  /** Whether the complete action is legal in this snapshot. */
  predicate Allows(space: ActionSpace, action: Action)
    requires |space.masks| == 2 && |space.kindMask| == 16
  {
    space.kindMask[KindIndex(KindOf(action))] && UnitAllows(MasksOf(space, action), action)
  }

  // ---------------------------------------------------------------- projections are exact

  /** A legal action makes its family legal. */
  lemma ActionShowsFamily(m: ControlledMasks, action: Action)
    requires UnitAllows(m, action) && action != ContinueAction
    ensures FamilyAllowed(m, KindOf(action))
  {
    match action
    case CastAction(_, slot, target) => TargetShowsMask(m.casts[slot], target);
    case UseAction(_, slot, target) => TargetShowsMask(m.uses[slot], target);
    case _ =>
  }

  lemma TargetShowsMask(mask: TargetMask, target: Target)
    requires mask.Allows(target)
    ensures mask.Some()
  {
  }

  function AnyTarget(mask: TargetMask): (target: Target)
    requires mask.Some()
    ensures mask.Allows(target)
  {
    if mask.none then NoTarget
    else if Any(mask.entities) then EntityTarget(FirstOf(mask.entities))
    else PointTarget(FirstOf(mask.points))
  }

  function FirstOf(mask: Mask): (i: nat)
    requires Any(mask)
    ensures At(mask, i)
  {
    if mask[0] then 0
    else
      assert Any(mask[1..]) by { var k :| 0 <= k < |mask| && mask[k]; assert mask[1..][k - 1]; }
      FirstOf(mask[1..]) + 1
  }

  /** A legal family has a legal member for the unit; Learn members exist for the hero only. */
  lemma FamilyShowsAction(m: ControlledMasks, kind: Kind, unit: Unit) returns (action: Action)
    requires FamilyAllowed(m, kind)
    ensures KindOf(action) == kind && UnitAllows(m, action)
    ensures kind != Learn ==> UnitOf(action) == Some(unit)
  {
    match kind
    case Stop => action := StopAction(unit);
    case MovePoint => action := MovePointAction(unit, FirstOf(m.movePoints));
    case FollowUnit => action := FollowUnitAction(unit, FirstOf(m.followEntities));
    case Hold => action := HoldAction(unit);
    case AttackMovePoint => action := AttackMovePointAction(unit, FirstOf(m.attackMovePoints));
    case AttackUnit => action := AttackUnitAction(unit, FirstOf(m.attackEntities));
    case Cast =>
      var s :| 0 <= s < |m.casts| && m.casts[s].Some();
      action := CastAction(unit, s, AnyTarget(m.casts[s]));
    case Use =>
      var s :| 0 <= s < |m.uses| && m.uses[s].Some();
      action := UseAction(unit, s, AnyTarget(m.uses[s]));
    case PutPoint =>
      var s :| 0 <= s < |m.putPoints| && m.putPoints[s].Some();
      action := PutPointAction(unit, s, if m.putPoints[s].underfoot then Underfoot else PutAt(FirstOf(m.putPoints[s].points)));
    case PutUnit =>
      var s :| 0 <= s < |m.putUnits| && Any(m.putUnits[s]);
      action := PutUnitAction(unit, s, FirstOf(m.putUnits[s]));
    case Take => action := TakeAction(unit, FirstOf(m.take));
    case Buy => action := BuyAction(unit, FirstOf(m.buy));
    case Sell => action := SellAction(unit, FirstOf(m.sell));
    case Swap =>
      var s :| 0 <= s < |m.swap| && Any(m.swap[s]);
      action := SwapAction(unit, s, FirstOf(m.swap[s]));
    case Learn => action := LearnAction(FirstOf(m.learn));
  }

  /** The kind mask never contradicts the conditional masks. */
  lemma AllowsIsConditional(space: ActionSpace, action: Action)
    requires WellBuilt(space)
    ensures Allows(space, action) <==> UnitAllows(MasksOf(space, action), action)
  {
    if UnitAllows(MasksOf(space, action), action) && action != ContinueAction {
      ActionShowsFamily(MasksOf(space, action), action);
    }
  }

  /** A kind bit is set exactly when some complete action of that kind is legal. */
  lemma KindMaskIsExact(space: ActionSpace, kind: Kind)
    requires WellBuilt(space)
    ensures space.kindMask[KindIndex(kind)] <==> exists action :: KindOf(action) == kind && Allows(space, action)
  {
    hide UnitAllows, Fitted, FamilyAllowed, NothingAllowed;
    if kind == Continue {
      AllowsIsConditional(space, ContinueAction);
      ContinueIsAllowed(space);
    } else if space.kindMask[KindIndex(kind)] {
      var u :| 0 <= u < 2 && FamilyAllowed(space.masks[u], kind);
      if kind == Learn { LearnIsForHero(space, u); }
      var action := FamilyShowsAction(space.masks[u], kind, if u == 0 then Hero else Courier);
      AllowsIsConditional(space, action);
      assert Allows(space, action);
    }
  }

  lemma ContinueIsAllowed(space: ActionSpace)
    requires WellBuilt(space)
    ensures Allows(space, ContinueAction) && KindOf(ContinueAction) == Continue
  {
  }

  lemma LearnIsForHero(space: ActionSpace, u: nat)
    requires WellBuilt(space) && u < 2 && FamilyAllowed(space.masks[u], Learn)
    ensures u == 0
  {
  }

  /** A unit bit is set exactly when some complete action of the kind by that unit is legal. */
  lemma UnitMaskIsExact(space: ActionSpace, kind: Kind, unit: Unit)
    requires WellBuilt(space) && kind != Continue && kind != Learn
    ensures FamilyAllowed(space.masks[UnitIndex(unit)], kind)
      <==> exists action :: KindOf(action) == kind && UnitOf(action) == Some(unit) && Allows(space, action)
  {
    hide UnitAllows, Fitted, FamilyAllowed, NothingAllowed;
    if FamilyAllowed(space.masks[UnitIndex(unit)], kind) {
      var action := FamilyShowsAction(space.masks[UnitIndex(unit)], kind, unit);
      AllowsIsConditional(space, action);
      assert Allows(space, action);
    }
    forall action | KindOf(action) == kind && UnitOf(action) == Some(unit) && Allows(space, action)
      ensures FamilyAllowed(space.masks[UnitIndex(unit)], kind)
    {
      ActionShowsFamily(space.masks[UnitIndex(unit)], action);
    }
  }

  // ---------------------------------------------------------------- slot masks are exact

  function AbilitySlotMask(m: ControlledMasks): (mask: Mask)
    ensures |mask| == |m.casts|
  {
    seq(|m.casts|, s requires 0 <= s < |m.casts| => m.casts[s].Some())
  }

  function ItemSlotMask(m: ControlledMasks): (mask: Mask)
    ensures |mask| == |m.uses|
  {
    seq(|m.uses|, s requires 0 <= s < |m.uses| => m.uses[s].Some())
  }

  /** Bag slots from which something may be put at a point or into a unit. */
  function PutSourceSlotMask(m: ControlledMasks): (mask: Mask)
    ensures |mask| == |m.putPoints|
  {
    seq(|m.putPoints|, s requires 0 <= s < |m.putPoints| =>
      m.putPoints[s].Some() || (s < |m.putUnits| && Any(m.putUnits[s])))
  }

  lemma SlotMasksAreExact(space: ActionSpace, unit: Unit, slot: nat)
    requires WellBuilt(space)
    ensures At(AbilitySlotMask(space.masks[UnitIndex(unit)]), slot)
      <==> exists target :: Allows(space, CastAction(unit, slot, target))
    ensures At(ItemSlotMask(space.masks[UnitIndex(unit)]), slot)
      <==> exists target :: Allows(space, UseAction(unit, slot, target))
  {
    CastSlotIsExact(space, unit, slot);
    UseSlotIsExact(space, unit, slot);
    hide Allows, WellBuilt, TargetMask.Some;
  }

  lemma CastSlotIsExact(space: ActionSpace, unit: Unit, slot: nat)
    requires WellBuilt(space)
    ensures var m := space.masks[UnitIndex(unit)];
      slot < |m.casts| && m.casts[slot].Some() <==> exists target :: Allows(space, CastAction(unit, slot, target))
  {
    var m := space.masks[UnitIndex(unit)];
    SpaceIsPaired(space);
    hide Fitted, FamilyAllowed, NothingAllowed, WellBuilt, TargetMask.Some, TargetMask.Allows, Allows;
    forall target
      ensures Allows(space, CastAction(unit, slot, target)) <==> slot < |m.casts| && m.casts[slot].Allows(target)
    {
      AllowsIsConditional(space, CastAction(unit, slot, target));
    }
    if slot < |m.casts| { SlotIsExact(m.casts[slot]); }
  }

  lemma UseSlotIsExact(space: ActionSpace, unit: Unit, slot: nat)
    requires WellBuilt(space)
    ensures var m := space.masks[UnitIndex(unit)];
      slot < |m.uses| && m.uses[slot].Some() <==> exists target :: Allows(space, UseAction(unit, slot, target))
  {
    var m := space.masks[UnitIndex(unit)];
    SpaceIsPaired(space);
    hide Fitted, FamilyAllowed, NothingAllowed, WellBuilt, TargetMask.Some, TargetMask.Allows, Allows;
    forall target
      ensures Allows(space, UseAction(unit, slot, target)) <==> slot < |m.uses| && m.uses[slot].Allows(target)
    {
      AllowsIsConditional(space, UseAction(unit, slot, target));
    }
    if slot < |m.uses| { SlotIsExact(m.uses[slot]); }
  }

  lemma SpaceIsPaired(space: ActionSpace)
    requires WellBuilt(space)
    ensures |space.masks| == 2 && |space.kindMask| == 16
  {
  }

  lemma SlotIsExact(mask: TargetMask)
    ensures mask.Some() <==> exists target :: mask.Allows(target)
  {
    if mask.Some() { var target := AnyTarget(mask); }
  }

  lemma PutSourceIsExact(space: ActionSpace, unit: Unit, slot: nat)
    requires WellBuilt(space)
    ensures At(PutSourceSlotMask(space.masks[UnitIndex(unit)]), slot)
      <==> || (exists place :: Allows(space, PutPointAction(unit, slot, place)))
           || (exists entity :: Allows(space, PutUnitAction(unit, slot, entity)))
  {
    var m := space.masks[UnitIndex(unit)];
    PutMasksMatch(space, unit);
    SpaceIsPaired(space);
    PutPointSlotIsExact(space, unit, slot);
    PutUnitSlotIsExact(space, unit, slot);
    hide Allows, WellBuilt, PutPointMask.Some, Any;
  }

  lemma PutPointSlotIsExact(space: ActionSpace, unit: Unit, slot: nat)
    requires WellBuilt(space)
    ensures var m := space.masks[UnitIndex(unit)];
      slot < |m.putPoints| && m.putPoints[slot].Some()
      <==> exists place :: Allows(space, PutPointAction(unit, slot, place))
  {
    var m := space.masks[UnitIndex(unit)];
    SpaceIsPaired(space);
    hide Fitted, FamilyAllowed, NothingAllowed, WellBuilt, Allows;
    forall place
      ensures Allows(space, PutPointAction(unit, slot, place))
        <==> slot < |m.putPoints| && m.putPoints[slot].Allows(place)
    {
      AllowsIsConditional(space, PutPointAction(unit, slot, place));
    }
    if slot < |m.putPoints| { PlaceIsExact(m.putPoints[slot]); }
  }

  lemma PlaceIsExact(mask: PutPointMask)
    ensures mask.Some() <==> exists place :: mask.Allows(place)
  {
    if mask.underfoot {
      assert mask.Allows(Underfoot);
    } else if Any(mask.points) {
      assert mask.Allows(PutAt(FirstOf(mask.points)));
    }
  }

  lemma PutUnitSlotIsExact(space: ActionSpace, unit: Unit, slot: nat)
    requires WellBuilt(space)
    ensures var m := space.masks[UnitIndex(unit)];
      slot < |m.putUnits| && Any(m.putUnits[slot])
      <==> exists entity :: Allows(space, PutUnitAction(unit, slot, entity))
  {
    var m := space.masks[UnitIndex(unit)];
    SpaceIsPaired(space);
    hide Fitted, FamilyAllowed, NothingAllowed, WellBuilt, Allows;
    forall entity
      ensures Allows(space, PutUnitAction(unit, slot, entity)) <==> slot < |m.putUnits| && At(m.putUnits[slot], entity)
    {
      AllowsIsConditional(space, PutUnitAction(unit, slot, entity));
    }
    if slot < |m.putUnits| && Any(m.putUnits[slot]) {
      assert At(m.putUnits[slot], FirstOf(m.putUnits[slot]));
    }
  }

  lemma PutMasksMatch(space: ActionSpace, unit: Unit)
    requires WellBuilt(space)
    ensures |space.masks[UnitIndex(unit)].putPoints| == |space.masks[UnitIndex(unit)].putUnits|
  {
  }

  // ---------------------------------------------------------------- decoding

  datatype WireTarget = Nowhere | AtUnit(id: EntityId) | AtPosition(position: Vec2)

  datatype Order =
    | MoveOrder(target: WireTarget)
    | AttackOrder(target: WireTarget)
    | CastOrder(slot: nat, target: WireTarget)
    | UseOrder(slot: nat, target: WireTarget)
    | PutOrder(slot: nat, target: WireTarget)
    | TakeOrder(target: WireTarget)
    | BuyOrder(item: ItemId)
    | SellOrder(slot: nat)
    | SwapOrder(slot: nat, to: nat)
    | LearnOrder(slot: nat)

  datatype ActionFault = CandidateIndex | NotAllowed | MissingLeaf

  datatype Decoded =
    | NoOrder
    | Issued(unit: Option<EntityId>, order: Order)
    | Refused(fault: ActionFault)

  /** Whether every candidate the action names exists. */
  predicate IndicesExist(space: ActionSpace, action: Action) {
    match action
    case MovePointAction(_, point) => point < |space.points|
    case AttackMovePointAction(_, point) => point < |space.points|
    case FollowUnitAction(_, entity) => entity < |space.entities|
    case AttackUnitAction(_, entity) => entity < |space.entities|
    case PutUnitAction(_, _, entity) => entity < |space.entities|
    case CastAction(_, _, target) => TargetExists(space, target)
    case UseAction(_, _, target) => TargetExists(space, target)
    case PutPointAction(_, _, place) => place.PutAt? ==> place.point < |space.points|
    case TakeAction(_, loot) => loot < |space.loot|
    case BuyAction(_, item) => item < |space.shop|
    case _ => true
  }

  predicate TargetExists(space: ActionSpace, target: Target) {
    match target
    case NoTarget => true
    case EntityTarget(i) => i < |space.entities|
    case PointTarget(i) => i < |space.points|
  }

  function DecodeTarget(space: ActionSpace, target: Target): WireTarget
    requires TargetExists(space, target)
  {
    match target
    case NoTarget => Nowhere
    case EntityTarget(i) => AtUnit(space.entities[i])
    case PointTarget(i) => AtPosition(space.points[i])
  }

  /** The order of an action; None when a purchase has no missing leaf to fall back to. */
  function DecodeOrder(space: ActionSpace, action: Action): Option<Order>
    requires IndicesExist(space, action) && |space.needs| == |space.shop| && action != ContinueAction
  {
    match action
    case StopAction(_) => Some(MoveOrder(Nowhere))
    case MovePointAction(_, point) => Some(MoveOrder(AtPosition(space.points[point])))
    case FollowUnitAction(_, entity) => Some(MoveOrder(AtUnit(space.entities[entity])))
    case HoldAction(_) => Some(AttackOrder(Nowhere))
    case AttackMovePointAction(_, point) => Some(AttackOrder(AtPosition(space.points[point])))
    case AttackUnitAction(_, entity) => Some(AttackOrder(AtUnit(space.entities[entity])))
    case CastAction(_, slot, target) => Some(CastOrder(slot, DecodeTarget(space, target)))
    case UseAction(_, slot, target) => Some(UseOrder(slot, DecodeTarget(space, target)))
    case PutPointAction(_, slot, place) =>
      Some(PutOrder(slot, if place.PutAt? then AtPosition(space.points[place.point]) else Nowhere))
    case PutUnitAction(_, slot, entity) => Some(PutOrder(slot, AtUnit(space.entities[entity])))
    case TakeAction(_, loot) => Some(TakeOrder(AtUnit(space.loot[loot])))
    case BuyAction(_, item) =>
      if space.gold >= space.shop[item].cost then Some(BuyOrder(space.shop[item].item))
      else if space.needs[item].firstMissing.Some? then Some(BuyOrder(space.needs[item].firstMissing.value))
      else None
    case SellAction(_, slot) => Some(SellOrder(slot))
    case SwapAction(_, slot, to) => Some(SwapOrder(slot, to))
    case LearnAction(slot) => Some(LearnOrder(slot))
  }

  /** Checks the action and converts its candidate indices to wire values. */
  function Decode(space: ActionSpace, action: Action): Decoded
    requires |space.masks| == |space.controlled| == 2 && |space.kindMask| == 16 && |space.needs| == |space.shop|
  {
    if !IndicesExist(space, action) then Refused(CandidateIndex)
    else if !Allows(space, action) then Refused(NotAllowed)
    else if action == ContinueAction then NoOrder
    else
      var courier := UnitOf(action) == Some(Courier);
      if courier && space.controlled[1].None? then Refused(NotAllowed)
      else match DecodeOrder(space, action)
        case None => Refused(MissingLeaf)
        case Some(order) => Issued(if courier then space.controlled[1] else None, order)
  }

  lemma AllowedIndicesExist(space: ActionSpace, action: Action)
    requires WellBuilt(space) && UnitAllows(MasksOf(space, action), action)
    ensures IndicesExist(space, action)
  {
    hide FamilyAllowed, NothingAllowed, BuildKindMask;
    var m := MasksOf(space, action);
    assert Fitted(space, m);
    match action
    case CastAction(_, slot, target) => assert TargetsFit(space, m.casts[slot]);
    case UseAction(_, slot, target) => assert TargetsFit(space, m.uses[slot]);
    case PutPointAction(_, slot, place) => assert |m.putPoints[slot].points| == |space.points|;
    case PutUnitAction(_, slot, entity) => assert |m.putUnits[slot]| == |space.entities|;
    case _ =>
  }

  lemma AllowedUnitLives(space: ActionSpace, action: Action)
    requires WellBuilt(space) && UnitAllows(MasksOf(space, action), action) && UnitOf(action) == Some(Courier)
    ensures space.controlled[1].Some?
  {
    hide UnitAllows, FamilyAllowed, Fitted;
    if space.controlled[1].None? {
      AbsentUnitDoesNothing(space, 1, KindOf(action));
      ActionShowsFamily(space.masks[1], action);
    }
  }

  lemma AbsentUnitDoesNothing(space: ActionSpace, u: nat, kind: Kind)
    requires WellBuilt(space) && u < 2 && space.controlled[u].None?
    ensures !FamilyAllowed(space.masks[u], kind)
  {
    assert NothingAllowed(space.masks[u]);
  }

  lemma AllowedPurchaseOrders(space: ActionSpace, action: Action)
    requires WellBuilt(space) && UnitAllows(MasksOf(space, action), action) && action != ContinueAction
    requires IndicesExist(space, action)
    ensures DecodeOrder(space, action).Some?
  {
    hide FamilyAllowed, Fitted, NothingAllowed, BuildKindMask;
  }

  /** Decoding succeeds exactly on the legal actions. */
  lemma DecodesExactlyLegal(space: ActionSpace, action: Action)
    requires WellBuilt(space)
    ensures !Decode(space, action).Refused? <==> Allows(space, action)
    ensures Decode(space, action).NoOrder? <==> action == ContinueAction
  {
    hide UnitAllows, FamilyAllowed, Fitted, NothingAllowed, IndicesExist, DecodeOrder, BuildKindMask;
    if action == ContinueAction {
      ContinueIsAllowed(space);
      AllowedIndicesExist(space, action);
    } else if Allows(space, action) {
      AllowedIndicesExist(space, action);
      AllowedPurchaseOrders(space, action);
      if UnitOf(action) == Some(Courier) { AllowedUnitLives(space, action); }
    }
  }

  /** Point candidate an action names. */
  ghost function PointIndex(action: Action): Option<nat> {
    if action.MovePointAction? || action.AttackMovePointAction? then Some(action.point)
    else if action.PutPointAction? && action.place.PutAt? then Some(action.place.point)
    else if (action.CastAction? || action.UseAction?) && action.target.PointTarget? then Some(action.target.point)
    else None
  }

  /** Entity candidate an action names. */
  ghost function EntityIndex(action: Action): Option<nat> {
    if action.FollowUnitAction? || action.AttackUnitAction? || action.PutUnitAction? then Some(action.entity)
    else if (action.CastAction? || action.UseAction?) && action.target.EntityTarget? then Some(action.target.entity)
    else None
  }

  /** What an action aims at: the position of its point, the id of its entity or loot, or nothing. */
  ghost function Aimed(space: ActionSpace, action: Action): WireTarget
    requires IndicesExist(space, action)
  {
    if PointIndex(action).Some? then AtPosition(space.points[PointIndex(action).value])
    else if EntityIndex(action).Some? then AtUnit(space.entities[EntityIndex(action).value])
    else if action.TakeAction? then AtUnit(space.loot[action.loot])
    else Nowhere
  }

  /**
   * The order sent for an action: its verb is that of the kind, stopping being
   * a move and holding an attack without a target; it names the action's
   * slots, and what the action aims at; the courier is named, the hero is not.
   */
  lemma OrderSaysAction(space: ActionSpace, action: Action)
    requires WellBuilt(space) && Allows(space, action) && action != ContinueAction
    ensures IndicesExist(space, action) && Decode(space, action).Issued?
    ensures var order := Decode(space, action).order;
      && (order.MoveOrder? <==> KindOf(action) in {Stop, MovePoint, FollowUnit})
      && (order.AttackOrder? <==> KindOf(action) in {Hold, AttackMovePoint, AttackUnit})
      && (order.CastOrder? <==> KindOf(action) == Cast) && (order.UseOrder? <==> KindOf(action) == Use)
      && (order.PutOrder? <==> KindOf(action) in {PutPoint, PutUnit}) && (order.TakeOrder? <==> KindOf(action) == Take)
      && (order.BuyOrder? <==> KindOf(action) == Buy) && (order.SellOrder? <==> KindOf(action) == Sell)
      && (order.SwapOrder? <==> KindOf(action) == Swap) && (order.LearnOrder? <==> KindOf(action) == Learn)
    ensures var order := Decode(space, action).order;
      && (order.MoveOrder? || order.AttackOrder? || order.CastOrder? || order.UseOrder? || order.PutOrder? || order.TakeOrder? ==>
            order.target == Aimed(space, action))
      && (order.CastOrder? || order.UseOrder? || order.PutOrder? || order.SellOrder? || order.SwapOrder? || order.LearnOrder? ==>
            order.slot == action.slot)
      && (order.SwapOrder? ==> order.to == action.to)
      && (order.BuyOrder? ==>
            order.item == if space.gold >= space.shop[action.item].cost then space.shop[action.item].item
                          else space.needs[action.item].firstMissing.value)
    ensures Decode(space, action).unit
         == if UnitOf(action) == Some(Courier) then space.controlled[1] else None
    ensures UnitOf(action) == Some(Courier) ==> space.controlled[1].Some?
  {
    hide UnitAllows, FamilyAllowed, Fitted, NothingAllowed, BuildKindMask;
    AllowedIndicesExist(space, action);
    AllowedPurchaseOrders(space, action);
    DecodesExactlyLegal(space, action);
    if UnitOf(action) == Some(Courier) { AllowedUnitLives(space, action); }
  }

  ghost predicate DistinctIds(ids: seq<EntityId>) { forall i, j :: 0 <= i < j < |ids| ==> ids[i] != ids[j] }

  ghost predicate DistinctPoints(points: seq<Vec2>) {
    forall i, j :: 0 <= i < j < |points| ==> points[i] != points[j]
  }

  /** Apart from purchases, different actions of one unit give different orders. */
  lemma OrdersDiffer(space: ActionSpace, a: Action, b: Action)
    requires DistinctIds(space.entities) && DistinctIds(space.loot) && DistinctPoints(space.points)
    requires |space.needs| == |space.shop| && !a.BuyAction? && !b.BuyAction?
    requires a != ContinueAction && b != ContinueAction
    requires UnitOf(a) == Some(Courier) <==> UnitOf(b) == Some(Courier)
    requires IndicesExist(space, a) && IndicesExist(space, b) && DecodeOrder(space, a) == DecodeOrder(space, b)
    ensures a == b
  {
    assert KindOf(a) == KindOf(b);
    if !a.LearnAction? { assert a.unit == b.unit; }
    match a
    case CastAction(_, _, target) => TargetsDiffer(space, target, b.target);
    case UseAction(_, _, target) => TargetsDiffer(space, target, b.target);
    case PutPointAction(_, _, place) => assert place == b.place;
    case _ =>
  }

  lemma TargetsDiffer(space: ActionSpace, a: Target, b: Target)
    requires DistinctIds(space.entities) && DistinctPoints(space.points)
    requires TargetExists(space, a) && TargetExists(space, b) && DecodeTarget(space, a) == DecodeTarget(space, b)
    ensures a == b
  {
  }

  /**
   * No two legal actions other than purchases send the same wire order: a
   * sampled action can be recovered from what was sent.
   */
  lemma DecodeIsInjective(space: ActionSpace, a: Action, b: Action)
    requires WellBuilt(space) && Allows(space, a) && Allows(space, b) && !a.BuyAction? && !b.BuyAction?
    requires DistinctIds(space.entities) && DistinctIds(space.loot) && DistinctPoints(space.points)
    requires Decode(space, a) == Decode(space, b)
    ensures a == b
  {
    hide UnitAllows, FamilyAllowed, Fitted, NothingAllowed, IndicesExist, DecodeOrder, BuildKindMask;
    DecodesExactlyLegal(space, a);
    DecodesExactlyLegal(space, b);
    hide WellBuilt, Allows, DistinctIds, DistinctPoints;
    if Decode(space, a).NoOrder? {
      assert a == ContinueAction && b == ContinueAction;
    } else {
      assert a != ContinueAction && b != ContinueAction;
      OrdersDiffer(space, a, b);
    }
  }
}
