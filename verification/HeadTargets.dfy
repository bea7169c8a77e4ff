// Labels and legal masks of one action on every autoregressive policy head:
// how a legal action is labelled, what the masks mean, and what is validated.
module HeadTargets {
  import opened Geometry
  import opened ActionMasks

  // Heads in the order they are decided and stored.
  const KIND: nat := 0
  const UNIT: nat := 1
  const ABILITY: nat := 2
  const ITEM: nat := 3
  const SWAP: nat := 4
  const LEARN: nat := 5
  const SHOP: nat := 6
  const LOOT: nat := 7
  const TARGET_MODE: nat := 8
  const PUT_MODE: nat := 9
  const ENTITY: nat := 10
  const POINT: nat := 11
  const HEADS: nat := 12

  const LEARN_WIDTH: nat := 6

  /** Classes of each head. */
  function Width(head: nat): (width: nat)
    ensures 0 < width <= 96
  {
    if head == KIND then 16 else if head == UNIT then 2 else if head == ABILITY then 8
    else if head == ITEM then 15 else if head == SWAP then 15 else if head == LEARN then LEARN_WIDTH
    else if head == SHOP then 64 else if head == LOOT then 16 else if head == TARGET_MODE then 3
    else if head == PUT_MODE then 2 else if head == ENTITY then 96 else 64
  }

  datatype HeadTarget = HeadTarget(active: bool, mask: Mask, selected: nat)

  datatype TrainingSlot = AbilityPrefix(slot: nat) | ItemPrefix(slot: nat)

  datatype Prefix = Prefix(kind: Kind, unit: Option<Unit>, slot: Option<TrainingSlot>)

  datatype Targets = Targets(heads: seq<HeadTarget>, prefix: Prefix) {
    predicate Shaped() {
      |heads| == HEADS && forall h :: 0 <= h < HEADS ==> |heads[h].mask| == Width(h)
    }
  }

  datatype TargetFault =
    | ActionNotAllowed | InactiveMask(head: nat) | EmptyMask(head: nat) | LabelOutside(head: nat)
    | IllegalLabel(head: nat) | PathMismatch | MaskOversize

  function Inactive(head: nat): HeadTarget { HeadTarget(false, Falses(Width(head)), 0) }

  function Padded(mask: Mask, width: nat): (padded: Mask)
    requires |mask| <= width
    ensures |padded| == width && padded[..|mask|] == mask
    ensures forall i: nat :: At(padded, i) <==> At(mask, i)
  {
    mask + Falses(width - |mask|)
  }

  // ---------------------------------------------------------------- the path of an action

  function ModeOf(target: Target): nat {
    match target case NoTarget => 0 case EntityTarget(_) => 1 case PointTarget(_) => 2
  }

  function TargetLabel(target: Target, head: nat): Option<nat> {
    if head == TARGET_MODE then Some(ModeOf(target))
    else if head == ENTITY && target.EntityTarget? then Some(target.entity)
    else if head == POINT && target.PointTarget? then Some(target.point)
    else None
  }

  /** The class an action takes on a head; None when the head is off its path. */
  function Label(action: Action, head: nat): Option<nat> {
    if head == KIND then Some(KindIndex(KindOf(action)))
    else if head == UNIT then (match UnitOf(action) case None => None case Some(unit) => Some(UnitIndex(unit)))
    else match action
      case ContinueAction => None
      case StopAction(_) => None
      case HoldAction(_) => None
      case MovePointAction(_, point) => if head == POINT then Some(point) else None
      case AttackMovePointAction(_, point) => if head == POINT then Some(point) else None
      case FollowUnitAction(_, entity) => if head == ENTITY then Some(entity) else None
      case AttackUnitAction(_, entity) => if head == ENTITY then Some(entity) else None
      case CastAction(_, slot, target) => if head == ABILITY then Some(slot) else TargetLabel(target, head)
      case UseAction(_, slot, target) => if head == ITEM then Some(slot) else TargetLabel(target, head)
      case PutPointAction(_, slot, place) =>
        if head == ITEM then Some(slot)
        else if head == PUT_MODE then Some(if place.PutAt? then 1 else 0)
        else if head == POINT && place.PutAt? then Some(place.point)
        else None
      case PutUnitAction(_, slot, entity) =>
        if head == ITEM then Some(slot) else if head == ENTITY then Some(entity) else None
      case TakeAction(_, loot) => if head == LOOT then Some(loot) else None
      case BuyAction(_, item) => if head == SHOP then Some(item) else None
      case SellAction(_, slot) => if head == ITEM then Some(slot) else None
      case SwapAction(_, slot, to) => if head == ITEM then Some(slot) else if head == SWAP then Some(to) else None
      case LearnAction(slot) => if head == LEARN then Some(slot) else None
  }

  function PrefixOf(action: Action): Prefix {
    var slot := match action
      case CastAction(_, slot, _) => Some(AbilityPrefix(slot))
      case UseAction(_, slot, _) => Some(ItemPrefix(slot))
      case PutPointAction(_, slot, _) => Some(ItemPrefix(slot))
      case PutUnitAction(_, slot, _) => Some(ItemPrefix(slot))
      case SwapAction(_, slot, _) => Some(ItemPrefix(slot))
      case _ => None;
    Prefix(KindOf(action), UnitOf(action), slot)
  }

  /** Head by head: the part of the action each one chooses. */
  lemma LabelsSayAction(action: Action)
    ensures Label(action, 0).Some? && Label(action, 0).value < 16
    ensures [Continue, Stop, MovePoint, FollowUnit, Hold, AttackMovePoint, AttackUnit, Cast,
             Use, PutPoint, PutUnit, Take, Buy, Sell, Swap, Learn][Label(action, 0).value] == KindOf(action)
    ensures Label(action, 1) == if UnitOf(action) == Some(Hero) then Some(0) else if UnitOf(action) == Some(Courier) then Some(1) else None
    ensures Label(action, 2) == if KindOf(action) == Cast then Some(action.slot) else None
    ensures Label(action, 3) == if KindOf(action) in {Use, PutPoint, PutUnit, Sell, Swap} then Some(action.slot) else None
    ensures Label(action, 4) == if KindOf(action) == Swap then Some(action.to) else None
    ensures Label(action, 5) == if KindOf(action) == Learn then Some(action.slot) else None
    ensures Label(action, 6) == if KindOf(action) == Buy then Some(action.item) else None
    ensures Label(action, 7) == if KindOf(action) == Take then Some(action.loot) else None
    ensures Label(action, 8) == if KindOf(action) !in {Cast, Use} then None
      else Some(if EntityIndex(action).Some? then 1 else if PointIndex(action).Some? then 2 else 0)
    ensures Label(action, 9) == if KindOf(action) != PutPoint then None else Some(if PointIndex(action).Some? then 1 else 0)
    ensures Label(action, 10) == EntityIndex(action) && Label(action, 11) == PointIndex(action)
    ensures PrefixOf(action) == Prefix(KindOf(action), UnitOf(action),
      if KindOf(action) == Cast then Some(AbilityPrefix(action.slot))
      else if KindOf(action) in {Use, PutPoint, PutUnit, Swap} then Some(ItemPrefix(action.slot)) else None)
  {
    assert Label(action, 0) == Some(KindIndex(KindOf(action)));
  }

  /** The labels of an action determine it. */
  lemma LabelsDetermineAction(a: Action, b: Action)
    requires forall h :: 0 <= h < HEADS ==> Label(a, h) == Label(b, h)
    ensures a == b
  {
    assert Label(a, KIND) == Label(b, KIND);
    assert KINDS[KindIndex(KindOf(a))] == KINDS[KindIndex(KindOf(b))];
    assert Label(a, UNIT) == Label(b, UNIT);
    assert Label(a, ABILITY) == Label(b, ABILITY);
    assert Label(a, ITEM) == Label(b, ITEM);
    assert Label(a, SWAP) == Label(b, SWAP);
    assert Label(a, LEARN) == Label(b, LEARN);
    assert Label(a, SHOP) == Label(b, SHOP);
    assert Label(a, LOOT) == Label(b, LOOT);
    assert Label(a, TARGET_MODE) == Label(b, TARGET_MODE);
    assert Label(a, PUT_MODE) == Label(b, PUT_MODE);
    assert Label(a, ENTITY) == Label(b, ENTITY);
    assert Label(a, POINT) == Label(b, POINT);
  }

  // ---------------------------------------------------------------- the masks along the path

  function UnitMask(space: ActionSpace, kind: Kind): (mask: Mask)
    requires |space.masks| == 2
    ensures |mask| == 2
  {
    if kind == Continue then [false, false]
    else [FamilyAllowed(space.masks[0], kind), FamilyAllowed(space.masks[1], kind)]
  }

  function PutPointSources(m: ControlledMasks): (mask: Mask)
    ensures |mask| == WIRE_ITEM_SLOTS
  {
    seq(WIRE_ITEM_SLOTS, s requires 0 <= s => s < |m.putPoints| && (m.putPoints[s].underfoot || Any(m.putPoints[s].points)))
  }

  function PutUnitSources(m: ControlledMasks): (mask: Mask)
    ensures |mask| == WIRE_ITEM_SLOTS
  {
    seq(WIRE_ITEM_SLOTS, s requires 0 <= s => s < |m.putUnits| && Any(m.putUnits[s]))
  }

  function SwapSources(m: ControlledMasks): (mask: Mask)
    ensures |mask| == WIRE_ITEM_SLOTS
  {
    seq(WIRE_ITEM_SLOTS, s requires 0 <= s => s < |m.swap| && Any(m.swap[s]))
  }

  function TargetHeadMask(mask: TargetMask, head: nat): Mask {
    if head == TARGET_MODE then [mask.none, Any(mask.entities), Any(mask.points)]
    else if head == ENTITY then mask.entities
    else mask.points
  }

  /** Legal classes of a head on the path of a legal action, before padding. */
  function HeadMask(space: ActionSpace, action: Action, head: nat): Mask
    requires |space.masks| == 2 && UnitAllows(MasksOf(space, action), action)
  {
    var m := MasksOf(space, action);
    if head == KIND then space.kindMask
    else if head == UNIT then UnitMask(space, KindOf(action))
    else match action
      case MovePointAction(_, _) => m.movePoints
      case AttackMovePointAction(_, _) => m.attackMovePoints
      case FollowUnitAction(_, _) => m.followEntities
      case AttackUnitAction(_, _) => m.attackEntities
      case CastAction(_, slot, _) => if head == ABILITY then AbilitySlotMask(m) else TargetHeadMask(m.casts[slot], head)
      case UseAction(_, slot, _) => if head == ITEM then ItemSlotMask(m) else TargetHeadMask(m.uses[slot], head)
      case PutPointAction(_, slot, _) =>
        if head == ITEM then PutPointSources(m)
        else if head == PUT_MODE then [m.putPoints[slot].underfoot, Any(m.putPoints[slot].points)]
        else m.putPoints[slot].points
      case PutUnitAction(_, slot, _) => if head == ITEM then PutUnitSources(m) else m.putUnits[slot]
      case TakeAction(_, _) => m.take
      case BuyAction(_, _) => m.buy
      case SellAction(_, _) => m.sell
      case SwapAction(_, slot, _) => if head == ITEM then SwapSources(m) else m.swap[slot]
      case LearnAction(_) => m.learn
      case _ => []
  }

  /** Only the learn mask can be wider than its head. */
  predicate LearnFits(space: ActionSpace, action: Action)
    requires |space.masks| == 2
  {
    action.LearnAction? ==> |space.masks[0].learn| <= LEARN_WIDTH
  }

  lemma MasksFit(space: ActionSpace, action: Action, head: nat)
    requires WellBuilt(space) && UnitAllows(MasksOf(space, action), action) && head < HEADS
    requires Label(action, head).Some?
    ensures action.LearnAction? && head == LEARN ==> HeadMask(space, action, head) == space.masks[0].learn
    ensures !(action.LearnAction? && head == LEARN) ==> |HeadMask(space, action, head)| <= Width(head)
  {
    hide FamilyAllowed, NothingAllowed, BuildKindMask;
    var m := MasksOf(space, action);
    assert Fitted(space, m);
    match action
    case CastAction(_, slot, _) => assert TargetsFit(space, m.casts[slot]);
    case UseAction(_, slot, _) => assert TargetsFit(space, m.uses[slot]);
    case PutPointAction(_, slot, _) => assert |m.putPoints[slot].points| == |space.points|;
    case PutUnitAction(_, slot, _) => assert |m.putUnits[slot]| == |space.entities|;
    case _ =>
  }

  /** A legal action's own label is legal on every head of its path. */
  lemma OwnLabelIsLegal(space: ActionSpace, action: Action, head: nat)
    requires WellBuilt(space) && Allows(space, action) && head < HEADS && Label(action, head).Some?
    ensures At(HeadMask(space, action, head), Label(action, head).value)
  {
    hide Fitted, NothingAllowed, BuildKindMask, WellBuilt;
    SpaceIsPaired(space);
    var m := MasksOf(space, action);
    SlotsAreBounded(space, m, action);
    if head == UNIT { ActionShowsFamily(m, action); }
    match action
    case CastAction(_, slot, target) => TargetShowsMask(m.casts[slot], target);
    case UseAction(_, slot, target) => TargetShowsMask(m.uses[slot], target);
    case _ =>
  }

  lemma SlotsAreBounded(space: ActionSpace, m: ControlledMasks, action: Action)
    requires WellBuilt(space) && m in space.masks && UnitAllows(m, action)
    ensures action.PutPointAction? || action.PutUnitAction? || action.SwapAction? ==> action.slot < WIRE_ITEM_SLOTS
  {
    hide FamilyAllowed, NothingAllowed, BuildKindMask;
  }

  /** Agreement on every head decided before the given one. */
  ghost predicate AgreeBefore(a: Action, b: Action, head: nat) {
    forall h :: 0 <= h < head ==> Label(a, h) == Label(b, h)
  }

  lemma MaskDependsOnPrefix(space: ActionSpace, a: Action, b: Action, head: nat)
    requires |space.masks| == 2 && UnitAllows(MasksOf(space, a), a) && UnitAllows(MasksOf(space, b), b)
    requires head < HEADS && AgreeBefore(a, b, head) && Label(a, head).Some? && Label(b, head).Some?
    ensures HeadMask(space, a, head) == HeadMask(space, b, head)
  {
    hide UnitAllows, FamilyAllowed;
    if head > KIND {
      assert Label(a, KIND) == Label(b, KIND);
      assert KINDS[KindIndex(KindOf(a))] == KINDS[KindIndex(KindOf(b))];
    }
    if head > UNIT { assert Label(a, UNIT) == Label(b, UNIT); }
    if head > ABILITY { assert Label(a, ABILITY) == Label(b, ABILITY); }
    if head > ITEM { assert Label(a, ITEM) == Label(b, ITEM); }
  }

  /** From the same choices so far, every set class of the head leads to a legal action. */
  lemma Steer(space: ActionSpace, action: Action, head: nat, class_: nat) returns (other: Action)
    requires WellBuilt(space) && Allows(space, action) && head < HEADS && Label(action, head).Some?
    requires At(HeadMask(space, action, head), class_)
    ensures Allows(space, other) && AgreeBefore(action, other, head) && Label(other, head) == Some(class_)
  {
    hide WellBuilt, Allows, UnitAllows, Label, HeadMask, AgreeBefore;
    SpaceIsPaired(space);
    AllowsIsConditional(space, action);
    if head == KIND {
      other := SteerKind(space, action, class_);
    } else if head == UNIT {
      other := SteerUnit(space, action, class_);
    } else {
      other := SteerSlot(MasksOf(space, action), space, action, head, class_);
      SteeredKeeps(space, action, other, head, class_);
    }
    AllowsIsConditional(space, other);
  }

  lemma SteerKind(space: ActionSpace, action: Action, class_: nat) returns (other: Action)
    requires WellBuilt(space) && Allows(space, action) && At(HeadMask(space, action, KIND), class_)
    ensures Allows(space, other) && AgreeBefore(action, other, KIND) && Label(other, KIND) == Some(class_)
  {
    hide Fitted, NothingAllowed, BuildKindMask, WellBuilt, Allows, UnitAllows;
    SpaceIsPaired(space);
    KindMaskIsExact(space, KINDS[class_]);
    other :| KindOf(other) == KINDS[class_] && Allows(space, other);
    KindsAreDistinct(class_);
  }

  lemma SteerUnit(space: ActionSpace, action: Action, class_: nat) returns (other: Action)
    requires |space.masks| == 2 && UnitAllows(MasksOf(space, action), action)
    requires Label(action, UNIT).Some? && At(HeadMask(space, action, UNIT), class_)
    ensures UnitAllows(MasksOf(space, other), other) && AgreeBefore(action, other, UNIT)
    ensures Label(other, UNIT) == Some(class_)
  {
    hide UnitAllows, FamilyAllowed;
    other := FamilyShowsAction(space.masks[class_], KindOf(action), if class_ == 0 then Hero else Courier);
  }

  lemma SteeredKeeps(space: ActionSpace, action: Action, other: Action, head: nat, class_: nat)
    requires |space.masks| == 2 && Steered(MasksOf(space, action), action, other, head, class_)
    ensures UnitAllows(MasksOf(space, other), other) && AgreeBefore(action, other, head)
    ensures Label(other, head) == Some(class_)
  {
    hide UnitAllows, Label, AgreeBefore;
  }

  lemma KindsAreDistinct(i: nat)
    requires i < 16
    ensures KindIndex(KINDS[i]) == i
  {
  }

  ghost predicate Steered(m: ControlledMasks, action: Action, other: Action, head: nat, class_: nat) {
    && UnitOf(other) == UnitOf(action) && UnitAllows(m, other)
    && AgreeBefore(action, other, head) && Label(other, head) == Some(class_)
  }

  lemma SteerSlot(m: ControlledMasks, space: ActionSpace, action: Action, head: nat, class_: nat) returns (other: Action)
    requires |space.masks| == 2 && UNIT < head < HEADS && m == MasksOf(space, action) && UnitAllows(m, action)
    requires Label(action, head).Some? && At(HeadMask(space, action, head), class_)
    ensures Steered(m, action, other, head, class_)
  {
    hide Steered;
    match action
    case CastAction(_, _, _) => other := SteerCast(m, space, action, head, class_);
    case UseAction(_, _, _) => other := SteerUse(m, space, action, head, class_);
    case PutPointAction(_, _, _) => other := SteerPutPoint(m, space, action, head, class_);
    case PutUnitAction(_, _, _) => other := SteerPutUnit(m, space, action, head, class_);
    case SwapAction(_, _, _) => other := SteerSwap(m, space, action, head, class_);
    case _ => other := SteerPlain(m, space, action, head, class_);
  }

  lemma SteerPlain(m: ControlledMasks, space: ActionSpace, action: Action, head: nat, class_: nat) returns (other: Action)
    requires |space.masks| == 2 && UNIT < head < HEADS && m == MasksOf(space, action) && UnitAllows(m, action)
    requires Label(action, head).Some? && At(HeadMask(space, action, head), class_)
    requires KindOf(action) !in {Cast, Use, PutPoint, PutUnit, Swap}
    ensures Steered(m, action, other, head, class_)
  {
    hide FamilyAllowed, AgreeBefore;
    match action {
      case MovePointAction(unit, _) => other := MovePointAction(unit, class_);
      case AttackMovePointAction(unit, _) => other := AttackMovePointAction(unit, class_);
      case FollowUnitAction(unit, _) => other := FollowUnitAction(unit, class_);
      case AttackUnitAction(unit, _) => other := AttackUnitAction(unit, class_);
      case TakeAction(unit, _) => other := TakeAction(unit, class_);
      case BuyAction(unit, _) => other := BuyAction(unit, class_);
      case SellAction(unit, _) => other := SellAction(unit, class_);
      case LearnAction(_) => other := LearnAction(class_);
    }
    PlainAgree(action, other, head);
  }

  /** Kinds with one head after the unit agree up to it as soon as kind and unit do. */
  lemma PlainAgree(a: Action, b: Action, head: nat)
    requires KindOf(a) == KindOf(b) && UnitOf(a) == UnitOf(b) && KindOf(a) !in {Cast, Use, PutPoint, PutUnit, Swap}
    requires UNIT < head < HEADS && Label(a, head).Some?
    ensures AgreeBefore(a, b, head)
  {
  }

  lemma SteerSwap(m: ControlledMasks, space: ActionSpace, action: Action, head: nat, class_: nat) returns (other: Action)
    requires |space.masks| == 2 && UNIT < head < HEADS && m == MasksOf(space, action) && UnitAllows(m, action)
    requires Label(action, head).Some? && At(HeadMask(space, action, head), class_) && action.SwapAction?
    ensures Steered(m, action, other, head, class_)
  {
    other := if head == ITEM then SwapAction(action.unit, class_, FirstOf(m.swap[class_]))
      else SwapAction(action.unit, action.slot, class_);
  }

  lemma SteerPutUnit(m: ControlledMasks, space: ActionSpace, action: Action, head: nat, class_: nat) returns (other: Action)
    requires |space.masks| == 2 && UNIT < head < HEADS && m == MasksOf(space, action) && UnitAllows(m, action)
    requires Label(action, head).Some? && At(HeadMask(space, action, head), class_) && action.PutUnitAction?
    ensures Steered(m, action, other, head, class_)
  {
    other := if head == ITEM then PutUnitAction(action.unit, class_, FirstOf(m.putUnits[class_]))
      else PutUnitAction(action.unit, action.slot, class_);
  }

  lemma SteerPutPoint(m: ControlledMasks, space: ActionSpace, action: Action, head: nat, class_: nat) returns (other: Action)
    requires |space.masks| == 2 && UNIT < head < HEADS && m == MasksOf(space, action) && UnitAllows(m, action)
    requires Label(action, head).Some? && At(HeadMask(space, action, head), class_) && action.PutPointAction?
    ensures Steered(m, action, other, head, class_)
  {
    if head == ITEM {
      other := PutPointAction(action.unit, class_, AnyPlace(m.putPoints[class_]));
    } else {
      var place := if head == POINT then PutAt(class_)
        else if class_ == 0 then Underfoot
        else PutAt(FirstOf(m.putPoints[action.slot].points));
      other := PutPointAction(action.unit, action.slot, place);
    }
  }

  lemma SteerCast(m: ControlledMasks, space: ActionSpace, action: Action, head: nat, class_: nat) returns (other: Action)
    requires |space.masks| == 2 && UNIT < head < HEADS && m == MasksOf(space, action) && UnitAllows(m, action)
    requires Label(action, head).Some? && At(HeadMask(space, action, head), class_) && action.CastAction?
    ensures Steered(m, action, other, head, class_)
  {
    hide TargetMask.Some, TargetMask.Allows, TargetHeadMask, TargetLabel;
    if head == ABILITY {
      other := CastAction(action.unit, class_, AnyTarget(m.casts[class_]));
    } else {
      other := CastAction(action.unit, action.slot, SteerTarget(m.casts[action.slot], action.target, head, class_));
    }
  }

  lemma SteerUse(m: ControlledMasks, space: ActionSpace, action: Action, head: nat, class_: nat) returns (other: Action)
    requires |space.masks| == 2 && UNIT < head < HEADS && m == MasksOf(space, action) && UnitAllows(m, action)
    requires Label(action, head).Some? && At(HeadMask(space, action, head), class_) && action.UseAction?
    ensures Steered(m, action, other, head, class_)
  {
    hide TargetMask.Some, TargetMask.Allows, TargetHeadMask;
    if head == ITEM {
      other := UseAction(action.unit, class_, AnyTarget(m.uses[class_]));
    } else {
      other := UseAction(action.unit, action.slot, SteerTarget(m.uses[action.slot], action.target, head, class_));
    }
  }

  function AnyPlace(mask: PutPointMask): (place: PutTarget)
    requires mask.Some()
    ensures mask.Allows(place)
  {
    if mask.underfoot then Underfoot else PutAt(FirstOf(mask.points))
  }

  function SteerTarget(mask: TargetMask, target: Target, head: nat, class_: nat): (other: Target)
    requires TargetLabel(target, head).Some? && At(TargetHeadMask(mask, head), class_)
    ensures mask.Allows(other) && TargetLabel(other, head) == Some(class_)
    ensures forall h :: 0 <= h < head ==> TargetLabel(other, h) == TargetLabel(target, h)
  {
    if head == ENTITY then EntityTarget(class_)
    else if head == POINT then PointTarget(class_)
    else if class_ == 0 then NoTarget
    else if class_ == 1 then EntityTarget(FirstOf(mask.entities))
    else PointTarget(FirstOf(mask.points))
  }

  /**
   * Every mask along a legal path is an exact projection of the legal actions:
   * a class is set on a head exactly when some legal action makes the same
   * choices on all earlier heads and takes that class here.
   */
  lemma HeadMaskIsExact(space: ActionSpace, action: Action, head: nat, class_: nat)
    requires WellBuilt(space) && Allows(space, action) && head < HEADS && Label(action, head).Some?
    ensures At(HeadMask(space, action, head), class_)
      <==> exists other :: && Allows(space, other) && AgreeBefore(action, other, head)
                           && Label(other, head) == Some(class_)
  {
    hide WellBuilt, Allows, UnitAllows, Label, HeadMask, AgreeBefore;
    SpaceIsPaired(space);
    AllowsIsConditional(space, action);
    if At(HeadMask(space, action, head), class_) {
      var other := Steer(space, action, head, class_);
    }
    forall other | Allows(space, other) && AgreeBefore(action, other, head) && Label(other, head) == Some(class_)
      ensures At(HeadMask(space, action, head), class_)
    {
      AllowsIsConditional(space, other);
      OwnLabelIsLegal(space, other, head);
      MaskDependsOnPrefix(space, action, other, head);
    }
  }
}
