// Turning a sampled action into head targets, validating targets, and reading
// the action back from its labels.
module Labelling {
  import opened Geometry
  import opened ActionMasks
  import opened HeadTargets
  import opened MaskBuilding
  import opened Purchases

  // ---------------------------------------------------------------- what the labels are

  /** The target of one head: the legal classes and the chosen one, or inactive off the path. */
  ghost function LabelAt(space: ActionSpace, action: Action, head: nat): HeadTarget
    requires |space.masks| == 2 && UnitAllows(MasksOf(space, action), action)
  {
    if Label(action, head).Some? && |HeadMask(space, action, head)| <= Width(head)
    then HeadTarget(true, Padded(HeadMask(space, action, head), Width(head)), Label(action, head).value)
    else Inactive(head)
  }

  ghost function Labels(space: ActionSpace, action: Action): (targets: Targets)
    requires |space.masks| == 2 && UnitAllows(MasksOf(space, action), action)
    ensures targets.Shaped()
  {
    Targets(seq(HEADS, h requires 0 <= h < HEADS => LabelAt(space, action, h)), PrefixOf(action))
  }

  // ---------------------------------------------------------------- validation

  function HeadFault(t: Targets, head: nat): Option<TargetFault>
    requires t.Shaped() && head < HEADS
  {
    var target := t.heads[head];
    if !target.active then (if Any(target.mask) then Some(InactiveMask(head)) else None)
    else if !Any(target.mask) then Some(EmptyMask(head))
    else if target.selected >= Width(head) then Some(LabelOutside(head))
    else if !target.mask[target.selected] then Some(IllegalLabel(head))
    else None
  }

  /** The first faulty head at or after the given one. */
  function FirstFault(t: Targets, head: nat): (fault: Option<TargetFault>)
    requires t.Shaped() && head <= HEADS
    ensures fault.None? <==> forall h :: head <= h < HEADS ==> HeadFault(t, h).None?
    decreases HEADS - head
  {
    if head == HEADS then None
    else if HeadFault(t, head).Some? then HeadFault(t, head)
    else FirstFault(t, head + 1)
  }

  predicate SelectsItemSlot(kind: Kind) { kind in {Use, PutPoint, PutUnit, Swap} }

  /** Heads that have to be active for a kind, given the selected modes. */
  function ExpectedActive(t: Targets, kind: Kind, head: nat): bool
    requires t.Shaped()
  {
    var targeted := kind == Cast || kind == Use;
    if head == KIND then true
    else if head == UNIT then kind != Continue && kind != Learn
    else if head == ABILITY then kind == Cast
    else if head == ITEM then kind == Use || kind == PutPoint || kind == PutUnit || kind == Sell || kind == Swap
    else if head == SWAP then kind == Swap
    else if head == LEARN then kind == Learn
    else if head == SHOP then kind == Buy
    else if head == LOOT then kind == Take
    else if head == TARGET_MODE then targeted
    else if head == PUT_MODE then kind == PutPoint
    else if head == ENTITY then
      kind == FollowUnit || kind == AttackUnit || kind == PutUnit || (targeted && t.heads[TARGET_MODE].selected == 1)
    else
      || kind == MovePoint || kind == AttackMovePoint
      || (targeted && t.heads[TARGET_MODE].selected == 2)
      || (kind == PutPoint && t.heads[PUT_MODE].selected == 1)
  }

  /** The active heads form the path of the kind, and the prefix repeats its choices. */
  predicate PathHolds(t: Targets)
    requires t.Shaped()
  {
    && t.heads[KIND].selected < 16 && t.heads[KIND].active
    && var kind := KINDS[t.heads[KIND].selected];
       && t.prefix.kind == kind
       && (if kind != Continue && kind != Learn then
             && t.heads[UNIT].selected < 2 && t.heads[UNIT].active
             && t.prefix.unit == Some(if t.heads[UNIT].selected == 0 then Hero else Courier)
           else !t.heads[UNIT].active && t.prefix.unit == None)
       && (if kind == Cast then
             t.heads[ABILITY].selected < Width(ABILITY) && t.prefix.slot == Some(AbilityPrefix(t.heads[ABILITY].selected))
           else if SelectsItemSlot(kind) then
             t.heads[ITEM].selected < Width(ITEM) && t.prefix.slot == Some(ItemPrefix(t.heads[ITEM].selected))
           else t.prefix.slot == None)
       && forall h :: UNIT <= h < HEADS ==> t.heads[h].active == ExpectedActive(t, kind, h)
  }

  function Validate(t: Targets): Option<TargetFault>
    requires t.Shaped()
  {
    var fault := FirstFault(t, KIND);
    if fault.Some? then fault else if PathHolds(t) then None else Some(PathMismatch)
  }

  // ---------------------------------------------------------------- reading the action back

  function ReadTarget(t: Targets): Target
    requires t.Shaped()
  {
    if t.heads[TARGET_MODE].selected == 1 then EntityTarget(t.heads[ENTITY].selected)
    else if t.heads[TARGET_MODE].selected == 2 then PointTarget(t.heads[POINT].selected)
    else NoTarget
  }

  /** The action named by the selected classes. */
  function ReadAction(t: Targets): Action
    requires t.Shaped() && t.heads[KIND].selected < 16
  {
    var unit := if t.heads[UNIT].selected == 0 then Hero else Courier;
    var slot := t.heads[ITEM].selected;
    var entity := t.heads[ENTITY].selected;
    var point := t.heads[POINT].selected;
    match KINDS[t.heads[KIND].selected]
    case Continue => ContinueAction
    case Stop => StopAction(unit)
    case MovePoint => MovePointAction(unit, point)
    case FollowUnit => FollowUnitAction(unit, entity)
    case Hold => HoldAction(unit)
    case AttackMovePoint => AttackMovePointAction(unit, point)
    case AttackUnit => AttackUnitAction(unit, entity)
    case Cast => CastAction(unit, t.heads[ABILITY].selected, ReadTarget(t))
    case Use => UseAction(unit, slot, ReadTarget(t))
    case PutPoint => PutPointAction(unit, slot, if t.heads[PUT_MODE].selected == 1 then PutAt(point) else Underfoot)
    case PutUnit => PutUnitAction(unit, slot, entity)
    case Take => TakeAction(unit, t.heads[LOOT].selected)
    case Buy => BuyAction(unit, t.heads[SHOP].selected)
    case Sell => SellAction(unit, slot)
    case Swap => SwapAction(unit, slot, t.heads[SWAP].selected)
    case Learn => LearnAction(t.heads[LEARN].selected)
  }

  function ActiveLabel(t: Targets, head: nat): Option<nat>
    requires t.Shaped() && head < HEADS
  {
    if t.heads[head].active then Some(t.heads[head].selected) else None
  }

  /** The active heads carry exactly the labels of the action. */
  ghost predicate Names(t: Targets, action: Action)
    requires t.Shaped()
  {
    forall h :: 0 <= h < HEADS ==> Label(action, h) == ActiveLabel(t, h)
  }

  lemma NamesOneAction(t: Targets, a: Action, b: Action)
    requires t.Shaped() && Names(t, a) && Names(t, b)
    ensures a == b
  {
    hide Label, ActiveLabel;
    LabelsDetermineAction(a, b);
  }

  /** Targets that pass validation label exactly one action, the one read back. */
  lemma ValidatedNamesOneAction(t: Targets)
    requires t.Shaped() && Validate(t).None?
    ensures PathHolds(t) && PrefixOf(ReadAction(t)) == t.prefix
    ensures forall action :: Names(t, action) <==> action == ReadAction(t)
  {
    SelectionsInRange(t);
    PrefixReadBack(t);
    hide Label, ActiveLabel, PathHolds, ReadAction, FirstFault, HeadFault, Validate, InRange;
    forall h | 0 <= h < HEADS ensures Label(ReadAction(t), h) == ActiveLabel(t, h) {
      LabelReadBack(t, h);
    }
    forall action | Names(t, action) ensures action == ReadAction(t) {
      NamesOneAction(t, action, ReadAction(t));
    }
  }

  lemma PrefixReadBack(t: Targets)
    requires t.Shaped() && PathHolds(t)
    ensures PrefixOf(ReadAction(t)) == t.prefix
  {
  }

  predicate InRange(t: Targets)
    requires t.Shaped()
  {
    forall h :: 0 <= h < HEADS && t.heads[h].active ==> t.heads[h].selected < Width(h)
  }

  lemma SelectionsInRange(t: Targets)
    requires t.Shaped() && Validate(t).None?
    ensures PathHolds(t) && InRange(t)
  {
    forall h | 0 <= h < HEADS && t.heads[h].active ensures t.heads[h].selected < Width(h) {
      assert HeadFault(t, h).None?;
    }
  }

  lemma LabelReadBack(t: Targets, h: nat)
    requires t.Shaped() && PathHolds(t) && InRange(t) && h < HEADS
    ensures Label(ReadAction(t), h) == ActiveLabel(t, h)
  {
    KindsAreDistinct(t.heads[KIND].selected);
    var kind := KINDS[t.heads[KIND].selected];
    if h >= UNIT { assert t.heads[h].active == ExpectedActive(t, kind, h); }
    if kind == Cast || kind == Use {
      TargetReadBack(t, h);
    } else if kind == PutPoint {
      PutReadBack(t, h);
    } else {
      PlainReadBack(t, h);
    }
  }

  lemma TargetReadBack(t: Targets, h: nat)
    requires t.Shaped() && PathHolds(t) && InRange(t) && h < HEADS && KINDS[t.heads[KIND].selected] in {Cast, Use}
    requires h >= UNIT ==> t.heads[h].active == ExpectedActive(t, KINDS[t.heads[KIND].selected], h)
    ensures Label(ReadAction(t), h) == ActiveLabel(t, h)
  {
    KindsAreDistinct(t.heads[KIND].selected);
    assert t.heads[TARGET_MODE].active == ExpectedActive(t, KINDS[t.heads[KIND].selected], TARGET_MODE);
    assert t.heads[TARGET_MODE].selected < 3;
  }

  lemma PutReadBack(t: Targets, h: nat)
    requires t.Shaped() && PathHolds(t) && InRange(t) && h < HEADS && KINDS[t.heads[KIND].selected] == PutPoint
    requires h >= UNIT ==> t.heads[h].active == ExpectedActive(t, PutPoint, h)
    ensures Label(ReadAction(t), h) == ActiveLabel(t, h)
  {
    KindsAreDistinct(t.heads[KIND].selected);
    assert t.heads[PUT_MODE].active == ExpectedActive(t, PutPoint, PUT_MODE);
    assert t.heads[PUT_MODE].selected < 2;
  }

  lemma PlainReadBack(t: Targets, h: nat)
    requires t.Shaped() && PathHolds(t) && h < HEADS && KINDS[t.heads[KIND].selected] !in {Cast, Use, PutPoint}
    requires h >= UNIT ==> t.heads[h].active == ExpectedActive(t, KINDS[t.heads[KIND].selected], h)
    ensures Label(ReadAction(t), h) == ActiveLabel(t, h)
  {
    var kind := KINDS[t.heads[KIND].selected];
    KindsAreDistinct(t.heads[KIND].selected);
    PathUnit(t, kind);
    ReadKind(t);
    hide PathHolds;
    if h > UNIT {
      PlainBranch(t, kind, h);
    }
  }

  lemma ReadKind(t: Targets)
    requires t.Shaped() && t.heads[KIND].selected < 16
    ensures KindOf(ReadAction(t)) == KINDS[t.heads[KIND].selected]
    ensures ReadAction(t).ContinueAction? || ReadAction(t).LearnAction?
      || ReadAction(t).unit == if t.heads[UNIT].selected == 0 then Hero else Courier
  {
  }

  /** Heads after the unit. */
  lemma PlainBranch(t: Targets, kind: Kind, h: nat)
    requires t.Shaped() && t.heads[KIND].selected < 16 && kind == KINDS[t.heads[KIND].selected]
    requires UNIT < h < HEADS && kind !in {Cast, Use, PutPoint} && t.heads[h].active == ExpectedActive(t, kind, h)
    ensures Label(ReadAction(t), h) == ActiveLabel(t, h)
  {
    match kind
    case MovePoint =>
    case FollowUnit =>
    case AttackMovePoint =>
    case AttackUnit =>
    case PutUnit =>
    case Take =>
    case Buy =>
    case Sell =>
    case Swap =>
    case Learn =>
    case _ =>
  }

  /** The unit head is active and in range exactly for the kinds that select a unit. */
  lemma PathUnit(t: Targets, kind: Kind)
    requires t.Shaped() && PathHolds(t) && kind == KINDS[t.heads[KIND].selected]
    ensures t.heads[KIND].active
    ensures kind != Continue && kind != Learn ==> t.heads[UNIT].active && t.heads[UNIT].selected < 2
    ensures kind == Continue || kind == Learn ==> !t.heads[UNIT].active
  {
  }

  // ---------------------------------------------------------------- labelling a sampled action

  /** Heads before `upto` carry their labels; the later ones are still inactive. */
  ghost predicate Filled(space: ActionSpace, action: Action, heads: seq<HeadTarget>, upto: nat)
    requires |space.masks| == 2 && UnitAllows(MasksOf(space, action), action)
  {
    && |heads| == HEADS
    && (forall h :: 0 <= h < upto <= HEADS ==> heads[h] == LabelAt(space, action, h))
    && (forall h :: upto <= h < HEADS ==> heads[h] == Inactive(h))
  }

  /** Heads from `from` up to `upto` are off the path. */
  ghost predicate OffPath(action: Action, from: nat, upto: nat) {
    forall h :: from <= h < upto ==> Label(action, h).None?
  }

  lemma FillHead(space: ActionSpace, action: Action, heads: seq<HeadTarget>, from: nat, at: nat, mask: Mask)
    requires |space.masks| == 2 && UnitAllows(MasksOf(space, action), action)
    requires Filled(space, action, heads, from) && from <= at < HEADS && OffPath(action, from, at)
    requires Label(action, at).Some? && mask == HeadMask(space, action, at) && |mask| <= Width(at)
    ensures Filled(space, action,
                   heads[at := HeadTarget(true, Padded(mask, Width(at)), Label(action, at).value)], at + 1)
  {
    hide Label, HeadMask, UnitAllows;
  }

  lemma FillRest(space: ActionSpace, action: Action, heads: seq<HeadTarget>, from: nat)
    requires |space.masks| == 2 && UnitAllows(MasksOf(space, action), action)
    requires Filled(space, action, heads, from) && from <= HEADS && OffPath(action, from, HEADS)
    ensures heads == Labels(space, action).heads
  {
    hide Label, HeadMask, UnitAllows;
  }

  lemma KindHead(space: ActionSpace, action: Action)
    requires |space.masks| == 2 && |space.kindMask| == 16 && UnitAllows(MasksOf(space, action), action)
    ensures LabelAt(space, action, KIND) == HeadTarget(true, space.kindMask, KindIndex(KindOf(action)))
  {
    hide UnitAllows;
    assert Padded(space.kindMask, 16) == space.kindMask;
  }

  datatype Labelled = Target(targets: Targets) | Fault(fault: TargetFault)

  class ActionHeadTargets {
    var heads: seq<HeadTarget>
    var prefix: Prefix

    ghost predicate FilledTo(space: ActionSpace, action: Action, upto: nat)
      reads this
      requires |space.masks| == 2 && UnitAllows(MasksOf(space, action), action)
    {
      Filled(space, action, heads, upto)
    }

    /** Only the kind head is set; the prefix has no slot yet. */
    constructor Base(space: ActionSpace, action: Action)
      requires WellBuilt(space) && Allows(space, action)
      ensures |space.masks| == 2 && UnitAllows(MasksOf(space, action), action)
      ensures FilledTo(space, action, UNIT)
      ensures prefix == Prefix(KindOf(action), UnitOf(action), None)
    {
      SpaceIsPaired(space);
      AllowsIsConditional(space, action);
      heads := [HeadTarget(true, space.kindMask, KindIndex(KindOf(action)))]
        + seq(HEADS - 1, h requires 0 <= h < HEADS - 1 => Inactive(h + 1));
      prefix := Prefix(KindOf(action), UnitOf(action), None);
      new;
      KindHead(space, action);
      hide WellBuilt, Allows, UnitAllows, HeadMask, Label, LabelAt;
    }

    /** Activates a head with a padded mask and a class; fails when the mask is wider than the head. */
    method Activate(head: nat, mask: Mask, selected: nat, ghost space: ActionSpace, ghost action: Action, ghost from: nat)
      returns (ok: bool)
      requires |space.masks| == 2 && UnitAllows(MasksOf(space, action), action)
      requires from <= head < HEADS && FilledTo(space, action, from) && OffPath(action, from, head)
      requires Label(action, head) == Some(selected) && mask == HeadMask(space, action, head)
      modifies this`heads
      ensures ok <==> |mask| <= Width(head)
      ensures ok ==> FilledTo(space, action, head + 1)
    {
      hide Label, HeadMask, UnitAllows, Filled;
      if |mask| > Width(head) {
        return false;
      }
      FillHead(space, action, heads, from, head, mask);
      FilledIsComplete(space, action, heads, from);
      heads := heads[head := HeadTarget(true, Padded(mask, Width(head)), selected)];
      return true;
    }

    method MapControlled(space: ActionSpace, action: Action)
      requires |space.masks| == 2 && UnitAllows(MasksOf(space, action), action) && FilledTo(space, action, UNIT)
      modifies this`heads
      ensures FilledTo(space, action, ABILITY)
    {
      hide HeadMask, UnitAllows;
      if UnitOf(action).Some? {
        UnitHeadMask(space, action);
        var ok := Activate(UNIT, UnitMask(space, KindOf(action)), UnitIndex(UnitOf(action).value), space, action, UNIT);
      }
    }

    /** Target mode and pointer of a cast or use. */
    method MapTarget(mask: TargetMask, selected: Target, ghost space: ActionSpace, ghost action: Action, ghost from: nat)
      returns (ok: bool)
      requires |space.masks| == 2 && UnitAllows(MasksOf(space, action), action)
      requires from <= TARGET_MODE && FilledTo(space, action, from) && OffPath(action, from, TARGET_MODE)
      requires IsTargeted(space, action, mask, selected)
      requires |mask.entities| <= Width(ENTITY) && |mask.points| <= Width(POINT)
      modifies this`heads
      ensures ok && heads == Labels(space, action).heads
    {
      hide HeadMask, UnitAllows, Filled, Label, Labels;
      TargetedLabels(space, action, mask, selected);
      var modes := [mask.none, Any(mask.entities), Any(mask.points)];
      ok := Activate(TARGET_MODE, modes, ModeOf(selected), space, action, from);
      match selected {
        case NoTarget =>
          FillRest(space, action, heads, PUT_MODE);
        case EntityTarget(i) =>
          ok := Activate(ENTITY, mask.entities, i, space, action, PUT_MODE);
          FillRest(space, action, heads, POINT);
        case PointTarget(i) =>
          ok := Activate(POINT, mask.points, i, space, action, PUT_MODE);
          FillRest(space, action, heads, HEADS);
      }
    }

    /** One head after the unit, and nothing else. */
    method MapOne(head: nat, mask: Mask, selected: nat, ghost space: ActionSpace, ghost action: Action)
      returns (ok: bool)
      requires |space.masks| == 2 && UnitAllows(MasksOf(space, action), action)
      requires ABILITY <= head < HEADS && FilledTo(space, action, ABILITY)
      requires OffPath(action, ABILITY, head) && OffPath(action, head + 1, HEADS)
      requires Label(action, head) == Some(selected) && mask == HeadMask(space, action, head)
      modifies this`heads
      ensures ok <==> |mask| <= Width(head)
      ensures ok ==> heads == Labels(space, action).heads
    {
      hide HeadMask, UnitAllows, Filled, Label, Labels;
      ok := Activate(head, mask, selected, space, action, ABILITY);
      if ok { FillRest(space, action, heads, head + 1); }
    }

    method MapCast(m: ControlledMasks, ghost space: ActionSpace, action: Action) returns (ok: bool)
      requires action.CastAction? && InSpace(space, m, action) && FilledTo(space, action, ABILITY)
      modifies this
      ensures ok && heads == Labels(space, action).heads
      ensures prefix == old(prefix).(slot := Some(AbilityPrefix(action.slot)))
    {
      hide HeadMask, Filled, Labels;
      CastLabels(space, m, action);
      ok := Activate(ABILITY, AbilitySlotMask(m), action.slot, space, action, ABILITY);
      prefix := prefix.(slot := Some(AbilityPrefix(action.slot)));
      ok := MapTarget(m.casts[action.slot], action.target, space, action, ITEM);
    }

    method MapUse(m: ControlledMasks, ghost space: ActionSpace, action: Action) returns (ok: bool)
      requires action.UseAction? && InSpace(space, m, action) && FilledTo(space, action, ABILITY)
      modifies this
      ensures ok && heads == Labels(space, action).heads
      ensures prefix == old(prefix).(slot := Some(ItemPrefix(action.slot)))
    {
      hide HeadMask, Filled, Labels;
      UseLabels(space, m, action);
      ok := Activate(ITEM, ItemSlotMask(m), action.slot, space, action, ABILITY);
      prefix := prefix.(slot := Some(ItemPrefix(action.slot)));
      ok := MapTarget(m.uses[action.slot], action.target, space, action, SWAP);
    }

    method MapPutPoint(m: ControlledMasks, ghost space: ActionSpace, action: Action) returns (ok: bool)
      requires action.PutPointAction? && InSpace(space, m, action) && FilledTo(space, action, ABILITY)
      modifies this
      ensures ok && heads == Labels(space, action).heads
      ensures prefix == old(prefix).(slot := Some(ItemPrefix(action.slot)))
    {
      hide HeadMask, Filled, Labels;
      PutPointLabels(space, m, action);
      ok := Activate(ITEM, PutPointSources(m), action.slot, space, action, ABILITY);
      prefix := prefix.(slot := Some(ItemPrefix(action.slot)));
      var mask := m.putPoints[action.slot];
      ok := Activate(PUT_MODE, [mask.underfoot, Any(mask.points)], if action.place.PutAt? then 1 else 0,
                     space, action, SWAP);
      if action.place.PutAt? {
        ok := Activate(POINT, mask.points, action.place.point, space, action, ENTITY);
        FillRest(space, action, heads, HEADS);
      } else {
        FillRest(space, action, heads, ENTITY);
      }
    }

    method MapPutUnit(m: ControlledMasks, ghost space: ActionSpace, action: Action) returns (ok: bool)
      requires action.PutUnitAction? && InSpace(space, m, action) && FilledTo(space, action, ABILITY)
      modifies this
      ensures ok && heads == Labels(space, action).heads
      ensures prefix == old(prefix).(slot := Some(ItemPrefix(action.slot)))
    {
      hide HeadMask, Filled, Labels;
      PutUnitLabels(space, m, action);
      ok := Activate(ITEM, PutUnitSources(m), action.slot, space, action, ABILITY);
      prefix := prefix.(slot := Some(ItemPrefix(action.slot)));
      ok := Activate(ENTITY, m.putUnits[action.slot], action.entity, space, action, SWAP);
      FillRest(space, action, heads, POINT);
    }

    method MapSwap(m: ControlledMasks, ghost space: ActionSpace, action: Action) returns (ok: bool)
      requires action.SwapAction? && InSpace(space, m, action) && FilledTo(space, action, ABILITY)
      modifies this
      ensures ok && heads == Labels(space, action).heads
      ensures prefix == old(prefix).(slot := Some(ItemPrefix(action.slot)))
    {
      hide HeadMask, Filled, Labels;
      SwapLabels(space, m, action);
      ok := Activate(ITEM, SwapSources(m), action.slot, space, action, ABILITY);
      ok := Activate(SWAP, m.swap[action.slot], action.to, space, action, SWAP);
      prefix := prefix.(slot := Some(ItemPrefix(action.slot)));
      FillRest(space, action, heads, LEARN);
    }

    /** Sets every head of the action's path and its prefix slot. */
    method MapAction(space: ActionSpace, action: Action) returns (ok: bool)
      requires WellBuilt(space) && |space.masks| == 2 && UnitAllows(MasksOf(space, action), action)
      requires FilledTo(space, action, UNIT) && prefix == Prefix(KindOf(action), UnitOf(action), None)
      modifies this
      ensures ok <==> LearnFits(space, action)
      ensures ok ==> heads == Labels(space, action).heads && prefix == PrefixOf(action)
    {
      hide WellBuilt, Filled, Labels, UnitAllows, HeadMask, Label;
      MapControlled(space, action);
      var m := MasksOf(space, action);
      MasksInSpace(space, action);
      match action {
        case ContinueAction => ok := true; BareLabels(space, action, heads);
        case StopAction(_) => ok := true; BareLabels(space, action, heads);
        case HoldAction(_) => ok := true; BareLabels(space, action, heads);
        case MovePointAction(_, point) => PlainLabels(space, m, action); ok := MapOne(POINT, m.movePoints, point, space, action);
        case FollowUnitAction(_, entity) => PlainLabels(space, m, action); ok := MapOne(ENTITY, m.followEntities, entity, space, action);
        case AttackMovePointAction(_, point) => PlainLabels(space, m, action); ok := MapOne(POINT, m.attackMovePoints, point, space, action);
        case AttackUnitAction(_, entity) => PlainLabels(space, m, action); ok := MapOne(ENTITY, m.attackEntities, entity, space, action);
        case CastAction(_, _, _) => ok := MapCast(m, space, action);
        case UseAction(_, _, _) => ok := MapUse(m, space, action);
        case PutPointAction(_, _, _) => ok := MapPutPoint(m, space, action);
        case PutUnitAction(_, _, _) => ok := MapPutUnit(m, space, action);
        case TakeAction(_, loot) => PlainLabels(space, m, action); ok := MapOne(LOOT, m.take, loot, space, action);
        case BuyAction(_, item) => PlainLabels(space, m, action); ok := MapOne(SHOP, m.buy, item, space, action);
        case SellAction(_, slot) => PlainLabels(space, m, action); ok := MapOne(ITEM, m.sell, slot, space, action);
        case SwapAction(_, _, _) => ok := MapSwap(m, space, action);
        case LearnAction(slot) => PlainLabels(space, m, action); ok := MapOne(LEARN, m.learn, slot, space, action);
      }
    }
  }

  lemma FilledIsComplete(space: ActionSpace, action: Action, heads: seq<HeadTarget>, upto: nat)
    requires |space.masks| == 2 && UnitAllows(MasksOf(space, action), action) && Filled(space, action, heads, upto)
    ensures |heads| == HEADS
  {
  }

  lemma UnitHeadMask(space: ActionSpace, action: Action)
    requires |space.masks| == 2 && UnitAllows(MasksOf(space, action), action)
    ensures HeadMask(space, action, UNIT) == UnitMask(space, KindOf(action))
  {
  }

  /** The masks are those the action is judged by, and its slot masks fit their heads. */
  ghost predicate InSpace(space: ActionSpace, m: ControlledMasks, action: Action) {
    && |space.masks| == 2 && m == MasksOf(space, action) && UnitAllows(m, action) && Fitted(space, m)
  }

  lemma MasksInSpace(space: ActionSpace, action: Action)
    requires WellBuilt(space) && UnitAllows(MasksOf(space, action), action)
    ensures InSpace(space, MasksOf(space, action), action)
  {
    hide UnitAllows, Fitted, FamilyAllowed, NothingAllowed, BuildKindMask;
  }

  ghost predicate IsTargeted(space: ActionSpace, action: Action, mask: TargetMask, selected: Target)
    requires |space.masks| == 2 && UnitAllows(MasksOf(space, action), action)
  {
    || (action.CastAction? && selected == action.target && mask == MasksOf(space, action).casts[action.slot])
    || (action.UseAction? && selected == action.target && mask == MasksOf(space, action).uses[action.slot])
  }

  lemma TargetedLabels(space: ActionSpace, action: Action, mask: TargetMask, selected: Target)
    requires |space.masks| == 2 && UnitAllows(MasksOf(space, action), action)
    requires IsTargeted(space, action, mask, selected)
    ensures Label(action, TARGET_MODE) == Some(ModeOf(selected)) && Label(action, PUT_MODE) == None
    ensures HeadMask(space, action, TARGET_MODE) == [mask.none, Any(mask.entities), Any(mask.points)]
    ensures HeadMask(space, action, ENTITY) == mask.entities && HeadMask(space, action, POINT) == mask.points
    ensures Label(action, ENTITY) == (if selected.EntityTarget? then Some(selected.entity) else None)
    ensures Label(action, POINT) == (if selected.PointTarget? then Some(selected.point) else None)
  {
    hide UnitAllows;
  }

  lemma CastLabels(space: ActionSpace, m: ControlledMasks, action: Action)
    requires action.CastAction? && InSpace(space, m, action)
    ensures HeadMask(space, action, ABILITY) == AbilitySlotMask(m) && |AbilitySlotMask(m)| <= Width(ABILITY)
    ensures Label(action, ABILITY) == Some(action.slot) && OffPath(action, ITEM, TARGET_MODE)
    ensures |m.casts[action.slot].entities| <= Width(ENTITY) && |m.casts[action.slot].points| <= Width(POINT)
  {
    assert TargetsFit(space, m.casts[action.slot]);
  }

  lemma UseLabels(space: ActionSpace, m: ControlledMasks, action: Action)
    requires action.UseAction? && InSpace(space, m, action)
    ensures HeadMask(space, action, ITEM) == ItemSlotMask(m) && |ItemSlotMask(m)| <= Width(ITEM)
    ensures Label(action, ITEM) == Some(action.slot)
    ensures OffPath(action, ABILITY, ITEM) && OffPath(action, SWAP, TARGET_MODE)
    ensures |m.uses[action.slot].entities| <= Width(ENTITY) && |m.uses[action.slot].points| <= Width(POINT)
  {
    assert TargetsFit(space, m.uses[action.slot]);
  }

  lemma PutPointLabels(space: ActionSpace, m: ControlledMasks, action: Action)
    requires action.PutPointAction? && InSpace(space, m, action)
    ensures HeadMask(space, action, ITEM) == PutPointSources(m) && Label(action, ITEM) == Some(action.slot)
    ensures OffPath(action, ABILITY, ITEM) && OffPath(action, SWAP, PUT_MODE) && OffPath(action, ENTITY, POINT)
    ensures HeadMask(space, action, PUT_MODE)
         == [m.putPoints[action.slot].underfoot, Any(m.putPoints[action.slot].points)]
    ensures HeadMask(space, action, POINT) == m.putPoints[action.slot].points
    ensures |m.putPoints[action.slot].points| <= Width(POINT)
    ensures action.place.Underfoot? ==> OffPath(action, ENTITY, HEADS)
  {
    assert |m.putPoints[action.slot].points| == |space.points|;
  }

  lemma PutUnitLabels(space: ActionSpace, m: ControlledMasks, action: Action)
    requires action.PutUnitAction? && InSpace(space, m, action)
    ensures HeadMask(space, action, ITEM) == PutUnitSources(m) && Label(action, ITEM) == Some(action.slot)
    ensures OffPath(action, ABILITY, ITEM) && OffPath(action, SWAP, ENTITY) && OffPath(action, POINT, HEADS)
    ensures HeadMask(space, action, ENTITY) == m.putUnits[action.slot] && |m.putUnits[action.slot]| <= Width(ENTITY)
  {
    assert |m.putUnits[action.slot]| == |space.entities|;
  }

  lemma SwapLabels(space: ActionSpace, m: ControlledMasks, action: Action)
    requires action.SwapAction? && InSpace(space, m, action)
    ensures HeadMask(space, action, ITEM) == SwapSources(m) && Label(action, ITEM) == Some(action.slot)
    ensures OffPath(action, ABILITY, ITEM) && OffPath(action, LEARN, HEADS)
    ensures HeadMask(space, action, SWAP) == m.swap[action.slot] && |m.swap[action.slot]| == Width(SWAP)
  {
    assert |m.swap[action.slot]| == WIRE_ITEM_SLOTS;
  }

  lemma BareLabels(space: ActionSpace, action: Action, heads: seq<HeadTarget>)
    requires |space.masks| == 2 && UnitAllows(MasksOf(space, action), action)
    requires Filled(space, action, heads, ABILITY)
    requires action.ContinueAction? || action.StopAction? || action.HoldAction?
    ensures heads == Labels(space, action).heads && PrefixOf(action) == Prefix(KindOf(action), UnitOf(action), None)
  {
    hide Filled, Labels, UnitAllows;
    FillRest(space, action, heads, ABILITY);
  }

  /** Kinds with a single head after the unit. */
  function SoleHead(kind: Kind): nat {
    match kind
    case MovePoint => POINT
    case AttackMovePoint => POINT
    case FollowUnit => ENTITY
    case AttackUnit => ENTITY
    case Take => LOOT
    case Buy => SHOP
    case Sell => ITEM
    case _ => LEARN
  }

  lemma PlainLabels(space: ActionSpace, m: ControlledMasks, action: Action)
    requires InSpace(space, m, action)
    requires KindOf(action) in {MovePoint, AttackMovePoint, FollowUnit, AttackUnit, Take, Buy, Sell, Learn}
    ensures var head := SoleHead(KindOf(action));
      && OffPath(action, ABILITY, head) && OffPath(action, head + 1, HEADS) && Label(action, head).Some?
      && (action.MovePointAction? ==> Label(action, head) == Some(action.point) && HeadMask(space, action, head) == m.movePoints)
      && (action.AttackMovePointAction? ==>
            Label(action, head) == Some(action.point) && HeadMask(space, action, head) == m.attackMovePoints)
      && (action.FollowUnitAction? ==>
            Label(action, head) == Some(action.entity) && HeadMask(space, action, head) == m.followEntities)
      && (action.AttackUnitAction? ==>
            Label(action, head) == Some(action.entity) && HeadMask(space, action, head) == m.attackEntities)
      && (action.TakeAction? ==> Label(action, head) == Some(action.loot) && HeadMask(space, action, head) == m.take)
      && (action.BuyAction? ==> Label(action, head) == Some(action.item) && HeadMask(space, action, head) == m.buy)
      && (action.SellAction? ==> Label(action, head) == Some(action.slot) && HeadMask(space, action, head) == m.sell)
      && (action.LearnAction? ==>
            Label(action, head) == Some(action.slot) && HeadMask(space, action, head) == m.learn == space.masks[0].learn)
      && (|HeadMask(space, action, head)| <= Width(head) <==> LearnFits(space, action))
    ensures PrefixOf(action) == Prefix(KindOf(action), UnitOf(action), None)
  {
  }

  // ---------------------------------------------------------------- labels of legal actions

  /** The labels of a legal action are valid and name it. */
  lemma LabelsAreValid(space: ActionSpace, action: Action)
    requires WellBuilt(space) && |space.masks| == 2 && |space.kindMask| == 16
    requires Allows(space, action) && LearnFits(space, action)
    ensures Validate(Labels(space, action)).None?
    ensures Names(Labels(space, action), action) && ReadAction(Labels(space, action)) == action
  {
    hide WellBuilt, Allows, UnitAllows, Label, HeadMask, Validate, HeadFault, FirstFault, PathHolds, ReadAction, Names;
    AllowsIsConditional(space, action);
    var t := Labels(space, action);
    forall h | 0 <= h < HEADS ensures HeadFault(t, h).None? && Label(action, h) == ActiveLabel(t, h) {
      LabelIsFaultless(space, action, h);
    }
    FaultlessIsNamed(t, action);
    NamedHolds(t, action);
    ValidWhenHeld(t);
    ValidatedNamesOneAction(t);
  }

  lemma LabelIsFaultless(space: ActionSpace, action: Action, h: nat)
    requires WellBuilt(space) && |space.masks| == 2 && |space.kindMask| == 16
    requires Allows(space, action) && LearnFits(space, action) && h < HEADS
    ensures HeadFault(Labels(space, action), h).None? && Label(action, h) == ActiveLabel(Labels(space, action), h)
  {
    hide WellBuilt, Allows, UnitAllows, Label, HeadMask;
    if Label(action, h).Some? {
      AllowsIsConditional(space, action);
      MasksFit(space, action, h);
      OwnLabelIsLegal(space, action, h);
      PaddedKeeps(HeadMask(space, action, h), Width(h), Label(action, h).value);
    }
  }

  lemma PaddedKeeps(mask: Mask, width: nat, i: nat)
    requires |mask| <= width && At(mask, i)
    ensures i < width && Padded(mask, width)[i] && Any(Padded(mask, width))
  {
    assert At(Padded(mask, width), i);
  }

  lemma FaultlessIsNamed(t: Targets, action: Action)
    requires t.Shaped() && forall h :: 0 <= h < HEADS ==> HeadFault(t, h).None? && Label(action, h) == ActiveLabel(t, h)
    ensures Names(t, action) && FirstFault(t, KIND).None? && InRange(t)
  {
    hide Label;
  }

  /** Targets named after an action, with its prefix, form its path. */
  lemma NamedHolds(t: Targets, action: Action)
    requires t.Shaped() && Names(t, action) && InRange(t) && t.prefix == PrefixOf(action)
    ensures PathHolds(t)
  {
    assert ActiveLabel(t, KIND) == Label(action, KIND);
    assert ActiveLabel(t, UNIT) == Label(action, UNIT);
    assert ActiveLabel(t, ABILITY) == Label(action, ABILITY);
    assert ActiveLabel(t, ITEM) == Label(action, ITEM);
    KindIsRead(t, action);
    hide InRange;
    forall h | UNIT <= h < HEADS ensures t.heads[h].active == ExpectedActive(t, KindOf(action), h) {
      assert ActiveLabel(t, h) == Label(action, h);
      assert ActiveLabel(t, TARGET_MODE) == Label(action, TARGET_MODE);
      assert ActiveLabel(t, PUT_MODE) == Label(action, PUT_MODE);
      ActiveAsExpected(t, action, h);
    }
  }

  lemma KindIsRead(t: Targets, action: Action)
    requires t.Shaped() && ActiveLabel(t, KIND) == Label(action, KIND)
    ensures t.heads[KIND].active && t.heads[KIND].selected < 16 && KINDS[t.heads[KIND].selected] == KindOf(action)
  {
  }

  lemma ActiveAsExpected(t: Targets, action: Action, h: nat)
    requires t.Shaped() && UNIT <= h < HEADS && ActiveLabel(t, h) == Label(action, h)
    requires ActiveLabel(t, TARGET_MODE) == Label(action, TARGET_MODE)
    requires ActiveLabel(t, PUT_MODE) == Label(action, PUT_MODE)
    ensures t.heads[h].active == ExpectedActive(t, KindOf(action), h)
  {
  }

  lemma ValidWhenHeld(t: Targets)
    requires t.Shaped() && FirstFault(t, KIND).None? && PathHolds(t)
    ensures Validate(t).None?
  {
  }

  /** Labels an action sampled from the space; the only legal action refused is a learn under a mask wider than its head. */
  method FromSampledAction(space: ActionSpace, action: Action) returns (labelled: Labelled)
    requires WellBuilt(space) && |space.masks| == 2 && |space.kindMask| == 16
    ensures !Allows(space, action) ==> labelled == Fault(ActionNotAllowed)
    ensures Allows(space, action) && !LearnFits(space, action) ==> labelled == Fault(MaskOversize)
    ensures Allows(space, action) && LearnFits(space, action) ==>
      && UnitAllows(MasksOf(space, action), action)
      && labelled == Target(Labels(space, action))
  {
    hide WellBuilt, Allows, UnitAllows, Label, HeadMask, Validate, Labels, Decode, Filled;
    DecodesExactlyLegal(space, action);
    CandidatesArePaired(space);
    if !Allows(space, action) || Decode(space, action).Refused? {
      return Fault(ActionNotAllowed);
    }
    var target := new ActionHeadTargets.Base(space, action);
    var ok := target.MapAction(space, action);
    if !ok {
      return Fault(MaskOversize);
    }
    LabelsAreValid(space, action);
    var targets := Targets(target.heads, target.prefix);
    LabelsHavePrefix(space, action);
    match Validate(targets) {
      case Some(fault) => return Fault(fault);
      case None => return Target(targets);
    }
  }

  lemma CandidatesArePaired(space: ActionSpace)
    requires WellBuilt(space)
    ensures |space.controlled| == 2 && |space.needs| == |space.shop|
  {
  }

  lemma LabelsHavePrefix(space: ActionSpace, action: Action)
    requires |space.masks| == 2 && UnitAllows(MasksOf(space, action), action)
    ensures Labels(space, action) == Targets(Labels(space, action).heads, PrefixOf(action))
  {
  }

  // ---------------------------------------------------------------- a learn mask wider than its head

  /** In a space built from a snapshot, levelling up has labels exactly when the hero has at most six abilities. */
  lemma LearnFitsExactly(scene: Scene, hero: Option<Body>, courier: Option<Body>, needs: seq<BuyRequirement>, buy: Mask,
                         gold: int, slot: nat)
    requires Bounded(scene, needs, buy)
    ensures var space := BuildSpace(scene, hero, courier, needs, buy, gold);
      && WellBuilt(space)
      && (Allows(space, LearnAction(slot)) <==>
          hero.Some? && slot < MAX_ABILITY_SLOTS && slot < |hero.value.abilities| && hero.value.abilities[slot].canLevel)
      && (Allows(space, LearnAction(slot)) ==>
            (LearnFits(space, LearnAction(slot)) <==> |hero.value.abilities| <= LEARN_WIDTH))
  {
    hide WellBuilt, FamilyAllowed, BuildKindMask, CastMask, UseMask, SwapRow, PutPointsAt, PutUnitMask, HeldAt;
    SpaceIsWellBuilt(scene, hero, courier, needs, buy, gold);
    AllowsIsConditional(BuildSpace(scene, hero, courier, needs, buy, gold), LearnAction(slot));
  }

  /** A living hero with seven abilities that can be levelled, alone on the map. */
  function SevenAbilities(reach: Reach): ActionSpace {
    var ability := Ability(None, AimOwn, 0, false, true);
    var hero := Body(0, Vec2(0, 0), false, false, 0, 0,
                     [ability, ability, ability, ability, ability, ability, ability], [], false);
    BuildSpace(Scene([], [], [], [], [], [], reach), Some(hero), None, [], [], 0)
  }

  /** Levelling its first ability is legal and decodes, and still has no labels. */
  lemma SeventhAbilityHasNoLabels(reach: Reach)
    ensures var space, action := SevenAbilities(reach), LearnAction(0);
      WellBuilt(space) && Allows(space, action) && !LearnFits(space, action)
  {
    hide WellBuilt, Allows, BuildSpace, LearnFits;
    var ability := Ability(None, AimOwn, 0, false, true);
    var hero := Body(0, Vec2(0, 0), false, false, 0, 0,
                     [ability, ability, ability, ability, ability, ability, ability], [], false);
    LearnFitsExactly(Scene([], [], [], [], [], [], reach), Some(hero), None, [], [], 0, 0);
  }
}
