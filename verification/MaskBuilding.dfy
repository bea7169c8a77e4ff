// How the conditional masks are built from one snapshot, and what they rule out.
module MaskBuilding {
  import opened Geometry
  import opened ActionMasks
  import opened Recipes
  import opened Purchases
  import Buying

  const COURIER_BAG_SLOTS: nat := 6
  const STASH_SLOT_START: nat := HERO_BAG_SLOTS
  const TANGO_ITEM: ItemId := 7

  // ---------------------------------------------------------------- what the snapshot says

  /** `razeOnly` candidates are headings of razes; `landing` ones are teleport landings beside a building. */
  datatype PointFacts = PointFacts(position: Vec2, walkable: bool, standingTree: bool, alliedBuilding: bool,
                                   razeOnly: bool, landing: bool)

  /** `carrier` marks a hero or courier with a free bag slot. */
  datatype EntityFacts = EntityFacts(id: EntityId, position: Vec2, friendly: bool, hostile: bool, alive: bool,
                                     structure: bool, carrier: bool)

  datatype Aim = AimOwn | AimUnit | AimPoint | AimTree | AimBuilding

  /** A raze has a reach; `ready` stands for the checks that ignore the target. */
  datatype Ability = Ability(raze: Option<int>, aim: Aim, range: int, ready: bool, canLevel: bool)

  datatype Item = Item(held: Buying.HeldItem, aim: Option<Aim>, range: int, ready: bool)

  /** A living controlled unit. */
  datatype Body = Body(id: EntityId, position: Vec2, stunned: bool, underfoot: bool, mana: int, maxMana: int,
                       abilities: seq<Ability>, items: seq<Option<Item>>, nearFountain: bool)

  /** Distance tests of the simulator's geometry. */
  datatype Reach = Reach(within: (Vec2, Vec2, int) -> bool, razes: (Vec2, Vec2, int) -> bool)

  datatype Scene = Scene(points: seq<PointFacts>, entities: seq<EntityFacts>, loot: seq<EntityId>,
                         shop: seq<ShopCandidate>, stash: seq<Option<Item>>, buildings: seq<Vec2>, reach: Reach)

  // ---------------------------------------------------------------- the masks of one unit

  function PointMask(scene: Scene, test: PointFacts -> bool): (mask: Mask)
    ensures |mask| == |scene.points|
    ensures forall i :: 0 <= i < |mask| ==> (mask[i] <==> test(scene.points[i]))
  {
    seq(|scene.points|, i requires 0 <= i < |scene.points| => test(scene.points[i]))
  }

  function EntityMask(scene: Scene, test: EntityFacts -> bool): (mask: Mask)
    ensures |mask| == |scene.entities|
    ensures forall i :: 0 <= i < |mask| ==> (mask[i] <==> test(scene.entities[i]))
  {
    seq(|scene.entities|, i requires 0 <= i < |scene.entities| => test(scene.entities[i]))
  }

  function NoTargets(scene: Scene): TargetMask {
    TargetMask(false, Falses(|scene.entities|), Falses(|scene.points|))
  }

  /** A ready raze fires ahead, at any point that gives a heading, or at a live hostile unit it can cover. */
  function RazeMask(scene: Scene, body: Body, reach: int, ready: bool): TargetMask {
    if !ready then NoTargets(scene)
    else TargetMask(true,
                    EntityMask(scene, (e: EntityFacts) => e.hostile && e.alive && !e.structure
                                                          && scene.reach.razes(body.position, e.position, reach)),
                    PointMask(scene, (p: PointFacts) => p.position != body.position))
  }

  function AimedMask(scene: Scene, body: Body, aim: Aim, range: int, ready: bool, activeItem: bool): TargetMask {
    var none := NoTargets(scene);
    if !ready then none
    else match aim
      case AimOwn => none.(none := true)
      case AimUnit =>
        none.(entities := EntityMask(scene, (e: EntityFacts) =>
          (!activeItem || e.friendly) && scene.reach.within(body.position, e.position, range)))
      case AimPoint =>
        none.(points := PointMask(scene, (p: PointFacts) =>
          !p.razeOnly && (!activeItem || p.walkable) && scene.reach.within(body.position, p.position, range)))
      case AimTree =>
        none.(points := PointMask(scene, (p: PointFacts) =>
          p.standingTree && scene.reach.within(body.position, p.position, range)))
      case AimBuilding =>
        none.(points := PointMask(scene, (p: PointFacts) =>
          p.alliedBuilding && p.walkable
          && exists b :: b in scene.buildings && scene.reach.within(b, p.position, range)))
  }

  function CastMask(scene: Scene, body: Body, ability: Ability): TargetMask {
    match ability.raze
    case Some(reach) => RazeMask(scene, body, reach, ability.ready)
    case None => AimedMask(scene, body, ability.aim, ability.range, ability.ready, false)
  }

  function ItemAt(items: seq<Option<Item>>, slot: nat): Option<Item> {
    if slot < |items| then items[slot] else None
  }

  /** An active slot: a mango needs a mana deficit, a tango any standing tree, the rest their aim. */
  function UseMask(scene: Scene, body: Body, unit: Unit, slot: nat): TargetMask {
    match ItemAt(body.items, slot)
    case None => NoTargets(scene)
    case Some(item) =>
      if item.held.id == Buying.MANGO_ITEM then
        NoTargets(scene).(none := && item.ready && unit == Hero && item.aim == Some(AimOwn)
                                  && item.held.charges.Some? && 1 <= item.held.charges.value <= Buying.MANGO_STACK_MAX
                                  && 0 <= body.mana < body.maxMana)
      else if item.held.id == TANGO_ITEM && item.aim == Some(AimTree) then
        NoTargets(scene).(points := PointMask(scene, (p: PointFacts) => item.ready && p.standingTree))
      else match item.aim
        case None => NoTargets(scene)
        case Some(aim) => AimedMask(scene, body, aim, item.range, item.ready, true)
  }

  function BagLimit(unit: Unit): nat { if unit == Hero then HERO_BAG_SLOTS else COURIER_BAG_SLOTS }

  predicate IsStash(slot: nat) { STASH_SLOT_START <= slot < WIRE_ITEM_SLOTS }

  function HeldAt(scene: Scene, body: Body, unit: Unit, slot: nat): Option<Item> {
    if slot < BagLimit(unit) then ItemAt(body.items, slot)
    else if IsStash(slot) then ItemAt(scene.stash, slot - STASH_SLOT_START)
    else None
  }

  predicate SlotExists(scene: Scene, body: Body, unit: Unit, slot: nat) {
    if slot < BagLimit(unit) then slot < |body.items|
    else IsStash(slot) && slot - STASH_SLOT_START < |scene.stash|
  }

  predicate CanSwap(scene: Scene, body: Body, unit: Unit, slot: nat, to: nat) {
    && slot != to && HeldAt(scene, body, unit, slot).Some? && SlotExists(scene, body, unit, to)
    && (IsStash(slot) || IsStash(to) ==> body.nearFountain)
  }

  function PutUnitMask(scene: Scene, body: Body, slot: nat): (mask: Mask)
    ensures |mask| == |scene.entities|
  {
    EntityMask(scene, (e: EntityFacts) =>
      ItemAt(body.items, slot).Some? && e.id != body.id && e.friendly && e.carrier)
  }

  /** A held item may be put down where the unit stands; no point candidate is ever allowed. */
  function PutPointsAt(scene: Scene, body: Body, slot: nat): (mask: PutPointMask)
    ensures |mask.points| == |scene.points| && forall i: nat :: !At(mask.points, i)
  {
    PutPointMask(ItemAt(body.items, slot).Some? && body.underfoot, Falses(|scene.points|))
  }

  function LeastOf(a: nat, b: nat): nat { if a < b then a else b }

  function BuildMasks(scene: Scene, unit: Unit, body: Body, buy: Mask): ControlledMasks {
    var bag := BagLimit(unit);
    ControlledMasks(
      true,
      PointMask(scene, (p: PointFacts) => !body.stunned && p.walkable && !p.razeOnly),
      EntityMask(scene, (e: EntityFacts) => !body.stunned && e.id != body.id),
      !body.stunned,
      PointMask(scene, (p: PointFacts) => !body.stunned && p.walkable && !p.razeOnly && !p.landing),
      EntityMask(scene, (e: EntityFacts) => !body.stunned && e.id != body.id),
      seq(LeastOf(|body.abilities|, MAX_ABILITY_SLOTS), s requires 0 <= s < |body.abilities| =>
        CastMask(scene, body, body.abilities[s])),
      seq(ACTIVE_ITEM_SLOTS, s requires 0 <= s => UseMask(scene, body, unit, s)),
      seq(bag, s requires 0 <= s => PutPointsAt(scene, body, s)),
      seq(bag, s requires 0 <= s => PutUnitMask(scene, body, s)),
      seq(|scene.loot|, i => exists s :: 0 <= s < |body.items| && body.items[s].None?),
      buy,
      seq(WIRE_ITEM_SLOTS, s requires 0 <= s =>
        var held := HeldAt(scene, body, unit, s); held.Some? && held.value.held.forSale),
      seq(WIRE_ITEM_SLOTS, s requires 0 <= s => SwapRow(scene, body, unit, s)),
      if unit == Hero
      then seq(LeastOf(|body.abilities|, MAX_ABILITY_SLOTS), s requires 0 <= s < |body.abilities| => body.abilities[s].canLevel)
      else [])
  }

  function SwapRow(scene: Scene, body: Body, unit: Unit, slot: nat): (row: Mask)
    ensures |row| == WIRE_ITEM_SLOTS
  {
    seq(WIRE_ITEM_SLOTS, to requires 0 <= to => CanSwap(scene, body, unit, slot, to))
  }

  /** Masks of a unit that is absent or dead. */
  function EmptyMasks(scene: Scene): ControlledMasks {
    ControlledMasks(false, Falses(|scene.points|), Falses(|scene.entities|), false, Falses(|scene.points|),
                    Falses(|scene.entities|), [], [], [], [], Falses(|scene.loot|), Falses(|scene.shop|),
                    Falses(WIRE_ITEM_SLOTS), seq(WIRE_ITEM_SLOTS, s => Falses(WIRE_ITEM_SLOTS)), [])
  }

  function UnitMasks(scene: Scene, unit: Unit, body: Option<Body>, buy: Mask): ControlledMasks {
    match body
    case None => EmptyMasks(scene)
    case Some(b) => BuildMasks(scene, unit, b, if unit == Hero then buy else Falses(|scene.shop|))
  }

  function BuildSpace(scene: Scene, hero: Option<Body>, courier: Option<Body>, needs: seq<BuyRequirement>,
                      buy: Mask, gold: int): ActionSpace
  {
    var masks := [UnitMasks(scene, Hero, hero, buy), UnitMasks(scene, Courier, courier, buy)];
    ActionSpace([IdOf(hero), IdOf(courier)],
                seq(|scene.entities|, i requires 0 <= i < |scene.entities| => scene.entities[i].id),
                seq(|scene.points|, i requires 0 <= i < |scene.points| => scene.points[i].position),
                scene.loot, scene.shop, needs, gold, masks, BuildKindMask(masks))
  }

  function IdOf(body: Option<Body>): Option<EntityId> {
    match body case None => None case Some(b) => Some(b.id)
  }

  // ---------------------------------------------------------------- a built space is well built

  /** The caps candidate generation keeps, and what filling the buy mask guarantees. */
  predicate Bounded(scene: Scene, needs: seq<BuyRequirement>, buy: Mask) {
    && |scene.points| <= MAX_POINT_CANDIDATES && |scene.entities| <= UNIT_TOKENS && |scene.loot| <= MAX_LOOT
    && |buy| == |needs| == |scene.shop| <= MAX_SHOP_ITEMS
    && forall i :: 0 <= i < |buy| && buy[i] ==> needs[i].firstMissing.Some?
  }

  predicate TargetsSized(scene: Scene, mask: TargetMask) {
    |mask.entities| == |scene.entities| && |mask.points| == |scene.points|
  }

  lemma AimedIsSized(scene: Scene, body: Body, aim: Aim, range: int, ready: bool, activeItem: bool)
    ensures TargetsSized(scene, AimedMask(scene, body, aim, range, ready, activeItem))
  {
  }

  lemma CastIsSized(scene: Scene, body: Body, ability: Ability)
    ensures TargetsSized(scene, CastMask(scene, body, ability))
  {
    hide AimedMask;
    AimedIsSized(scene, body, ability.aim, ability.range, ability.ready, false);
  }

  lemma UseIsSized(scene: Scene, body: Body, unit: Unit, slot: nat)
    ensures TargetsSized(scene, UseMask(scene, body, unit, slot))
  {
    hide AimedMask;
    var item := ItemAt(body.items, slot);
    if item.Some? && item.value.aim.Some? {
      AimedIsSized(scene, body, item.value.aim.value, item.value.range, item.value.ready, true);
    }
  }

  lemma BuiltMasksFit(scene: Scene, unit: Unit, body: Body, needs: seq<BuyRequirement>, buy: Mask, space: ActionSpace)
    requires Bounded(scene, needs, buy)
    requires |space.points| == |scene.points| && |space.entities| == |scene.entities|
    requires space.loot == scene.loot && space.shop == scene.shop
    ensures Fitted(space, BuildMasks(scene, unit, body, buy))
  {
    hide CastMask, UseMask, CanSwap, HeldAt, BagLimit;
    var m := BuildMasks(scene, unit, body, buy);
    assert BagLimit(unit) <= HERO_BAG_SLOTS by { BagFits(unit); }
    assert forall s :: 0 <= s < |m.swap| ==> m.swap[s] == SwapRow(scene, body, unit, s);
    assert forall s :: 0 <= s < |m.putUnits| ==> m.putUnits[s] == PutUnitMask(scene, body, s);
    assert forall s :: 0 <= s < |m.putPoints| ==> m.putPoints[s] == PutPointsAt(scene, body, s);
    hide SwapRow, PutUnitMask, PutPointsAt;
    forall s | 0 <= s < |m.casts| ensures TargetsFit(space, m.casts[s]) {
      CastIsSized(scene, body, body.abilities[s]);
    }
    forall s | 0 <= s < |m.uses| ensures TargetsFit(space, m.uses[s]) {
      UseIsSized(scene, body, unit, s);
    }
  }

  lemma BagFits(unit: Unit)
    ensures BagLimit(unit) <= HERO_BAG_SLOTS
  {
  }

  lemma EmptyMasksFit(scene: Scene, needs: seq<BuyRequirement>, buy: Mask, space: ActionSpace)
    requires Bounded(scene, needs, buy)
    requires |space.points| == |scene.points| && |space.entities| == |scene.entities|
    requires space.loot == scene.loot && space.shop == scene.shop
    ensures Fitted(space, EmptyMasks(scene)) && NothingAllowed(EmptyMasks(scene))
  {
    forall kind ensures !FamilyAllowed(EmptyMasks(scene), kind) {
    }
  }

  lemma UnitMasksFit(scene: Scene, unit: Unit, body: Option<Body>, needs: seq<BuyRequirement>, buy: Mask, space: ActionSpace)
    requires Bounded(scene, needs, buy)
    requires |space.points| == |scene.points| && |space.entities| == |scene.entities|
    requires space.loot == scene.loot && space.shop == scene.shop
    ensures var m := UnitMasks(scene, unit, body, buy);
      && Fitted(space, m) && (body.None? ==> NothingAllowed(m)) && (unit == Courier ==> m.learn == [])
      && (forall i: nat :: At(m.buy, i) ==> needs[i].firstMissing.Some?)
  {
    hide Fitted, NothingAllowed, CastMask, UseMask, CanSwap, HeldAt;
    EmptyMasksFit(scene, needs, buy, space);
    if body.Some? {
      BoundedWithout(scene, needs, buy);
      BuiltMasksFit(scene, unit, body.value, needs, if unit == Hero then buy else Falses(|scene.shop|), space);
    }
  }

  lemma BoundedWithout(scene: Scene, needs: seq<BuyRequirement>, buy: Mask)
    requires Bounded(scene, needs, buy)
    ensures Bounded(scene, needs, Falses(|scene.shop|))
  {
    var none := Falses(|scene.shop|);
    assert forall i :: 0 <= i < |none| ==> !none[i];
  }

  /** Building establishes everything the exactness of the masks rests on. */
  lemma SpaceIsWellBuilt(scene: Scene, hero: Option<Body>, courier: Option<Body>, needs: seq<BuyRequirement>,
                         buy: Mask, gold: int)
    requires Bounded(scene, needs, buy)
    ensures WellBuilt(BuildSpace(scene, hero, courier, needs, buy, gold))
  {
    hide Fitted, NothingAllowed, BuildKindMask, UnitMasks;
    var space := BuildSpace(scene, hero, courier, needs, buy, gold);
    UnitMasksFit(scene, Hero, hero, needs, buy, space);
    UnitMasksFit(scene, Courier, courier, needs, buy, space);
  }

  // ---------------------------------------------------------------- what is never legal

  /** Point a legal action aims at. */
  function PointOf(action: Action): Option<nat> {
    match action
    case MovePointAction(_, point) => Some(point)
    case AttackMovePointAction(_, point) => Some(point)
    case PutPointAction(_, _, PutAt(point)) => Some(point)
    case CastAction(_, _, PointTarget(point)) => Some(point)
    case UseAction(_, _, PointTarget(point)) => Some(point)
    case _ => None
  }

  /** Candidates found only for razes are neither trees nor buildings. */
  predicate RazePointsApart(scene: Scene) {
    forall i :: 0 <= i < |scene.points| && scene.points[i].razeOnly ==>
      !scene.points[i].standingTree && !scene.points[i].alliedBuilding
  }

  predicate IsRaze(body: Option<Body>, action: Action) {
    action.CastAction? && body.Some? && action.slot < |body.value.abilities| && body.value.abilities[action.slot].raze.Some?
  }

  function BodyOf(hero: Option<Body>, courier: Option<Body>, unit: Unit): Option<Body> {
    if unit == Hero then hero else courier
  }

  lemma AimedSparesRazePoints(scene: Scene, body: Body, aim: Aim, range: int, ready: bool, activeItem: bool, point: nat)
    requires RazePointsApart(scene) && point < |scene.points| && scene.points[point].razeOnly
    ensures !At(AimedMask(scene, body, aim, range, ready, activeItem).points, point)
  {
  }

  lemma UseSparesRazePoints(scene: Scene, body: Body, unit: Unit, slot: nat, point: nat)
    requires RazePointsApart(scene) && point < |scene.points| && scene.points[point].razeOnly
    ensures !At(UseMask(scene, body, unit, slot).points, point)
  {
    hide AimedMask;
    var item := ItemAt(body.items, slot);
    if item.Some? && item.value.aim.Some? {
      AimedSparesRazePoints(scene, body, item.value.aim.value, item.value.range, item.value.ready, true, point);
    }
  }

  /** Only living units act. */
  lemma ActorLives(scene: Scene, hero: Option<Body>, courier: Option<Body>, needs: seq<BuyRequirement>, buy: Mask,
                   gold: int, action: Action)
    requires Bounded(scene, needs, buy) && UnitOf(action).Some?
    requires Allows(BuildSpace(scene, hero, courier, needs, buy, gold), action)
    ensures BodyOf(hero, courier, action.unit).Some?
  {
    hide UnitAllows, FamilyAllowed, UnitMasks, BuildKindMask;
    var space := BuildSpace(scene, hero, courier, needs, buy, gold);
    SpaceIsWellBuilt(scene, hero, courier, needs, buy, gold);
    if BodyOf(hero, courier, action.unit).None? {
      AbsentUnitDoesNothing(space, UnitIndex(action.unit), KindOf(action));
      ActionShowsFamily(MasksOf(space, action), action);
    }
  }

  lemma BuiltSparesRazePoints(scene: Scene, body: Body, buy: Mask, action: Action, point: nat)
    requires RazePointsApart(scene) && point < |scene.points| && scene.points[point].razeOnly
    requires PointOf(action) == Some(point) && !IsRaze(Some(body), action)
    ensures !UnitAllows(BuildMasks(scene, action.unit, body, buy), action)
  {
    hide CanSwap, HeldAt, FamilyAllowed, AimedMask, RazeMask, UseMask, PutPointsAt;
    var m := BuildMasks(scene, action.unit, body, buy);
    match action
    case UseAction(unit, slot, _) =>
      UseSparesRazePoints(scene, body, unit, slot, point);
      assert slot < |m.uses| ==> m.uses[slot] == UseMask(scene, body, unit, slot);
    case CastAction(_, slot, _) =>
      if slot < |m.casts| {
        var ability := body.abilities[slot];
        AimedSparesRazePoints(scene, body, ability.aim, ability.range, ability.ready, false, point);
        assert m.casts[slot] == CastMask(scene, body, ability);
      }
    case PutPointAction(_, slot, _) =>
      assert slot < |m.putPoints| ==> m.putPoints[slot] == PutPointsAt(scene, body, slot);
    case _ =>
  }

  /** Raze-only points are the targets of razes only. */
  lemma RazePointsAreRazeTargetsOnly(scene: Scene, hero: Option<Body>, courier: Option<Body>,
                                     needs: seq<BuyRequirement>, buy: Mask, gold: int, action: Action)
    requires Bounded(scene, needs, buy) && RazePointsApart(scene)
    requires Allows(BuildSpace(scene, hero, courier, needs, buy, gold), action)
    requires PointOf(action).Some?
    ensures PointOf(action).value < |scene.points|
    ensures scene.points[PointOf(action).value].razeOnly ==> IsRaze(BodyOf(hero, courier, action.unit), action)
  {
    hide UnitAllows, FamilyAllowed, BuildKindMask, BuildMasks, IsRaze, RazePointsApart, WellBuilt;
    var space := BuildSpace(scene, hero, courier, needs, buy, gold);
    SpaceIsWellBuilt(scene, hero, courier, needs, buy, gold);
    AllowsIsConditional(space, action);
    AllowedIndicesExist(space, action);
    ActorLives(scene, hero, courier, needs, buy, gold, action);
    var body := BodyOf(hero, courier, action.unit).value;
    var point := PointOf(action).value;
    if scene.points[point].razeOnly && !IsRaze(Some(body), action) {
      BuiltSparesRazePoints(scene, body, if action.unit == Hero then buy else Falses(|scene.shop|), action, point);
    }
  }

  /** Items are put down underfoot, never at a distance. */
  lemma PutsAreUnderfoot(scene: Scene, hero: Option<Body>, courier: Option<Body>,
                         needs: seq<BuyRequirement>, buy: Mask, gold: int, action: Action)
    requires Bounded(scene, needs, buy) && action.PutPointAction?
    requires Allows(BuildSpace(scene, hero, courier, needs, buy, gold), action)
    ensures action.place == Underfoot
  {
    hide CanSwap, HeldAt, FamilyAllowed, BuildKindMask, CastMask, UseMask, PutPointsAt;
    ActorLives(scene, hero, courier, needs, buy, gold, action);
    var body := BodyOf(hero, courier, action.unit).value;
    var m := UnitMasks(scene, action.unit, Some(body), buy);
    assert m.putPoints[action.slot] == PutPointsAt(scene, body, action.slot);
  }

  /** A stash slot takes part in a swap only beside the own fountain. */
  lemma StashNeedsFountain(scene: Scene, hero: Option<Body>, courier: Option<Body>,
                           needs: seq<BuyRequirement>, buy: Mask, gold: int, action: Action)
    requires Bounded(scene, needs, buy) && action.SwapAction?
    requires Allows(BuildSpace(scene, hero, courier, needs, buy, gold), action)
    ensures var body := BodyOf(hero, courier, action.unit);
      && body.Some? && action.slot != action.to
      && HeldAt(scene, body.value, action.unit, action.slot).Some?
      && (IsStash(action.slot) || IsStash(action.to) ==> body.value.nearFountain)
  {
    hide HeldAt, FamilyAllowed, BuildKindMask, AimedMask, RazeMask, UseMask, CastMask;
  }

  // ---------------------------------------------------------------- exactly what is legal

  /** Targets an aim allows; `activeItem` tightens units to friendly and points to walkable ones. */
  ghost predicate AimReaches(scene: Scene, body: Body, aim: Aim, range: int, activeItem: bool, target: Target) {
    match target
    case NoTarget => aim == AimOwn
    case EntityTarget(e) =>
      && aim == AimUnit && e < |scene.entities| && scene.reach.within(body.position, scene.entities[e].position, range)
      && (activeItem ==> scene.entities[e].friendly)
    case PointTarget(p) =>
      && p < |scene.points|
      && var point := scene.points[p];
         match aim
         case AimPoint =>
           !point.razeOnly && scene.reach.within(body.position, point.position, range) && (activeItem ==> point.walkable)
         case AimTree => point.standingTree && scene.reach.within(body.position, point.position, range)
         case AimBuilding =>
           && point.alliedBuilding && point.walkable
           && exists b :: b in scene.buildings && scene.reach.within(b, point.position, range)
         case _ => false
  }

  ghost predicate MayCast(scene: Scene, body: Body, slot: nat, target: Target) {
    && slot < 8 && slot < |body.abilities| && body.abilities[slot].ready
    && match body.abilities[slot].raze
       case None => AimReaches(scene, body, body.abilities[slot].aim, body.abilities[slot].range, false, target)
       case Some(reach) =>
         match target
         case NoTarget => true
         case EntityTarget(e) =>
           && e < |scene.entities| && scene.entities[e].hostile && scene.entities[e].alive && !scene.entities[e].structure
           && scene.reach.razes(body.position, scene.entities[e].position, reach)
         case PointTarget(p) => p < |scene.points| && scene.points[p].position != body.position
  }

  ghost predicate MayUse(scene: Scene, unit: Unit, body: Body, slot: nat, target: Target) {
    && slot < 6 && slot < |body.items| && body.items[slot].Some?
    && var item := body.items[slot].value;
       && item.ready
       && if item.held.id == Buying.MANGO_ITEM then
            && target == NoTarget && unit == Hero && item.aim == Some(AimOwn) && body.mana >= 0 && body.mana < body.maxMana
            && item.held.charges.Some? && item.held.charges.value in {1, 2, 3}
          else if item.held.id == TANGO_ITEM && item.aim == Some(AimTree) then
            target.PointTarget? && target.point < |scene.points| && scene.points[target.point].standingTree
          else item.aim.Some? && AimReaches(scene, body, item.aim.value, item.range, true, target)
  }

  /** The item in a slot as the wire numbers them: nine bag slots of the hero or six of the courier, then the stash from nine on. */
  ghost function Holding(scene: Scene, unit: Unit, body: Body, slot: nat): Option<Item> {
    if slot < (if unit == Hero then 9 else 6) then (if slot < |body.items| then body.items[slot] else None)
    else if 9 <= slot < 15 && slot - 9 < |scene.stash| then scene.stash[slot - 9]
    else None
  }

  ghost predicate HasSlot(scene: Scene, unit: Unit, body: Body, slot: nat) {
    || (slot < (if unit == Hero then 9 else 6) && slot < |body.items|)
    || (9 <= slot < 15 && slot - 9 < |scene.stash|)
  }

  /** What a living unit may do. */
  ghost predicate May(scene: Scene, unit: Unit, body: Body, buy: Mask, action: Action) {
    match action
    case ContinueAction => true
    case StopAction(_) => true
    case HoldAction(_) => !body.stunned
    case MovePointAction(_, p) => !body.stunned && p < |scene.points| && scene.points[p].walkable && !scene.points[p].razeOnly
    case AttackMovePointAction(_, p) =>
      !body.stunned && p < |scene.points| && scene.points[p].walkable && !scene.points[p].razeOnly && !scene.points[p].landing
    case FollowUnitAction(_, e) => !body.stunned && e < |scene.entities| && scene.entities[e].id != body.id
    case AttackUnitAction(_, e) => !body.stunned && e < |scene.entities| && scene.entities[e].id != body.id
    case CastAction(_, slot, target) => MayCast(scene, body, slot, target)
    case UseAction(_, slot, target) => MayUse(scene, unit, body, slot, target)
    case PutPointAction(_, slot, place) =>
      place == Underfoot && body.underfoot && slot < 9 && HasSlot(scene, unit, body, slot) && Holding(scene, unit, body, slot).Some?
    case PutUnitAction(_, slot, e) =>
      && slot < 9 && HasSlot(scene, unit, body, slot) && Holding(scene, unit, body, slot).Some? && e < |scene.entities|
      && scene.entities[e].id != body.id && scene.entities[e].friendly && scene.entities[e].carrier
    case TakeAction(_, l) => l < |scene.loot| && None in body.items
    case BuyAction(_, i) => unit == Hero && At(buy, i)
    case SellAction(_, slot) => Holding(scene, unit, body, slot).Some? && Holding(scene, unit, body, slot).value.held.forSale
    case SwapAction(_, slot, to) =>
      && slot != to && Holding(scene, unit, body, slot).Some? && HasSlot(scene, unit, body, to)
      && (slot >= 9 || to >= 9 ==> body.nearFountain)
    case LearnAction(slot) => slot < 8 && slot < |body.abilities| && body.abilities[slot].canLevel
  }

  lemma CastExactly(scene: Scene, body: Body, slot: nat, target: Target)
    requires slot < |body.abilities| && slot < 8
    ensures CastMask(scene, body, body.abilities[slot]).Allows(target) <==> MayCast(scene, body, slot, target)
  {
  }

  lemma UseExactly(scene: Scene, unit: Unit, body: Body, slot: nat, target: Target)
    requires slot < 6
    ensures UseMask(scene, body, unit, slot).Allows(target) <==> MayUse(scene, unit, body, slot, target)
  {
    hide AimedMask, AimReaches;
    if slot < |body.items| && body.items[slot].Some? && body.items[slot].value.aim.Some? {
      var item := body.items[slot].value;
      AimedExactly(scene, body, item.aim.value, item.range, item.ready, true, target);
    }
  }

  lemma AimedExactly(scene: Scene, body: Body, aim: Aim, range: int, ready: bool, activeItem: bool, target: Target)
    ensures AimedMask(scene, body, aim, range, ready, activeItem).Allows(target)
       <==> ready && AimReaches(scene, body, aim, range, activeItem, target)
  {
  }

  lemma SlotsExactly(scene: Scene, unit: Unit, body: Body, slot: nat, to: nat)
    ensures HeldAt(scene, body, unit, slot) == Holding(scene, unit, body, slot)
    ensures SlotExists(scene, body, unit, to) <==> HasSlot(scene, unit, body, to)
    ensures CanSwap(scene, body, unit, slot, to) <==>
      && slot != to && Holding(scene, unit, body, slot).Some? && HasSlot(scene, unit, body, to)
      && (slot >= 9 || to >= 9 ==> body.nearFountain)
  {
  }

  /** The masks of a living unit allow exactly what it may do. */
  lemma MasksExactly(scene: Scene, unit: Unit, body: Body, buy: Mask, action: Action)
    requires |buy| == |scene.shop| && action != ContinueAction && (action.LearnAction? ==> unit == Hero)
    requires UnitOf(action).Some? ==> action.unit == unit
    ensures UnitAllows(UnitMasks(scene, unit, Some(body), buy), action) <==> May(scene, unit, body, buy, action)
  {
    hide CastMask, UseMask, HeldAt, CanSwap, SlotExists, Holding, HasSlot, MayCast, MayUse, FamilyAllowed;
    var m := UnitMasks(scene, unit, Some(body), buy);
    match action
    case CastAction(_, slot, target) =>
      if slot < |m.casts| {
        assert m.casts[slot] == CastMask(scene, body, body.abilities[slot]);
        CastExactly(scene, body, slot, target);
      } else {
        CannotCast(scene, body, slot, target);
      }
    case UseAction(_, slot, target) =>
      if slot < |m.uses| {
        assert m.uses[slot] == UseMask(scene, body, unit, slot);
        UseExactly(scene, unit, body, slot, target);
      } else {
        CannotUse(scene, unit, body, slot, target);
      }
    case PutPointAction(_, slot, place) =>
      BagSlots(scene, unit, body, slot);
      assert slot < |m.putPoints| ==> m.putPoints[slot] == PutPointsAt(scene, body, slot);
    case PutUnitAction(_, slot, e) =>
      BagSlots(scene, unit, body, slot);
      assert slot < |m.putUnits| ==> m.putUnits[slot] == PutUnitMask(scene, body, slot);
    case SellAction(_, slot) =>
      SlotsExactly(scene, unit, body, slot, slot);
      NothingBeyond(scene, unit, body, slot);
    case SwapAction(_, slot, to) =>
      SlotsExactly(scene, unit, body, slot, to);
      NothingBeyond(scene, unit, body, slot);
      NothingBeyond(scene, unit, body, to);
      assert slot < |m.swap| ==> m.swap[slot] == SwapRow(scene, body, unit, slot);
    case _ =>
  }

  lemma CannotCast(scene: Scene, body: Body, slot: nat, target: Target)
    requires slot >= 8 || slot >= |body.abilities|
    ensures !MayCast(scene, body, slot, target)
  {
  }

  lemma CannotUse(scene: Scene, unit: Unit, body: Body, slot: nat, target: Target)
    requires slot >= 6
    ensures !MayUse(scene, unit, body, slot, target)
  {
  }

  lemma NothingBeyond(scene: Scene, unit: Unit, body: Body, slot: nat)
    ensures slot >= 15 ==> Holding(scene, unit, body, slot).None? && !HasSlot(scene, unit, body, slot)
  {
  }

  lemma BagSlots(scene: Scene, unit: Unit, body: Body, slot: nat)
    ensures slot < BagLimit(unit) && ItemAt(body.items, slot).Some? <==>
      slot < 9 && HasSlot(scene, unit, body, slot) && Holding(scene, unit, body, slot).Some?
  {
  }

  /** In a built space an action is legal exactly when its unit lives and may do it; waiting is always legal. */
  lemma LegalExactly(scene: Scene, hero: Option<Body>, courier: Option<Body>, needs: seq<BuyRequirement>, buy: Mask,
                     gold: int, action: Action)
    requires Bounded(scene, needs, buy)
    ensures Allows(BuildSpace(scene, hero, courier, needs, buy, gold), action) <==>
      if action.ContinueAction? then true
      else
        var unit := if action.LearnAction? then Hero else action.unit;
        var body := if unit == Hero then hero else courier;
        body.Some? && May(scene, unit, body.value, buy, action)
  {
    hide WellBuilt, UnitAllows, BuildKindMask, UnitMasks, May;
    var space := BuildSpace(scene, hero, courier, needs, buy, gold);
    SpaceIsWellBuilt(scene, hero, courier, needs, buy, gold);
    if action.ContinueAction? {
      WaitingIsLegal(space);
    } else {
      AllowsIsConditional(space, action);
      var unit := if action.LearnAction? then Hero else action.unit;
      var body := if unit == Hero then hero else courier;
      if body.Some? {
        MasksExactly(scene, unit, body.value, buy, action);
      } else {
        AbsentAllowsNothing(scene, unit, needs, buy, space, action);
      }
    }
  }

  lemma WaitingIsLegal(space: ActionSpace)
    requires WellBuilt(space)
    ensures Allows(space, ContinueAction)
  {
    hide FamilyAllowed, Fitted, NothingAllowed;
    ContinueIsAllowed(space);
  }

  lemma AbsentAllowsNothing(scene: Scene, unit: Unit, needs: seq<BuyRequirement>, buy: Mask, space: ActionSpace, action: Action)
    requires Bounded(scene, needs, buy) && action != ContinueAction
    requires |space.points| == |scene.points| && |space.entities| == |scene.entities|
    requires space.loot == scene.loot && space.shop == scene.shop
    ensures !UnitAllows(UnitMasks(scene, unit, None, buy), action)
  {
    hide UnitAllows, FamilyAllowed;
    EmptyMasksFit(scene, needs, buy, space);
    if UnitAllows(UnitMasks(scene, unit, None, buy), action) {
      ActionShowsFamily(UnitMasks(scene, unit, None, buy), action);
    }
  }

  // ---------------------------------------------------------------- purchases of a built space

  function HeldSlots(items: seq<Option<Item>>): (slots: Buying.Slots)
    ensures |slots| == |items|
  {
    seq(|items|, i requires 0 <= i < |items| => match items[i] case None => None case Some(item) => Some(item.held))
  }

  /** Candidates are the shop's items at their prices. */
  predicate Offers(scene: Scene, shop: seq<ShopEntry>) {
    forall i :: 0 <= i < |scene.shop| ==> Sold(shop, scene.shop[i].item) && scene.shop[i].cost == Cost(shop, scene.shop[i].item)
  }

  /** What the requirements and the buy mask were computed from. */
  ghost predicate Stocked(scene: Scene, shop: seq<ShopEntry>, held: multiset<ItemId>, needs: seq<BuyRequirement>, buy: Mask,
                          gold: int, room: nat, mangoFits: bool)
    requires SoundShop(shop)
  {
    && Offers(scene, shop) && |needs| == |buy| == |scene.shop|
    && (forall i :: 0 <= i < |needs| ==> Buying.IsRequirement(shop, scene.shop[i].item, held, needs[i]))
    && (forall i :: 0 <= i < |buy| && buy[i] ==> Buying.Buyable(shop, scene.shop[i].item, held, gold, room, mangoFits))
    && (forall i :: 0 <= i < |buy| && buy[i] ==> needs[i].firstMissing.Some?)
  }

  lemma FirstMissingIsFirstLeaf(shop: seq<ShopEntry>, item: ItemId, held: multiset<ItemId>, needs: BuyRequirement)
    requires SoundShop(shop) && Buying.IsRequirement(shop, item, held, needs) && needs.firstMissing.Some?
    ensures Sold(shop, item) && Buying.Leaves(shop, item, held) != []
    ensures needs.firstMissing.value == Buying.Leaves(shop, item, held)[0]
  {
    hide SoundShop, Missing, PricesFit, Price;
  }

  /** Only the hero has buy bits. */
  lemma BuyersAreHeroes(scene: Scene, hero: Option<Body>, courier: Option<Body>, needs: seq<BuyRequirement>, buy: Mask,
                        gold: int, action: Action)
    requires Bounded(scene, needs, buy) && action.BuyAction?
    requires Allows(BuildSpace(scene, hero, courier, needs, buy, gold), action)
    ensures hero.Some? && action.unit == Hero && At(buy, action.item)
  {
    hide FamilyAllowed, BuildKindMask, CastMask, UseMask, SwapRow, PutPointsAt, PutUnitMask, HeldAt;
  }

  /** The purchase is decoded to an order for a sold item that the gold of the space covers. */
  ghost predicate OrdersAffordably(space: ActionSpace, shop: seq<ShopEntry>, action: Action)
    requires |space.masks| == |space.controlled| == 2 && |space.kindMask| == 16 && |space.needs| == |space.shop|
  {
    exists item :: Decode(space, action) == Issued(None, BuyOrder(item)) && Sold(shop, item) && Cost(shop, item) <= space.gold
  }

  /** Every legal purchase of a built space orders something that can be paid for. */
  lemma PurchaseIsAffordable(scene: Scene, hero: Option<Body>, courier: Option<Body>, needs: seq<BuyRequirement>, buy: Mask,
                             gold: int, shop: seq<ShopEntry>, held: multiset<ItemId>, room: nat, mangoFits: bool, action: Action)
    requires SoundShop(shop) && Buying.CostsValid(shop) && Bounded(scene, needs, buy)
    requires Stocked(scene, shop, held, needs, buy, gold, room, mangoFits)
    requires action.BuyAction? && Allows(BuildSpace(scene, hero, courier, needs, buy, gold), action)
    ensures OrdersAffordably(BuildSpace(scene, hero, courier, needs, buy, gold), shop, action)
  {
    hide SoundShop, Allows, WellBuilt, UnitMasks, BuildKindMask, Bounded, Buying.Leaves, Buying.IsRequirement, Buying.Buyable;
    var space := BuildSpace(scene, hero, courier, needs, buy, gold);
    BuyersAreHeroes(scene, hero, courier, needs, buy, gold, action);
    SpaceIsWellBuilt(scene, hero, courier, needs, buy, gold);
    DecodesExactlyLegal(space, action);
    var candidate := scene.shop[action.item];
    var first := needs[action.item].firstMissing.value;
    FirstMissingIsFirstLeaf(shop, candidate.item, held, needs[action.item]);
    Buying.FirstLeafIsAffordable(shop, candidate.item, held, gold, room, mangoFits);
    var ordered := if gold >= candidate.cost then candidate.item else first;
    assert Decode(space, action) == Issued(None, BuyOrder(ordered));
  }

  /**
   * Builds the space with its purchases: the requirements against what hero
   * and stash hold, the buy mask over them, then the masks. It fails only
   * when some candidate's price overflows.
   */
  method BuildStockedSpace(scene: Scene, hero: Option<Body>, courier: Option<Body>, bag: Buying.Slots, shop: seq<ShopEntry>, gold: int)
    returns (space: Option<ActionSpace>)
    requires SoundShop(shop) && Buying.CostsValid(shop) && Offers(scene, shop)
    requires |scene.points| <= MAX_POINT_CANDIDATES && |scene.entities| <= UNIT_TOKENS && |scene.loot| <= MAX_LOOT
    requires |scene.shop| <= MAX_SHOP_ITEMS && |bag| <= HERO_BAG_SLOTS && |scene.stash| <= Buying.STASH_SLOTS
    requires hero.Some? ==> bag == HeldSlots(hero.value.items)
    ensures space.Some? ==>
      && WellBuilt(space.value) && space.value.gold == gold && |space.value.masks| == 2 && |space.value.kindMask| == 16
      && |space.value.controlled| == 2 && |space.value.needs| == |space.value.shop|
      && forall action: Action :: action.BuyAction? && Allows(space.value, action) ==> OrdersAffordably(space.value, shop, action)
    ensures space.None? ==>
      var held := multiset(Buying.HeldIds(bag) + Buying.HeldIds(HeldSlots(scene.stash)));
      exists i :: 0 <= i < |scene.shop|
        && Requirement(shop, Buying.Leaves(shop, scene.shop[i].item, held)) == Failed(CostOverflow)
  {
    hide SoundShop, Allows, WellBuilt, Decode, Buying.IsRequirement, Buying.Buyable, Buying.Leaves, Requirement, UnitMasks, BuildKindMask;
    var stash := HeldSlots(scene.stash);
    var candidates := seq(|scene.shop|, i requires 0 <= i < |scene.shop| => scene.shop[i].item);
    var all := Buying.BuildBuyRequirements(shop, candidates, bag, stash);
    if all.Refused? {
      return None;
    }
    var atShop := hero.Some? && hero.value.nearFountain;
    ghost var held := multiset(Buying.HeldIds(bag) + Buying.HeldIds(stash));
    var buy := Buying.FillBuyMask(shop, candidates, all.needs, hero.Some?, bag, stash, atShop, gold);
    SpaceIsWellBuilt(scene, hero, courier, all.needs, buy, gold);
    var built := BuildSpace(scene, hero, courier, all.needs, buy, gold);
    forall action: Action | action.BuyAction? && Allows(built, action) ensures OrdersAffordably(built, shop, action) {
      PurchaseIsAffordable(scene, hero, courier, all.needs, buy, gold, shop, held, Buying.Room(bag, stash, atShop),
                           Buying.MangoGoes(bag, stash, atShop), action);
    }
    return Some(built);
  }
}
