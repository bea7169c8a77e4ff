// The per-seat reward: potential-based shaping whose intervals, however they
// are drained, sum to the outcome minus the first potential.
module Map2Reward {
  import opened Geometry

  const TICK_CAP: nat := 27900
  const PREGAME_TICKS: nat := 900
  const DEATH_LIMIT: nat := 2
  const MAX_TOWERS: nat := 64
  const MAX_EVENTS: nat := 4096
  const MAX_AMOUNT: int := 1_000_000

  const WIN := 1.0
  const LOSS := -1.0
  const DRAW := -0.5
  const FAST_WIN_BONUS := 0.5
  const TOWER_WEIGHT := 0.75
  const DEATH_WEIGHT := 0.4
  const HEALTH_WEIGHT := 0.2
  const XP_WEIGHT := 0.2
  const XP_SCALE := 1000.0
  const FARM_WEIGHT := 0.25
  const FARM_SCALE := 20.0

  /** Bound while the game runs: the death lead stays below the limit. */
  const RUNNING_POTENTIAL_BOUND := TOWER_WEIGHT + DEATH_WEIGHT * (DEATH_LIMIT - 1) as real
                                   + HEALTH_WEIGHT + XP_WEIGHT + FARM_WEIGHT
  const POTENTIAL_BOUND := RUNNING_POTENTIAL_BOUND + DEATH_WEIGHT

  // ---------------------------------------------------------------- facts of one snapshot

  type Id = nat

  datatype Both<T> = Both(own: T, enemy: T)

  /** A visible tower: whose it is and what fraction of its health is left. */
  datatype Tower = Tower(id: Id, own: bool, health: real)

  /** Scoreboard counters of 16 bits. */
  datatype Farm = Farm(lastHits: nat, denies: nat)

  datatype Facts = Facts(tick: nat, xp: Both<nat>, deaths: Both<nat>, farm: Both<Farm>,
                         heroes: Both<Option<Id>>, heroHealth: Both<Option<real>>, towers: seq<Tower>)

  predicate Fraction(x: real) { 0.0 <= x <= 1.0 }

  predicate Fractions(towers: seq<Tower>) { forall i :: 0 <= i < |towers| ==> Fraction(towers[i].health) }

  /** What the extraction of a snapshot guarantees. */
  predicate ValidFacts(facts: Facts) {
    && 1 <= facts.tick <= TICK_CAP
    && Fractions(facts.towers)
    && (facts.heroHealth.own.Some? ==> Fraction(facts.heroHealth.own.value))
    && (facts.heroHealth.enemy.Some? ==> Fraction(facts.heroHealth.enemy.value))
    && (facts.heroes.own.Some? ==> facts.heroHealth.own.Some?)
    && facts.farm.own.denies < 65536 && facts.farm.enemy.denies < 65536
  }

  // ---------------------------------------------------------------- the potential

  datatype Potential = Potential(towers: real, deaths: real, health: real, xp: real, farm: real) {
    function Total(): real { towers + deaths + health + xp + farm }

    function Plus(other: Potential): Potential {
      Potential(towers + other.towers, deaths + other.deaths, health + other.health, xp + other.xp, farm + other.farm)
    }

    function Minus(other: Potential): Potential {
      Potential(towers - other.towers, deaths - other.deaths, health - other.health, xp - other.xp, farm - other.farm)
    }
  }

  const ZERO := Potential(0.0, 0.0, 0.0, 0.0, 0.0)

  function Clamp(x: real): real { if x < -1.0 then -1.0 else if x > 1.0 then 1.0 else x }

  function CappedDeaths(count: nat): real { (if count < DEATH_LIMIT then count else DEATH_LIMIT) as real }

  function MinReal(a: real, b: real): real { if a < b then a else b }

  /** Lowest health among the known towers of a side; a side without any counts as whole. */
  function WeakestTower(towers: seq<Tower>, own: bool): real {
    if towers == [] then 1.0
    else
      var last := towers[|towers| - 1];
      var rest := WeakestTower(towers[..|towers| - 1], own);
      if last.own != own then rest else MinReal(rest, last.health)
  }

  function PotentialOf(facts: Facts, towers: seq<Tower>, heroHealth: Both<real>): Potential {
    Potential(
      TOWER_WEIGHT * (WeakestTower(towers, true) - WeakestTower(towers, false)),
      DEATH_WEIGHT * (CappedDeaths(facts.deaths.enemy) - CappedDeaths(facts.deaths.own)),
      HEALTH_WEIGHT * (heroHealth.own - heroHealth.enemy),
      XP_WEIGHT * Clamp((facts.xp.own as real - facts.xp.enemy as real) / XP_SCALE),
      FARM_WEIGHT * Clamp((facts.farm.own.lastHits as real - facts.farm.enemy.lastHits as real) / FARM_SCALE))
  }

  lemma {:induction false} WeakestIsFraction(towers: seq<Tower>, own: bool)
    requires Fractions(towers)
    ensures Fraction(WeakestTower(towers, own))
    ensures forall i :: 0 <= i < |towers| && towers[i].own == own ==> WeakestTower(towers, own) <= towers[i].health
    ensures WeakestTower(towers, own) == 1.0
         || exists i :: 0 <= i < |towers| && towers[i].own == own && towers[i].health == WeakestTower(towers, own)
  {
    if towers != [] {
      WeakestIsFraction(towers[..|towers| - 1], own);
      assert Fraction(towers[|towers| - 1].health);
    }
  }

  /** Every potential stays within the bound, and within the running one while no side has lost its last life. */
  lemma PotentialIsBounded(facts: Facts, towers: seq<Tower>, heroHealth: Both<real>)
    requires Fractions(towers) && Fraction(heroHealth.own) && Fraction(heroHealth.enemy)
    ensures -POTENTIAL_BOUND <= PotentialOf(facts, towers, heroHealth).Total() <= POTENTIAL_BOUND
    ensures facts.deaths.own < DEATH_LIMIT && facts.deaths.enemy < DEATH_LIMIT ==>
      -RUNNING_POTENTIAL_BOUND <= PotentialOf(facts, towers, heroHealth).Total() <= RUNNING_POTENTIAL_BOUND
    ensures RUNNING_POTENTIAL_BOUND < WIN - LOSS
  {
    hide PotentialOf;
    TermsAreBounded(facts, towers, heroHealth);
  }

  ghost predicate Within(x: real, bound: real) { -bound <= x <= bound }

  lemma TermsAreBounded(facts: Facts, towers: seq<Tower>, heroHealth: Both<real>)
    requires Fractions(towers) && Fraction(heroHealth.own) && Fraction(heroHealth.enemy)
    ensures var p := PotentialOf(facts, towers, heroHealth);
      && Within(p.towers, 0.75) && Within(p.deaths, 0.8) && Within(p.health, 0.2) && Within(p.xp, 0.2) && Within(p.farm, 0.25)
      && (facts.deaths.own < DEATH_LIMIT && facts.deaths.enemy < DEATH_LIMIT ==> Within(p.deaths, 0.4))
  {
    WeakestIsFraction(towers, true);
    WeakestIsFraction(towers, false);
    Scaled(TOWER_WEIGHT, WeakestTower(towers, true) - WeakestTower(towers, false), 1.0);
    Scaled(HEALTH_WEIGHT, heroHealth.own - heroHealth.enemy, 1.0);
    ClampScaled(XP_WEIGHT, (facts.xp.own as real - facts.xp.enemy as real) / XP_SCALE);
    ClampScaled(FARM_WEIGHT, (facts.farm.own.lastHits as real - facts.farm.enemy.lastHits as real) / FARM_SCALE);
    DeathTerm(facts);
    hide WeakestTower, Clamp, CappedDeaths, Fractions;
  }

  lemma Scaled(weight: real, x: real, bound: real)
    requires weight >= 0.0 && -bound <= x <= bound
    ensures -(weight * bound) <= weight * x <= weight * bound
  {
    assert weight * (bound - x) >= 0.0 && weight * (x + bound) >= 0.0;
  }

  lemma ClampScaled(weight: real, x: real)
    requires weight >= 0.0
    ensures -weight <= weight * Clamp(x) <= weight
  {
    Scaled(weight, Clamp(x), 1.0);
  }

  lemma DeathTerm(facts: Facts)
    ensures var term := DEATH_WEIGHT * (CappedDeaths(facts.deaths.enemy) - CappedDeaths(facts.deaths.own));
      && -0.8 <= term <= 0.8
      && (facts.deaths.own < DEATH_LIMIT && facts.deaths.enemy < DEATH_LIMIT ==> -0.4 <= term <= 0.4)
  {
    var lead := CappedDeaths(facts.deaths.enemy) - CappedDeaths(facts.deaths.own);
    Scaled(DEATH_WEIGHT, lead, 2.0);
    if facts.deaths.own < DEATH_LIMIT && facts.deaths.enemy < DEATH_LIMIT {
      Scaled(DEATH_WEIGHT, lead, 1.0);
    }
  }

  // ---------------------------------------------------------------- which way the potential moves

  /** One more own death lowers the potential by 0.4 while it is not past the limit, one more enemy death raises it. */
  lemma DeathsCount(facts: Facts, towers: seq<Tower>, heroHealth: Both<real>)
    ensures var total := PotentialOf(facts, towers, heroHealth).Total();
            var died := facts.(deaths := Both(facts.deaths.own + 1, facts.deaths.enemy));
            var killed := facts.(deaths := Both(facts.deaths.own, facts.deaths.enemy + 1));
      && PotentialOf(died, towers, heroHealth).Total() == total - (if facts.deaths.own < 2 then 0.4 else 0.0)
      && PotentialOf(killed, towers, heroHealth).Total() == total + (if facts.deaths.enemy < 2 then 0.4 else 0.0)
  {
    hide WeakestTower, Clamp;
  }

  /** Own health raises the potential by a fifth of the gain, enemy health lowers it as much. */
  lemma HealthCounts(facts: Facts, towers: seq<Tower>, heroHealth: Both<real>, own: real, enemy: real)
    ensures PotentialOf(facts, towers, Both(own, enemy)).Total() == PotentialOf(facts, towers, heroHealth).Total()
      + 0.2 * (own - heroHealth.own) - 0.2 * (enemy - heroHealth.enemy)
  {
    hide WeakestTower, Clamp, CappedDeaths;
  }

  /** The weakest own tower raises the potential by three quarters of its gain, the weakest enemy tower lowers it as much. */
  lemma TowersCount(facts: Facts, towers: seq<Tower>, next: seq<Tower>, heroHealth: Both<real>)
    ensures PotentialOf(facts, next, heroHealth).Total() == PotentialOf(facts, towers, heroHealth).Total()
      + 0.75 * (WeakestTower(next, true) - WeakestTower(towers, true))
      - 0.75 * (WeakestTower(next, false) - WeakestTower(towers, false))
  {
    hide WeakestTower, Clamp, CappedDeaths;
  }

  /** A lead counts in proportion up to its scale, and not beyond. */
  ghost function Saturated(lead: int, scale: int): int {
    if lead < -scale then -scale else if lead > scale then scale else lead
  }

  lemma ClampedLead(lead: int, scale: int)
    requires scale > 0
    ensures Clamp(lead as real / scale as real) * scale as real == Saturated(lead, scale) as real
  {
    var x, n := lead as real / scale as real, scale as real;
    assert x * n == lead as real;
    if x > 1.0 { assert (x - 1.0) * n > 0.0; }
    if x < -1.0 { assert (x + 1.0) * n < 0.0; }
  }

  /** Experience counts a fifth per thousand of lead, last hits a quarter per twenty. */
  lemma LeadsCount(facts: Facts, towers: seq<Tower>, heroHealth: Both<real>, xp: Both<nat>, farm: Both<Farm>)
    ensures var moved := facts.(xp := xp, farm := farm);
      PotentialOf(moved, towers, heroHealth).Total() == PotentialOf(facts, towers, heroHealth).Total()
        + 0.2 / 1000.0 * (Saturated(xp.own - xp.enemy, 1000) - Saturated(facts.xp.own - facts.xp.enemy, 1000)) as real
        + 0.25 / 20.0 * (Saturated(farm.own.lastHits - farm.enemy.lastHits, 20)
                         - Saturated(facts.farm.own.lastHits - facts.farm.enemy.lastHits, 20)) as real
  {
    ClampedLead(xp.own - xp.enemy, 1000);
    ClampedLead(facts.xp.own - facts.xp.enemy, 1000);
    ClampedLead(farm.own.lastHits - farm.enemy.lastHits, 20);
    ClampedLead(facts.farm.own.lastHits - facts.farm.enemy.lastHits, 20);
    hide WeakestTower, Clamp, CappedDeaths, Saturated;
  }

  function Turned<T>(both: Both<T>): Both<T> { Both(both.enemy, both.own) }

  function TurnedTowers(towers: seq<Tower>): (turned: seq<Tower>)
    ensures |turned| == |towers| && forall i :: 0 <= i < |turned| ==> turned[i] == towers[i].(own := !towers[i].own)
  {
    seq(|towers|, i requires 0 <= i < |towers| => towers[i].(own := !towers[i].own))
  }

  lemma {:induction false} WeakestTurned(towers: seq<Tower>, own: bool)
    ensures WeakestTower(TurnedTowers(towers), own) == WeakestTower(towers, !own)
    decreases |towers|
  {
    if towers != [] {
      WeakestTurned(towers[..|towers| - 1], own);
      assert TurnedTowers(towers)[..|towers| - 1] == TurnedTowers(towers[..|towers| - 1]);
    }
  }

  /** What one side gains the other loses: seen from the other side the potential is the opposite. */
  lemma PotentialIsZeroSum(facts: Facts, towers: seq<Tower>, heroHealth: Both<real>)
    ensures var turned := facts.(xp := Turned(facts.xp), deaths := Turned(facts.deaths), farm := Turned(facts.farm));
      PotentialOf(turned, TurnedTowers(towers), Turned(heroHealth)).Total() == -PotentialOf(facts, towers, heroHealth).Total()
  {
    WeakestTurned(towers, true);
    WeakestTurned(towers, false);
    ClampedLead(facts.xp.own - facts.xp.enemy, 1000);
    ClampedLead(facts.xp.enemy - facts.xp.own, 1000);
    ClampedLead(facts.farm.own.lastHits - facts.farm.enemy.lastHits, 20);
    ClampedLead(facts.farm.enemy.lastHits - facts.farm.own.lastHits, 20);
    hide WeakestTower, CappedDeaths, TurnedTowers, Clamp;
  }

  /** An even game has no potential, so with the laws above every potential is determined. */
  lemma EvenGameIsZero(facts: Facts, heroHealth: Both<real>)
    requires facts.xp.own == facts.xp.enemy && facts.deaths.own == facts.deaths.enemy
    requires facts.farm.own.lastHits == facts.farm.enemy.lastHits && heroHealth.own == heroHealth.enemy
    ensures PotentialOf(facts, [], heroHealth).Total() == 0.0
  {
    hide CappedDeaths;
  }

  // ---------------------------------------------------------------- what is drained

  datatype End = Win | Loss | Draw | TimeCap

  datatype Observations = Observations(deaths: Both<nat>, xp: Both<nat>, lastHits: Both<nat>, denies: Both<nat>,
                                       heroDamageDealt: nat, heroDamageTaken: nat, towerDamageTaken: nat,
                                       otherDamageTaken: nat, structureDamageDealt: nat)

  const NOTHING_SEEN := Observations(Both(0, 0), Both(0, 0), Both(0, 0), Both(0, 0), 0, 0, 0, 0, 0)

  datatype Breakdown = Breakdown(ticks: nat, shaping: Potential, closure: real, terminal: real, fastWin: real,
                                 total: real, end: Option<End>, observations: Observations)

  const EMPTY := Breakdown(0, ZERO, 0.0, 0.0, 0.0, 0.0, None, NOTHING_SEEN)

  function Retotal(b: Breakdown): Breakdown {
    b.(total := b.shaping.Total() + b.closure + b.terminal + b.fastWin)
  }

  function Terminal(end: End): real {
    match end case Win => WIN case Loss => LOSS case Draw => DRAW case TimeCap => DRAW
  }

  function FastWin(end: End, tick: nat): real {
    if end != Win then 0.0
    else
      var remaining := (if tick < TICK_CAP then TICK_CAP - tick else 0) as real;
      FAST_WIN_BONUS * MinReal(remaining / (TICK_CAP - PREGAME_TICKS) as real, 1.0)
  }

  /** The bonus is full until pregame ends, then falls with every tick, to nothing at the cap. */
  lemma FastWinFalls(tick: nat, later: nat)
    requires tick <= later
    ensures 0.0 <= FastWin(Win, later) <= FastWin(Win, tick) <= FAST_WIN_BONUS
    ensures tick <= PREGAME_TICKS <==> FastWin(Win, tick) == FAST_WIN_BONUS
    ensures tick >= TICK_CAP <==> FastWin(Win, tick) == 0.0
    ensures PREGAME_TICKS <= tick < later <= TICK_CAP ==> FastWin(Win, later) < FastWin(Win, tick)
    ensures 900 <= tick <= 27900 ==> FastWin(Win, tick) == 0.5 * ((27900 - tick) as real / 27000.0)
    ensures FastWin(Loss, tick) == FastWin(Draw, tick) == FastWin(TimeCap, tick) == 0.0
  {
  }

  /** What the scoreboard gained between two snapshots. */
  function Gained(o: Observations, previous: Facts, next: Facts): Observations
    requires Progresses(previous, next) && previous.farm.own.denies < 65536 && previous.farm.enemy.denies < 65536
  {
    o.(deaths := Both(o.deaths.own + next.deaths.own - previous.deaths.own,
                      o.deaths.enemy + next.deaths.enemy - previous.deaths.enemy),
       xp := Both(o.xp.own + next.xp.own - previous.xp.own, o.xp.enemy + next.xp.enemy - previous.xp.enemy),
       lastHits := Both(o.lastHits.own + next.farm.own.lastHits - previous.farm.own.lastHits,
                        o.lastHits.enemy + next.farm.enemy.lastHits - previous.farm.enemy.lastHits),
       denies := Both(o.denies.own + Difference16(next.farm.own.denies, previous.farm.own.denies),
                      o.denies.enemy + Difference16(next.farm.enemy.denies, previous.farm.enemy.denies)))
  }

  /** Subtraction of 16-bit counters, wrapping around. */
  function Difference16(a: nat, b: nat): nat
    requires b < 65536
  {
    if a >= b then a - b else a + 65536 - b
  }

  /** Last hits and denies are compared as a pair: denies may fall while last hits rise. */
  predicate FarmFalls(previous: Farm, next: Farm) {
    next.lastHits < previous.lastHits || (next.lastHits == previous.lastHits && next.denies < previous.denies)
  }

  /** What is checked of the public counters. */
  predicate Progresses(previous: Facts, next: Facts) {
    && previous.xp.own <= next.xp.own && previous.xp.enemy <= next.xp.enemy
    && previous.deaths.own <= next.deaths.own && previous.deaths.enemy <= next.deaths.enemy
    && !FarmFalls(previous.farm.own, next.farm.own) && !FarmFalls(previous.farm.enemy, next.farm.enemy)
  }

  /** A tick at which a side's denies fell. */
  function Drop(previous: Farm, next: Farm): nat { if next.denies < previous.denies then 1 else 0 }

  /** A snapshot whose denies fell passes the check when last hits rose, and books 65535 denies for one lost. */
  lemma FallingDeniesPass()
    ensures var previous, next := Farm(0, 1), Farm(1, 0);
      !FarmFalls(previous, next) && next.denies < previous.denies && Difference16(next.denies, previous.denies) == 65535
  {
  }

  // ---------------------------------------------------------------- towers and damage

  predicate Known(towers: seq<Tower>, id: Id) { exists i :: 0 <= i < |towers| && towers[i].id == id }

  /** Health a snapshot shows for a tower; one that is missing has been destroyed. */
  function SeenHealth(facts: seq<Tower>, id: Id): real {
    if facts == [] then 0.0 else if facts[0].id == id then facts[0].health else SeenHealth(facts[1..], id)
  }

  function SideOf(towers: seq<Tower>, id: Id): Option<bool> {
    if towers == [] then None else if towers[0].id == id then Some(towers[0].own) else SideOf(towers[1..], id)
  }

  /** Towers of the facts that are not known yet. */
  function NewTowers(towers: seq<Tower>, facts: seq<Tower>): nat {
    if facts == [] then 0
    else NewTowers(towers, facts[..|facts| - 1]) + (if Known(towers, facts[|facts| - 1].id) then 0 else 1)
  }

  /** Damage to a unit, as the event batch reports it; other events carry nothing for the reward. */
  datatype Event = Damaged(source: Option<Id>, target: Id, amount: int) | OtherEvent

  predicate ValidEvents(events: seq<Event>) {
    && |events| <= MAX_EVENTS
    && forall i :: 0 <= i < |events| && events[i].Damaged? ==> 0 <= events[i].amount <= MAX_AMOUNT
  }

  /** A batch is refused exactly for more than 4096 events, or damage outside 0..=1000000. */
  lemma BatchesRefused(events: seq<Event>)
    ensures !ValidEvents(events) <==>
      |events| > 4096 || exists e :: e in events && e.Damaged? && (e.amount < 0 || e.amount > 1_000_000)
  {
    if !ValidEvents(events) && |events| <= MAX_EVENTS {
      var i :| 0 <= i < |events| && events[i].Damaged? && !(0 <= events[i].amount <= MAX_AMOUNT);
      assert events[i] in events;
    }
  }

  /** Known towers with the health now seen. */
  function Refreshed(towers: seq<Tower>, facts: seq<Tower>, count: nat): seq<Tower>
    requires count <= |towers|
  {
    if count == 0 then [] else Refreshed(towers, facts, count - 1) + [towers[count - 1].(health := SeenHealth(facts, towers[count - 1].id))]
  }

  /** The towers of the first `count` facts that were unknown, appended. */
  function Appended(towers: seq<Tower>, facts: seq<Tower>, count: nat): seq<Tower>
    requires count <= |facts|
  {
    if count == 0 then towers
    else
      var before := Appended(towers, facts, count - 1);
      if Known(before, facts[count - 1].id) then before else before + [facts[count - 1]]
  }

  function UpdatedTowers(towers: seq<Tower>, facts: seq<Tower>): seq<Tower> {
    Appended(Refreshed(towers, facts, |towers|), facts, |facts|)
  }

  lemma {:induction false} SeenIsFraction(facts: seq<Tower>, id: Id)
    requires Fractions(facts)
    ensures Fraction(SeenHealth(facts, id))
  {
    if facts != [] && facts[0].id != id {
      SeenIsFraction(facts[1..], id);
    }
  }

  lemma {:induction false} RefreshedKeeps(towers: seq<Tower>, facts: seq<Tower>, count: nat)
    requires count <= |towers| && Fractions(facts)
    ensures var r := Refreshed(towers, facts, count);
      && |r| == count && Fractions(r)
      && forall i :: 0 <= i < count ==> r[i].id == towers[i].id && r[i].own == towers[i].own
    decreases count
  {
    if count > 0 {
      RefreshedKeeps(towers, facts, count - 1);
      SeenIsFraction(facts, towers[count - 1].id);
    }
  }

  lemma {:induction false} AppendedGrows(towers: seq<Tower>, facts: seq<Tower>, count: nat)
    requires count <= |facts| && Fractions(towers) && Fractions(facts)
    ensures var r := Appended(towers, facts, count);
      Fractions(r) && |r| <= |towers| + NewTowers(towers, facts[..count]) && towers <= r
    decreases count
  {
    if count > 0 {
      AppendedGrows(towers, facts, count - 1);
      assert facts[..count][..count - 1] == facts[..count - 1];
      var before := Appended(towers, facts, count - 1);
      assert Fraction(facts[count - 1].health);
      if Known(towers, facts[count - 1].id) {
        var i :| 0 <= i < |towers| && towers[i].id == facts[count - 1].id;
        assert before[i] == towers[i];
      }
    } else {
      assert facts[..0] == [];
    }
  }

  lemma {:induction false} NewTowersById(a: seq<Tower>, b: seq<Tower>, facts: seq<Tower>)
    requires |a| == |b| && forall i :: 0 <= i < |a| ==> a[i].id == b[i].id
    ensures NewTowers(a, facts) == NewTowers(b, facts)
    decreases |facts|
  {
    if facts != [] {
      NewTowersById(a, b, facts[..|facts| - 1]);
      var id := facts[|facts| - 1].id;
      assert Known(a, id) <==> Known(b, id) by {
        if Known(a, id) { var i :| 0 <= i < |a| && a[i].id == id; assert b[i].id == id; }
        if Known(b, id) { var i :| 0 <= i < |b| && b[i].id == id; assert a[i].id == id; }
      }
    }
  }

  lemma NoneRefreshed(towers: seq<Tower>, facts: seq<Tower>)
    ensures Refreshed(towers, facts, 0) + towers[0..] == towers
  {
  }

  lemma RefreshOne(towers: seq<Tower>, facts: seq<Tower>, i: nat)
    requires i < |towers|
    ensures var now := Refreshed(towers, facts, i) + towers[i..];
      && |Refreshed(towers, facts, i)| == i && now[i] == towers[i]
      && now[i := towers[i].(health := SeenHealth(facts, towers[i].id))] == Refreshed(towers, facts, i + 1) + towers[i + 1..]
  {
    RefreshedHealth(towers, facts, i);
  }

  /** The tower history never outgrows its cap, every tower keeps its side, and health stays a fraction. */
  lemma TowersStayBounded(towers: seq<Tower>, facts: seq<Tower>)
    requires Fractions(towers) && Fractions(facts) && |towers| + NewTowers(towers, facts) <= MAX_TOWERS
    ensures var r := UpdatedTowers(towers, facts);
      && Fractions(r) && |towers| <= |r| <= MAX_TOWERS
      && forall i :: 0 <= i < |towers| ==> r[i] == towers[i].(health := SeenHealth(facts, towers[i].id))
  {
    RefreshedKeeps(towers, facts, |towers|);
    var refreshed := Refreshed(towers, facts, |towers|);
    AppendedGrows(refreshed, facts, |facts|);
    NewTowersById(refreshed, towers, facts);
    assert facts[..|facts|] == facts;
    RefreshedHealth(towers, facts, |towers|);
  }

  lemma {:induction false} RefreshedHealth(towers: seq<Tower>, facts: seq<Tower>, count: nat)
    requires count <= |towers|
    ensures |Refreshed(towers, facts, count)| == count
    ensures forall i :: 0 <= i < count ==> Refreshed(towers, facts, count)[i].health == SeenHealth(facts, towers[i].id)
    decreases count
  {
    if count > 0 {
      RefreshedHealth(towers, facts, count - 1);
    }
  }

  /** Whether an id is a side's hero body in this snapshot or the previous one. */
  predicate IsHero(heroes: Option<Id>, previous: Option<Facts>, own: bool, id: Id) {
    heroes == Some(id)
    || (previous.Some? && (if own then previous.value.heroes.own else previous.value.heroes.enemy) == Some(id))
  }

  /** Books one event; damage to the own hero outranks damage it deals. */
  function Attributed(o: Observations, next: Facts, previous: Option<Facts>, towers: seq<Tower>, event: Event): Observations
    requires event.Damaged? ==> event.amount >= 0
  {
    if !event.Damaged? then o
    else
      var amount: nat := event.amount;
      if IsHero(next.heroes.own, previous, true, event.target) then
        if event.source.Some? && IsHero(next.heroes.enemy, previous, false, event.source.value) then
          o.(heroDamageTaken := o.heroDamageTaken + amount)
        else if event.source.Some? && SideOf(towers, event.source.value).Some? then
          o.(towerDamageTaken := o.towerDamageTaken + amount)
        else o.(otherDamageTaken := o.otherDamageTaken + amount)
      else if event.source.Some? && IsHero(next.heroes.own, previous, true, event.source.value) then
        if IsHero(next.heroes.enemy, previous, false, event.target) then
          o.(heroDamageDealt := o.heroDamageDealt + amount)
        else if SideOf(towers, event.target) == Some(false) then
          o.(structureDamageDealt := o.structureDamageDealt + amount)
        else o
      else o
  }

  function AttributedAll(o: Observations, next: Facts, previous: Option<Facts>, towers: seq<Tower>, events: seq<Event>): Observations
    requires ValidEvents(events)
  {
    if events == [] then o
    else
      var last := events[|events| - 1];
      assert last.Damaged? ==> last.amount >= 0;
      Attributed(AttributedAll(o, next, previous, towers, events[..|events| - 1]), next, previous, towers, last)
  }

  /** All damage a batch reports to the own hero. */
  function DamageToOwn(next: Facts, previous: Option<Facts>, events: seq<Event>): int {
    if events == [] then 0
    else
      var last := events[|events| - 1];
      DamageToOwn(next, previous, events[..|events| - 1])
      + (if last.Damaged? && IsHero(next.heroes.own, previous, true, last.target) then last.amount else 0)
  }

  function Taken(o: Observations): int { o.heroDamageTaken + o.towerDamageTaken + o.otherDamageTaken }

  predicate SameScoreboard(a: Observations, b: Observations) {
    a.deaths == b.deaths && a.xp == b.xp && a.lastHits == b.lastHits && a.denies == b.denies
  }

  /** Every point of damage to the own hero is booked once, and events touch no scoreboard counter. */
  lemma {:induction false} DamageIsBookedOnce(o: Observations, next: Facts, previous: Option<Facts>, towers: seq<Tower>, events: seq<Event>)
    requires ValidEvents(events)
    ensures var after := AttributedAll(o, next, previous, towers, events);
      && Taken(after) == Taken(o) + DamageToOwn(next, previous, events)
      && SameScoreboard(after, o)
    decreases |events|
  {
    hide IsHero, SideOf;
    if events != [] {
      var shorter := events[..|events| - 1];
      assert forall i :: 0 <= i < |shorter| ==> shorter[i] == events[i];
      DamageIsBookedOnce(o, next, previous, towers, shorter);
    }
  }

  // ---------------------------------------------------------------- which counter an event belongs to

  /** Bodies a side's hero has in this snapshot or had in the previous one. */
  ghost function Bodies(now: Option<Id>, before: Option<Id>): set<Id> {
    (if now.Some? then {now.value} else {}) + (if before.Some? then {before.value} else {})
  }

  ghost function OwnBodies(next: Facts, previous: Option<Facts>): set<Id> {
    Bodies(next.heroes.own, if previous.Some? then previous.value.heroes.own else None)
  }

  ghost function EnemyBodies(next: Facts, previous: Option<Facts>): set<Id> {
    Bodies(next.heroes.enemy, if previous.Some? then previous.value.heroes.enemy else None)
  }

  datatype Ledgered = TakenFromHero | TakenFromTower | TakenOtherwise | DealtToHero | DealtToTower

  /** The class of a damage event: damage to the own hero by its source, damage by the own hero by its target. */
  ghost predicate Belongs(class_: Ledgered, next: Facts, previous: Option<Facts>, towers: seq<Tower>, event: Event)
    requires event.Damaged?
  {
    var own, enemy := OwnBodies(next, previous), EnemyBodies(next, previous);
    var fromHero := event.source.Some? && event.source.value in enemy;
    var fromTower := event.source.Some? && Known(towers, event.source.value);
    match class_
    case TakenFromHero => event.target in own && fromHero
    case TakenFromTower => event.target in own && !fromHero && fromTower
    case TakenOtherwise => event.target in own && !fromHero && !fromTower
    case DealtToHero => event.target !in own && event.source.Some? && event.source.value in own && event.target in enemy
    case DealtToTower =>
      && event.target !in own && event.source.Some? && event.source.value in own && event.target !in enemy
      && SideOf(towers, event.target) == Some(false)
  }

  /** Damage of one class in a batch. */
  ghost function DamageOf(class_: Ledgered, next: Facts, previous: Option<Facts>, towers: seq<Tower>, events: seq<Event>): int {
    if events == [] then 0
    else
      var last := events[|events| - 1];
      DamageOf(class_, next, previous, towers, events[..|events| - 1])
      + (if last.Damaged? && Belongs(class_, next, previous, towers, last) then last.amount else 0)
  }

  lemma {:induction false} SideOfKnown(towers: seq<Tower>, id: Id)
    ensures SideOf(towers, id).Some? <==> Known(towers, id)
    ensures SideOf(towers, id).Some? ==>
      exists i :: 0 <= i < |towers| && towers[i].id == id && Some(towers[i].own) == SideOf(towers, id)
                  && forall k :: 0 <= k < i ==> towers[k].id != id
  {
    if towers != [] && towers[0].id != id {
      SideOfKnown(towers[1..], id);
      if Known(towers, id) {
        var i :| 0 <= i < |towers| && towers[i].id == id;
        assert towers[1..][i - 1].id == id;
      }
      if SideOf(towers[1..], id).Some? {
        var i :| 0 <= i < |towers[1..]| && towers[1..][i].id == id && Some(towers[1..][i].own) == SideOf(towers[1..], id)
                 && forall k :: 0 <= k < i ==> towers[1..][k].id != id;
        assert towers[i + 1] == towers[1..][i];
        assert forall k :: 0 < k < i + 1 ==> towers[k] == towers[1..][k - 1];
      }
    }
  }

  lemma OneEventCounts(o: Observations, next: Facts, previous: Option<Facts>, towers: seq<Tower>, event: Event)
    requires event.Damaged? && event.amount >= 0
    ensures var after := Attributed(o, next, previous, towers, event);
      && after.heroDamageTaken == o.heroDamageTaken + (if Belongs(TakenFromHero, next, previous, towers, event) then event.amount else 0)
      && after.towerDamageTaken == o.towerDamageTaken + (if Belongs(TakenFromTower, next, previous, towers, event) then event.amount else 0)
      && after.otherDamageTaken == o.otherDamageTaken + (if Belongs(TakenOtherwise, next, previous, towers, event) then event.amount else 0)
      && after.heroDamageDealt == o.heroDamageDealt + (if Belongs(DealtToHero, next, previous, towers, event) then event.amount else 0)
      && after.structureDamageDealt
           == o.structureDamageDealt + (if Belongs(DealtToTower, next, previous, towers, event) then event.amount else 0)
  {
    if event.source.Some? { SideOfKnown(towers, event.source.value); }
  }

  /** Every counter of a batch grows by the damage of its own class. */
  lemma {:induction false} CountersAreSums(o: Observations, next: Facts, previous: Option<Facts>, towers: seq<Tower>, events: seq<Event>)
    requires ValidEvents(events)
    ensures var after := AttributedAll(o, next, previous, towers, events);
      && after.heroDamageTaken == o.heroDamageTaken + DamageOf(TakenFromHero, next, previous, towers, events)
      && after.towerDamageTaken == o.towerDamageTaken + DamageOf(TakenFromTower, next, previous, towers, events)
      && after.otherDamageTaken == o.otherDamageTaken + DamageOf(TakenOtherwise, next, previous, towers, events)
      && after.heroDamageDealt == o.heroDamageDealt + DamageOf(DealtToHero, next, previous, towers, events)
      && after.structureDamageDealt == o.structureDamageDealt + DamageOf(DealtToTower, next, previous, towers, events)
    decreases |events|
  {
    hide Attributed, Belongs;
    if events != [] {
      var shorter, last := events[..|events| - 1], events[|events| - 1];
      assert forall i :: 0 <= i < |shorter| ==> shorter[i] == events[i];
      CountersAreSums(o, next, previous, towers, shorter);
      if last.Damaged? {
        assert last.amount >= 0;
        OneEventCounts(AttributedAll(o, next, previous, towers, shorter), next, previous, towers, last);
      } else {
        OthersCountNothing(AttributedAll(o, next, previous, towers, shorter), next, previous, towers, last);
      }
    }
  }

  lemma OthersCountNothing(o: Observations, next: Facts, previous: Option<Facts>, towers: seq<Tower>, event: Event)
    requires !event.Damaged?
    ensures Attributed(o, next, previous, towers, event) == o
  {
  }

  // ---------------------------------------------------------------- the tower history

  /** The first entry of the id counts; without one the tower is destroyed. */
  lemma {:induction false} SeenIsFirst(facts: seq<Tower>, id: Id)
    ensures !Known(facts, id) ==> SeenHealth(facts, id) == 0.0
    ensures forall i :: 0 <= i < |facts| && facts[i].id == id && (forall k :: 0 <= k < i ==> facts[k].id != id) ==>
      SeenHealth(facts, id) == facts[i].health
  {
    if facts != [] && facts[0].id != id {
      SeenIsFirst(facts[1..], id);
      assert forall i :: 0 < i < |facts| ==> facts[1..][i - 1] == facts[i];
      if Known(facts[1..], id) {
        var i :| 0 <= i < |facts[1..]| && facts[1..][i].id == id;
        assert facts[i + 1].id == id;
      }
    }
  }

  ghost predicate DistinctTowers(towers: seq<Tower>) {
    forall i, j :: 0 <= i < j < |towers| ==> towers[i].id != towers[j].id
  }

  /** Every tower seen is known afterwards, once, and only those and the earlier ones are. */
  lemma {:induction false} AppendedExactly(towers: seq<Tower>, facts: seq<Tower>, count: nat)
    requires count <= |facts|
    ensures var r := Appended(towers, facts, count);
      && towers <= r
      && (forall i :: 0 <= i < count ==> Known(r, facts[i].id))
      && (forall i :: |towers| <= i < |r| ==> r[i] in facts[..count] && !Known(towers, r[i].id))
      && (DistinctTowers(towers) ==> DistinctTowers(r))
    decreases count
  {
    if count > 0 {
      AppendedExactly(towers, facts, count - 1);
      var before, r := Appended(towers, facts, count - 1), Appended(towers, facts, count);
      var fact := facts[count - 1];
      assert before <= r;
      forall i | 0 <= i < count ensures Known(r, facts[i].id) {
        if i < count - 1 {
          var k :| 0 <= k < |before| && before[k].id == facts[i].id;
          assert r[k] == before[k];
        } else if !Known(before, fact.id) {
          assert r[|before|] == fact;
        }
      }
      assert forall t :: t in facts[..count - 1] ==> t in facts[..count];
      assert facts[..count][count - 1] == fact;
    }
  }

  /** With distinct towers in sight the history grows by exactly the towers that were not known. */
  lemma {:induction false} HistoryGrowsByNew(towers: seq<Tower>, facts: seq<Tower>, count: nat)
    requires count <= |facts| && DistinctTowers(facts)
    ensures |Appended(towers, facts, count)| == |towers| + NewTowers(towers, facts[..count])
    decreases count
  {
    if count > 0 {
      HistoryGrowsByNew(towers, facts, count - 1);
      AppendedExactly(towers, facts, count - 1);
      assert facts[..count][..count - 1] == facts[..count - 1];
      var before, id := Appended(towers, facts, count - 1), facts[count - 1].id;
      if Known(towers, id) {
        var k :| 0 <= k < |towers| && towers[k].id == id;
        assert before[k].id == id;
      }
    } else {
      assert facts[..0] == [];
    }
  }

  // ---------------------------------------------------------------- the observer

  /** Ghost ledger: the first completed snapshot with its potential, everything drained since, and how often denies fell. */
  datatype Ledger = Ledger(first: Option<(Facts, Potential)>, ticks: nat, shaping: Potential, total: real,
                           seen: Observations, drops: Both<nat>)

  ghost predicate Balanced(ledger: Ledger, current: Option<Facts>, potential: Potential, interval: Breakdown) {
    && (current.None? <==> ledger.first.None?)
    && interval.closure == interval.terminal == interval.fastWin == 0.0 && interval.end == None
    && interval.total == interval.shaping.Total()
    && ledger.total == ledger.shaping.Total()
    && (current.None? ==> ledger.shaping == ZERO && ledger.ticks == 0 && ledger.seen == NOTHING_SEEN && ledger.drops == Both(0, 0) && interval == EMPTY)
    && (current.Some? ==>
      var (start, initial) := ledger.first.value;
      && ledger.shaping.Plus(interval.shaping) == potential.Minus(initial)
      && ledger.ticks + interval.ticks + start.tick == current.value.tick
      && ScoreboardIs(ledger.seen, interval.observations, start, current.value, ledger.drops))
  }

  /** Drained and pending counters together are what the scoreboard gained, and 65536 more for every fall of the denies. */
  ghost predicate ScoreboardIs(drained: Observations, pending: Observations, start: Facts, now: Facts, drops: Both<nat>) {
    && drained.deaths.own + pending.deaths.own + start.deaths.own == now.deaths.own
    && drained.deaths.enemy + pending.deaths.enemy + start.deaths.enemy == now.deaths.enemy
    && drained.xp.own + pending.xp.own + start.xp.own == now.xp.own
    && drained.xp.enemy + pending.xp.enemy + start.xp.enemy == now.xp.enemy
    && drained.lastHits.own + pending.lastHits.own + start.farm.own.lastHits == now.farm.own.lastHits
    && drained.lastHits.enemy + pending.lastHits.enemy + start.farm.enemy.lastHits == now.farm.enemy.lastHits
    && drained.denies.own + pending.denies.own + start.farm.own.denies == now.farm.own.denies + 65536 * drops.own
    && drained.denies.enemy + pending.denies.enemy + start.farm.enemy.denies == now.farm.enemy.denies + 65536 * drops.enemy
  }

  function AddSeen(a: Observations, b: Observations): Observations {
    Observations(Both(a.deaths.own + b.deaths.own, a.deaths.enemy + b.deaths.enemy),
                 Both(a.xp.own + b.xp.own, a.xp.enemy + b.xp.enemy),
                 Both(a.lastHits.own + b.lastHits.own, a.lastHits.enemy + b.lastHits.enemy),
                 Both(a.denies.own + b.denies.own, a.denies.enemy + b.denies.enemy),
                 a.heroDamageDealt + b.heroDamageDealt, a.heroDamageTaken + b.heroDamageTaken,
                 a.towerDamageTaken + b.towerDamageTaken, a.otherDamageTaken + b.otherDamageTaken,
                 a.structureDamageDealt + b.structureDamageDealt)
  }

  function Dropped(ledger: Ledger, previous: Facts, next: Facts): Ledger {
    ledger.(drops := Both(ledger.drops.own + Drop(previous.farm.own, next.farm.own),
                          ledger.drops.enemy + Drop(previous.farm.enemy, next.farm.enemy)))
  }

  /** Committing a tick moves the potential and books the difference. */
  lemma TickKeepsBalance(ledger: Ledger, previous: Facts, potential: Potential, interval: Breakdown, next: Facts, moved: Potential,
                         booked: Observations)
    requires Balanced(ledger, Some(previous), potential, interval) && Progresses(previous, next)
    requires next.tick == previous.tick + 1 && SameScoreboard(booked, interval.observations)
    requires previous.farm.own.denies < 65536 && previous.farm.enemy.denies < 65536
    ensures var after := interval.(shaping := interval.shaping.Plus(moved.Minus(potential)), ticks := interval.ticks + 1,
                                   observations := Gained(booked, previous, next));
      Balanced(Dropped(ledger, previous, next), Some(next), moved, Retotal(after))
  {
  }

  lemma NothingBalances()
    ensures Balanced(Ledger(None, 0, ZERO, 0.0, NOTHING_SEEN, Both(0, 0)), None, ZERO, EMPTY)
  {
  }

  /** The first tick is the baseline: it books damage but no shaping and no scoreboard gain. */
  lemma FirstTickBalances(ledger: Ledger, potential: Potential, interval: Breakdown, facts: Facts, moved: Potential,
                          booked: Observations)
    requires Balanced(ledger, None, potential, interval) && SameScoreboard(booked, interval.observations)
    ensures Balanced(ledger.(first := Some((facts, moved))), Some(facts), moved, Retotal(interval.(observations := booked)))
    ensures ledger.total == 0.0
  {
  }

  lemma GainedKeepsTaken(o: Observations, previous: Facts, next: Facts)
    requires Progresses(previous, next) && previous.farm.own.denies < 65536 && previous.farm.enemy.denies < 65536
    ensures Taken(Gained(o, previous, next)) == Taken(o)
  {
  }

  lemma DrainKeepsBalance(ledger: Ledger, current: Facts, potential: Potential, interval: Breakdown)
    requires Balanced(ledger, Some(current), potential, interval)
    ensures Balanced(Ledger(ledger.first, ledger.ticks + interval.ticks, ledger.shaping.Plus(interval.shaping),
                            ledger.total + interval.total, AddSeen(ledger.seen, interval.observations), ledger.drops),
                     Some(current), potential, EMPTY)
  {
  }

  /** Counters after a completed tick: its damage by class, and from the second tick on the scoreboard's gains. */
  ghost predicate Observed(before: Observations, previous: Option<Facts>, facts: Facts, towers: seq<Tower>, events: seq<Event>,
                           after: Observations)
  {
    && ValidEvents(events)
    && var booked := AttributedAll(before, facts, previous, towers, events);
       if previous.None? then after == booked
       else
         && ValidFacts(previous.value) && Progresses(previous.value, facts)
         && after == Gained(booked, previous.value, facts)
  }

  class RewardObserver {
    var current: Option<Facts>
    var pending: Option<Facts>
    var towers: seq<Tower>
    var heroHealth: Both<real>
    var potential: Potential
    var interval: Breakdown
    var ended: bool
    ghost var ledger: Ledger

    ghost predicate Valid()
      reads this
    {
      && Fractions(towers) && |towers| <= MAX_TOWERS
      && Fraction(heroHealth.own) && Fraction(heroHealth.enemy)
      && (current.Some? ==> ValidFacts(current.value) && potential == PotentialOf(current.value, towers, heroHealth))
      && (pending.Some? ==> Staged(pending.value))
      && (!ended ==> Balanced(ledger, current, potential, interval))
    }

    /** A snapshot that may be staged now. */
    predicate Staged(facts: Facts)
      reads this
    {
      && ValidFacts(facts)
      && |towers| + NewTowers(towers, facts.towers) <= MAX_TOWERS
      && (current.Some? ==> facts.tick == current.value.tick + 1 && Progresses(current.value, facts))
    }

    constructor ()
      ensures Valid() && !ended && current == None && pending == None && ledger.first == None && ledger.total == 0.0
    {
      current, pending, towers, heroHealth := None, None, [], Both(1.0, 1.0);
      potential, interval, ended := ZERO, EMPTY, false;
      ledger := Ledger(None, 0, ZERO, 0.0, NOTHING_SEEN, Both(0, 0));
      new;
      hide Balanced, PotentialOf;
      NothingBalances();
    }

    /** Stages one snapshot; a refused one changes nothing. */
    method ObserveSnapshot(facts: Facts) returns (ok: bool)
      requires Valid() && ValidFacts(facts)
      modifies this`pending
      ensures Valid()
      ensures ok <==> !ended && old(pending).None? && Staged(facts)
      ensures ok <==>
        && !ended && old(pending).None? && |towers| + NewTowers(towers, facts.towers) <= 64
        && (current.Some? ==>
              var previous := current.value;
              && facts.tick == previous.tick + 1
              && previous.xp.own <= facts.xp.own && previous.xp.enemy <= facts.xp.enemy
              && previous.deaths.own <= facts.deaths.own && previous.deaths.enemy <= facts.deaths.enemy
              && previous.farm.own.lastHits <= facts.farm.own.lastHits && previous.farm.enemy.lastHits <= facts.farm.enemy.lastHits
              && (previous.farm.own.lastHits == facts.farm.own.lastHits ==> previous.farm.own.denies <= facts.farm.own.denies)
              && (previous.farm.enemy.lastHits == facts.farm.enemy.lastHits ==> previous.farm.enemy.denies <= facts.farm.enemy.denies))
      ensures pending == if ok then Some(facts) else old(pending)
    {
      hide Balanced, PotentialOf, NewTowers, Fractions, ValidFacts;
      if ended || pending.Some? {
        return false;
      }
      if current.Some? && current.value.tick + 1 != facts.tick {
        return false;
      }
      if current.Some? && !Progresses(current.value, facts) {
        return false;
      }
      if |towers| + NewTowers(towers, facts.towers) > MAX_TOWERS {
        return false;
      }
      pending := Some(facts);
      ok := true;
    }

    /** Refreshes the known towers and appends the new ones. */
    method UpdateTowers(facts: seq<Tower>)
      requires Fractions(towers) && Fractions(facts) && |towers| + NewTowers(towers, facts) <= MAX_TOWERS
      modifies this`towers
      ensures towers == UpdatedTowers(old(towers), facts)
      ensures Fractions(towers) && |towers| <= MAX_TOWERS
    {
      hide Fractions, NewTowers, Known, SeenHealth, Refreshed, Appended;
      TowersStayBounded(towers, facts);
      RefreshTowers(facts);
      AppendTowers(facts);
    }

    /** Health of every known tower; a tower no longer seen is destroyed. */
    method RefreshTowers(facts: seq<Tower>)
      modifies this`towers
      ensures towers == Refreshed(old(towers), facts, |old(towers)|)
    {
      hide Known, SeenHealth, Refreshed;
      var before := towers;
      NoneRefreshed(before, facts);
      for i := 0 to |before|
        invariant towers == Refreshed(before, facts, i) + before[i..]
      {
        RefreshOne(before, facts, i);
        towers := towers[i := towers[i].(health := SeenHealth(facts, towers[i].id))];
      }
      assert before[|before|..] == [];
    }

    method AppendTowers(facts: seq<Tower>)
      modifies this`towers
      ensures towers == Appended(old(towers), facts, |facts|)
    {
      var before := towers;
      for i := 0 to |facts|
        invariant towers == Appended(before, facts, i)
      {
        if !Known(towers, facts[i].id) {
          towers := towers + [facts[i]];
        }
      }
    }

    /** A dead hero counts as its full next life; an unseen living one keeps its last seen health. */
    method UpdateHeroHealth(facts: Facts)
      requires ValidFacts(facts) && Fraction(heroHealth.own) && Fraction(heroHealth.enemy)
      modifies this`heroHealth
      ensures Fraction(heroHealth.own) && Fraction(heroHealth.enemy)
      ensures heroHealth.own == if facts.heroes.own.None? then 1.0 else facts.heroHealth.own.value
      ensures heroHealth.enemy ==
        if facts.heroes.enemy.None? then 1.0
        else if facts.heroHealth.enemy.Some? then facts.heroHealth.enemy.value else old(heroHealth).enemy
    {
      var own := if facts.heroes.own.None? then 1.0
                 else if facts.heroHealth.own.Some? then facts.heroHealth.own.value else heroHealth.own;
      var enemy := if facts.heroes.enemy.None? then 1.0
                   else if facts.heroHealth.enemy.Some? then facts.heroHealth.enemy.value else heroHealth.enemy;
      heroHealth := Both(own, enemy);
    }

    /** Books a batch of damage events in order. */
    method BookDamage(facts: Facts, events: seq<Event>) returns (booked: Observations)
      requires ValidEvents(events)
      ensures booked == AttributedAll(interval.observations, facts, current, towers, events)
    {
      booked := interval.observations;
      for i := 0 to |events|
        invariant booked == AttributedAll(interval.observations, facts, current, towers, events[..i])
      {
        assert events[..i + 1][..i] == events[..i];
        assert events[i].Damaged? ==> events[i].amount >= 0;
        booked := Attributed(booked, facts, current, towers, events[i]);
      }
      assert events[..|events|] == events;
    }

    /** Completes the staged tick: books its damage and moves the potential. */
    method ObserveEvents(tick: nat, events: seq<Event>) returns (ok: bool)
      requires Valid()
      modifies this
      ensures Valid()
      ensures ok <==> !old(ended) && old(pending).Some? && old(pending).value.tick == tick && ValidEvents(events)
      ensures !ok ==> unchanged(this)
      ensures ok ==> current == old(pending) && pending == None && !ended && towers == UpdatedTowers(old(towers), current.value.towers)
      ensures ok ==>
        && heroHealth.own == (if current.value.heroes.own.None? then 1.0 else current.value.heroHealth.own.value)
        && heroHealth.enemy == (if current.value.heroes.enemy.None? then 1.0
                                else if current.value.heroHealth.enemy.Some? then current.value.heroHealth.enemy.value
                                else old(heroHealth).enemy)
      ensures ok ==> Observed(old(interval).observations, old(current), old(pending).value, old(towers), events, interval.observations)
      ensures ok && old(current).Some? ==>
        && interval.shaping == old(interval).shaping.Plus(potential.Minus(old(potential)))
        && ledger == Dropped(old(ledger), old(current).value, old(pending).value)
        && Taken(interval.observations)
             == Taken(old(interval).observations) + DamageToOwn(old(pending).value, old(current), events)
      ensures ok && old(current).None? ==> ledger.first == Some((old(pending).value, potential)) && ledger.total == 0.0
    {
      hide Balanced, PotentialOf, AttributedAll, NewTowers, Gained, UpdatedTowers, DamageToOwn, Taken, Dropped, Fractions, SameScoreboard;
      if ended || pending.None? || pending.value.tick != tick || !ValidEvents(events) {
        return false;
      }
      var facts := pending.value;
      var booked := BookDamage(facts, events);
      DamageIsBookedOnce(interval.observations, facts, current, towers, events);
      UpdateTowers(facts.towers);
      UpdateHeroHealth(facts);
      var moved := PotentialOf(facts, towers, heroHealth);
      PotentialIsBounded(facts, towers, heroHealth);
      if current.Some? {
        var previous := current.value;
        TickKeepsBalance(ledger, previous, potential, interval, facts, moved, booked);
        GainedKeepsTaken(booked, previous, facts);
        interval := Retotal(interval.(shaping := interval.shaping.Plus(moved.Minus(potential)), ticks := interval.ticks + 1,
                                      observations := Gained(booked, previous, facts)));
        ledger := Dropped(ledger, previous, facts);
      } else {
        FirstTickBalances(ledger, potential, interval, facts, moved, booked);
        interval := Retotal(interval.(observations := booked));
        ledger := ledger.(first := Some((facts, moved)));
      }
      current, pending, potential := Some(facts), None, moved;
      ok := true;
    }

    /** Drains the completed interval without resetting the potential. */
    method TakeInterval() returns (result: Option<Breakdown>)
      requires Valid()
      modifies this`interval, this`ledger
      ensures Valid()
      ensures result.Some? <==> !ended && pending.None? && current.Some?
      ensures result.None? ==> unchanged(this)
      ensures result.Some? ==>
        && result.value == old(interval) && interval == EMPTY
        && ledger.first == old(ledger).first && ledger.total == old(ledger).total + result.value.total
        && ledger.seen == AddSeen(old(ledger).seen, result.value.observations) && ledger.drops == old(ledger).drops
    {
      hide Balanced, PotentialOf, AddSeen;
      if ended || pending.Some? || current.None? {
        return None;
      }
      DrainKeepsBalance(ledger, current.value, potential, interval);
      result := Some(interval);
      ledger := Ledger(ledger.first, ledger.ticks + interval.ticks, ledger.shaping.Plus(interval.shaping),
                       ledger.total + interval.total, AddSeen(ledger.seen, interval.observations), ledger.drops);
      interval := EMPTY;
    }

    /**
     * Drains the last interval with the terminal reward and the closure. Over
     * the whole episode, however it was cut into intervals, everything drained
     * sums to the outcome less the potential of the first tick.
     */
    method Finish(end: End) returns (result: Option<Breakdown>)
      requires Valid()
      modifies this`interval, this`ended
      ensures Valid()
      ensures result.Some? <==> !old(ended) && pending.None? && current.Some?
      ensures result.None? ==> unchanged(this)
      ensures result.Some? ==>
        && ended && result.value.end == Some(end) && current.Some? && ledger.first.Some?
        && ledger.total + result.value.total
             == (match end case Win => 1.0 case Loss => -1.0 case Draw => -0.5 case TimeCap => -0.5)
                + FastWin(end, current.value.tick) - ledger.first.value.1.Total()
        && ScoreboardIs(ledger.seen, result.value.observations, ledger.first.value.0, current.value, ledger.drops)
        && ledger.ticks + result.value.ticks + ledger.first.value.0.tick == current.value.tick
    {
      hide PotentialOf, FastWin;
      if ended || pending.Some? || current.None? {
        return None;
      }
      var last := Retotal(interval.(closure := -potential.Total(), terminal := Terminal(end),
                                    fastWin := FastWin(end, current.value.tick), end := Some(end)));
      ended := true;
      interval := EMPTY;
      result := Some(last);
    }
  }

  /** While an episode runs, what was drained and what is pending is the potential gained since its first tick. */
  lemma ShapingTelescopes(observer: RewardObserver)
    requires observer.Valid() && !observer.ended && observer.current.Some?
    ensures observer.ledger.first.Some?
    ensures observer.ledger.total + observer.interval.total
         == observer.potential.Total() - observer.ledger.first.value.1.Total()
    ensures -POTENTIAL_BOUND <= observer.potential.Total() <= POTENTIAL_BOUND
  {
    hide PotentialOf;
    PotentialIsBounded(observer.current.value, observer.towers, observer.heroHealth);
  }
}
