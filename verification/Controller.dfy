// The adaptive environment controller: counters that decide after every
// update whether the randomization generation goes on, and the literal
// history rule they have to reproduce.
module Controller {
  import opened Common
  import opened Geometry

  const MAX_TRAINING_COUNTER: nat := 1_000_000_000

  /** Rates and the extension are in millionths. */
  datatype Config = Config(successUpdates: U64, successRate: U64, poorUpdates: U64, poorRate: U64, extension: U64)

  datatype Limits = Limits(baseUpdates: U64, totalUpdates: U64, zeroUpdates: U64)

  datatype State = State(generation: U64, startUpdate: U64, updatesInGeneration: U64,
                         successStreak: U64, poorStreak: U64, extensionAwards: U64)

  const INITIAL := State(0, 0, 0, 0, 0, 0)

  datatype Fault =
    | InvalidConfig | InvalidLimits
    | UpdateOutOfRange | WinsExceedGames | Overflow
    | UpdateMismatch | PastTotal | StartPastTotal | GenerationMismatch
    | SuccessStreakTooLong | PoorStreakTooLong | DisjointStreaks | TooManyAwards | MissingAward
    | AwardsExceedCounter | BudgetExceedsCounter | OverBudget | UnspentSuccess | ExhaustedBudget | CrossesBoundary

  datatype Result<+T> = Ok(value: T) | Err(fault: Fault)

  datatype Check = Pass | Fail(fault: Fault)

  predicate InCounterRange(n: nat) { 1 <= n <= MAX_TRAINING_COUNTER }

  predicate ValidConfig(config: Config) {
    && InCounterRange(config.successUpdates) && InCounterRange(config.poorUpdates)
    && config.successRate <= SCALE && config.poorRate <= SCALE
    && config.extension <= MAX_TRAINING_COUNTER * SCALE
  }

  predicate ValidLimits(limits: Limits) {
    && InCounterRange(limits.baseUpdates) && InCounterRange(limits.totalUpdates)
    && limits.zeroUpdates <= limits.totalUpdates
  }

  /** Last update before the zero-randomization tail. */
  function Boundary(limits: Limits): nat { SaturatingSub(limits.totalUpdates, limits.zeroUpdates) }

  function SaturatingSub(a: nat, b: nat): nat { if a < b then 0 else a - b }

  // ---------------------------------------------------------------- the checks

  function ValidateStreaks(state: State, config: Config, terminal: bool): Check
    requires ValidConfig(config)
  {
    if state.successStreak > config.successUpdates || state.successStreak > state.updatesInGeneration then
      Fail(SuccessStreakTooLong)
    else if state.poorStreak > config.poorUpdates || state.poorStreak > state.updatesInGeneration then
      Fail(PoorStreakTooLong)
    else if config.successRate > config.poorRate && state.successStreak > 0 && state.poorStreak > 0 then
      Fail(DisjointStreaks)
    else
      var terminalSuccess := terminal && state.successStreak == config.successUpdates;
      var qualifying := SaturatingSub(state.updatesInGeneration, config.poorUpdates - 1);
      var maximumAwards :=
        if terminalSuccess && state.poorStreak == config.poorUpdates then SaturatingSub(qualifying, 1) else qualifying;
      if state.extensionAwards > maximumAwards then Fail(TooManyAwards)
      else if state.poorStreak == config.poorUpdates && state.extensionAwards == 0 && !terminalSuccess then
        Fail(MissingAward)
      else Pass
  }

  /** Base updates plus the whole part of the exact accumulated credit. */
  function Budget(awards: nat, config: Config, limits: Limits): (budget: nat)
    ensures var credit := limits.baseUpdates * 1_000_000 + awards * config.extension;
      credit - 1_000_000 < budget * 1_000_000 <= credit
  {
    limits.baseUpdates + awards * config.extension / SCALE
  }

  function EffectiveBudget(state: State, config: Config, limits: Limits): Result<nat> {
    if !ValidConfig(config) then Err(InvalidConfig)
    else if !ValidLimits(limits) then Err(InvalidLimits)
    else if state.extensionAwards > MAX_TRAINING_COUNTER then Err(AwardsExceedCounter)
    else
      var budget := Budget(state.extensionAwards, config, limits);
      if budget > MAX_TRAINING_COUNTER then Err(BudgetExceedsCounter) else Ok(budget)
  }

  function Validate(state: State, config: Config, limits: Limits, globalUpdate: U64): Check {
    if !ValidConfig(config) then Fail(InvalidConfig)
    else if !ValidLimits(limits) then Fail(InvalidLimits)
    else if state.startUpdate + state.updatesInGeneration >= U64_LIMIT then Fail(Overflow)
    else if state.startUpdate + state.updatesInGeneration != globalUpdate then Fail(UpdateMismatch)
    else if globalUpdate > limits.totalUpdates then Fail(PastTotal)
    else if state.startUpdate >= limits.totalUpdates then Fail(StartPastTotal)
    else if state.generation > state.startUpdate || (state.generation == 0) != (state.startUpdate == 0) then
      Fail(GenerationMismatch)
    else
      var terminal := globalUpdate == limits.totalUpdates;
      var streaks := ValidateStreaks(state, config, terminal);
      if streaks.Fail? then streaks
      else
        match EffectiveBudget(state, config, limits)
        case Err(fault) => Fail(fault)
        case Ok(budget) =>
          if state.updatesInGeneration > budget then Fail(OverBudget)
          else if !terminal && state.successStreak == config.successUpdates then Fail(UnspentSuccess)
          else if !terminal && state.updatesInGeneration >= budget then Fail(ExhaustedBudget)
          else if Boundary(limits) < limits.totalUpdates && globalUpdate >= Boundary(limits)
                  && state.startUpdate < Boundary(limits) then Fail(CrossesBoundary)
          else Pass
  }

  // ---------------------------------------------------------------- one update

  function CappedStreak(current: U64, window: U64, qualifies: bool): (r: U64)
    ensures current <= window ==> r <= window
  {
    if qualifies then (if current + 1 < window then current + 1 else window) else 0
  }

  predicate GoodUpdate(config: Config, wins: nat, games: nat) {
    games > 0 && wins * SCALE >= config.successRate * games
  }

  predicate PoorUpdate(config: Config, wins: nat, games: nat) {
    games > 0 && wins * SCALE <= config.poorRate * games
  }

  function Advance(state: State, completedUpdate: U64): Result<State> {
    if state.generation + 1 >= U64_LIMIT || state.generation + 1 > MAX_TRAINING_COUNTER then Err(Overflow)
    else Ok(INITIAL.(generation := state.generation + 1, startUpdate := completedUpdate))
  }

  /** The counters after one more update, before any reset or award. */
  function Counted(state: State, config: Config, wins: nat, games: nat): State
    requires state.updatesInGeneration + 1 < U64_LIMIT
  {
    state.(updatesInGeneration := state.updatesInGeneration + 1,
           successStreak := CappedStreak(state.successStreak, config.successUpdates, GoodUpdate(config, wins, games)),
           poorStreak := CappedStreak(state.poorStreak, config.poorUpdates, PoorUpdate(config, wins, games)))
  }

  function Awarded(next: State, config: Config): Result<State> {
    if next.poorStreak == config.poorUpdates then
      if next.extensionAwards + 1 >= U64_LIMIT then Err(Overflow)
      else Ok(next.(extensionAwards := next.extensionAwards + 1))
    else Ok(next)
  }

  /** A reset, an award, or plain counting, in the controller's order of precedence. */
  function Decide(next: State, config: Config, limits: Limits, completedUpdate: U64, startUpdate: U64): Result<State>
  {
    var success := next.successStreak == config.successUpdates;
    var forceBoundary := completedUpdate == Boundary(limits) && startUpdate < Boundary(limits);
    if completedUpdate < limits.totalUpdates && (success || forceBoundary) then Advance(next, completedUpdate)
    else if !success then
      match Awarded(next, config)
      case Err(fault) => Err(fault)
      case Ok(awarded) =>
        match EffectiveBudget(awarded, config, limits)
        case Err(fault) => Err(fault)
        case Ok(budget) =>
          if completedUpdate < limits.totalUpdates && awarded.updatesInGeneration >= budget
          then Advance(awarded, completedUpdate)
          else Ok(awarded)
    else Ok(next)
  }

  function Observe(state: State, config: Config, limits: Limits, completedUpdate: U64, wins: U64, games: U64): Result<State> {
    if !ValidConfig(config) then Err(InvalidConfig)
    else if !ValidLimits(limits) then Err(InvalidLimits)
    else if !(1 <= completedUpdate <= limits.totalUpdates) then Err(UpdateOutOfRange)
    else
      match Validate(state, config, limits, completedUpdate - 1)
      case Fail(fault) => Err(fault)
      case Pass =>
        if wins > games then Err(WinsExceedGames)
        else if state.updatesInGeneration + 1 >= U64_LIMIT then Err(Overflow)
        else
          match Decide(Counted(state, config, wins, games), config, limits, completedUpdate, state.startUpdate)
          case Err(fault) => Err(fault)
          case Ok(next) =>
            match Validate(next, config, limits, completedUpdate)
            case Fail(fault) => Err(fault)
            case Pass => Ok(next)
  }

  // ---------------------------------------------------------------- the invariant is inductive

  /** Whether this update, counted on top of `state`, completes a success window. */
  predicate Succeeds(state: State, config: Config, wins: nat, games: nat) {
    CappedStreak(state.successStreak, config.successUpdates, GoodUpdate(config, wins, games)) == config.successUpdates
  }

  /** Awards after this update when it does not succeed. */
  function AwardsAfter(state: State, config: Config, wins: nat, games: nat): nat {
    state.extensionAwards
    + (if CappedStreak(state.poorStreak, config.poorUpdates, PoorUpdate(config, wins, games)) == config.poorUpdates
       then 1 else 0)
  }

  /** Whether the update resets the generation before its budget is looked at. */
  predicate ResetsEarly(state: State, config: Config, limits: Limits, completedUpdate: nat, wins: nat, games: nat) {
    completedUpdate < limits.totalUpdates
    && (Succeeds(state, config, wins, games)
        || (completedUpdate == Boundary(limits) && state.startUpdate < Boundary(limits)))
  }

  /** The one way an update of a valid state can be refused: the extended budget leaves the counter range. */
  predicate BudgetOverflows(state: State, config: Config, limits: Limits, completedUpdate: nat, wins: nat, games: nat) {
    && !ResetsEarly(state, config, limits, completedUpdate, wins, games)
    && !Succeeds(state, config, wins, games)
    && Budget(AwardsAfter(state, config, wins, games), config, limits) > MAX_TRAINING_COUNTER
  }

  lemma ThresholdsDisjoint(config: Config, wins: nat, games: nat)
    requires config.successRate > config.poorRate
    ensures !(GoodUpdate(config, wins, games) && PoorUpdate(config, wins, games))
  {
    if games > 0 {
      assert config.successRate * games > config.poorRate * games by {
        MulMonotone(config.poorRate + 1, config.successRate, games);
      }
    }
  }

  lemma ValidStateBounds(state: State, config: Config, limits: Limits, globalUpdate: U64)
    requires Validate(state, config, limits, globalUpdate) == Pass
    ensures ValidConfig(config) && ValidLimits(limits)
    ensures state.successStreak <= config.successUpdates && state.poorStreak <= config.poorUpdates
    ensures state.startUpdate + state.updatesInGeneration == globalUpdate <= limits.totalUpdates
    ensures state.updatesInGeneration <= Budget(state.extensionAwards, config, limits) <= MAX_TRAINING_COUNTER
    ensures state.extensionAwards <= SaturatingSub(state.updatesInGeneration, config.poorUpdates - 1)
    ensures globalUpdate < limits.totalUpdates ==>
      && state.successStreak < config.successUpdates
      && state.updatesInGeneration < Budget(state.extensionAwards, config, limits)
    ensures Boundary(limits) < limits.totalUpdates && globalUpdate >= Boundary(limits) ==>
      state.startUpdate >= Boundary(limits)
  {
  }

  /**
   * A state that can belong to a run: settings in range; the updates add up to
   * the global one; the generation began before the end, later than as many
   * others; streaks fit their windows and the generation; two disjoint
   * thresholds never run together; every award had a poor window of its own,
   * and a full poor window its award, unless a success at the very end
   * outranked it; the exact credit covers what was spent and, before the end,
   * one update more; and the generation does not straddle the zero tail.
   */
  ghost predicate Coherent(state: State, config: Config, limits: Limits, globalUpdate: U64) {
    var ended := globalUpdate == limits.totalUpdates;
    var lastSuccess := ended && state.successStreak == config.successUpdates;
    var poorNow := state.poorStreak == config.poorUpdates;
    var credit := limits.baseUpdates * 1_000_000 + state.extensionAwards * config.extension;
    && 0 < config.successUpdates <= 1_000_000_000 && 0 < config.poorUpdates <= 1_000_000_000
    && config.successRate <= 1_000_000 && config.poorRate <= 1_000_000 && config.extension <= 1_000_000_000_000_000
    && 0 < limits.baseUpdates <= 1_000_000_000 && 0 < limits.totalUpdates <= 1_000_000_000
    && limits.zeroUpdates <= limits.totalUpdates
    && state.startUpdate + state.updatesInGeneration == globalUpdate <= limits.totalUpdates
    && state.startUpdate < limits.totalUpdates && state.generation <= state.startUpdate
    && (state.startUpdate > 0 ==> state.generation > 0)
    && state.successStreak <= config.successUpdates && state.successStreak <= state.updatesInGeneration
    && state.poorStreak <= config.poorUpdates && state.poorStreak <= state.updatesInGeneration
    && (config.successRate > config.poorRate ==> state.successStreak == 0 || state.poorStreak == 0)
    && (state.extensionAwards > 0 ==>
          state.extensionAwards + config.poorUpdates - 1 + (if lastSuccess && poorNow then 1 else 0) <= state.updatesInGeneration)
    && (poorNow && !lastSuccess ==> state.extensionAwards > 0)
    && state.updatesInGeneration * 1_000_000 <= credit < 1_000_000_001 * 1_000_000
    && (!ended ==> state.successStreak < config.successUpdates && (state.updatesInGeneration + 1) * 1_000_000 <= credit)
    && (limits.zeroUpdates > 0 && globalUpdate + limits.zeroUpdates >= limits.totalUpdates ==>
          state.startUpdate + limits.zeroUpdates >= limits.totalUpdates)
  }

  /** A state is accepted exactly when it is coherent. */
  lemma ValidExactly(state: State, config: Config, limits: Limits, globalUpdate: U64)
    ensures Validate(state, config, limits, globalUpdate) == Pass <==> Coherent(state, config, limits, globalUpdate)
  {
    var budget := Budget(state.extensionAwards, config, limits);
    hide Budget;
    if ValidConfig(config) && ValidLimits(limits) && globalUpdate <= limits.totalUpdates
       && state.startUpdate + state.updatesInGeneration == globalUpdate {
      StreaksExactly(state, config, globalUpdate == limits.totalUpdates);
      hide ValidateStreaks;
    }
  }

  lemma StreaksExactly(state: State, config: Config, terminal: bool)
    requires ValidConfig(config)
    ensures var lastSuccess := terminal && state.successStreak == config.successUpdates;
            var poorNow := state.poorStreak == config.poorUpdates;
      ValidateStreaks(state, config, terminal) == Pass <==>
        && state.successStreak <= config.successUpdates && state.successStreak <= state.updatesInGeneration
        && state.poorStreak <= config.poorUpdates && state.poorStreak <= state.updatesInGeneration
        && (config.successRate > config.poorRate ==> state.successStreak == 0 || state.poorStreak == 0)
        && (state.extensionAwards > 0 ==>
              state.extensionAwards + config.poorUpdates - 1 + (if lastSuccess && poorNow then 1 else 0) <= state.updatesInGeneration)
        && (poorNow && !lastSuccess ==> state.extensionAwards > 0)
  {
  }

  /** The streak and award counters of a generation that goes on stay consistent. */
  lemma StreaksStayValid(state: State, config: Config, terminal: bool, wins: U64, games: U64)
    requires ValidConfig(config) && state.updatesInGeneration < MAX_TRAINING_COUNTER
    requires ValidateStreaks(state, config, false) == Pass
    requires state.successStreak < config.successUpdates
    requires Succeeds(state, config, wins, games) ==> terminal
    ensures var counted := Counted(state, config, wins, games);
      if Succeeds(state, config, wins, games) then ValidateStreaks(counted, config, true) == Pass
      else Awarded(counted, config).Ok? && ValidateStreaks(Awarded(counted, config).value, config, terminal) == Pass
  {
    if config.successRate > config.poorRate {
      ThresholdsDisjoint(config, wins, games);
    }
  }

  lemma TerminalSuccessIsValid(state: State, config: Config, limits: Limits, completedUpdate: U64, wins: U64, games: U64)
    requires 1 <= completedUpdate && Validate(state, config, limits, completedUpdate - 1) == Pass
    requires completedUpdate == limits.totalUpdates && Succeeds(state, config, wins, games)
    ensures Validate(Counted(state, config, wins, games), config, limits, completedUpdate) == Pass
  {
    ValidStateBounds(state, config, limits, completedUpdate - 1);
    assert ValidateStreaks(state, config, false) == Pass;
    StreaksStayValid(state, config, true, wins, games);
    hide ValidateStreaks;
  }

  lemma OpenGenerationIsValid(state: State, config: Config, limits: Limits, completedUpdate: U64, wins: U64, games: U64)
    requires 1 <= completedUpdate <= limits.totalUpdates && Validate(state, config, limits, completedUpdate - 1) == Pass
    requires !ResetsEarly(state, config, limits, completedUpdate, wins, games)
    requires !Succeeds(state, config, wins, games)
    requires Budget(AwardsAfter(state, config, wins, games), config, limits) <= MAX_TRAINING_COUNTER
    requires completedUpdate < limits.totalUpdates ==>
      state.updatesInGeneration + 1 < Budget(AwardsAfter(state, config, wins, games), config, limits)
    ensures Validate(Awarded(Counted(state, config, wins, games), config).value, config, limits, completedUpdate) == Pass
  {
    ValidStateBounds(state, config, limits, completedUpdate - 1);
    assert ValidateStreaks(state, config, false) == Pass;
    StreaksStayValid(state, config, completedUpdate == limits.totalUpdates, wins, games);
    BudgetMonotone(state.extensionAwards, AwardsAfter(state, config, wins, games), config, limits);
    hide ValidateStreaks, Budget;
  }

  /** Unless its budget overflows, an update that resets nothing early ends in a valid state. */
  lemma CountedIsValid(state: State, config: Config, limits: Limits, completedUpdate: U64, wins: U64, games: U64)
    requires 1 <= completedUpdate && Validate(state, config, limits, completedUpdate - 1) == Pass
    requires completedUpdate <= limits.totalUpdates
    requires !ResetsEarly(state, config, limits, completedUpdate, wins, games)
    requires !BudgetOverflows(state, config, limits, completedUpdate, wins, games)
    ensures state.updatesInGeneration + 1 < U64_LIMIT
    ensures var next := Decide(Counted(state, config, wins, games), config, limits, completedUpdate, state.startUpdate);
      next.Ok? && Validate(next.value, config, limits, completedUpdate) == Pass
  {
    hide Validate, Budget, GoodUpdate, PoorUpdate;
    ValidStateBounds(state, config, limits, completedUpdate - 1);
    if Succeeds(state, config, wins, games) {
      TerminalSuccessIsValid(state, config, limits, completedUpdate, wins, games);
    } else {
      var budget := Budget(AwardsAfter(state, config, wins, games), config, limits);
      var awarded := Awarded(Counted(state, config, wins, games), config).value;
      if completedUpdate < limits.totalUpdates && state.updatesInGeneration + 1 >= budget {
        ResetIsValid(awarded, state, config, limits, completedUpdate);
      } else {
        OpenGenerationIsValid(state, config, limits, completedUpdate, wins, games);
      }
    }
  }

  /** A success or the boundary before the end opens a generation. */
  lemma EarlyResetAdvances(state: State, config: Config, limits: Limits, completedUpdate: U64, wins: U64, games: U64)
    requires 1 <= completedUpdate && Validate(state, config, limits, completedUpdate - 1) == Pass
    requires completedUpdate <= limits.totalUpdates
    requires ResetsEarly(state, config, limits, completedUpdate, wins, games)
    ensures state.updatesInGeneration + 1 < U64_LIMIT
    ensures var next := Decide(Counted(state, config, wins, games), config, limits, completedUpdate, state.startUpdate);
      next.Ok? && Validate(next.value, config, limits, completedUpdate) == Pass
  {
    hide Validate, Budget, GoodUpdate, PoorUpdate;
    ValidStateBounds(state, config, limits, completedUpdate - 1);
    ResetIsValid(Counted(state, config, wins, games), state, config, limits, completedUpdate);
  }

  /** A budget beyond the counter range refuses the update. */
  lemma OverflowRefuses(state: State, config: Config, limits: Limits, completedUpdate: U64, wins: U64, games: U64)
    requires 1 <= completedUpdate && Validate(state, config, limits, completedUpdate - 1) == Pass
    requires completedUpdate <= limits.totalUpdates
    requires BudgetOverflows(state, config, limits, completedUpdate, wins, games)
    ensures state.updatesInGeneration + 1 < U64_LIMIT
    ensures Decide(Counted(state, config, wins, games), config, limits, completedUpdate, state.startUpdate)
         == Err(BudgetExceedsCounter)
  {
    hide Validate, Budget, GoodUpdate, PoorUpdate;
    ValidStateBounds(state, config, limits, completedUpdate - 1);
  }

  lemma BudgetMonotone(a: nat, b: nat, config: Config, limits: Limits)
    requires a <= b
    ensures limits.baseUpdates <= Budget(a, config, limits) <= Budget(b, config, limits)
  {
    MulMonotone(a, b, config.extension);
  }

  lemma ResetIsValid(next: State, state: State, config: Config, limits: Limits, completedUpdate: U64)
    requires 1 <= completedUpdate && Validate(state, config, limits, completedUpdate - 1) == Pass
    requires completedUpdate < limits.totalUpdates && next.generation == state.generation
    ensures Advance(next, completedUpdate).Ok?
    ensures Validate(Advance(next, completedUpdate).value, config, limits, completedUpdate) == Pass
  {
    BudgetMonotone(0, 0, config, limits);
  }

  /**
   * On a valid state with updates left and wins within games, an update is
   * refused exactly when its extended budget leaves the counter range;
   * otherwise the next state is valid again.
   */
  lemma ObserveKeepsValid(state: State, config: Config, limits: Limits, completedUpdate: U64, wins: U64, games: U64)
    requires 1 <= completedUpdate && Validate(state, config, limits, completedUpdate - 1) == Pass
    requires completedUpdate <= limits.totalUpdates && wins <= games
    ensures Observe(state, config, limits, completedUpdate, wins, games).Err? <==>
      BudgetOverflows(state, config, limits, completedUpdate, wins, games)
    ensures var next := Observe(state, config, limits, completedUpdate, wins, games);
      if next.Err? then next.fault == BudgetExceedsCounter
      else Validate(next.value, config, limits, completedUpdate) == Pass
  {
    hide Validate, Budget, GoodUpdate, PoorUpdate, Decide, Counted, ResetsEarly, BudgetOverflows;
    ValidStateBounds(state, config, limits, completedUpdate - 1);
    if ResetsEarly(state, config, limits, completedUpdate, wins, games) {
      EarlyResetAdvances(state, config, limits, completedUpdate, wins, games);
      EarlyResetFits(state, config, limits, completedUpdate, wins, games);
    } else if BudgetOverflows(state, config, limits, completedUpdate, wins, games) {
      OverflowRefuses(state, config, limits, completedUpdate, wins, games);
    } else {
      CountedIsValid(state, config, limits, completedUpdate, wins, games);
    }
  }

  lemma EarlyResetFits(state: State, config: Config, limits: Limits, completedUpdate: nat, wins: nat, games: nat)
    requires ResetsEarly(state, config, limits, completedUpdate, wins, games)
    ensures !BudgetOverflows(state, config, limits, completedUpdate, wins, games)
  {
    hide ResetsEarly, Succeeds, Budget, AwardsAfter, CappedStreak;
  }
}
