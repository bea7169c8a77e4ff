// The controller's counters against the literal rule over the whole history:
// trailing windows inside the current generation decide successes and awards.
module ControllerHistory {
  import opened Common
  import opened Geometry
  import opened Controller

  /** Games one update finished and how many of them were won. */
  datatype Report = Report(wins: U64, games: U64)

  // ---------------------------------------------------------------- the literal rule

  ghost function WinRate(report: Report): real
    requires report.games > 0
  {
    report.wins as real / report.games as real
  }

  /** The update finished a game, and its win rate reaches the success rate. */
  ghost predicate Good(config: Config, report: Report) {
    report.games > 0 && WinRate(report) >= config.successRate as real / 1000000.0
  }

  /** The update finished a game, and its win rate does not exceed the poor rate. */
  ghost predicate Poor(config: Config, report: Report) {
    report.games > 0 && WinRate(report) <= config.poorRate as real / 1000000.0
  }

  /** Updates a generation may spend: its base and the extension, fractions included, of every award. */
  ghost function Allowance(config: Config, limits: Limits, awards: nat): real {
    limits.baseUpdates as real + awards as real * (config.extension as real / 1000000.0)
  }

  /** The last `successUpdates` reports of the generation are all good. */
  ghost predicate SuccessWindow(config: Config, window: seq<Report>) {
    && config.successUpdates <= |window|
    && forall i :: |window| - config.successUpdates <= i < |window| ==> Good(config, window[i])
  }

  ghost predicate PoorWindow(config: Config, window: seq<Report>) {
    && config.poorUpdates <= |window|
    && forall i :: |window| - config.poorUpdates <= i < |window| ==> Poor(config, window[i])
  }

  /** Poor windows of the generation, overlapping ones included, that no success outranked. */
  ghost function Awards(config: Config, window: seq<Report>): nat {
    if window == [] then 0
    else Awards(config, window[..|window| - 1])
         + (if PoorWindow(config, window) && !SuccessWindow(config, window) then 1 else 0)
  }

  datatype Generation = Generation(index: nat, start: nat)

  /** Generation in force after the history, with the update it started from. */
  ghost function Current(config: Config, limits: Limits, history: seq<Report>): (g: Generation)
    ensures g.start <= |history|
    ensures history != [] && g.start == |history| ==> |history| < limits.totalUpdates
  {
    if history == [] then Generation(0, 0)
    else
      var previous := Current(config, limits, history[..|history| - 1]);
      var window := history[previous.start..];
      if |history| < limits.totalUpdates
         && (SuccessWindow(config, window)
             || (|history| + limits.zeroUpdates == limits.totalUpdates && previous.start < |history|)
             || (|window| + 1) as real > Allowance(config, limits, Awards(config, window)))
      then Generation(previous.index + 1, |history|)
      else previous
  }

  ghost function Window(config: Config, limits: Limits, history: seq<Report>): seq<Report> {
    history[Current(config, limits, history).start..]
  }

  /** The last report's extended budget does not fit the counter range and no reset comes first. */
  ghost predicate BudgetLost(config: Config, limits: Limits, history: seq<Report>) {
    history != [] &&
    var previous := Current(config, limits, history[..|history| - 1]);
    var window := history[previous.start..];
    && !SuccessWindow(config, window)
    && !(|history| < limits.totalUpdates && |history| + limits.zeroUpdates == limits.totalUpdates && previous.start < |history|)
    && Allowance(config, limits, Awards(config, window)) >= (MAX_TRAINING_COUNTER + 1) as real
  }

  // ---------------------------------------------------------------- the controller's run

  function Run(config: Config, limits: Limits, history: seq<Report>): Result<State>
    requires |history| < U64_LIMIT
  {
    if history == [] then Ok(INITIAL)
    else
      match Run(config, limits, history[..|history| - 1])
      case Err(fault) => Err(fault)
      case Ok(state) =>
        var last := history[|history| - 1];
        Observe(state, config, limits, |history|, last.wins, last.games)
  }

  /** Length of the longest suffix with the property. */
  ghost function SuffixRun(property: Report -> bool, window: seq<Report>): (n: nat)
    ensures n <= |window|
    ensures forall i :: |window| - n <= i < |window| ==> property(window[i])
    ensures n < |window| ==> !property(window[|window| - n - 1])
  {
    if window == [] || !property(window[|window| - 1]) then 0
    else SuffixRun(property, window[..|window| - 1]) + 1
  }

  function Capped(n: nat, cap: nat): nat { if n < cap then n else cap }

  /** The counters are what the history says. */
  ghost predicate Agrees(state: State, config: Config, limits: Limits, history: seq<Report>) {
    var generation := Current(config, limits, history);
    CountersMatch(state, config, generation, history[generation.start..])
  }

  ghost predicate CountersMatch(state: State, config: Config, generation: Generation, window: seq<Report>) {
    && state.generation == generation.index && state.startUpdate == generation.start
    && state.updatesInGeneration == |window|
    && state.successStreak == Capped(SuffixRun(r => Good(config, r), window), config.successUpdates)
    && state.poorStreak == Capped(SuffixRun(r => Poor(config, r), window), config.poorUpdates)
    && state.extensionAwards == Awards(config, window)
  }

  /** The comparison of wins with a rate in millionths is that of the win rate with the rate. */
  lemma RatesCompare(wins: nat, games: nat, rate: nat)
    requires games > 0
    ensures wins * 1_000_000 >= rate * games <==> wins as real / games as real >= rate as real / 1000000.0
    ensures wins * 1_000_000 <= rate * games <==> wins as real / games as real <= rate as real / 1000000.0
  {
    var w, g, r := wins as real, games as real, rate as real;
    assert (wins * 1_000_000) as real == w * 1000000.0 && (rate * games) as real == r * g;
    var ratio := w / g;
    assert ratio * g == w;
    CompareScaled(ratio, r / 1000000.0, g * 1000000.0);
    assert (r / 1000000.0) * (g * 1000000.0) == r * g;
    assert ratio * (g * 1000000.0) == w * 1000000.0;
  }

  lemma CompareScaled(a: real, b: real, factor: real)
    requires factor > 0.0
    ensures a * factor >= b * factor <==> a >= b
    ensures a * factor <= b * factor <==> a <= b
  {
  }

  lemma GoodIsGoodUpdate(config: Config, report: Report)
    ensures GoodUpdate(config, report.wins, report.games) <==> Good(config, report)
    ensures PoorUpdate(config, report.wins, report.games) <==> Poor(config, report)
  {
    if report.games > 0 {
      RatesCompare(report.wins, report.games, config.successRate);
      RatesCompare(report.wins, report.games, config.poorRate);
    }
  }

  /** The integer budget is the whole part of the allowance. */
  lemma BudgetIsWholeAllowance(config: Config, limits: Limits, awards: nat)
    ensures var budget := Budget(awards, config, limits);
      budget as real <= Allowance(config, limits, awards) < (budget + 1) as real
  {
    var credit := limits.baseUpdates * 1_000_000 + awards * config.extension;
    var budget := Budget(awards, config, limits);
    hide Budget;
    assert (awards * config.extension) as real == awards as real * config.extension as real;
    assert Allowance(config, limits, awards) * 1000000.0 == credit as real;
    assert (budget * 1_000_000) as real == budget as real * 1000000.0;
  }

  lemma SpentAgainstAllowance(config: Config, limits: Limits, awards: nat, spent: nat)
    ensures (spent + 1) as real > Allowance(config, limits, awards) <==> spent >= Budget(awards, config, limits)
    ensures spent as real <= Allowance(config, limits, awards) <==> spent <= Budget(awards, config, limits)
  {
    BudgetIsWholeAllowance(config, limits, awards);
    hide Budget, Allowance;
  }

  /**
   * One accepted report moves the streaks by its win rate alone: in a
   * generation that goes on, reaching a rate raises that streak up to its
   * window, missing it, or finishing no game, breaks it.
   */
  lemma ObserveJudgesRates(state: State, config: Config, limits: Limits, completedUpdate: U64, report: Report)
    requires Observe(state, config, limits, completedUpdate, report.wins, report.games).Ok?
    ensures var next := Observe(state, config, limits, completedUpdate, report.wins, report.games).value;
      if next.startUpdate == completedUpdate then next.successStreak == 0 && next.poorStreak == 0
      else
        && next.successStreak == (if Good(config, report) then Capped(state.successStreak + 1, config.successUpdates) else 0)
        && next.poorStreak == (if Poor(config, report) then Capped(state.poorStreak + 1, config.poorUpdates) else 0)
  {
    hide Good, Poor, GoodUpdate, PoorUpdate, Budget, ValidateStreaks;
    GoodIsGoodUpdate(config, report);
  }

  lemma RunGrows(property: Report -> bool, window: seq<Report>, last: Report)
    ensures SuffixRun(property, window + [last]) == if property(last) then SuffixRun(property, window) + 1 else 0
  {
    assert (window + [last])[..|window|] == window;
  }

  /** A capped streak reaches its cap exactly when the trailing window qualifies throughout. */
  lemma StreakIsWindow(config: Config, window: seq<Report>)
    ensures Capped(SuffixRun(r => Good(config, r), window), config.successUpdates) == config.successUpdates
      <==> SuccessWindow(config, window)
    ensures Capped(SuffixRun(r => Poor(config, r), window), config.poorUpdates) == config.poorUpdates
      <==> PoorWindow(config, window)
  {
    var good, poor := SuffixRun(r => Good(config, r), window), SuffixRun(r => Poor(config, r), window);
    if good < config.successUpdates <= |window| {
      assert !Good(config, window[|window| - good - 1]);
    }
    if poor < config.poorUpdates <= |window| {
      assert !Poor(config, window[|window| - poor - 1]);
    }
  }

  /** What counting one report does to counters that match the window. */
  lemma CountedMatches(state: State, config: Config, generation: Generation, window: seq<Report>, last: Report)
    requires CountersMatch(state, config, generation, window) && state.updatesInGeneration + 1 < U64_LIMIT
    ensures state.successStreak <= config.successUpdates && state.poorStreak <= config.poorUpdates
    ensures Succeeds(state, config, last.wins, last.games) <==> SuccessWindow(config, window + [last])
    ensures !SuccessWindow(config, window + [last]) ==>
      AwardsAfter(state, config, last.wins, last.games) == Awards(config, window + [last])
    ensures SuccessWindow(config, window + [last]) ==> Awards(config, window + [last]) == state.extensionAwards
    ensures var counted := Counted(state, config, last.wins, last.games);
      && counted.successStreak == Capped(SuffixRun(r => Good(config, r), window + [last]), config.successUpdates)
      && counted.poorStreak == Capped(SuffixRun(r => Poor(config, r), window + [last]), config.poorUpdates)
  {
    hide Good, Poor, GoodUpdate, PoorUpdate;
    GoodIsGoodUpdate(config, last);
    RunGrows(r => Good(config, r), window, last);
    RunGrows(r => Poor(config, r), window, last);
    StreakIsWindow(config, window + [last]);
    assert (window + [last])[..|window|] == window;
  }

  lemma ResetMatches(config: Config, generation: Generation)
    requires generation.index < U64_LIMIT && generation.start < U64_LIMIT
    requires 1 <= config.successUpdates && 1 <= config.poorUpdates
    ensures CountersMatch(INITIAL.(generation := generation.index, startUpdate := generation.start), config, generation, [])
  {
  }

  /** The controller's decision on counters that match the window is the rule's decision. */
  lemma DecideAgrees(state: State, config: Config, limits: Limits, generation: Generation, window: seq<Report>, last: Report,
                     completedUpdate: U64)
    requires ValidConfig(config) && ValidLimits(limits)
    requires CountersMatch(state, config, generation, window) && state.updatesInGeneration + 1 < U64_LIMIT
    requires Decide(Counted(state, config, last.wins, last.games), config, limits, completedUpdate, state.startUpdate).Ok?
    ensures var next := Decide(Counted(state, config, last.wins, last.games), config, limits, completedUpdate, state.startUpdate).value;
      if completedUpdate < limits.totalUpdates
         && (SuccessWindow(config, window + [last])
             || (completedUpdate == Boundary(limits) && generation.start < completedUpdate)
             || |window| + 1 >= Budget(Awards(config, window + [last]), config, limits))
      then CountersMatch(next, config, Generation(generation.index + 1, completedUpdate), [])
      else CountersMatch(next, config, generation, window + [last])
  {
    hide CountersMatch, SuccessWindow, Awards, Budget, GoodUpdate, PoorUpdate;
    CountedMatches(state, config, generation, window, last);
    MatchFields(state, config, generation, window);
    var counted := Counted(state, config, last.wins, last.games);
    var decided := Decide(counted, config, limits, completedUpdate, state.startUpdate).value;
    if decided.updatesInGeneration == 0 {
      ResetMatches(config, Generation(generation.index + 1, completedUpdate));
    } else {
      GrownMatches(decided, config, generation, window + [last]);
    }
  }

  lemma MatchFields(state: State, config: Config, generation: Generation, window: seq<Report>)
    requires CountersMatch(state, config, generation, window)
    ensures state.generation == generation.index && state.startUpdate == generation.start
    ensures state.updatesInGeneration == |window| && state.extensionAwards == Awards(config, window)
  {
  }

  lemma GrownMatches(state: State, config: Config, generation: Generation, window: seq<Report>)
    requires state.generation == generation.index && state.startUpdate == generation.start
    requires state.updatesInGeneration == |window| && state.extensionAwards == Awards(config, window)
    requires state.successStreak == Capped(SuffixRun(r => Good(config, r), window), config.successUpdates)
    requires state.poorStreak == Capped(SuffixRun(r => Poor(config, r), window), config.poorUpdates)
    ensures CountersMatch(state, config, generation, window)
  {
  }

  lemma CurrentGrows(config: Config, limits: Limits, history: seq<Report>, last: Report)
    requires ValidLimits(limits)
    ensures var previous := Current(config, limits, history);
      var window := history[previous.start..] + [last];
      && (history + [last])[previous.start..] == window
      && Current(config, limits, history + [last]) ==
        if |history| + 1 < limits.totalUpdates
           && (SuccessWindow(config, window)
               || (|history| + 1 == Boundary(limits) && previous.start < |history| + 1)
               || |window| >= Budget(Awards(config, window), config, limits))
        then Generation(previous.index + 1, |history| + 1) else previous
  {
    hide SuccessWindow, Awards, Budget, Allowance, Current;
    var previous := Current(config, limits, history);
    RuleOnce(config, limits, history, last);
    SpentAgainstAllowance(config, limits, Awards(config, history[previous.start..] + [last]), |history| - previous.start + 1);
  }

  lemma RuleOnce(config: Config, limits: Limits, history: seq<Report>, last: Report)
    ensures var previous := Current(config, limits, history);
      var window := history[previous.start..] + [last];
      && (history + [last])[previous.start..] == window
      && Current(config, limits, history + [last]) ==
        if |history| + 1 < limits.totalUpdates
           && (SuccessWindow(config, window)
               || (|history| + 1 + limits.zeroUpdates == limits.totalUpdates && previous.start < |history| + 1)
               || (|window| + 1) as real > Allowance(config, limits, Awards(config, window)))
        then Generation(previous.index + 1, |history| + 1) else previous
  {
    hide SuccessWindow, Awards, Allowance;
    var longer := history + [last];
    var previous := Current(config, limits, history);
    assert longer[..|history|] == history && longer[previous.start..] == history[previous.start..] + [last];
  }

  lemma LostAfter(config: Config, limits: Limits, history: seq<Report>, last: Report)
    requires ValidLimits(limits)
    ensures var previous := Current(config, limits, history);
            var window := history[previous.start..] + [last];
      BudgetLost(config, limits, history + [last]) <==>
        && !SuccessWindow(config, window)
        && !(|history| + 1 < limits.totalUpdates && |history| + 1 == Boundary(limits) && previous.start < Boundary(limits))
        && Budget(Awards(config, window), config, limits) > MAX_TRAINING_COUNTER
  {
    hide SuccessWindow, Awards, Budget, Allowance, Current;
    var start := Current(config, limits, history).start;
    SpentAgainstAllowance(config, limits, Awards(config, history[start..] + [last]), MAX_TRAINING_COUNTER + 1);
    assert (history + [last])[..|history|] == history;
    assert (history + [last])[start..] == history[start..] + [last];
  }

  /** The controller loses its budget on exactly the reports the rule says it does. */
  lemma OverflowIsLost(state: State, config: Config, limits: Limits, history: seq<Report>, last: Report)
    requires |history| + 1 < U64_LIMIT && ValidLimits(limits)
    requires Agrees(state, config, limits, history) && state.updatesInGeneration + 1 < U64_LIMIT
    ensures state.successStreak <= config.successUpdates && state.poorStreak <= config.poorUpdates
    ensures BudgetOverflows(state, config, limits, |history| + 1, last.wins, last.games)
      <==> BudgetLost(config, limits, history + [last])
  {
    hide CountersMatch, SuccessWindow, Awards, Budget, GoodUpdate, PoorUpdate, Current, Succeeds, AwardsAfter, BudgetLost;
    var generation := Current(config, limits, history);
    var window := history[generation.start..];
    MatchFields(state, config, generation, window);
    CountedMatches(state, config, generation, window, last);
    LostAfter(config, limits, history, last);
  }

  lemma DecisionAgrees(state: State, config: Config, limits: Limits, history: seq<Report>, last: Report)
    requires |history| + 1 < U64_LIMIT && ValidConfig(config) && ValidLimits(limits)
    requires Agrees(state, config, limits, history) && state.updatesInGeneration + 1 < U64_LIMIT
    requires state.successStreak <= config.successUpdates && state.poorStreak <= config.poorUpdates
    requires Decide(Counted(state, config, last.wins, last.games), config, limits, |history| + 1, state.startUpdate).Ok?
    ensures Agrees(Decide(Counted(state, config, last.wins, last.games), config, limits, |history| + 1, state.startUpdate).value,
                   config, limits, history + [last])
  {
    hide CountersMatch, SuccessWindow, Awards, Budget, GoodUpdate, PoorUpdate, Decide, Current, Counted;
    var generation := Current(config, limits, history);
    DecideAgrees(state, config, limits, generation, history[generation.start..], last, |history| + 1);
    CurrentGrows(config, limits, history, last);
    assert (history + [last])[|history| + 1..] == [];
  }

  /** One accepted report keeps the counters equal to the history; a refused one overflowed its budget. */
  lemma ObserveAgrees(state: State, config: Config, limits: Limits, history: seq<Report>, last: Report)
    requires |history| + 1 < U64_LIMIT && Validate(state, config, limits, |history|) == Pass
    requires |history| < limits.totalUpdates && last.wins <= last.games
    requires ValidLimits(limits) && Agrees(state, config, limits, history)
    ensures var next := Observe(state, config, limits, |history| + 1, last.wins, last.games);
      && (next.Err? <==> BudgetLost(config, limits, history + [last]))
      && (next.Ok? ==> Agrees(next.value, config, limits, history + [last]))
      && (next.Ok? ==> Validate(next.value, config, limits, |history| + 1) == Pass)
  {
    hide Agrees, Validate, BudgetOverflows, BudgetLost, Budget, Decide, Counted;
    ValidStateBounds(state, config, limits, |history|);
    ObserveKeepsValid(state, config, limits, |history| + 1, last.wins, last.games);
    OverflowIsLost(state, config, limits, history, last);
    if Observe(state, config, limits, |history| + 1, last.wins, last.games).Ok? {
      DecisionAgrees(state, config, limits, history, last);
    }
  }

  // ---------------------------------------------------------------- whole runs

  ghost predicate PlayedWithinGames(history: seq<Report>) {
    forall i :: 0 <= i < |history| ==> history[i].wins <= history[i].games
  }

  /**
   * Along every run the controller's generation, start, spent updates, streaks
   * and awards are those of the literal rule, and the state stays valid; the
   * run stops early exactly at a report whose extended budget is lost.
   */
  lemma {:induction false} RunFollowsHistory(config: Config, limits: Limits, history: seq<Report>)
    requires ValidConfig(config) && ValidLimits(limits)
    requires |history| <= limits.totalUpdates && PlayedWithinGames(history)
    ensures Run(config, limits, history).Err? <==>
      exists n :: 0 < n <= |history| && BudgetLost(config, limits, history[..n])
    ensures Run(config, limits, history).Ok? ==>
      && Agrees(Run(config, limits, history).value, config, limits, history)
      && Validate(Run(config, limits, history).value, config, limits, |history|) == Pass
    decreases |history|
  {
    hide Validate, Observe, Agrees, BudgetLost;
    if history == [] {
      InitialIsValid(config, limits);
    } else {
      var shorter, last := history[..|history| - 1], history[|history| - 1];
      assert history == shorter + [last] && history[..|history|] == history;
      RunFollowsHistory(config, limits, shorter);
      assert forall n :: 0 < n <= |shorter| ==> shorter[..n] == history[..n];
      if Run(config, limits, shorter).Ok? {
        ObserveAgrees(Run(config, limits, shorter).value, config, limits, shorter, last);
      }
    }
  }

  lemma InitialIsValid(config: Config, limits: Limits)
    requires ValidConfig(config) && ValidLimits(limits)
    ensures Validate(INITIAL, config, limits, 0) == Pass
    ensures Agrees(INITIAL, config, limits, [])
  {
  }

  /** A generation never spends more updates than its base and the awards of its own window allow. */
  lemma SpendingWithinBudget(config: Config, limits: Limits, history: seq<Report>)
    requires ValidConfig(config) && ValidLimits(limits)
    requires |history| <= limits.totalUpdates && PlayedWithinGames(history) && Run(config, limits, history).Ok?
    ensures |Window(config, limits, history)| as real <= Allowance(config, limits, Awards(config, Window(config, limits, history)))
    ensures |history| < limits.totalUpdates ==> !SuccessWindow(config, Window(config, limits, history))
  {
    RunFollowsHistory(config, limits, history);
    var state := Run(config, limits, history).value;
    ValidStateBounds(state, config, limits, |history|);
    StreakIsWindow(config, Window(config, limits, history));
    SpentAgainstAllowance(config, limits, Awards(config, Window(config, limits, history)), |Window(config, limits, history)|);
    hide Validate, Awards, Budget, SuccessWindow, Run, Allowance;
  }

  /** The zero-randomization tail always starts a generation of its own. */
  lemma BoundaryOpensGeneration(config: Config, limits: Limits, history: seq<Report>)
    requires ValidConfig(config) && ValidLimits(limits)
    requires 0 < limits.zeroUpdates < limits.totalUpdates && |history| + limits.zeroUpdates == limits.totalUpdates
    requires PlayedWithinGames(history) && Run(config, limits, history).Ok?
    ensures var state := Run(config, limits, history).value;
      state.startUpdate == |history| && state.updatesInGeneration == 0 && state.generation > 0
      && state == INITIAL.(generation := state.generation, startUpdate := state.startUpdate)
  {
    RunFollowsHistory(config, limits, history);
    ValidStateBounds(Run(config, limits, history).value, config, limits, |history|);
    EmptyCounters(Run(config, limits, history).value, config, limits, history);
    hide Awards, Budget, SuccessWindow, Run, Agrees;
  }

  lemma EmptyCounters(state: State, config: Config, limits: Limits, history: seq<Report>)
    requires ValidLimits(limits) && Agrees(state, config, limits, history)
    requires state.updatesInGeneration == 0
    ensures state.successStreak == 0 && state.poorStreak == 0 && state.extensionAwards == 0
  {
  }
}
