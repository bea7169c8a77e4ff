// The checkpoint manifest: run scope, progress, optimizer configuration,
// counters, tensor hash and the optional adaptive block in one byte string.
module ManifestCodec {
  import opened Common
  import opened Geometry
  import opened ManifestFields
  import C = Controller

  const MAX_META_BYTES: nat := 65536
  const MAX_RNG_STATES: nat := 32
  const MAX_LEAGUE_REFERENCES: nat := 32
  const SCHEMA_VERSION: nat := 23
  /** The eight magic bytes, "DRYCKP22". */
  const MAGIC: seq<Byte> := [68, 82, 89, 67, 75, 80, 50, 50]
  /** A 64-bit float's sign bit alone: negative zero. */
  const NEGATIVE_ZERO: nat := 0x8000_0000_0000_0000

  // ---------------------------------------------------------------- what a manifest records

  datatype Device = Cpu | Cuda(ordinal: U32)

  datatype Run = Run(gitCommit: seq<Byte>, simulatorCommit: seq<Byte>, features: seq<Byte>, commandLine: seq<Byte>,
                     seed: U64, map_: U16, hero: U16, device: Device, batchSize: U32, rulesVersion: U32)

  datatype Rng = Rng(name: seq<Byte>, state: U64, draws: U64)

  /** Floats are recorded bit patterns. */
  datatype Progress = Progress(globalUpdate: U64, policyVersion: U64, schedulerStep: U64, curriculumStage: U32,
                               rolloutSamples: U64, bestEvaluation: Option<U64>, rngs: seq<Rng>, league: seq<U64>)

  /** Decision interval, samples, epochs, minibatch and the eleven float hyperparameters. */
  datatype PpoConfig = PpoConfig(dimensions: seq<U32>, floats: seq<U32>)

  datatype Adaptive = Adaptive(config: C.Config, limits: C.Limits, state: C.State, count: U64, hash: seq<Byte>)

  datatype Manifest = Manifest(run: Run, progress: Progress, config: PpoConfig, updates: U64, step: U64,
                               shuffleState: U64, shuffleDraws: U64, tensorHash: seq<Byte>, adaptive: Option<Adaptive>)

  /** The schema identities of the build and the checks it makes beyond the format; none looks at the generators. */
  datatype Build = Build(
    hash: U64, actions: (U32, U64), features: (U32, U64), model: (U32, U64), ppo: (U32, U64), text: TextRules,
    runFits: (Run, PpoConfig) -> bool, configFits: PpoConfig -> bool,
    progressFits: (Progress, U64, PpoConfig) -> bool, scopeFits: (Run, Progress, Option<Adaptive>) -> bool)

  predicate IsText(rules: TextRules, text: seq<Byte>) {
    1 <= |text| <= MAX_TEXT_BYTES && rules.utf8(text) && rules.plain(text)
  }

  predicate RunValid(build: Build, run: Run, config: PpoConfig) {
    && IsText(build.text, run.gitCommit) && IsText(build.text, run.simulatorCommit)
    && IsText(build.text, run.features) && IsText(build.text, run.commandLine)
    && build.configFits(config) && build.runFits(run, config)
  }

  predicate RngValid(build: Build, rng: Rng) { IsText(build.text, rng.name) && rng.draws <= C.MAX_TRAINING_COUNTER }

  predicate ProgressValid(build: Build, progress: Progress, updates: U64, config: PpoConfig) {
    && |progress.rngs| <= MAX_RNG_STATES && |progress.league| <= MAX_LEAGUE_REFERENCES
    && (forall i :: 0 <= i < |progress.rngs| ==> RngValid(build, progress.rngs[i]))
    && (forall i, j :: 0 <= i < j < |progress.rngs| ==> progress.rngs[i].name != progress.rngs[j].name)
    && build.progressFits(progress.(rngs := []), updates, config)
  }

  /** What capturing or decoding an artifact checks of its metadata. */
  predicate ValidManifest(build: Build, m: Manifest) {
    && |m.config.dimensions| == 4 && |m.config.floats| == 11 && |m.tensorHash| == 32
    && (m.adaptive.Some? ==> |m.adaptive.value.hash| == 32)
    && RunValid(build, m.run, m.config)
    && ProgressValid(build, m.progress, m.updates, m.config)
    && build.scopeFits(m.run, m.progress.(rngs := []), m.adaptive)
  }

  predicate PlainText(build: Build, text: seq<Byte>) {
    text != [] && |text| <= 4096 && build.text.utf8(text) && build.text.plain(text)
  }

  /** What is refused beyond the build's own checks: texts that are empty, long or not plain, long lists, and bad generators. */
  lemma ValidManifestExactly(build: Build, m: Manifest)
    requires |m.config.dimensions| == 4 && |m.config.floats| == 11 && |m.tensorHash| == 32
    requires m.adaptive.Some? ==> |m.adaptive.value.hash| == 32
    ensures ValidManifest(build, m) <==>
      && PlainText(build, m.run.gitCommit) && PlainText(build, m.run.simulatorCommit)
      && PlainText(build, m.run.features) && PlainText(build, m.run.commandLine)
      && (forall i :: 0 <= i < |m.progress.rngs| ==>
            PlainText(build, m.progress.rngs[i].name) && m.progress.rngs[i].draws <= 1_000_000_000)
      && (forall i, j :: 0 <= i < j < |m.progress.rngs| ==> m.progress.rngs[i].name != m.progress.rngs[j].name)
      && |m.progress.rngs| <= 32 && |m.progress.league| <= 32
      && build.configFits(m.config) && build.runFits(m.run, m.config)
      && build.progressFits(m.progress.(rngs := []), m.updates, m.config)
      && build.scopeFits(m.run, m.progress.(rngs := []), m.adaptive)
  {
  }

  // ---------------------------------------------------------------- the fields of each part

  const IDENTITY: seq<Kind> := [Raw(8), Uint(4), Uint(8), Uint(4), Uint(8), Uint(4), Uint(8), Uint(4), Uint(8), Uint(4), Uint(8)]

  function IdentityValues(build: Build): (v: seq<Value>)
    ensures |v| == |IDENTITY|
  {
    [Octets(MAGIC), Number(SCHEMA_VERSION), Number(build.hash),
     Number(build.actions.0), Number(build.actions.1), Number(build.features.0), Number(build.features.1),
     Number(build.model.0), Number(build.model.1), Number(build.ppo.0), Number(build.ppo.1)]
  }

  const RUN: seq<Kind> := [Text, Text, Text, Text, Uint(8), Uint(2), Uint(2), Uint(1), Uint(4), Uint(4), Uint(4)]

  function RunValues(run: Run): (v: seq<Value>)
    ensures |v| == |RUN|
  {
    [Octets(run.gitCommit), Octets(run.simulatorCommit), Octets(run.features), Octets(run.commandLine),
     Number(run.seed), Number(run.map_), Number(run.hero),
     Number(if run.device.Cpu? then 0 else 1), Number(if run.device.Cpu? then 0 else run.device.ordinal),
     Number(run.batchSize), Number(run.rulesVersion)]
  }

  /** A device is CPU with ordinal zero or CUDA with any ordinal. */
  function RunFrom(rules: TextRules, v: seq<Value>): Option<Run>
    requires AllFit(rules, RUN, v)
  {
    Widths();
    var device := if v[7].n == 0 && v[8].n == 0 then Some(Cpu) else if v[7].n == 1 then Some(Cuda(v[8].n)) else None;
    if device.None? then None
    else Some(Run(v[0].bytes, v[1].bytes, v[2].bytes, v[3].bytes, v[4].n, v[5].n, v[6].n, device.value, v[9].n, v[10].n))
  }

  const HEAD: seq<Kind> := [Uint(8), Uint(8), Uint(8), Uint(4), Uint(8), Uint(1), Uint(8), Uint(1)]

  /** The fixed part of the progress; `sign` is set when an absent float is stored as negative zero. */
  function HeadValues(p: Progress, sign: bool): (v: seq<Value>)
    ensures |v| == |HEAD|
  {
    [Number(p.globalUpdate), Number(p.policyVersion), Number(p.schedulerStep), Number(p.curriculumStage),
     Number(p.rolloutSamples), Number(if p.bestEvaluation.Some? then 1 else 0),
     Number(if p.bestEvaluation.Some? then p.bestEvaluation.value else if sign then NEGATIVE_ZERO else 0),
     Number(|p.rngs|)]
  }

  /** Progress without its lists, and how many generators follow. */
  function HeadFrom(rules: TextRules, v: seq<Value>): Option<(Progress, nat)>
    requires AllFit(rules, HEAD, v)
  {
    Widths();
    var best: Option<Option<U64>> :=
      if v[5].n == 0 && (v[6].n == 0 || v[6].n == NEGATIVE_ZERO) then Some(None)
      else if v[5].n == 1 then Some(Some(v[6].n)) else None;
    if best.None? || v[7].n > MAX_RNG_STATES then None
    else Some((Progress(v[0].n, v[1].n, v[2].n, v[3].n, v[4].n, best.value, [], []), v[7].n))
  }

  const RNG: seq<Kind> := [Text, Uint(8), Uint(8)]

  function RngValues(rng: Rng): (v: seq<Value>)
    ensures |v| == |RNG|
  {
    [Octets(rng.name), Number(rng.state), Number(rng.draws)]
  }

  function RngFrom(rules: TextRules, v: seq<Value>): Rng
    requires AllFit(rules, RNG, v)
  {
    Widths();
    Rng(v[0].bytes, v[1].n, v[2].n)
  }

  function Repeated(kind: Kind, count: nat): (kinds: seq<Kind>)
    ensures |kinds| == count && forall i :: 0 <= i < count ==> kinds[i] == kind
  {
    seq(count, i => kind)
  }

  function Numbers(ns: seq<nat>): (v: seq<Value>)
    ensures |v| == |ns| && forall i :: 0 <= i < |ns| ==> v[i] == Number(ns[i])
  {
    seq(|ns|, i requires 0 <= i < |ns| => Number(ns[i]))
  }

  predicate AllNumbers(v: seq<Value>, limit: nat) { forall i :: 0 <= i < |v| ==> v[i].Number? && v[i].n < limit }

  function U32sFrom(v: seq<Value>): (ns: seq<U32>)
    requires AllNumbers(v, 0x1_0000_0000)
    ensures Numbers(ns) == v
  {
    seq(|v|, i requires 0 <= i < |v| => v[i].n)
  }

  function U64sFrom(v: seq<Value>): (ns: seq<U64>)
    requires AllNumbers(v, 0x1_0000_0000_0000_0000)
    ensures Numbers(ns) == v
  {
    seq(|v|, i requires 0 <= i < |v| => v[i].n)
  }

  const COUNTERS: seq<Kind> := [Uint(8), Uint(8), Uint(8), Uint(8), Raw(32), Uint(1)]

  function CounterValues(m: Manifest): (v: seq<Value>)
    ensures |v| == |COUNTERS|
  {
    [Number(m.updates), Number(m.step), Number(m.shuffleState), Number(m.shuffleDraws), Octets(m.tensorHash),
     Number(if m.adaptive.Some? then 1 else 0)]
  }

  /** Fifteen counters and a hash: 152 bytes. */
  const BLOCK: seq<Kind> := [Uint(8), Uint(8), Uint(8), Uint(8), Uint(8), Uint(8), Uint(8), Uint(8), Uint(8), Uint(8),
                             Uint(8), Uint(8), Uint(8), Uint(8), Uint(8), Raw(32)]

  function BlockValues(a: Adaptive): (v: seq<Value>)
    ensures |v| == |BLOCK|
  {
    [Number(a.config.successUpdates), Number(a.config.successRate), Number(a.config.poorUpdates),
     Number(a.config.poorRate), Number(a.config.extension),
     Number(a.limits.baseUpdates), Number(a.limits.totalUpdates), Number(a.limits.zeroUpdates),
     Number(a.state.generation), Number(a.state.startUpdate), Number(a.state.updatesInGeneration),
     Number(a.state.successStreak), Number(a.state.poorStreak), Number(a.state.extensionAwards),
     Number(a.count), Octets(a.hash)]
  }

  function BlockFrom(rules: TextRules, v: seq<Value>): Adaptive
    requires AllFit(rules, BLOCK, v)
  {
    Widths();
    Adaptive(C.Config.Config(v[0].n, v[1].n, v[2].n, v[3].n, v[4].n), C.Limits.Limits(v[5].n, v[6].n, v[7].n),
             C.State.State(v[8].n, v[9].n, v[10].n, v[11].n, v[12].n, v[13].n), v[14].n, v[15].bytes)
  }

  lemma Widths()
    ensures Pow256(1) == 256 && Pow256(2) == 0x1_0000 && Pow256(4) == 0x1_0000_0000
    ensures Pow256(8) == 0x1_0000_0000_0000_0000
  {
    assert Pow256(3) == 0x100_0000 && Pow256(5) == 0x100_0000_0000 && Pow256(6) == 0x1_0000_0000_0000;
    assert Pow256(7) == 0x100_0000_0000_0000;
  }

  // ---------------------------------------------------------------- the parts map to their values and back

  lemma RunMaps(rules: TextRules, run: Run)
    requires rules.utf8(run.gitCommit) && rules.utf8(run.simulatorCommit) && rules.utf8(run.features)
    requires rules.utf8(run.commandLine)
    requires 1 <= |run.gitCommit| <= MAX_TEXT_BYTES && 1 <= |run.simulatorCommit| <= MAX_TEXT_BYTES
    requires 1 <= |run.features| <= MAX_TEXT_BYTES && 1 <= |run.commandLine| <= MAX_TEXT_BYTES
    ensures AllFit(rules, RUN, RunValues(run)) && RunFrom(rules, RunValues(run)) == Some(run)
  {
    Widths();
    hide Pow256;
  }

  lemma RunComesFrom(rules: TextRules, v: seq<Value>)
    requires AllFit(rules, RUN, v) && RunFrom(rules, v).Some?
    ensures RunValues(RunFrom(rules, v).value) == v
  {
    Widths();
    hide Pow256;
    assert forall i :: 0 <= i < |RUN| ==> Fits(rules, RUN[i], v[i]);
  }

  lemma HeadMaps(rules: TextRules, p: Progress, sign: bool)
    requires |p.rngs| <= MAX_RNG_STATES
    ensures AllFit(rules, HEAD, HeadValues(p, sign))
    ensures HeadFrom(rules, HeadValues(p, sign)) == Some((p.(rngs := [], league := []), |p.rngs|))
  {
    Widths();
    hide Pow256;
  }

  lemma HeadComesFrom(rules: TextRules, v: seq<Value>, p: Progress)
    requires AllFit(rules, HEAD, v) && HeadFrom(rules, v).Some?
    requires |p.rngs| == HeadFrom(rules, v).value.1 && p.(rngs := [], league := []) == HeadFrom(rules, v).value.0
    ensures v == HeadValues(p, false) || (p.bestEvaluation.None? && v == HeadValues(p, true))
  {
    Widths();
    hide Pow256;
    assert forall i :: 0 <= i < |HEAD| ==> Fits(rules, HEAD[i], v[i]);
  }

  lemma RngMaps(rules: TextRules, rng: Rng)
    requires rules.utf8(rng.name) && 1 <= |rng.name| <= MAX_TEXT_BYTES
    ensures AllFit(rules, RNG, RngValues(rng)) && RngFrom(rules, RngValues(rng)) == rng
  {
    Widths();
    hide Pow256;
  }

  lemma RngComesFrom(rules: TextRules, v: seq<Value>)
    requires AllFit(rules, RNG, v)
    ensures RngValues(RngFrom(rules, v)) == v
  {
    Widths();
    hide Pow256;
    assert forall i :: 0 <= i < |RNG| ==> Fits(rules, RNG[i], v[i]);
  }

  lemma BlockMaps(rules: TextRules, a: Adaptive)
    requires |a.hash| == 32
    ensures AllFit(rules, BLOCK, BlockValues(a)) && BlockFrom(rules, BlockValues(a)) == a
  {
    Widths();
    hide Pow256;
  }

  lemma BlockComesFrom(rules: TextRules, v: seq<Value>)
    requires AllFit(rules, BLOCK, v)
    ensures BlockValues(BlockFrom(rules, v)) == v && |BlockFrom(rules, v).hash| == 32
  {
    Widths();
    hide Pow256;
    assert forall i :: 0 <= i < |BLOCK| ==> Fits(rules, BLOCK[i], v[i]);
  }

  lemma IdentityFits(build: Build)
    ensures AllFit(build.text, IDENTITY, IdentityValues(build))
  {
    Widths();
    hide Pow256;
  }

  lemma CountersMap(rules: TextRules, m: Manifest)
    requires |m.tensorHash| == 32
    ensures AllFit(rules, COUNTERS, CounterValues(m))
  {
    Widths();
    hide Pow256;
  }

  lemma NumbersFit(rules: TextRules, ns: seq<nat>, width: nat)
    requires forall i :: 0 <= i < |ns| ==> ns[i] < Pow256(width)
    ensures AllFit(rules, Repeated(Uint(width), |ns|), Numbers(ns))
  {
  }

  lemma FittingAreNumbers(rules: TextRules, v: seq<Value>, width: nat)
    requires AllFit(rules, Repeated(Uint(width), |v|), v)
    ensures AllNumbers(v, Pow256(width))
  {
    forall i | 0 <= i < |v| ensures v[i].Number? && v[i].n < Pow256(width) {
      assert Fits(rules, Repeated(Uint(width), |v|)[i], v[i]);
    }
  }
}
