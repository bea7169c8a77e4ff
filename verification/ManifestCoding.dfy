// Encoding and decoding of whole manifests, and exactly which byte strings the
// decoder accepts.
module ManifestCoding {
  import opened Common
  import opened Geometry
  import opened ManifestFields
  import opened ManifestCodec
  import C = Controller

  // ---------------------------------------------------------------- parts of the encoding, followed by `end`

  function RngsBytes(rngs: seq<Rng>): seq<Byte> {
    if rngs == [] then [] else FieldsBytes(RNG, RngValues(rngs[0])) + RngsBytes(rngs[1..])
  }

  function LeagueBytes(p: Progress, end: seq<Byte>): seq<Byte> {
    FieldsBytes([Uint(1)], Numbers([|p.league|]))
    + (FieldsBytes(Repeated(Uint(8), |p.league|), Numbers(p.league)) + end)
  }

  function ProgressBytes(p: Progress, sign: bool, end: seq<Byte>): seq<Byte> {
    FieldsBytes(HEAD, HeadValues(p, sign)) + (RngsBytes(p.rngs) + LeagueBytes(p, end))
  }

  function ConfigBytes(c: PpoConfig, end: seq<Byte>): seq<Byte> {
    FieldsBytes(Repeated(Uint(4), |c.dimensions|), Numbers(c.dimensions))
    + (FieldsBytes(Repeated(Uint(4), |c.floats|), Numbers(c.floats)) + end)
  }

  function BlockBytes(adaptive: Option<Adaptive>, end: seq<Byte>): seq<Byte> {
    if adaptive.Some? then FieldsBytes(BLOCK, BlockValues(adaptive.value)) + end else end
  }

  function Encoded(build: Build, m: Manifest, sign: bool, end: seq<Byte>): seq<Byte>
  {
    FieldsBytes(IDENTITY, IdentityValues(build))
    + (FieldsBytes(RUN, RunValues(m.run))
       + ProgressBytes(m.progress, sign, ConfigBytes(m.config,
           FieldsBytes(COUNTERS, CounterValues(m)) + BlockBytes(m.adaptive, end))))
  }

  // ---------------------------------------------------------------- reading the parts

  function ReadRngs(build: Build, s: seq<Byte>, count: nat): (read: Parse<seq<Rng>>)
    ensures read.Parsed? ==> |read.value| == count
    decreases count
  {
    if count == 0 then Parsed([], s)
    else
      var (v, s1) :- ReadFields(build.text, s, RNG);
      var rng := RngFrom(build.text, v);
      if !build.text.plain(rng.name) || rng.draws > C.MAX_TRAINING_COUNTER then Rejected
      else
        var (others, s2) :- ReadRngs(build, s1, count - 1);
        Parsed([rng] + others, s2)
  }

  function ReadLeague(build: Build, s: seq<Byte>): Parse<seq<U64>> {
    var (n, s1) :- ReadFields(build.text, s, [Uint(1)]);
    assert Fits(build.text, Uint(1), n[0]);
    if n[0].n > MAX_LEAGUE_REFERENCES then Rejected
    else
      var (league, s2) :- ReadFields(build.text, s1, Repeated(Uint(8), n[0].n));
      Widths();
      FittingAreNumbers(build.text, league, 8);
      Parsed(U64sFrom(league), s2)
  }

  function ReadProgress(build: Build, s: seq<Byte>): Parse<Progress> {
    var (head, s1) :- ReadFields(build.text, s, HEAD);
    var from := HeadFrom(build.text, head);
    if from.None? then Rejected
    else
      var (rngs, s2) :- ReadRngs(build, s1, from.value.1);
      var (league, s3) :- ReadLeague(build, s2);
      Parsed(from.value.0.(rngs := rngs, league := league), s3)
  }

  function ReadU32s(build: Build, s: seq<Byte>, count: nat): (read: Parse<seq<U32>>)
    ensures read.Parsed? ==> |read.value| == count
  {
    var (v, s1) :- ReadFields(build.text, s, Repeated(Uint(4), count));
    Widths();
    FittingAreNumbers(build.text, v, 4);
    Parsed(U32sFrom(v), s1)
  }

  function ReadConfig(build: Build, s: seq<Byte>): Parse<PpoConfig> {
    var (dimensions, s1) :- ReadU32s(build, s, 4);
    var (floats, s2) :- ReadU32s(build, s1, 11);
    if build.configFits(PpoConfig(dimensions, floats)) then Parsed(PpoConfig(dimensions, floats), s2) else Rejected
  }

  function ReadBlock(build: Build, s: seq<Byte>, present: bool): Parse<Option<Adaptive>> {
    if !present then Parsed(None, s)
    else
      var (v, s1) :- ReadFields(build.text, s, BLOCK);
      Parsed(Some(BlockFrom(build.text, v)), s1)
  }

  function ReadRun(build: Build, s: seq<Byte>): Parse<Run> {
    var (v, s1) :- ReadFields(build.text, s, RUN);
    var run := RunFrom(build.text, v);
    if run.None? then Rejected else Parsed(run.value, s1)
  }

  function ReadIdentity(build: Build, s: seq<Byte>): Parse<()>
  {
    var (identity, s1) :- ReadFields(build.text, s, IDENTITY);
    if identity != IdentityValues(build) then Rejected else Parsed((), s1)
  }

  /** Counters, tensor hash and the block, joined with the parts read before. */
  function ReadRest(build: Build, s: seq<Byte>, run: Run, progress: Progress, config: PpoConfig): Parse<Manifest> {
    var (v, s1) :- ReadFields(build.text, s, COUNTERS);
    Widths();
    assert forall i :: 0 <= i < |COUNTERS| ==> Fits(build.text, COUNTERS[i], v[i]);
    if !ProgressValid(build, progress, v[0].n, config) || v[5].n > 1 then Rejected
    else
      var (adaptive, s2) :- ReadBlock(build, s1, v[5].n == 1);
      Parsed(Manifest(run, progress, config, v[0].n, v[1].n, v[2].n, v[3].n, v[4].bytes, adaptive), s2)
  }

  function ReadManifest(build: Build, s: seq<Byte>): Parse<Manifest>
  {
    var (_, s1) :- ReadIdentity(build, s);
    var (run, s2) :- ReadRun(build, s1);
    var (progress, s3) :- ReadProgress(build, s2);
    var (config, s4) :- ReadConfig(build, s3);
    if !RunValid(build, run, config) then Rejected
    else ReadRest(build, s4, run, progress, config)
  }

  function Decode(build: Build, bytes: seq<Byte>): Option<Manifest>
  {
    if |bytes| > MAX_META_BYTES then None
    else match ReadManifest(build, bytes)
      case Rejected => None
      case Parsed(m, rest) => if rest == [] && build.scopeFits(m.run, m.progress.(rngs := []), m.adaptive) then Some(m) else None
  }

  // ---------------------------------------------------------------- written parts read back

  lemma {:induction false} RngsRead(build: Build, rngs: seq<Rng>, end: seq<Byte>)
    requires forall i :: 0 <= i < |rngs| ==> RngValid(build, rngs[i])
    ensures ReadRngs(build, RngsBytes(rngs) + end, |rngs|) == Parsed(rngs, end)
  {
    hide RngFrom, RngValues, FieldsBytes, ReadFields, AllFit;
    if rngs == [] {
      assert RngsBytes(rngs) + end == end;
    } else {
      var tail := RngsBytes(rngs[1..]);
      RngMaps(build.text, rngs[0]);
      FieldsRead(build.text, RNG, RngValues(rngs[0]), tail + end);
      Regroup(FieldsBytes(RNG, RngValues(rngs[0])), tail, end);
      RngsRead(build, rngs[1..], end);
      assert rngs == [rngs[0]] + rngs[1..];
    }
  }

  lemma LeagueReads(build: Build, p: Progress, end: seq<Byte>)
    requires |p.league| <= MAX_LEAGUE_REFERENCES
    ensures ReadLeague(build, LeagueBytes(p, end)) == Parsed(p.league, end)
  {
    hide FieldsBytes, ReadFields, Pow256, Numbers, Repeated, U64sFrom;
    Widths();
    var n := |p.league|;
    OneNumber(n);
    NumbersFit(build.text, [n], 1);
    NumbersFit(build.text, p.league, 8);
    FieldsRead(build.text, Repeated(Uint(1), 1), Numbers([n]), FieldsBytes(Repeated(Uint(8), n), Numbers(p.league)) + end);
    FieldsRead(build.text, Repeated(Uint(8), n), Numbers(p.league), end);
    NumbersDiffer(U64sFrom(Numbers(p.league)), p.league);
  }

  lemma OneNumber(n: nat)
    ensures Repeated(Uint(1), 1) == [Uint(1)] && Numbers([n]) == [Number(n)]
  {
  }

  lemma NumbersDiffer(a: seq<nat>, b: seq<nat>)
    requires Numbers(a) == Numbers(b)
    ensures a == b
  {
    forall i | 0 <= i < |a| ensures a[i] == b[i] {
      assert Numbers(a)[i] == Numbers(b)[i];
    }
  }

  lemma ProgressReads(build: Build, p: Progress, sign: bool, end: seq<Byte>)
    requires |p.rngs| <= MAX_RNG_STATES && |p.league| <= MAX_LEAGUE_REFERENCES
    requires forall i :: 0 <= i < |p.rngs| ==> RngValid(build, p.rngs[i])
    ensures ReadProgress(build, ProgressBytes(p, sign, end)) == Parsed(p, end)
  {
    hide FieldsBytes, ReadFields, HeadFrom, HeadValues, ReadRngs, RngsBytes, ReadLeague, LeagueBytes;
    HeadMaps(build.text, p, sign);
    FieldsRead(build.text, HEAD, HeadValues(p, sign), RngsBytes(p.rngs) + LeagueBytes(p, end));
    RngsRead(build, p.rngs, LeagueBytes(p, end));
    LeagueReads(build, p, end);
  }

  lemma U32sRead(build: Build, ns: seq<U32>, end: seq<Byte>)
    ensures ReadU32s(build, FieldsBytes(Repeated(Uint(4), |ns|), Numbers(ns)) + end, |ns|) == Parsed(ns, end)
  {
    hide FieldsBytes, ReadFields, Pow256, Numbers, Repeated, U32sFrom;
    Widths();
    NumbersFit(build.text, ns, 4);
    FieldsRead(build.text, Repeated(Uint(4), |ns|), Numbers(ns), end);
    NumbersDiffer(U32sFrom(Numbers(ns)), ns);
  }

  lemma ConfigReads(build: Build, c: PpoConfig, end: seq<Byte>)
    requires |c.dimensions| == 4 && |c.floats| == 11 && build.configFits(c)
    ensures ReadConfig(build, ConfigBytes(c, end)) == Parsed(c, end)
  {
    hide FieldsBytes, ReadU32s, Numbers, Repeated;
    U32sRead(build, c.dimensions, FieldsBytes(Repeated(Uint(4), |c.floats|), Numbers(c.floats)) + end);
    U32sRead(build, c.floats, end);
  }

  lemma BlockReads(build: Build, adaptive: Option<Adaptive>, end: seq<Byte>)
    requires adaptive.Some? ==> |adaptive.value.hash| == 32
    ensures ReadBlock(build, BlockBytes(adaptive, end), adaptive.Some?) == Parsed(adaptive, end)
  {
    hide FieldsBytes, ReadFields, BlockFrom, BlockValues;
    if adaptive.Some? {
      BlockMaps(build.text, adaptive.value);
      FieldsRead(build.text, BLOCK, BlockValues(adaptive.value), end);
    }
  }

  lemma RunReads(build: Build, run: Run, config: PpoConfig, end: seq<Byte>)
    requires RunValid(build, run, config)
    ensures ReadRun(build, FieldsBytes(RUN, RunValues(run)) + end) == Parsed(run, end)
  {
    RunMaps(build.text, run);
    hide FieldsBytes, ReadFields, RunFrom, RunValues, RunValid;
    FieldsRead(build.text, RUN, RunValues(run), end);
  }

  lemma RestReads(build: Build, m: Manifest, end: seq<Byte>)
    requires ValidManifest(build, m)
    ensures ReadRest(build, FieldsBytes(COUNTERS, CounterValues(m)) + BlockBytes(m.adaptive, end),
                     m.run, m.progress, m.config) == Parsed(m, end)
  {
    hide FieldsBytes, ReadFields, ReadBlock, BlockBytes, ProgressValid, RunValid, Pow256;
    CountersMap(build.text, m);
    FieldsRead(build.text, COUNTERS, CounterValues(m), BlockBytes(m.adaptive, end));
    BlockReads(build, m.adaptive, end);
  }

  /** An encoded manifest reads back, whatever follows it. */
  lemma ManifestReads(build: Build, m: Manifest, sign: bool, end: seq<Byte>)
    requires ValidManifest(build, m)
    ensures ReadManifest(build, Encoded(build, m, sign, end)) == Parsed(m, end)
  {
    hide FieldsBytes, ReadFields, ReadRun, ReadProgress, ReadConfig, ReadRest, ProgressBytes, ConfigBytes, BlockBytes;
    var counters := FieldsBytes(COUNTERS, CounterValues(m)) + BlockBytes(m.adaptive, end);
    var config := ConfigBytes(m.config, counters);
    var progress := ProgressBytes(m.progress, sign, config);
    IdentityFits(build);
    FieldsRead(build.text, IDENTITY, IdentityValues(build), FieldsBytes(RUN, RunValues(m.run)) + progress);
    RunReads(build, m.run, m.config, progress);
    ProgressReads(build, m.progress, sign, config);
    ConfigReads(build, m.config, counters);
    RestReads(build, m, end);
  }

  // ---------------------------------------------------------------- only encodings are read

  lemma {:induction false} RngsAreCanonical(build: Build, s: seq<Byte>, count: nat)
    requires ReadRngs(build, s, count).Parsed?
    ensures var read := ReadRngs(build, s, count);
      && s == RngsBytes(read.value) + read.rest
      && forall i :: 0 <= i < |read.value| ==> RngValid(build, read.value[i])
    decreases count
  {
    hide FieldsBytes, ReadFields, RngFrom, RngValues;
    var read := ReadRngs(build, s, count);
    if count == 0 {
      assert RngsBytes([]) + s == s;
    } else {
      FieldsAreCanonical(build.text, s, RNG);
      var first := ReadFields(build.text, s, RNG);
      RngComesFrom(build.text, first.value);
      RngIsValid(build, first.value);
      RngsAreCanonical(build, first.rest, count - 1);
      var others := ReadRngs(build, first.rest, count - 1);
      assert read.value[1..] == others.value;
      Regroup(FieldsBytes(RNG, first.value), RngsBytes(others.value), others.rest);
    }
  }

  lemma RngIsValid(build: Build, v: seq<Value>)
    requires AllFit(build.text, RNG, v)
    requires build.text.plain(RngFrom(build.text, v).name) && RngFrom(build.text, v).draws <= C.MAX_TRAINING_COUNTER
    ensures RngValid(build, RngFrom(build.text, v))
  {
    assert Fits(build.text, RNG[0], v[0]);
  }

  lemma LeagueIsCanonical(build: Build, s: seq<Byte>)
    requires ReadLeague(build, s).Parsed?
    ensures var read := ReadLeague(build, s);
      && |read.value| <= MAX_LEAGUE_REFERENCES
      && forall p: Progress :: p.league == read.value ==> s == LeagueBytes(p, read.rest)
  {
    hide FieldsBytes, ReadFields, Pow256, Repeated;
    FieldsAreCanonical(build.text, s, [Uint(1)]);
    var n := ReadFields(build.text, s, [Uint(1)]);
    OneNumber(n.value[0].n);
    assert Fits(build.text, [Uint(1)][0], n.value[0]);
    assert n.value == [Number(n.value[0].n)];
    FieldsAreCanonical(build.text, n.rest, Repeated(Uint(8), n.value[0].n));
  }

  lemma ProgressIsCanonical(build: Build, s: seq<Byte>)
    requires ReadProgress(build, s).Parsed?
    ensures var read := ReadProgress(build, s);
      s == ProgressBytes(read.value, false, read.rest)
      || (read.value.bestEvaluation.None? && s == ProgressBytes(read.value, true, read.rest))
  {
    hide FieldsBytes, ReadFields, HeadFrom, HeadValues, ReadRngs, RngsBytes, ReadLeague, LeagueBytes, AllFit;
    var read := ReadProgress(build, s);
    FieldsAreCanonical(build.text, s, HEAD);
    var head := ReadFields(build.text, s, HEAD);
    var from := HeadFrom(build.text, head.value).value;
    RngsAreCanonical(build, head.rest, from.1);
    var rngs := ReadRngs(build, head.rest, from.1);
    LeagueIsCanonical(build, rngs.rest);
    HeadHasNoLists(build.text, head.value);
    HeadComesFrom(build.text, head.value, read.value);
  }

  lemma HeadHasNoLists(rules: TextRules, v: seq<Value>)
    requires AllFit(rules, HEAD, v) && HeadFrom(rules, v).Some?
    ensures HeadFrom(rules, v).value.0.rngs == [] && HeadFrom(rules, v).value.0.league == []
  {
  }

  lemma U32sAreCanonical(build: Build, s: seq<Byte>, count: nat)
    requires ReadU32s(build, s, count).Parsed?
    ensures var read := ReadU32s(build, s, count);
      s == FieldsBytes(Repeated(Uint(4), count), Numbers(read.value)) + read.rest
  {
    hide FieldsBytes, ReadFields;
    FieldsAreCanonical(build.text, s, Repeated(Uint(4), count));
  }

  lemma ConfigIsCanonical(build: Build, s: seq<Byte>)
    requires ReadConfig(build, s).Parsed?
    ensures var read := ReadConfig(build, s);
      && s == ConfigBytes(read.value, read.rest)
      && |read.value.dimensions| == 4 && |read.value.floats| == 11 && build.configFits(read.value)
  {
    hide FieldsBytes, ReadU32s;
    U32sAreCanonical(build, s, 4);
    U32sAreCanonical(build, ReadU32s(build, s, 4).rest, 11);
  }

  lemma BlockIsCanonical(build: Build, s: seq<Byte>, present: bool)
    requires ReadBlock(build, s, present).Parsed?
    ensures var read := ReadBlock(build, s, present);
      && s == BlockBytes(read.value, read.rest) && read.value.Some? == present
      && (present ==> |read.value.value.hash| == 32)
  {
    hide FieldsBytes, ReadFields, BlockFrom, BlockValues;
    if present {
      FieldsAreCanonical(build.text, s, BLOCK);
      BlockComesFrom(build.text, ReadFields(build.text, s, BLOCK).value);
    }
  }

  lemma RunIsCanonical(build: Build, s: seq<Byte>)
    requires ReadRun(build, s).Parsed?
    ensures s == FieldsBytes(RUN, RunValues(ReadRun(build, s).value)) + ReadRun(build, s).rest
  {
    hide FieldsBytes, ReadFields, RunFrom, RunValues;
    FieldsAreCanonical(build.text, s, RUN);
    RunComesFrom(build.text, ReadFields(build.text, s, RUN).value);
  }

  lemma RestIsCanonical(build: Build, s: seq<Byte>, run: Run, progress: Progress, config: PpoConfig)
    requires ReadRest(build, s, run, progress, config).Parsed?
    ensures var read := ReadRest(build, s, run, progress, config);
      && s == FieldsBytes(COUNTERS, CounterValues(read.value)) + BlockBytes(read.value.adaptive, read.rest)
      && read.value.run == run && read.value.progress == progress && read.value.config == config
      && |read.value.tensorHash| == 32 && (read.value.adaptive.Some? ==> |read.value.adaptive.value.hash| == 32)
      && ProgressValid(build, progress, read.value.updates, config)
  {
    hide FieldsBytes, ReadFields, ReadBlock, BlockBytes, ProgressValid, Pow256;
    FieldsAreCanonical(build.text, s, COUNTERS);
    var v := ReadFields(build.text, s, COUNTERS);
    assert forall i :: 0 <= i < |COUNTERS| ==> Fits(build.text, COUNTERS[i], v.value[i]);
    Widths();
    BlockIsCanonical(build, v.rest, v.value[5].n == 1);
    var m := ReadRest(build, s, run, progress, config).value;
    assert v.value == CounterValues(m);
  }

  lemma IdentityIsCanonical(build: Build, s: seq<Byte>)
    requires ReadIdentity(build, s).Parsed?
    ensures s == FieldsBytes(IDENTITY, IdentityValues(build)) + ReadIdentity(build, s).rest
  {
    hide FieldsBytes, ReadFields, IdentityValues;
    FieldsAreCanonical(build.text, s, IDENTITY);
  }

  /** Whatever is read is an encoding: only the sign of an absent float is free. */
  lemma ManifestIsCanonical(build: Build, s: seq<Byte>)
    requires ReadManifest(build, s).Parsed?
    ensures var read := ReadManifest(build, s);
      && (build.scopeFits(read.value.run, read.value.progress.(rngs := []), read.value.adaptive) ==> ValidManifest(build, read.value))
      && (s == Encoded(build, read.value, false, read.rest)
          || (read.value.progress.bestEvaluation.None? && s == Encoded(build, read.value, true, read.rest)))
  {
    hide FieldsBytes, ReadIdentity, ReadRun, ReadProgress, ReadConfig, ReadRest, ProgressBytes, ConfigBytes, BlockBytes;
    hide IdentityValues, RunValues, RunValid, ProgressValid, CounterValues;
    IdentityIsCanonical(build, s);
    var s1 := ReadIdentity(build, s).rest;
    RunIsCanonical(build, s1);
    var run := ReadRun(build, s1);
    ProgressIsCanonical(build, run.rest);
    var progress := ReadProgress(build, run.rest);
    ConfigIsCanonical(build, progress.rest);
    var config := ReadConfig(build, progress.rest);
    RestIsCanonical(build, config.rest, run.value, progress.value, config.value);
  }

  // ---------------------------------------------------------------- the decoder's language

  /**
   * The decoder accepts exactly the encodings of valid manifests within the size
   * bound, plus those whose absent evaluation is stored as negative zero.
   */
  lemma DecodesExactlyEncodings(build: Build, bytes: seq<Byte>, m: Manifest)
    ensures Decode(build, bytes) == Some(m) <==>
      && ValidManifest(build, m) && |bytes| <= MAX_META_BYTES
      && (bytes == Encoded(build, m, false, [])
          || (m.progress.bestEvaluation.None? && bytes == Encoded(build, m, true, [])))
  {
    hide Encoded, ReadManifest, RunValid, ProgressValid;
    if Decode(build, bytes) == Some(m) {
      ManifestIsCanonical(build, bytes);
    }
    if ValidManifest(build, m) {
      ManifestReads(build, m, false, []);
      ManifestReads(build, m, true, []);
    }
  }

  /** Everything recorded comes back, the adaptive block included, exactly when it is not too long. */
  lemma RoundTrip(build: Build, m: Manifest)
    requires ValidManifest(build, m)
    ensures Decode(build, Encoded(build, m, false, [])) == Some(m) <==> ManifestSize(m) <= MAX_META_BYTES
  {
    hide Encoded, Decode, ValidManifest;
    EncodedSize(build, m, false, []);
    DecodesExactlyEncodings(build, Encoded(build, m, false, []), m);
  }

  /** The end of an encoding is where the following bytes begin. */
  lemma EncodedThen(build: Build, m: Manifest, sign: bool, end: seq<Byte>)
    ensures Encoded(build, m, sign, end) == Encoded(build, m, sign, []) + end
  {
    hide FieldsBytes, RngsBytes, IdentityValues, RunValues, HeadValues, CounterValues, BlockValues;
    var a, b := FieldsBytes(IDENTITY, IdentityValues(build)), FieldsBytes(RUN, RunValues(m.run));
    var c := FieldsBytes(COUNTERS, CounterValues(m));
    BlockThen(m.adaptive, end);
    Regroup(c, BlockBytes(m.adaptive, []), end);
    ConfigThen(m.config, c + BlockBytes(m.adaptive, []), end);
    var config := ConfigBytes(m.config, c + BlockBytes(m.adaptive, []));
    ProgressThen(m.progress, sign, config, end);
    var progress := ProgressBytes(m.progress, sign, config);
    Regroup(b, progress, end);
    Regroup(a, b + progress, end);
  }

  lemma BlockThen(adaptive: Option<Adaptive>, end: seq<Byte>)
    ensures BlockBytes(adaptive, end) == BlockBytes(adaptive, []) + end
  {
    hide FieldsBytes, BlockValues;
    if adaptive.Some? {
      var block := FieldsBytes(BLOCK, BlockValues(adaptive.value));
      assert block + [] == block;
    }
  }

  lemma ConfigThen(c: PpoConfig, middle: seq<Byte>, end: seq<Byte>)
    ensures ConfigBytes(c, middle + end) == ConfigBytes(c, middle) + end
  {
    hide FieldsBytes;
    var a := FieldsBytes(Repeated(Uint(4), |c.dimensions|), Numbers(c.dimensions));
    var b := FieldsBytes(Repeated(Uint(4), |c.floats|), Numbers(c.floats));
    Regroup(b, middle, end);
    Regroup(a, b + middle, end);
  }

  lemma ProgressThen(p: Progress, sign: bool, middle: seq<Byte>, end: seq<Byte>)
    ensures ProgressBytes(p, sign, middle + end) == ProgressBytes(p, sign, middle) + end
  {
    hide FieldsBytes, RngsBytes, HeadValues;
    var a, b := FieldsBytes(HEAD, HeadValues(p, sign)), RngsBytes(p.rngs);
    var c := FieldsBytes([Uint(1)], Numbers([|p.league|]));
    var d := FieldsBytes(Repeated(Uint(8), |p.league|), Numbers(p.league));
    Regroup(d, middle, end);
    Regroup(c, d + middle, end);
    Regroup(b, c + (d + middle), end);
    Regroup(a, b + (c + (d + middle)), end);
  }

  /** No accepted manifest continues another: every cut and every extension of one is refused. */
  lemma AcceptedIsComplete(build: Build, bytes: seq<Byte>, more: seq<Byte>)
    requires Decode(build, bytes).Some? && more != []
    ensures Decode(build, bytes + more).None?
  {
    hide Encoded, ReadManifest, ValidManifest;
    var m := Decode(build, bytes).value;
    DecodesExactlyEncodings(build, bytes, m);
    var sign := bytes != Encoded(build, m, false, []);
    EncodedThen(build, m, sign, more);
    ManifestReads(build, m, sign, more);
  }

  /** No encoding continues another one. */
  lemma EncodingEnds(build: Build, m: Manifest, other: Manifest, sign: bool, more: seq<Byte>)
    requires ValidManifest(build, m) && ValidManifest(build, other)
    requires Encoded(build, m, false, []) == Encoded(build, other, sign, []) + more
    ensures more == []
  {
    hide Encoded, ReadManifest, ValidManifest;
    ManifestReads(build, m, false, []);
    EncodedThen(build, other, sign, more);
    ManifestReads(build, other, sign, more);
  }

  lemma CutsAreRefused(build: Build, m: Manifest, cut: nat)
    requires ValidManifest(build, m) && cut < |Encoded(build, m, false, [])|
    ensures Decode(build, Encoded(build, m, false, [])[..cut]).None?
  {
    hide Encoded, Decode, ValidManifest;
    var bytes := Encoded(build, m, false, []);
    var start, more := bytes[..cut], bytes[cut..];
    assert start + more == bytes;
    if Decode(build, start).Some? {
      var other := Decode(build, start).value;
      DecodesExactlyEncodings(build, start, other);
      EncodingEnds(build, m, other, start != Encoded(build, other, false, []), more);
    }
  }

  // ---------------------------------------------------------------- where every field stands

  ghost function Join(parts: seq<seq<Byte>>): seq<Byte> {
    if parts == [] then [] else parts[0] + Join(parts[1..])
  }

  lemma {:induction false} FieldsAreJoined(kinds: seq<Kind>, values: seq<Value>, parts: seq<seq<Byte>>)
    requires |kinds| == |values| == |parts| && forall i :: 0 <= i < |kinds| ==> parts[i] == FieldBytes(kinds[i], values[i])
    ensures FieldsBytes(kinds, values) == Join(parts)
    decreases |kinds|
  {
    if kinds != [] {
      FieldsAreJoined(kinds[1..], values[1..], parts[1..]);
    }
  }

  /** A text behind its length. */
  ghost function Prefixed(text: seq<Byte>): seq<Byte> { Le(|text|, 2) + text }

  lemma OneByte(n: nat)
    requires n < 256
    ensures Le(n, 1) == [n]
  {
    assert Le(n / 256, 0) == [];
  }

  lemma IdentityLayout(build: Build)
    ensures FieldsBytes(IDENTITY, IdentityValues(build)) == Join([
      [68, 82, 89, 67, 75, 80, 50, 50], Le(23, 4), Le(build.hash, 8),
      Le(build.actions.0, 4), Le(build.actions.1, 8), Le(build.features.0, 4), Le(build.features.1, 8),
      Le(build.model.0, 4), Le(build.model.1, 8), Le(build.ppo.0, 4), Le(build.ppo.1, 8)])
  {
    hide Le, FieldsBytes, Join;
    FieldsAreJoined(IDENTITY, IdentityValues(build), [
      [68, 82, 89, 67, 75, 80, 50, 50], Le(23, 4), Le(build.hash, 8),
      Le(build.actions.0, 4), Le(build.actions.1, 8), Le(build.features.0, 4), Le(build.features.1, 8),
      Le(build.model.0, 4), Le(build.model.1, 8), Le(build.ppo.0, 4), Le(build.ppo.1, 8)]);
  }

  lemma RunLayout(run: Run)
    ensures FieldsBytes(RUN, RunValues(run)) == Join([
      Prefixed(run.gitCommit), Prefixed(run.simulatorCommit), Prefixed(run.features), Prefixed(run.commandLine),
      Le(run.seed, 8), Le(run.map_, 2), Le(run.hero, 2),
      Le(if run.device.Cpu? then 0 else 1, 1), Le(if run.device.Cpu? then 0 else run.device.ordinal, 4),
      Le(run.batchSize, 4), Le(run.rulesVersion, 4)])
  {
    hide Le, FieldsBytes, Join;
    FieldsAreJoined(RUN, RunValues(run), [
      Prefixed(run.gitCommit), Prefixed(run.simulatorCommit), Prefixed(run.features), Prefixed(run.commandLine),
      Le(run.seed, 8), Le(run.map_, 2), Le(run.hero, 2),
      Le(if run.device.Cpu? then 0 else 1, 1), Le(if run.device.Cpu? then 0 else run.device.ordinal, 4),
      Le(run.batchSize, 4), Le(run.rulesVersion, 4)]);
  }

  lemma HeadLayout(p: Progress)
    ensures FieldsBytes(HEAD, HeadValues(p, false)) == Join([
      Le(p.globalUpdate, 8), Le(p.policyVersion, 8), Le(p.schedulerStep, 8), Le(p.curriculumStage, 4), Le(p.rolloutSamples, 8),
      Le(if p.bestEvaluation.Some? then 1 else 0, 1), Le(if p.bestEvaluation.Some? then p.bestEvaluation.value else 0, 8),
      Le(|p.rngs|, 1)])
  {
    hide Le, FieldsBytes, Join;
    FieldsAreJoined(HEAD, HeadValues(p, false), [
      Le(p.globalUpdate, 8), Le(p.policyVersion, 8), Le(p.schedulerStep, 8), Le(p.curriculumStage, 4), Le(p.rolloutSamples, 8),
      Le(if p.bestEvaluation.Some? then 1 else 0, 1), Le(if p.bestEvaluation.Some? then p.bestEvaluation.value else 0, 8),
      Le(|p.rngs|, 1)]);
  }

  ghost function GeneratorParts(rngs: seq<Rng>): seq<seq<Byte>> {
    seq(|rngs|, i requires 0 <= i < |rngs| => Prefixed(rngs[i].name) + (Le(rngs[i].state, 8) + Le(rngs[i].draws, 8)))
  }

  lemma OneGenerator(rng: Rng)
    ensures FieldsBytes(RNG, RngValues(rng)) == Prefixed(rng.name) + (Le(rng.state, 8) + Le(rng.draws, 8))
  {
    hide Le, FieldsBytes;
    FieldsAreJoined(RNG, RngValues(rng), [Prefixed(rng.name), Le(rng.state, 8), Le(rng.draws, 8)]);
    assert Join([Le(rng.draws, 8)]) == Le(rng.draws, 8) + Join([]);
    assert Join([Le(rng.state, 8), Le(rng.draws, 8)]) == Le(rng.state, 8) + Join([Le(rng.draws, 8)]);
  }

  lemma {:induction false} GeneratorsLayout(rngs: seq<Rng>)
    ensures RngsBytes(rngs) == Join(GeneratorParts(rngs))
  {
    hide FieldsBytes, RngValues, Le, Prefixed;
    if rngs != [] {
      OneGenerator(rngs[0]);
      GeneratorsLayout(rngs[1..]);
      assert GeneratorParts(rngs)[1..] == GeneratorParts(rngs[1..]);
    }
  }

  ghost function NumberParts(ns: seq<nat>, width: nat): seq<seq<Byte>> {
    seq(|ns|, i requires 0 <= i < |ns| => Le(ns[i], width))
  }

  lemma NumbersLayout(ns: seq<nat>, width: nat)
    ensures FieldsBytes(Repeated(Uint(width), |ns|), Numbers(ns)) == Join(NumberParts(ns, width))
  {
    hide Le, FieldsBytes, Join;
    FieldsAreJoined(Repeated(Uint(width), |ns|), Numbers(ns), NumberParts(ns, width));
  }

  lemma CountersLayout(m: Manifest)
    ensures FieldsBytes(COUNTERS, CounterValues(m)) == Join([
      Le(m.updates, 8), Le(m.step, 8), Le(m.shuffleState, 8), Le(m.shuffleDraws, 8), m.tensorHash,
      Le(if m.adaptive.Some? then 1 else 0, 1)])
  {
    hide Le, FieldsBytes, Join;
    FieldsAreJoined(COUNTERS, CounterValues(m), [
      Le(m.updates, 8), Le(m.step, 8), Le(m.shuffleState, 8), Le(m.shuffleDraws, 8), m.tensorHash,
      Le(if m.adaptive.Some? then 1 else 0, 1)]);
  }

  ghost function BlockParts(a: Adaptive): seq<seq<Byte>> {
    [Le(a.config.successUpdates, 8), Le(a.config.successRate, 8), Le(a.config.poorUpdates, 8), Le(a.config.poorRate, 8),
     Le(a.config.extension, 8), Le(a.limits.baseUpdates, 8), Le(a.limits.totalUpdates, 8), Le(a.limits.zeroUpdates, 8),
     Le(a.state.generation, 8), Le(a.state.startUpdate, 8), Le(a.state.updatesInGeneration, 8),
     Le(a.state.successStreak, 8), Le(a.state.poorStreak, 8), Le(a.state.extensionAwards, 8), Le(a.count, 8), a.hash]
  }

  lemma BlockLayout(a: Adaptive)
    ensures FieldsBytes(BLOCK, BlockValues(a)) == Join(BlockParts(a))
  {
    hide Le, FieldsBytes, Join;
    FieldsAreJoined(BLOCK, BlockValues(a), BlockParts(a));
  }

  /**
   * The format, field by field: magic, version, schema identities; the run;
   * the progress with its generators and league references behind their
   * counts; the optimizer configuration; the counters and the tensor hash; the
   * presence byte and the adaptive block.
   */
  lemma ManifestLayout(build: Build, m: Manifest)
    requires ValidManifest(build, m)
    ensures Encoded(build, m, false, []) ==
      Join([[68, 82, 89, 67, 75, 80, 50, 50], Le(23, 4), Le(build.hash, 8),
            Le(build.actions.0, 4), Le(build.actions.1, 8), Le(build.features.0, 4), Le(build.features.1, 8),
            Le(build.model.0, 4), Le(build.model.1, 8), Le(build.ppo.0, 4), Le(build.ppo.1, 8)])
      + (Join([Prefixed(m.run.gitCommit), Prefixed(m.run.simulatorCommit), Prefixed(m.run.features), Prefixed(m.run.commandLine),
               Le(m.run.seed, 8), Le(m.run.map_, 2), Le(m.run.hero, 2),
               Le(if m.run.device.Cpu? then 0 else 1, 1), Le(if m.run.device.Cpu? then 0 else m.run.device.ordinal, 4),
               Le(m.run.batchSize, 4), Le(m.run.rulesVersion, 4)])
         + (Join([Le(m.progress.globalUpdate, 8), Le(m.progress.policyVersion, 8), Le(m.progress.schedulerStep, 8),
                  Le(m.progress.curriculumStage, 4), Le(m.progress.rolloutSamples, 8),
                  Le(if m.progress.bestEvaluation.Some? then 1 else 0, 1),
                  Le(if m.progress.bestEvaluation.Some? then m.progress.bestEvaluation.value else 0, 8),
                  Le(|m.progress.rngs|, 1)])
            + (Join(GeneratorParts(m.progress.rngs))
               + ([|m.progress.league|]
                  + (Join(NumberParts(m.progress.league, 8))
                     + (Join(NumberParts(m.config.dimensions, 4))
                        + (Join(NumberParts(m.config.floats, 4))
                           + (Join([Le(m.updates, 8), Le(m.step, 8), Le(m.shuffleState, 8), Le(m.shuffleDraws, 8), m.tensorHash,
                                    Le(if m.adaptive.Some? then 1 else 0, 1)])
                              + (if m.adaptive.Some? then Join(BlockParts(m.adaptive.value)) else [])))))))))
  {
    hide Le, FieldsBytes, Join, Prefixed, RngsBytes, GeneratorParts, NumberParts, BlockParts, BlockValues, CounterValues;
    hide HeadValues, RunValues, IdentityValues, Numbers, Repeated, RunValid, RngValid;
    IdentityLayout(build);
    RunLayout(m.run);
    HeadLayout(m.progress);
    GeneratorsLayout(m.progress.rngs);
    CountIsOneByte(|m.progress.league|);
    NumbersLayout(m.progress.league, 8);
    NumbersLayout(m.config.dimensions, 4);
    NumbersLayout(m.config.floats, 4);
    CountersLayout(m);
    if m.adaptive.Some? {
      BlockLayout(m.adaptive.value);
      assert BlockBytes(m.adaptive, []) == Join(BlockParts(m.adaptive.value)) + [];
    }
  }

  lemma CountIsOneByte(n: nat)
    requires n < 256
    ensures FieldsBytes([Uint(1)], Numbers([n])) == [n]
  {
    OneByte(n);
    assert FieldsBytes([Uint(1)], Numbers([n])) == FieldBytes(Uint(1), Number(n)) + [];
  }

  // ---------------------------------------------------------------- how long an encoding is

  /** Bytes of numbers and raw octets; texts count nothing. */
  function Length(kinds: seq<Kind>): nat {
    if kinds == [] then 0
    else (match kinds[0] case Uint(width) => width case Raw(count) => count case Text => 0) + Length(kinds[1..])
  }

  lemma {:induction false} FieldsLength(rules: TextRules, kinds: seq<Kind>, values: seq<Value>)
    requires AllFit(rules, kinds, values) && forall i :: 0 <= i < |kinds| ==> !kinds[i].Text?
    ensures |FieldsBytes(kinds, values)| == Length(kinds)
  {
    if kinds != [] { FieldsLength(rules, kinds[1..], values[1..]); }
  }

  /** A leading text takes two bytes more than it has. */
  lemma TextLength(rules: TextRules, kinds: seq<Kind>, values: seq<Value>)
    requires AllFit(rules, kinds, values) && kinds != [] && kinds[0] == Text
    ensures |FieldsBytes(kinds, values)| == 2 + |values[0].bytes| + |FieldsBytes(kinds[1..], values[1..])|
    ensures AllFit(rules, kinds[1..], values[1..])
  {
    assert Fits(rules, kinds[0], values[0]);
  }

  lemma RunLength(rules: TextRules, run: Run)
    requires AllFit(rules, RUN, RunValues(run))
    ensures |FieldsBytes(RUN, RunValues(run))|
         == 33 + |run.gitCommit| + |run.simulatorCommit| + |run.features| + |run.commandLine|
  {
    hide FieldsBytes, AllFit;
    var k, v := RUN, RunValues(run);
    TextLength(rules, k, v);
    TextLength(rules, k[1..], v[1..]);
    TextLength(rules, k[1..][1..], v[1..][1..]);
    TextLength(rules, k[1..][1..][1..], v[1..][1..][1..]);
    var numbers := k[1..][1..][1..][1..];
    assert numbers == [Uint(8), Uint(2), Uint(2), Uint(1), Uint(4), Uint(4), Uint(4)];
    FieldsLength(rules, numbers, v[1..][1..][1..][1..]);
    assert Length([Uint(8), Uint(2), Uint(2), Uint(1), Uint(4), Uint(4), Uint(4)]) == 25;
  }

  lemma RngLength(rules: TextRules, rng: Rng)
    requires AllFit(rules, RNG, RngValues(rng))
    ensures |FieldsBytes(RNG, RngValues(rng))| == 18 + |rng.name|
  {
    hide FieldsBytes, AllFit;
    var v := RngValues(rng);
    TextLength(rules, RNG, v);
    assert RNG[1..] == [Uint(8), Uint(8)];
    FieldsLength(rules, RNG[1..], v[1..]);
    assert Length([Uint(8), Uint(8)]) == 16;
  }

  function RngsSize(rngs: seq<Rng>): nat {
    if rngs == [] then 0 else 18 + |rngs[0].name| + RngsSize(rngs[1..])
  }

  lemma {:induction false} RngsLength(build: Build, rngs: seq<Rng>)
    requires forall i :: 0 <= i < |rngs| ==> RngValid(build, rngs[i])
    ensures |RngsBytes(rngs)| == RngsSize(rngs)
  {
    hide FieldsBytes, RngValues, AllFit;
    if rngs != [] {
      RngMaps(build.text, rngs[0]);
      RngLength(build.text, rngs[0]);
      RngsLength(build, rngs[1..]);
    }
  }

  lemma {:induction false} LengthOfRepeated(width: nat, count: nat)
    ensures Length(Repeated(Uint(width), count)) == width * count
  {
    if count > 0 {
      assert Repeated(Uint(width), count)[1..] == Repeated(Uint(width), count - 1);
      LengthOfRepeated(width, count - 1);
    }
  }

  lemma NumbersLength(rules: TextRules, ns: seq<nat>, width: nat)
    requires forall i :: 0 <= i < |ns| ==> ns[i] < Pow256(width)
    ensures |FieldsBytes(Repeated(Uint(width), |ns|), Numbers(ns))| == width * |ns|
  {
    hide FieldsBytes, Length, Pow256;
    NumbersFit(rules, ns, width);
    FieldsLength(rules, Repeated(Uint(width), |ns|), Numbers(ns));
    LengthOfRepeated(width, |ns|);
  }

  /** The length of an encoding: what is always there, the texts, the names, the references and the block. */
  function ManifestSize(m: Manifest): nat {
    273 + |m.run.gitCommit| + |m.run.simulatorCommit| + |m.run.features| + |m.run.commandLine|
    + RngsSize(m.progress.rngs) + 8 * |m.progress.league| + if m.adaptive.Some? then 152 else 0
  }

  lemma ProgressLength(build: Build, p: Progress, sign: bool, end: seq<Byte>)
    requires |p.rngs| <= MAX_RNG_STATES && |p.league| <= MAX_LEAGUE_REFERENCES
    requires forall i :: 0 <= i < |p.rngs| ==> RngValid(build, p.rngs[i])
    ensures |ProgressBytes(p, sign, end)| == 47 + RngsSize(p.rngs) + 8 * |p.league| + |end|
  {
    hide FieldsBytes, HeadValues, RngsBytes, RngsSize, Pow256, Numbers, Repeated, AllFit;
    Widths();
    HeadMaps(build.text, p, sign);
    FieldsLength(build.text, HEAD, HeadValues(p, sign));
    assert Length(HEAD) == 46;
    RngsLength(build, p.rngs);
    OneNumber(|p.league|);
    NumbersLength(build.text, [|p.league|], 1);
    NumbersLength(build.text, p.league, 8);
  }

  lemma ConfigLength(rules: TextRules, c: PpoConfig, end: seq<Byte>)
    requires |c.dimensions| == 4 && |c.floats| == 11
    ensures |ConfigBytes(c, end)| == 60 + |end|
  {
    hide FieldsBytes, Pow256, Numbers, Repeated;
    Widths();
    NumbersLength(rules, c.dimensions, 4);
    NumbersLength(rules, c.floats, 4);
  }

  lemma {:induction false} LengthOfCounters(kinds: seq<Kind>)
    requires kinds != [] && kinds[|kinds| - 1] == Raw(32)
    requires forall i :: 0 <= i < |kinds| - 1 ==> kinds[i] == Uint(8)
    ensures Length(kinds) == 8 * (|kinds| - 1) + 32
  {
    if |kinds| > 1 { LengthOfCounters(kinds[1..]); }
  }

  lemma BlockShape()
    ensures |BLOCK| == 16 && BLOCK[15] == Raw(32) && forall i :: 0 <= i < 15 ==> BLOCK[i] == Uint(8)
  {
  }

  lemma CountersAndHash(rules: TextRules, kinds: seq<Kind>, values: seq<Value>)
    requires |kinds| == 16 && kinds[15] == Raw(32) && forall i :: 0 <= i < 15 ==> kinds[i] == Uint(8)
    requires AllFit(rules, kinds, values)
    ensures |FieldsBytes(kinds, values)| == 152
  {
    hide FieldsBytes, Length;
    FieldsLength(rules, kinds, values);
    LengthOfCounters(kinds);
  }

  lemma BlockIs152Bytes(a: Adaptive)
    requires |a.hash| == 32
    ensures |FieldsBytes(BLOCK, BlockValues(a))| == 152
  {
    var rules := TextRules(text => true, text => true);
    BlockMaps(rules, a);
    BlockShape();
    hide BlockValues, AllFit, FieldsBytes;
    CountersAndHash(rules, BLOCK, BlockValues(a));
  }

  lemma RestLength(rules: TextRules, m: Manifest, end: seq<Byte>)
    requires |m.tensorHash| == 32 && (m.adaptive.Some? ==> |m.adaptive.value.hash| == 32)
    ensures |FieldsBytes(COUNTERS, CounterValues(m)) + BlockBytes(m.adaptive, end)|
         == 65 + (if m.adaptive.Some? then 152 else 0) + |end|
  {
    hide FieldsBytes, CounterValues, BlockValues, AllFit;
    CountersMap(rules, m);
    FieldsLength(rules, COUNTERS, CounterValues(m));
    assert Length(COUNTERS) == 65;
    if m.adaptive.Some? {
      BlockIs152Bytes(m.adaptive.value);
    }
  }

  /** An encoding is as long as its texts, lists and block make it. */
  lemma EncodedSize(build: Build, m: Manifest, sign: bool, end: seq<Byte>)
    requires ValidManifest(build, m)
    ensures |Encoded(build, m, sign, end)| == ManifestSize(m) + |end|
  {
    hide FieldsBytes, IdentityValues, RunValues, CounterValues, ProgressBytes, ConfigBytes, BlockBytes, AllFit, RngsSize;
    var rest := FieldsBytes(COUNTERS, CounterValues(m)) + BlockBytes(m.adaptive, end);
    IdentityFits(build);
    FieldsLength(build.text, IDENTITY, IdentityValues(build));
    assert Length(IDENTITY) == 68;
    RunIsPlain(build, m.run, m.config);
    RunLength(build.text, m.run);
    RestLength(build.text, m, end);
    ConfigLength(build.text, m.config, rest);
    ProgressLength(build, m.progress, sign, ConfigBytes(m.config, rest));
  }

  /** The longest names there are, told apart by their first letter. */
  function LongName(i: nat): (name: seq<Byte>)
    requires i < 26
    ensures |name| == MAX_TEXT_BYTES && name[0] == 97 + i
  {
    [97 + i] + seq(MAX_TEXT_BYTES - 1, k => 97)
  }

  function LongNamed(count: nat): (rngs: seq<Rng>)
    requires count <= 26
    ensures |rngs| == count && forall i :: 0 <= i < count ==> rngs[i] == Rng(LongName(i), 0, 0)
  {
    seq(count, i requires 0 <= i < count => Rng(LongName(i), 0, 0))
  }

  lemma {:induction false} LongNamesSize(count: nat)
    requires count <= 26
    ensures RngsSize(LongNamed(count)) == count * (18 + MAX_TEXT_BYTES)
  {
    RngsSizeOfEqual(LongNamed(count));
  }

  lemma {:induction false} RngsSizeOfEqual(rngs: seq<Rng>)
    requires forall i :: 0 <= i < |rngs| ==> |rngs[i].name| == MAX_TEXT_BYTES
    ensures RngsSize(rngs) == |rngs| * (18 + MAX_TEXT_BYTES)
  {
    if rngs != [] { RngsSizeOfEqual(rngs[1..]); }
  }

  /**
   * Any valid manifest, its generators replaced by sixteen with names of the
   * greatest length, is still valid and can no longer be encoded.
   */
  lemma SixteenLongNamesAreTooMany(build: Build, m: Manifest)
    requires ValidManifest(build, m)
    requires forall i :: 0 <= i < 16 ==> build.text.utf8(LongName(i)) && build.text.plain(LongName(i))
    ensures var long := m.(progress := m.progress.(rngs := LongNamed(16)));
      ValidManifest(build, long) && |Encoded(build, long, false, [])| > MAX_META_BYTES
  {
    hide Encoded, RngsSize;
    var long := m.(progress := m.progress.(rngs := LongNamed(16)));
    assert long.progress.(rngs := []) == m.progress.(rngs := []);
    assert ValidManifest(build, long);
    EncodedSize(build, long, false, []);
    LongNamesSize(16);
  }

  // ---------------------------------------------------------------- the writer and the reader at work

  /** One part more: what is written and what remains still make up the whole. */
  lemma PartWritten(whole: seq<Byte>, written: seq<Byte>, part: seq<Byte>, remaining: seq<Byte>)
    requires whole == written + (part + remaining)
    ensures whole == (written + part) + remaining
  {
  }

  method WriteRngs(writer: ManifestWriter, build: Build, rngs: seq<Rng>) returns (ok: bool)
    requires forall i :: 0 <= i < |rngs| ==> RngValid(build, rngs[i])
    modifies writer
    ensures ok && writer.bytes == old(writer.bytes) + RngsBytes(rngs)
  {
    hide FieldsBytes, RngValues;
    ghost var whole := writer.bytes + RngsBytes(rngs);
    for n := 0 to |rngs|
      invariant whole == writer.bytes + RngsBytes(rngs[n..])
    {
      var rng := rngs[n];
      RngMaps(build.text, rng);
      RngIsPlain(build, rng);
      assert rngs[n..][0] == rng && rngs[n..][1..] == rngs[n + 1..];
      PartWritten(whole, writer.bytes, FieldsBytes(RNG, RngValues(rng)), RngsBytes(rngs[n + 1..]));
      var fine := writer.Fields(build.text, RNG, RngValues(rng));
    }
    ok := true;
  }

  lemma RngIsPlain(build: Build, rng: Rng)
    requires RngValid(build, rng)
    ensures build.text.plain(RngValues(rng)[0].bytes)
    ensures build.text.utf8(rng.name) && 1 <= |rng.name| <= MAX_TEXT_BYTES
  {
  }

  lemma RunIsPlain(build: Build, run: Run, config: PpoConfig)
    requires RunValid(build, run, config)
    ensures AllFit(build.text, RUN, RunValues(run))
    ensures forall i :: 0 <= i < |RUN| && RUN[i].Text? ==> build.text.plain(RunValues(run)[i].bytes)
  {
    RunMaps(build.text, run);
  }

  /** Numbers of one width, keeping track of what remains of the whole. */
  method WriteNumbers(writer: ManifestWriter, build: Build, ns: seq<nat>, width: nat,
                      ghost whole: seq<Byte>, ghost remaining: seq<Byte>)
    returns (ok: bool)
    requires forall i :: 0 <= i < |ns| ==> ns[i] < Pow256(width)
    requires whole == writer.bytes + (FieldsBytes(Repeated(Uint(width), |ns|), Numbers(ns)) + remaining)
    modifies writer
    ensures ok && whole == writer.bytes + remaining
  {
    hide FieldsBytes, Pow256;
    NumbersFit(build.text, ns, width);
    PartWritten(whole, writer.bytes, FieldsBytes(Repeated(Uint(width), |ns|), Numbers(ns)), remaining);
    ok := writer.Fields(build.text, Repeated(Uint(width), |ns|), Numbers(ns));
  }

  method WriteRun(writer: ManifestWriter, build: Build, run: Run, ghost config: PpoConfig,
                  ghost whole: seq<Byte>, ghost remaining: seq<Byte>)
    returns (ok: bool)
    requires RunValid(build, run, config) && whole == writer.bytes + (FieldsBytes(RUN, RunValues(run)) + remaining)
    modifies writer
    ensures ok && whole == writer.bytes + remaining
  {
    RunIsPlain(build, run, config);
    hide FieldsBytes, RunValues;
    PartWritten(whole, writer.bytes, FieldsBytes(RUN, RunValues(run)), remaining);
    ok := writer.Fields(build.text, RUN, RunValues(run));
  }

  method WriteProgress(writer: ManifestWriter, build: Build, p: Progress, ghost whole: seq<Byte>, ghost remaining: seq<Byte>)
    returns (ok: bool)
    requires |p.rngs| <= MAX_RNG_STATES && |p.league| <= MAX_LEAGUE_REFERENCES
    requires forall i :: 0 <= i < |p.rngs| ==> RngValid(build, p.rngs[i])
    requires whole == writer.bytes + ProgressBytes(p, false, remaining)
    modifies writer
    ensures ok && whole == writer.bytes + remaining
  {
    hide FieldsBytes, RngsBytes, HeadValues, Pow256, Repeated, Numbers;
    ghost var league := FieldsBytes(Repeated(Uint(8), |p.league|), Numbers(p.league)) + remaining;
    Widths();
    HeadMaps(build.text, p, false);
    PartWritten(whole, writer.bytes, FieldsBytes(HEAD, HeadValues(p, false)), RngsBytes(p.rngs) + LeagueBytes(p, remaining));
    ok := writer.Fields(build.text, HEAD, HeadValues(p, false));
    PartWritten(whole, writer.bytes, RngsBytes(p.rngs), LeagueBytes(p, remaining));
    ok := WriteRngs(writer, build, p.rngs);
    OneNumber(|p.league|);
    ok := WriteNumbers(writer, build, [|p.league|], 1, whole, league);
    ok := WriteNumbers(writer, build, p.league, 8, whole, remaining);
  }

  method WriteConfig(writer: ManifestWriter, build: Build, c: PpoConfig, ghost whole: seq<Byte>, ghost remaining: seq<Byte>)
    returns (ok: bool)
    requires whole == writer.bytes + ConfigBytes(c, remaining)
    modifies writer
    ensures ok && whole == writer.bytes + remaining
  {
    hide FieldsBytes, Pow256, Repeated, Numbers;
    ghost var floats := FieldsBytes(Repeated(Uint(4), |c.floats|), Numbers(c.floats)) + remaining;
    Widths();
    ok := WriteNumbers(writer, build, c.dimensions, 4, whole, floats);
    ok := WriteNumbers(writer, build, c.floats, 4, whole, remaining);
  }

  method WriteRest(writer: ManifestWriter, build: Build, m: Manifest, ghost whole: seq<Byte>) returns (ok: bool)
    requires |m.tensorHash| == 32 && (m.adaptive.Some? ==> |m.adaptive.value.hash| == 32)
    requires whole == writer.bytes + (FieldsBytes(COUNTERS, CounterValues(m)) + BlockBytes(m.adaptive, []))
    modifies writer
    ensures ok && whole == writer.bytes
  {
    hide FieldsBytes, CounterValues, BlockValues;
    CountersMap(build.text, m);
    PartWritten(whole, writer.bytes, FieldsBytes(COUNTERS, CounterValues(m)), BlockBytes(m.adaptive, []));
    ok := writer.Fields(build.text, COUNTERS, CounterValues(m));
    if m.adaptive.Some? {
      BlockMaps(build.text, m.adaptive.value);
      PartWritten(whole, writer.bytes, FieldsBytes(BLOCK, BlockValues(m.adaptive.value)), []);
      ok := writer.Fields(build.text, BLOCK, BlockValues(m.adaptive.value));
    }
    assert writer.bytes + [] == writer.bytes;
  }

  /** Writes a valid manifest; only the size bound can refuse it. */
  method Encode(build: Build, m: Manifest) returns (bytes: Option<seq<Byte>>)
    requires ValidManifest(build, m)
    ensures bytes == if ManifestSize(m) <= MAX_META_BYTES then Some(Encoded(build, m, false, [])) else None
  {
    hide FieldsBytes, IdentityValues, RunValues, CounterValues, RunValid;
    hide ProgressBytes, ConfigBytes, BlockBytes;
    ghost var whole := Encoded(build, m, false, []);
    var writer := new ManifestWriter();
    ghost var rest := FieldsBytes(COUNTERS, CounterValues(m)) + BlockBytes(m.adaptive, []);
    ghost var config := ConfigBytes(m.config, rest);
    ghost var progress := ProgressBytes(m.progress, false, config);
    IdentityFits(build);
    var ok := writer.Fields(build.text, IDENTITY, IdentityValues(build));
    assert writer.bytes == FieldsBytes(IDENTITY, IdentityValues(build));
    ok := WriteRun(writer, build, m.run, m.config, whole, progress);
    ok := WriteProgress(writer, build, m.progress, whole, config);
    ok := WriteConfig(writer, build, m.config, whole, rest);
    ok := WriteRest(writer, build, m, whole);
    EncodedSize(build, m, false, []);
    return if |writer.bytes| <= MAX_META_BYTES then Some(writer.bytes) else None;
  }

  // ---------------------------------------------------------------- decoding

  method DecodeRngs(reader: ManifestReader, build: Build, count: nat) returns (rngs: Option<seq<Rng>>)
    requires reader.Valid()
    modifies reader
    ensures reader.Valid()
    ensures rngs.None? ==> ReadRngs(build, old(reader.Rest()), count).Rejected?
    ensures rngs.Some? ==> ReadRngs(build, old(reader.Rest()), count) == Parsed(rngs.value, reader.Rest())
  {
    hide ReadFields, RngFrom;
    var read: seq<Rng> := [];
    ghost var start := reader.Rest();
    AfterNothing(ReadRngs(build, start, count));
    for n := 0 to count
      invariant reader.Valid() && |read| == n
      invariant ReadRngs(build, start, count) == After(read, ReadRngs(build, reader.Rest(), count - n))
    {
      ghost var here := reader.Rest();
      var v := reader.Fields(build.text, RNG);
      if v.None? {
        return None;
      }
      FieldsAreCanonical(build.text, here, RNG);
      var rng := RngFrom(build.text, v.value);
      if !build.text.plain(rng.name) || rng.draws > C.MAX_TRAINING_COUNTER {
        return None;
      }
      AfterOne(read, rng, ReadRngs(build, reader.Rest(), count - n - 1));
      read := read + [rng];
    }
    assert read + [] == read;
    return Some(read);
  }

  /** A parse of what follows, with the generators already read put in front. */
  function After(read: seq<Rng>, rest: Parse<seq<Rng>>): Parse<seq<Rng>> {
    match rest case Rejected => Rejected case Parsed(others, end) => Parsed(read + others, end)
  }

  lemma AfterNothing(rest: Parse<seq<Rng>>)
    ensures After([], rest) == rest
  {
    if rest.Parsed? { assert [] + rest.value == rest.value; }
  }

  lemma AfterOne(read: seq<Rng>, rng: Rng, rest: Parse<seq<Rng>>)
    ensures After(read, After([rng], rest)) == After(read + [rng], rest)
  {
    if rest.Parsed? { assert read + ([rng] + rest.value) == (read + [rng]) + rest.value; }
  }

  method DecodeLeague(reader: ManifestReader, build: Build) returns (league: Option<seq<U64>>)
    requires reader.Valid()
    modifies reader
    ensures reader.Valid()
    ensures league.None? ==> ReadLeague(build, old(reader.Rest())).Rejected?
    ensures league.Some? ==> ReadLeague(build, old(reader.Rest())) == Parsed(league.value, reader.Rest())
  {
    hide ReadFields, Pow256;
    ghost var start := reader.Rest();
    var n := reader.Fields(build.text, [Uint(1)]);
    if n.None? {
      return None;
    }
    assert Fits(build.text, [Uint(1)][0], n.value[0]);
    if n.value[0].n > MAX_LEAGUE_REFERENCES {
      return None;
    }
    var v := reader.Fields(build.text, Repeated(Uint(8), n.value[0].n));
    if v.None? {
      return None;
    }
    Widths();
    FittingAreNumbers(build.text, v.value, 8);
    return Some(U64sFrom(v.value));
  }

  method DecodeProgress(reader: ManifestReader, build: Build) returns (progress: Option<Progress>)
    requires reader.Valid()
    modifies reader
    ensures reader.Valid()
    ensures progress.None? ==> ReadProgress(build, old(reader.Rest())).Rejected?
    ensures progress.Some? ==> ReadProgress(build, old(reader.Rest())) == Parsed(progress.value, reader.Rest())
  {
    hide ReadFields, ReadRngs, ReadLeague, HeadFrom, AllFit;
    var head := reader.Fields(build.text, HEAD);
    if head.None? {
      return None;
    }
    var from := HeadFrom(build.text, head.value);
    if from.None? {
      return None;
    }
    var rngs := DecodeRngs(reader, build, from.value.1);
    if rngs.None? {
      return None;
    }
    var league := DecodeLeague(reader, build);
    if league.None? {
      return None;
    }
    return Some(from.value.0.(rngs := rngs.value, league := league.value));
  }

  method DecodeU32s(reader: ManifestReader, build: Build, count: nat) returns (ns: Option<seq<U32>>)
    requires reader.Valid()
    modifies reader
    ensures reader.Valid()
    ensures ns.None? ==> ReadU32s(build, old(reader.Rest()), count).Rejected?
    ensures ns.Some? ==> ReadU32s(build, old(reader.Rest()), count) == Parsed(ns.value, reader.Rest())
  {
    hide ReadFields, Pow256;
    var v := reader.Fields(build.text, Repeated(Uint(4), count));
    if v.None? {
      return None;
    }
    Widths();
    FittingAreNumbers(build.text, v.value, 4);
    return Some(U32sFrom(v.value));
  }

  method DecodeRun(reader: ManifestReader, build: Build) returns (run: Option<Run>)
    requires reader.Valid()
    modifies reader
    ensures reader.Valid()
    ensures run.None? ==> ReadRun(build, old(reader.Rest())).Rejected?
    ensures run.Some? ==> ReadRun(build, old(reader.Rest())) == Parsed(run.value, reader.Rest())
  {
    hide ReadFields, RunFrom, AllFit;
    var v := reader.Fields(build.text, RUN);
    if v.None? {
      return None;
    }
    return RunFrom(build.text, v.value);
  }

  method DecodeRest(reader: ManifestReader, build: Build, run: Run, progress: Progress, config: PpoConfig)
    returns (m: Option<Manifest>)
    requires reader.Valid()
    modifies reader
    ensures reader.Valid()
    ensures m.None? ==> ReadRest(build, old(reader.Rest()), run, progress, config).Rejected?
    ensures m.Some? ==> ReadRest(build, old(reader.Rest()), run, progress, config) == Parsed(m.value, reader.Rest())
  {
    hide ReadFields, ProgressValid, Pow256, BlockFrom;
    var v := reader.Fields(build.text, COUNTERS);
    if v.None? {
      return None;
    }
    Widths();
    assert forall i :: 0 <= i < |COUNTERS| ==> Fits(build.text, COUNTERS[i], v.value[i]);
    var updates: U64, flag := v.value[0].n, v.value[5].n;
    if !ProgressValid(build, progress, updates, config) || flag > 1 {
      return None;
    }
    var adaptive: Option<Adaptive> := None;
    if flag == 1 {
      var block := reader.Fields(build.text, BLOCK);
      if block.None? {
        return None;
      }
      adaptive := Some(BlockFrom(build.text, block.value));
    }
    return Some(Manifest(run, progress, config, updates, v.value[1].n, v.value[2].n, v.value[3].n, v.value[4].bytes, adaptive));
  }

  method DecodeConfig(reader: ManifestReader, build: Build) returns (config: Option<PpoConfig>)
    requires reader.Valid()
    modifies reader
    ensures reader.Valid()
    ensures config.None? ==> ReadConfig(build, old(reader.Rest())).Rejected?
    ensures config.Some? ==> ReadConfig(build, old(reader.Rest())) == Parsed(config.value, reader.Rest())
  {
    hide ReadU32s;
    var dimensions := DecodeU32s(reader, build, 4);
    if dimensions.None? {
      return None;
    }
    var floats := DecodeU32s(reader, build, 11);
    if floats.None? || !build.configFits(PpoConfig(dimensions.value, floats.value)) {
      return None;
    }
    return Some(PpoConfig(dimensions.value, floats.value));
  }

  method DecodeIdentity(reader: ManifestReader, build: Build) returns (ok: bool)
    requires reader.Valid()
    modifies reader
    ensures reader.Valid()
    ensures !ok ==> ReadIdentity(build, old(reader.Rest())).Rejected?
    ensures ok ==> ReadIdentity(build, old(reader.Rest())) == Parsed((), reader.Rest())
  {
    hide ReadFields, IdentityValues;
    var identity := reader.Fields(build.text, IDENTITY);
    return identity.Some? && identity.value == IdentityValues(build);
  }

  /** All parts in order; the cursor then stands behind the manifest. */
  method DecodeParts(reader: ManifestReader, build: Build) returns (m: Option<Manifest>)
    requires reader.Valid()
    modifies reader
    ensures reader.Valid()
    ensures m.None? ==> ReadManifest(build, old(reader.Rest())).Rejected?
    ensures m.Some? ==> ReadManifest(build, old(reader.Rest())) == Parsed(m.value, reader.Rest())
  {
    hide ReadIdentity, ReadRun, ReadProgress, ReadConfig, ReadRest, RunValid;
    var known := DecodeIdentity(reader, build);
    if !known {
      return None;
    }
    var run := DecodeRun(reader, build);
    if run.None? {
      return None;
    }
    var progress := DecodeProgress(reader, build);
    if progress.None? {
      return None;
    }
    var config := DecodeConfig(reader, build);
    if config.None? || !RunValid(build, run.value, config.value) {
      return None;
    }
    m := DecodeRest(reader, build, run.value, progress.value, config.value);
  }

  /** Reads a whole manifest and refuses trailing bytes. */
  method DecodeManifest(build: Build, bytes: seq<Byte>) returns (m: Option<Manifest>)
    ensures m == Decode(build, bytes)
  {
    hide ReadManifest, ManifestReader.Rest;
    if |bytes| > MAX_META_BYTES {
      return None;
    }
    var reader := new ManifestReader(bytes);
    var parts := DecodeParts(reader, build);
    if parts.None? {
      return None;
    }
    var finished := reader.Finish();
    if !finished || !build.scopeFits(parts.value.run, parts.value.progress.(rngs := []), parts.value.adaptive) {
      return None;
    }
    return parts;
  }
}
