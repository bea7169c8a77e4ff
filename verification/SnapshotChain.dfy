// Adaptive randomization snapshots: one file per generation, committed to the
// checkpoint by a count and a rolling hash.
module SnapshotChain {
  import opened Common
  import opened Geometry
  import opened Decimals
  import C = Controller

  type Hash = nat

  /** Hash of the empty prefix. */
  const ZERO: Hash := 0
  /** Updates by which collection trails the controller. */
  const COLLECTION_LAG: nat := 1

  const SNAPSHOT_PREFIX := "{\"schema\":\"drysua-domain-randomization/adaptive-v3\",\"start_update\":"

  /** What the model leaves abstract: the digest of a framed link, and the text after a snapshot's start. */
  datatype World = World(digest: (Hash, string) -> Hash, body: (nat, nat) -> string)

  ghost predicate DigestNonZero(world: World) {
    forall previous, text :: world.digest(previous, text) != ZERO
  }

  ghost predicate CollisionFree(world: World) {
    forall p, s, q, t :: world.digest(p, s) == world.digest(q, t) ==> p == q && s == t
  }

  // ---------------------------------------------------------------- snapshot text

  /** Canonical text of a generation that starts at an update. */
  function Canonical(world: World, generation: nat, start: nat): string {
    SNAPSHOT_PREFIX + Plain(start) + "," + world.body(generation, start)
  }

  predicate StartsWith(s: string, prefix: string) {
    |prefix| <= |s| && s[..|prefix|] == prefix
  }

  /** Start recorded in a stored snapshot, if it is canonical and in range. */
  function SnapshotStart(stored: string): Option<nat> {
    if !StartsWith(stored, SNAPSHOT_PREFIX) then None
    else
      var rest := stored[|SNAPSHOT_PREFIX|..];
      match FirstIndex(rest, ',')
      case None => None
      case Some(i) =>
        var start := rest[..i];
        if start == "" || |start| > 20 || !AllDigits(start) || (|start| != 1 && start[0] == '0') then None
        else if Value(start) >= U64_LIMIT || Value(start) >= C.MAX_TRAINING_COUNTER then None
        else Some(Value(start))
  }

  lemma StartRoundTrip(world: World, generation: nat, start: nat)
    requires start < C.MAX_TRAINING_COUNTER
    ensures SnapshotStart(Canonical(world, generation, start)) == Some(start)
  {
    var text, tail := Canonical(world, generation, start), world.body(generation, start);
    var rest := Plain(start) + [','] + tail;
    assert text == SNAPSHOT_PREFIX + rest;
    assert text[|SNAPSHOT_PREFIX|..] == rest && text[..|SNAPSHOT_PREFIX|] == SNAPSHOT_PREFIX;
    FirstIndexOf(Plain(start), ',', tail);
    assert rest[..|Plain(start)|] == Plain(start);
    PlainHasValue(start);
    StartIsShort(start);
  }

  lemma StartIsShort(start: nat)
    requires start < C.MAX_TRAINING_COUNTER
    ensures |Plain(start)| <= 9
  {
    assert Pow10(9) == 1_000_000_000 by { assert Pow10(5) == 100_000; }
    PlainLength(start, 9);
  }

  // ---------------------------------------------------------------- checkpoint and directory

  datatype Checkpoint = Checkpoint(config: C.Config, limits: C.Limits, state: C.State, count: nat, hash: Hash)

  datatype Directory = Absent | Present(files: map<nat, string>)

  function Files(directory: Directory): map<nat, string> {
    if directory.Absent? then map[] else directory.files
  }

  /** Whether collection ever draws the current generation. */
  predicate Collected(c: Checkpoint) { c.state.startUpdate + COLLECTION_LAG < c.limits.totalUpdates }

  predicate ValidCheckpoint(c: Checkpoint) {
    && c.state.startUpdate + c.state.updatesInGeneration < U64_LIMIT
    && C.Validate(c.state, c.config, c.limits, c.state.startUpdate + c.state.updatesInGeneration) == C.Pass
    && c.count <= C.MAX_TRAINING_COUNTER
    && (c.count == c.state.generation || c.count == c.state.generation + 1)
    && !(c.count == c.state.generation && c.state.updatesInGeneration != 0 && Collected(c))
    && (c.count == 0 <==> c.hash == ZERO)
  }

  /**
   * A checkpoint is sound exactly when its controller is; every generation
   * before the current one is committed and at most the current one with them;
   * the current one is, once it has spent an update, unless it began with the
   * last update; and the hash is empty exactly when nothing is committed.
   */
  lemma CheckpointExactly(c: Checkpoint)
    ensures ValidCheckpoint(c) <==>
      && c.state.startUpdate + c.state.updatesInGeneration < 0x1_0000_0000_0000_0000
      && C.Coherent(c.state, c.config, c.limits, c.state.startUpdate + c.state.updatesInGeneration)
      && c.state.generation <= c.count <= c.state.generation + 1 && c.count <= 1_000_000_000
      && (c.count == c.state.generation && c.state.updatesInGeneration > 0 ==> c.state.startUpdate + 1 >= c.limits.totalUpdates)
      && (c.hash == ZERO <==> c.count == 0)
  {
    if c.state.startUpdate + c.state.updatesInGeneration < U64_LIMIT {
      C.ValidExactly(c.state, c.config, c.limits, c.state.startUpdate + c.state.updatesInGeneration);
    }
    hide C.Validate, C.Coherent;
  }

  // ---------------------------------------------------------------- what verification means

  ghost function Chain(world: World, starts: seq<nat>): Hash {
    if starts == [] then ZERO
    else
      var last := |starts| - 1;
      world.digest(Chain(world, starts[..last]), Canonical(world, last, starts[last]))
  }

  /** The files hold, generation by generation, canonical snapshots whose starts increase from zero. */
  ghost predicate Prefix(world: World, files: map<nat, string>, starts: seq<nat>, total: nat) {
    && (forall g :: 0 <= g < |starts| ==> g in files && files[g] == Canonical(world, g, starts[g]))
    && (forall g :: 0 <= g < |starts| ==> starts[g] < total)
    && (starts != [] ==> starts[0] == 0)
    && (forall g :: 0 < g < |starts| ==> starts[g - 1] < starts[g])
  }

  /** The committed prefix ends at the active generation's start, or before a pending one. */
  ghost predicate EndsBefore(c: Checkpoint, starts: seq<nat>)
    requires |starts| == c.count
  {
    if c.count > c.state.generation then starts[|starts| - 1] == c.state.startUpdate
    else starts != [] ==> starts[|starts| - 1] < c.state.startUpdate
  }

  ghost predicate AcceptsWith(world: World, directory: Directory, c: Checkpoint, starts: seq<nat>) {
    && ValidCheckpoint(c)
    && |starts| == c.count
    && Prefix(world, Files(directory), starts, c.limits.totalUpdates)
    && EndsBefore(c, starts)
    && c.hash == Chain(world, starts)
  }

  ghost predicate Accepts(world: World, directory: Directory, c: Checkpoint) {
    exists starts :: AcceptsWith(world, directory, c, starts)
  }

  /** The recorded starts can be read off the files, so there is only one candidate prefix. */
  lemma PrefixIsRead(world: World, files: map<nat, string>, starts: seq<nat>, total: nat, g: nat)
    requires Prefix(world, files, starts, total) && total <= C.MAX_TRAINING_COUNTER && g < |starts|
    ensures g in files && SnapshotStart(files[g]) == Some(starts[g])
  {
    StartRoundTrip(world, g, starts[g]);
  }

  lemma PrefixTail(world: World, files: map<nat, string>, starts: seq<nat>, total: nat)
    requires starts != [] && Prefix(world, files, starts[..|starts| - 1], total)
    requires var last := |starts| - 1;
      && last in files && files[last] == Canonical(world, last, starts[last]) && starts[last] < total
      && (if last == 0 then starts[0] == 0 else starts[last - 1] < starts[last])
    ensures Prefix(world, files, starts, total)
  {
    hide Canonical;
    var last := |starts| - 1;
    var shorter := starts[..last];
    assert forall g :: 0 <= g < last ==> starts[g] == shorter[g];
    if last > 0 { assert starts[last - 1] == shorter[last - 1]; }
  }

  /** Checks the committed prefix on resume; writes nothing. */
  method Verify(world: World, directory: Directory, c: Checkpoint) returns (accepted: bool)
    ensures accepted <==> Accepts(world, directory, c)
  {
    hide C.Validate, Canonical, SnapshotStart;
    if !ValidCheckpoint(c) {
      return false;
    }
    TotalInRange(c);
    if directory.Absent? && c.count != 0 {
      return false;
    }
    var files := Files(directory);
    var hash := ZERO;
    var starts: seq<nat> := [];
    for generation := 0 to c.count
      invariant |starts| == generation && Prefix(world, files, starts, c.limits.totalUpdates)
      invariant hash == Chain(world, starts)
      invariant forall other :: Prefix(world, files, other, c.limits.totalUpdates) && |other| == c.count ==>
        starts <= other
    {
      if generation !in files {
        return false;
      }
      var stored := files[generation];
      var start := SnapshotStart(stored);
      NextIsForced(world, files, starts, c.limits.totalUpdates, c.count);
      if start.None? {
        return false;
      }
      if (generation == 0 && start.value != 0) || (generation > 0 && start.value <= starts[generation - 1]) {
        return false;
      }
      if start.value >= c.limits.totalUpdates || stored != Canonical(world, generation, start.value) {
        return false;
      }
      hash := world.digest(hash, stored);
      ghost var before := starts;
      starts := starts + [start.value];
      assert starts[..generation] == before;
      PrefixTail(world, files, starts, c.limits.totalUpdates);
    }
    OnlyPrefix(world, directory, c, starts);
    accepted := (if c.count > c.state.generation then starts[c.count - 1] == c.state.startUpdate
                 else c.count == 0 || starts[c.count - 1] < c.state.startUpdate)
                && hash == c.hash;
  }

  lemma TotalInRange(c: Checkpoint)
    requires ValidCheckpoint(c)
    ensures c.state.startUpdate < c.limits.totalUpdates <= C.MAX_TRAINING_COUNTER
    ensures c.state.generation <= c.state.startUpdate && (c.state.generation == 0 <==> c.state.startUpdate == 0)
  {
  }

  /** Any prefix of the wanted length continues with the start stored in the next file. */
  lemma NextIsForced(world: World, files: map<nat, string>, starts: seq<nat>, total: nat, count: nat)
    requires |starts| < count && |starts| in files && total <= C.MAX_TRAINING_COUNTER
    requires forall other :: Prefix(world, files, other, total) && |other| == count ==> starts <= other
    ensures forall other :: Prefix(world, files, other, total) && |other| == count ==>
      && SnapshotStart(files[|starts|]) == Some(other[|starts|])
      && starts + [other[|starts|]] <= other
      && files[|starts|] == Canonical(world, |starts|, other[|starts|]) && other[|starts|] < total
      && (if starts == [] then other[0] == 0 else starts[|starts| - 1] < other[|starts|])
  {
    hide Canonical, SnapshotStart;
    forall other | Prefix(world, files, other, total) && |other| == count
      ensures SnapshotStart(files[|starts|]) == Some(other[|starts|])
      ensures starts + [other[|starts|]] <= other
      ensures if starts == [] then other[0] == 0 else starts[|starts| - 1] < other[|starts|]
    {
      PrefixIsRead(world, files, other, total, |starts|);
      assert starts <= other;
      if starts != [] {
        assert other[|starts| - 1] < other[|starts|];
      }
    }
  }

  lemma OnlyPrefix(world: World, directory: Directory, c: Checkpoint, starts: seq<nat>)
    requires ValidCheckpoint(c) && |starts| == c.count
    requires Prefix(world, Files(directory), starts, c.limits.totalUpdates)
    requires forall other :: Prefix(world, Files(directory), other, c.limits.totalUpdates) && |other| == c.count ==>
      starts <= other
    ensures Accepts(world, directory, c) <==> EndsBefore(c, starts) && c.hash == Chain(world, starts)
  {
    hide ValidCheckpoint, Prefix, Chain, EndsBefore;
    if Accepts(world, directory, c) {
      var other :| AcceptsWith(world, directory, c, other);
      assert other == starts;
    }
    if EndsBefore(c, starts) && c.hash == Chain(world, starts) {
      assert AcceptsWith(world, directory, c, starts);
    }
  }

  // ---------------------------------------------------------------- drawing a generation

  function AppendHash(world: World, previous: Hash, text: string): Hash { world.digest(previous, text) }

  datatype Drawn = Drawn(directory: Directory, checkpoint: Checkpoint, ok: bool)

  function Publish(directory: Directory, generation: nat, text: string): Directory {
    Present(Files(directory)[generation := text])
  }

  /** Effect of one draw: nothing on any fault, otherwise at most one new file and one new link. */
  function Draw(world: World, directory: Directory, c: Checkpoint): Drawn {
    var failed := Drawn(directory, c, false);
    if !ValidCheckpoint(c) || (directory.Absent? && c.count != 0) then failed
    else
      var generation, text := c.state.generation, Canonical(world, c.state.generation, c.state.startUpdate);
      if c.count > generation then
        if generation in Files(directory) && Files(directory)[generation] == text then Drawn(directory, c, true)
        else failed
      else if generation in Files(directory) && Files(directory)[generation] != text then failed
      else Drawn(Publish(directory, generation, text),
                 c.(count := c.count + 1, hash := AppendHash(world, c.hash, text)), true)
  }

  class SnapshotStore {
    var directory: Directory
    var checkpoint: Checkpoint

    constructor (directory: Directory, checkpoint: Checkpoint)
      ensures this.directory == directory && this.checkpoint == checkpoint
    {
      this.directory, this.checkpoint := directory, checkpoint;
    }

    /** Draws the current generation and commits its snapshot if it is not committed yet. */
    method DrawGeneration(world: World) returns (ok: bool)
      modifies this
      ensures Drawn(directory, checkpoint, ok) == Draw(world, old(directory), old(checkpoint))
    {
      if !ValidCheckpoint(checkpoint) || (directory.Absent? && checkpoint.count != 0) {
        return false;
      }
      var generation := checkpoint.state.generation;
      var text := Canonical(world, generation, checkpoint.state.startUpdate);
      var files := Files(directory);
      if checkpoint.count > generation {
        return generation in files && files[generation] == text;
      }
      var nextHash := AppendHash(world, checkpoint.hash, text);
      if generation in files {
        if files[generation] != text {
          return false;
        }
      }
      directory := Present(files[generation := text]);
      checkpoint := checkpoint.(count := checkpoint.count + 1, hash := nextHash);
      ok := true;
    }
  }

  lemma PrefixKeepsFiles(world: World, files: map<nat, string>, other: map<nat, string>, starts: seq<nat>, total: nat)
    requires Prefix(world, files, starts, total)
    requires forall g: nat :: g < |starts| && g in files ==> g in other && other[g] == files[g]
    ensures Prefix(world, other, starts, total)
  {
  }

  /** What a first draw of the generation leaves behind. */
  lemma DrawnCommits(world: World, directory: Directory, c: Checkpoint)
    requires c.count == c.state.generation && Draw(world, directory, c).ok
    ensures var next, text := Draw(world, directory, c), Canonical(world, c.state.generation, c.state.startUpdate);
      && Files(next.directory) == Files(directory)[c.count := text]
      && (c.count in Files(directory) ==> Files(directory)[c.count] == text)
      && next.checkpoint == c.(count := c.count + 1, hash := AppendHash(world, c.hash, text))
  {
    hide Canonical, ValidCheckpoint;
  }

  lemma ChainGrows(world: World, starts: seq<nat>, start: nat)
    ensures Chain(world, starts + [start])
         == AppendHash(world, Chain(world, starts), Canonical(world, |starts|, start))
  {
    hide Canonical;
    assert (starts + [start])[..|starts|] == starts;
  }

  lemma PrefixGrows(world: World, before: map<nat, string>, after: map<nat, string>, starts: seq<nat>, start: nat, total: nat)
    requires Prefix(world, before, starts, total) && start < total
    requires after == before[|starts| := Canonical(world, |starts|, start)]
    requires if starts == [] then start == 0 else starts[|starts| - 1] < start
    ensures Prefix(world, after, starts + [start], total)
  {
    hide Canonical;
    var longer := starts + [start];
    assert longer[..|starts|] == starts;
    PrefixKeepsFiles(world, before, after, starts, total);
    PrefixTail(world, after, longer, total);
  }

  /** A commit lengthens the accepted prefix by the generation's strictly later start and one link. */
  lemma DrawExtends(world: World, directory: Directory, c: Checkpoint, starts: seq<nat>)
    requires DigestNonZero(world) && AcceptsWith(world, directory, c, starts)
    requires c.count == c.state.generation && Draw(world, directory, c).ok
    ensures var next := Draw(world, directory, c);
      AcceptsWith(world, next.directory, next.checkpoint, starts + [c.state.startUpdate])
  {
    TotalInRange(c);
    CommittedIsValid(world, c);
    DrawnCommits(world, directory, c);
    hide Canonical, ValidCheckpoint, Draw, Prefix, Chain, Files, AppendHash;
    ChainGrows(world, starts, c.state.startUpdate);
    PrefixGrows(world, Files(directory), Files(Draw(world, directory, c).directory), starts, c.state.startUpdate,
                c.limits.totalUpdates);
  }

  lemma CommittedIsValid(world: World, c: Checkpoint)
    requires DigestNonZero(world) && ValidCheckpoint(c) && c.count == c.state.generation
    ensures ValidCheckpoint(c.(count := c.count + 1,
                               hash := AppendHash(world, c.hash, Canonical(world, c.state.generation, c.state.startUpdate))))
  {
    hide Canonical;
    TotalInRange(c);
    var text := Canonical(world, c.state.generation, c.state.startUpdate);
    assert world.digest(c.hash, text) != ZERO;
    hide C.Validate;
  }

  /**
   * From accepted files a draw fails only on a leftover file that is not the
   * snapshot to be drawn; a committed generation is always found again.
   */
  lemma DrawSucceedsExactly(world: World, directory: Directory, c: Checkpoint)
    requires Accepts(world, directory, c)
    ensures Draw(world, directory, c).ok <==>
      c.count == c.state.generation && c.count in Files(directory) ==>
        Files(directory)[c.count] == Canonical(world, c.count, c.state.startUpdate)
    ensures forall g :: g in Files(directory) ==>
      g in Files(Draw(world, directory, c).directory) && Files(Draw(world, directory, c).directory)[g] == Files(directory)[g]
  {
    hide Canonical, Chain;
    var starts :| AcceptsWith(world, directory, c, starts);
    if c.count > c.state.generation {
      assert starts[c.state.generation] == c.state.startUpdate;
    }
  }

  /** Drawing a generation again changes nothing; a failed draw changes nothing either. */
  lemma DrawIsIdempotent(world: World, directory: Directory, c: Checkpoint)
    requires DigestNonZero(world) && Accepts(world, directory, c)
    ensures var once := Draw(world, directory, c);
      && (!once.ok ==> once.directory == directory && once.checkpoint == c)
      && (once.ok ==> Draw(world, once.directory, once.checkpoint) == once)
  {
    var once := Draw(world, directory, c);
    var starts :| AcceptsWith(world, directory, c, starts);
    if once.ok && c.count == c.state.generation {
      CommittedIsValid(world, c);
    }
    hide Canonical, C.Validate, Prefix;
  }

  // ---------------------------------------------------------------- runs

  /** One step of training: a draw, a draw whose process dies before the commit is saved, or an observed update. */
  datatype Step = DrawStep | OrphanStep | ObserveStep(wins: U64, games: U64)

  datatype Training = Training(directory: Directory, checkpoint: Checkpoint)

  /** Collection draws every collected generation before its first update is observed. */
  predicate DrawnFirst(c: Checkpoint) { Collected(c) ==> c.count == c.state.generation + 1 }

  predicate Allowed(t: Training, step: Step) { step.ObserveStep? ==> DrawnFirst(t.checkpoint) }

  function Observed(c: Checkpoint, wins: U64, games: U64): Checkpoint {
    if c.state.startUpdate + c.state.updatesInGeneration + 1 >= U64_LIMIT then c
    else
      match C.Observe(c.state, c.config, c.limits, c.state.startUpdate + c.state.updatesInGeneration + 1, wins, games)
      case Err(_) => c
      case Ok(next) => c.(state := next)
  }

  function Take(world: World, t: Training, step: Step): Training {
    match step
    case DrawStep =>
      var drawn := Draw(world, t.directory, t.checkpoint);
      Training(drawn.directory, drawn.checkpoint)
    case OrphanStep => Training(Draw(world, t.directory, t.checkpoint).directory, t.checkpoint)
    case ObserveStep(wins, games) => t.(checkpoint := Observed(t.checkpoint, wins, games))
  }

  lemma DrawKeepsAccepted(world: World, directory: Directory, c: Checkpoint)
    requires DigestNonZero(world) && Accepts(world, directory, c)
    ensures var next := Draw(world, directory, c);
      Accepts(world, next.directory, next.checkpoint) && Accepts(world, next.directory, c)
  {
    hide Canonical, C.Validate, ValidCheckpoint, Chain, Prefix;
    var starts :| AcceptsWith(world, directory, c, starts);
    var next := Draw(world, directory, c);
    if next.ok && c.count <= c.state.generation {
      CountIsNear(c);
      DrawExtends(world, directory, c, starts);
      PrefixKeepsFiles(world, Files(directory), Files(next.directory), starts, c.limits.totalUpdates);
      assert AcceptsWith(world, next.directory, c, starts);
    }
  }

  lemma CountIsNear(c: Checkpoint)
    requires ValidCheckpoint(c)
    ensures c.count == c.state.generation || c.count == c.state.generation + 1
  {
  }

  /** What one accepted update does to a checkpoint whose collected generation was drawn. */
  lemma ObserveKeepsValidCheckpoint(c: Checkpoint, wins: U64, games: U64)
    requires ValidCheckpoint(c) && DrawnFirst(c)
    ensures var next := Observed(c, wins, games);
      && ValidCheckpoint(next) && next.limits == c.limits
      && (next.state.generation == c.state.generation ==> next.state.startUpdate == c.state.startUpdate)
      && (next.state.generation != c.state.generation ==>
            next.state.generation == c.state.generation + 1 == c.count && c.state.startUpdate < next.state.startUpdate)
  {
    hide C.Observe, C.Validate;
    var global := c.state.startUpdate + c.state.updatesInGeneration;
    TotalInRange(c);
    if global + 1 < U64_LIMIT && C.Observe(c.state, c.config, c.limits, global + 1, wins, games).Ok? {
      var next := C.Observe(c.state, c.config, c.limits, global + 1, wins, games).value;
      ObserveShape(c.state, c.config, c.limits, global + 1, wins, games);
      assert C.Validate(next, c.config, c.limits, global + 1) == C.Pass;
    }
  }

  /** An update either goes on with its generation or opens the next one at itself, before the end of the run. */
  lemma ObserveShape(state: C.State, config: C.Config, limits: C.Limits, completed: U64, wins: U64, games: U64)
    requires C.Observe(state, config, limits, completed, wins, games).Ok?
    ensures var next := C.Observe(state, config, limits, completed, wins, games).value;
      && C.Validate(next, config, limits, completed) == C.Pass
      && next.startUpdate + next.updatesInGeneration == completed
      && state.startUpdate + state.updatesInGeneration + 1 == completed
      && (|| (next.generation == state.generation && next.startUpdate == state.startUpdate)
          || (next.generation == state.generation + 1 && next.startUpdate == completed < limits.totalUpdates))
  {
    C.ValidStateBounds(state, config, limits, completed - 1);
    C.ValidStateBounds(C.Observe(state, config, limits, completed, wins, games).value, config, limits, completed);
    hide C.Validate, C.Budget;
  }

  lemma ObserveKeepsAccepted(world: World, directory: Directory, c: Checkpoint, wins: U64, games: U64)
    requires Accepts(world, directory, c) && DrawnFirst(c)
    ensures Accepts(world, directory, Observed(c, wins, games))
  {
    var starts :| AcceptsWith(world, directory, c, starts);
    ObserveKeepsValidCheckpoint(c, wins, games);
    hide Canonical, C.Validate, ValidCheckpoint, Chain, Prefix, C.Observe;
    assert AcceptsWith(world, directory, Observed(c, wins, games), starts);
  }

  /** A fresh checkpoint over a directory that may hold any leftovers. */
  predicate Fresh(c: Checkpoint) {
    && C.ValidConfig(c.config) && C.ValidLimits(c.limits)
    && c.state == C.INITIAL && c.count == 0 && c.hash == ZERO
  }

  lemma FreshIsAccepted(world: World, directory: Directory, c: Checkpoint)
    requires Fresh(c)
    ensures Accepts(world, directory, c)
  {
    assert AcceptsWith(world, directory, c, []);
  }

  ghost function Trained(world: World, start: Training, steps: seq<Step>): Training {
    if steps == [] then start else Take(world, Trained(world, start, steps[..|steps| - 1]), steps[|steps| - 1])
  }

  ghost predicate AllAllowed(world: World, start: Training, steps: seq<Step>) {
    forall n :: 0 <= n < |steps| ==> Allowed(Trained(world, start, steps[..n]), steps[n])
  }

  /** Every state of every run, crashes and leftover files included, passes verification. */
  lemma {:induction false} EveryRunIsAccepted(world: World, start: Training, steps: seq<Step>)
    requires DigestNonZero(world) && Fresh(start.checkpoint) && AllAllowed(world, start, steps)
    ensures var t := Trained(world, start, steps); Accepts(world, t.directory, t.checkpoint)
    decreases |steps|
  {
    hide Accepts, Draw, Observed, Fresh, Collected;
    if steps == [] {
      FreshIsAccepted(world, start.directory, start.checkpoint);
    } else {
      var earlier := steps[..|steps| - 1];
      assert forall n :: 0 <= n < |earlier| ==> earlier[..n] == steps[..n] && earlier[n] == steps[n];
      EveryRunIsAccepted(world, start, earlier);
      var t := Trained(world, start, earlier);
      assert Allowed(t, steps[|steps| - 1]);
      match steps[|steps| - 1]
      case DrawStep => DrawKeepsAccepted(world, t.directory, t.checkpoint);
      case OrphanStep => DrawKeepsAccepted(world, t.directory, t.checkpoint);
      case ObserveStep(wins, games) => ObserveKeepsAccepted(world, t.directory, t.checkpoint, wins, games);
    }
  }

  // ---------------------------------------------------------------- the hash commits to the files

  lemma CanonicalDecidesStart(world: World, g: nat, a: nat, b: nat)
    requires a < C.MAX_TRAINING_COUNTER && b < C.MAX_TRAINING_COUNTER
    requires Canonical(world, g, a) == Canonical(world, g, b)
    ensures a == b
  {
    StartRoundTrip(world, g, a);
    StartRoundTrip(world, g, b);
  }

  lemma {:induction false} ChainDecidesStarts(world: World, a: seq<nat>, b: seq<nat>)
    requires CollisionFree(world) && |a| == |b| && Chain(world, a) == Chain(world, b)
    requires forall i :: 0 <= i < |a| ==> a[i] < C.MAX_TRAINING_COUNTER && b[i] < C.MAX_TRAINING_COUNTER
    ensures a == b
    decreases |a|
  {
    hide Canonical;
    if a != [] {
      var last := |a| - 1;
      CanonicalDecidesStart(world, last, a[last], b[last]);
      ChainDecidesStarts(world, a[..last], b[..last]);
      assert a == a[..last] + [a[last]] && b == b[..last] + [b[last]];
    }
  }

  /** Two directories accepted for one checkpoint agree on every committed snapshot. */
  lemma CommitmentIsBinding(world: World, a: Directory, b: Directory, c: Checkpoint, g: nat)
    requires CollisionFree(world) && Accepts(world, a, c) && Accepts(world, b, c) && g < c.count
    ensures g in Files(a) && g in Files(b) && Files(a)[g] == Files(b)[g]
  {
    hide Canonical, Chain;
    var x :| AcceptsWith(world, a, c, x);
    var y :| AcceptsWith(world, b, c, y);
    TotalInRange(c);
    ChainDecidesStarts(world, x, y);
  }
}
