// The multi-file checkpoint commit. A file's contents survive a power loss
// once it was synced, a directory change once the directory was; whatever
// step is interrupted, a load finds a complete artifact, unless a save reuses
// a file that an earlier one wrote and never synced.
module CheckpointCommit {
  import opened Geometry

  type Artifact = nat
  type Blob = seq<nat>
  type Hash = nat

  /** The serialisations, kept abstract. */
  datatype Codec = Codec(tensor: Artifact -> Blob, runtime: Artifact -> Blob, manifest: Artifact -> Blob,
                         sha: Blob -> Hash, namedHash: Blob -> Option<Hash>, join: (Blob, Blob) -> Option<Artifact>)

  /** A manifest names its tensor file's hash, the two files together are the artifact, and neither is empty. */
  ghost predicate Faithful(codec: Codec) {
    && (forall a: Artifact :: codec.namedHash(codec.manifest(a)) == Some(codec.sha(codec.tensor(a))))
    && (forall a: Artifact :: codec.join(codec.manifest(a), codec.tensor(a)) == Some(a))
    && (forall a: Artifact :: codec.tensor(a) != [])
    && (forall a: Artifact :: codec.manifest(a) != [])
  }

  // ---------------------------------------------------------------- the disk

  datatype Name = Tensor(hash: Hash) | Runtime | Manifest | Temporary(forManifest: bool, sequence: nat)

  /** A file as running processes see it; only synced contents survive a power loss. */
  datatype File = File(content: Blob, synced: bool)

  /** A directory names files by their index. */
  type Dir = map<Name, nat>

  datatype Change = Link(name: Name, file: nat) | Rename(source: Name, target: Name) | Remove(name: Name)

  function Apply(dir: Dir, change: Change): Dir {
    match change
    case Link(name, file) => dir[name := file]
    case Remove(name) => dir - {name}
    case Rename(source, target) => if source in dir then (dir - {source})[target := dir[source]] else dir
  }

  function ApplyAll(dir: Dir, changes: seq<Change>): Dir {
    if changes == [] then dir else Apply(ApplyAll(dir, changes[..|changes| - 1]), changes[|changes| - 1])
  }

  /** The directory as of its last sync, the changes made to it since, and the files. */
  datatype Disk = Disk(durable: Dir, pending: seq<Change>, files: seq<File>) {
    function View(): Dir { ApplyAll(durable, pending) }

    /** Directory found after a power loss that kept the first `kept` pending changes. */
    function After(kept: nat): Dir
      requires kept <= |pending|
    {
      ApplyAll(durable, pending[..kept])
    }

    function Changed(change: Change): Disk { this.(pending := pending + [change]) }

    /** A new empty file; its directory entry is not durable yet. */
    function Created(name: Name): Disk { Disk(durable, pending + [Link(name, |files|)], files + [File([], false)]) }

    /** Writes the file created last, and syncs it or not. */
    function Filled(content: Blob, synced: bool): Disk
      requires files != []
    {
      this.(files := files[..|files| - 1] + [File(content, synced)])
    }

    /** Syncs the directory: its entries, not what the files contain. */
    function Synced(): Disk { this.(durable := View(), pending := []) }

    /** What a restarted machine finds: synced contents as they were, any others torn in any way. */
    function Recovered(kept: nat, torn: seq<Blob>): Disk
      requires kept <= |pending|
    {
      Disk(After(kept), [], seq(|files|, i requires 0 <= i < |files| => Settled(files[i], i, torn)))
    }
  }

  function Settled(file: File, i: nat, torn: seq<Blob>): File {
    if file.synced then file else File(if i < |torn| then torn[i] else [], true)
  }

  lemma AppendedPrefix(disk: Disk, change: Change, kept: nat)
    requires kept <= |disk.pending| + 1
    ensures disk.Changed(change).After(kept)
         == if kept <= |disk.pending| then disk.After(kept) else Apply(disk.View(), change)
  {
    var longer := disk.pending + [change];
    if kept <= |disk.pending| {
      assert longer[..kept] == disk.pending[..kept];
    } else {
      assert longer[..kept] == longer && longer[..|disk.pending|] == disk.pending;
    }
  }

  lemma FullPrefix(disk: Disk)
    ensures disk.After(|disk.pending|) == disk.View()
  {
    assert disk.pending[..|disk.pending|] == disk.pending;
  }

  lemma ChangedView(disk: Disk, change: Change)
    ensures disk.Changed(change).View() == Apply(disk.View(), change)
  {
    AppendedPrefix(disk, change, |disk.pending| + 1);
    FullPrefix(disk.Changed(change));
  }

  // ---------------------------------------------------------------- loading

  datatype Loaded = Resumed(artifact: Artifact) | Missing | Damaged

  function Read(files: seq<File>, dir: Dir, name: Name): Option<Blob> {
    if name in dir && dir[name] < |files| then Some(files[dir[name]].content) else None
  }

  /** Reads the manifest, then the tensor file it names, and checks the hash; an empty file is refused. */
  function LoadFrom(codec: Codec, files: seq<File>, dir: Dir): Loaded {
    match Read(files, dir, Manifest)
    case None => Missing
    case Some(manifest) =>
      match Named(codec, manifest)
      case None => Damaged
      case Some(hash) =>
        match Read(files, dir, Tensor(hash))
        case None => Damaged
        case Some(tensor) =>
          if tensor == [] || codec.sha(tensor) != hash then Damaged
          else match codec.join(manifest, tensor) case None => Damaged case Some(a) => Resumed(a)
  }

  function Named(codec: Codec, manifest: Blob): Option<Hash> {
    if manifest == [] then None else codec.namedHash(manifest)
  }

  /** A load while the machine keeps running. */
  function Load(codec: Codec, disk: Disk): Loaded { LoadFrom(codec, disk.files, disk.View()) }

  /** What a load may bring back: one of the allowed artifacts, or nothing while none was ever committed. */
  datatype Promise = Promise(allowed: set<Artifact>, established: bool)

  predicate Kept(promise: Promise, loaded: Loaded) {
    match loaded
    case Resumed(a) => a in promise.allowed
    case Missing => !promise.established
    case Damaged => false
  }

  /** Whatever a power loss keeps and tears, the next load keeps the promise. */
  ghost predicate Resumable(codec: Codec, disk: Disk, promise: Promise) {
    forall kept, torn ::
      0 <= kept <= |disk.pending| ==> Kept(promise, Load(codec, disk.Recovered(kept, torn)))
  }

  // ---------------------------------------------------------------- safe disks

  predicate Bounded(files: seq<File>, dir: Dir) {
    forall name :: name in dir ==> dir[name] < |files|
  }

  predicate IsSynced(files: seq<File>, dir: Dir, name: Name) {
    name in dir && dir[name] < |files| && files[dir[name]].synced
  }

  /** Every file a load would read was synced. */
  predicate Steady(codec: Codec, files: seq<File>, dir: Dir) {
    Manifest in dir ==>
      && IsSynced(files, dir, Manifest)
      && var named := Named(codec, files[dir[Manifest]].content);
         named.Some? && IsSynced(files, dir, Tensor(named.value))
  }

  predicate Sound(codec: Codec, files: seq<File>, dir: Dir, promise: Promise) {
    Bounded(files, dir) && Steady(codec, files, dir) && Kept(promise, LoadFrom(codec, files, dir))
  }

  /** Every directory a power loss could leave is sound. */
  ghost predicate CrashSafe(codec: Codec, disk: Disk, promise: Promise) {
    forall kept :: 0 <= kept <= |disk.pending| ==> Sound(codec, disk.files, disk.After(kept), promise)
  }

  ghost predicate AllSafe(codec: Codec, states: seq<Disk>, promise: Promise) {
    forall i :: 0 <= i < |states| ==> CrashSafe(codec, states[i], promise)
  }

  /** Synced files stay as they are, whatever else is written. */
  ghost predicate Preserves(files: seq<File>, next: seq<File>) {
    |files| <= |next| && forall i :: 0 <= i < |files| && files[i].synced ==> next[i] == files[i]
  }

  /** New files, and anything done to names a load does not read, leave a sound directory sound. */
  lemma UnreadIsHarmless(codec: Codec, files: seq<File>, dir: Dir, next: seq<File>, nextDir: Dir, promise: Promise)
    requires Sound(codec, files, dir, promise) && Preserves(files, next) && Bounded(next, nextDir)
    requires Manifest in nextDir <==> Manifest in dir
    requires forall name: Name :: name in dir && (name.Manifest? || name.Tensor?) ==>
      name in nextDir && nextDir[name] == dir[name]
    ensures Sound(codec, next, nextDir, promise)
  {
    if Manifest in dir {
      assert Read(next, nextDir, Manifest) == Read(files, dir, Manifest);
      var named := Named(codec, files[dir[Manifest]].content);
      assert Read(next, nextDir, Tensor(named.value)) == Read(files, dir, Tensor(named.value));
    }
  }

  lemma FilesKeepSafe(codec: Codec, disk: Disk, next: seq<File>, promise: Promise)
    requires CrashSafe(codec, disk, promise) && Preserves(disk.files, next)
    ensures CrashSafe(codec, disk.(files := next), promise)
  {
    hide Sound;
    forall kept | 0 <= kept <= |disk.pending|
      ensures Sound(codec, next, disk.(files := next).After(kept), promise)
    {
      assert disk.(files := next).After(kept) == disk.After(kept);
      BoundedStays(codec, disk.files, disk.After(kept), next, promise);
      UnreadIsHarmless(codec, disk.files, disk.After(kept), next, disk.After(kept), promise);
    }
  }

  lemma BoundedStays(codec: Codec, files: seq<File>, dir: Dir, next: seq<File>, promise: Promise)
    requires Sound(codec, files, dir, promise) && Preserves(files, next)
    ensures Bounded(next, dir)
  {
  }

  lemma ChangeKeepsSafe(codec: Codec, disk: Disk, change: Change, promise: Promise)
    requires CrashSafe(codec, disk, promise) && Sound(codec, disk.files, Apply(disk.View(), change), promise)
    ensures CrashSafe(codec, disk.Changed(change), promise)
  {
    hide Sound;
    forall kept | 0 <= kept <= |disk.pending| + 1
      ensures Sound(codec, disk.files, disk.Changed(change).After(kept), promise)
    {
      AppendedPrefix(disk, change, kept);
    }
  }

  lemma ViewIsSound(codec: Codec, disk: Disk, promise: Promise)
    requires CrashSafe(codec, disk, promise)
    ensures Sound(codec, disk.files, disk.View(), promise)
  {
    FullPrefix(disk);
    assert Sound(codec, disk.files, disk.After(|disk.pending|), promise);
  }

  lemma SafeForMore(codec: Codec, disk: Disk, promise: Promise, more: Promise)
    requires CrashSafe(codec, disk, promise) && promise.allowed <= more.allowed
    requires more.established ==> promise.established
    ensures CrashSafe(codec, disk, more)
  {
    forall kept | 0 <= kept <= |disk.pending| ensures Sound(codec, disk.files, disk.After(kept), more) {
      assert Sound(codec, disk.files, disk.After(kept), promise);
    }
  }

  /** A power loss leaves a safe disk safe. */
  lemma RecoveredIsSafe(codec: Codec, disk: Disk, kept: nat, torn: seq<Blob>, promise: Promise)
    requires CrashSafe(codec, disk, promise) && kept <= |disk.pending|
    ensures CrashSafe(codec, disk.Recovered(kept, torn), promise)
  {
    var next := disk.Recovered(kept, torn);
    assert Sound(codec, disk.files, disk.After(kept), promise);
    UnreadIsHarmless(codec, disk.files, disk.After(kept), next.files, disk.After(kept), promise);
    assert forall k :: 0 <= k <= |next.pending| ==> next.After(k) == disk.After(kept);
  }

  /** A safe disk resumes an allowed artifact, or nothing before the first commit, after any power loss and without one. */
  lemma SafeResumes(codec: Codec, disk: Disk, promise: Promise)
    requires CrashSafe(codec, disk, promise)
    ensures Resumable(codec, disk, promise) && Kept(promise, Load(codec, disk))
  {
    hide ApplyAll, CrashSafe;
    forall kept, torn | 0 <= kept <= |disk.pending|
      ensures Kept(promise, Load(codec, disk.Recovered(kept, torn)))
    {
      RecoveredIsSafe(codec, disk, kept, torn, promise);
      ViewIsSound(codec, disk.Recovered(kept, torn), promise);
    }
    ViewIsSound(codec, disk, promise);
  }

  /** Where every directory entry is a file, being safe is exactly resuming an allowed artifact after any power loss. */
  lemma SafeIsResumable(codec: Codec, disk: Disk, promise: Promise)
    requires Faithful(codec)
    requires forall kept :: 0 <= kept <= |disk.pending| ==> Bounded(disk.files, disk.After(kept))
    ensures CrashSafe(codec, disk, promise) <==> Resumable(codec, disk, promise)
  {
    if CrashSafe(codec, disk, promise) {
      SafeResumes(codec, disk, promise);
    } else {
      var kept :| 0 <= kept <= |disk.pending| && !Sound(codec, disk.files, disk.After(kept), promise);
      UnsoundIsLost(codec, disk, kept, promise);
    }
  }

  /** If a load relies on an unsynced file, a power loss that empties it leaves nothing to resume. */
  lemma UnsteadyIsDamaged(codec: Codec, disk: Disk, kept: nat)
    requires Faithful(codec) && kept <= |disk.pending|
    requires Manifest in disk.After(kept) ==> disk.After(kept)[Manifest] < |disk.files|
    requires !Steady(codec, disk.files, disk.After(kept))
    ensures Load(codec, disk.Recovered(kept, [])) == Damaged
  {
    var dir, next := disk.After(kept), disk.Recovered(kept, []);
    assert Read(next.files, dir, Manifest) == Some(next.files[dir[Manifest]].content);
    if IsSynced(disk.files, dir, Manifest) {
      var named := Named(codec, disk.files[dir[Manifest]].content);
      if named.Some? && Tensor(named.value) in dir {
        assert Read(next.files, dir, Tensor(named.value)) in {None, Some([])};
      }
    }
  }

  lemma UnsoundIsLost(codec: Codec, disk: Disk, kept: nat, promise: Promise)
    requires Faithful(codec) && kept <= |disk.pending| && Bounded(disk.files, disk.After(kept))
    requires !Sound(codec, disk.files, disk.After(kept), promise)
    ensures !Kept(promise, Load(codec, disk.Recovered(kept, [])))
  {
    if Steady(codec, disk.files, disk.After(kept)) {
      assert Load(codec, disk.Recovered(kept, [])) == LoadFrom(codec, disk.files, disk.After(kept));
    } else {
      UnsteadyIsDamaged(codec, disk, kept);
    }
  }

  // ---------------------------------------------------------------- the save

  /** Where writing one new file stops, if it does. */
  datatype Fault = Clear | CreateFails | WriteFails(partial: Blob) | SyncFails

  /** Faults and choices of one save: where each step fails, the temporary numbers, the files found to prune. */
  datatype Weather = Weather(tensor: Fault, runtime: Fault, manifest: Fault, renameFails: (bool, bool), cleanupFails: bool,
                             syncFails: bool, pruneFails: bool, temporaries: (nat, nat), prunes: seq<Hash>)

  datatype SaveOutcome = Committed | CommittedWithLeftovers | Failed

  function LastOf(disk: Disk, states: seq<Disk>): Disk { if states == [] then disk else states[|states| - 1] }

  /** The disks a step passes through, and whether it succeeds. */
  datatype Trace = Trace(states: seq<Disk>, ok: bool) {
    function Last(disk: Disk): Disk { LastOf(disk, states) }

    /** This step, then another one only if it succeeds. */
    function Then(next: Trace): Trace { if ok then Trace(states + next.states, next.ok) else this }
  }

  /** A file that must not change afterwards is created, filled and synced; an existing one has to match. */
  function WriteTrace(disk: Disk, name: Name, content: Blob, fault: Fault): Trace {
    if name in disk.View() then Trace([], Wrote(disk, name, content))
    else
      var created := disk.Created(name);
      match fault
      case CreateFails => Trace([], false)
      case WriteFails(partial) => Trace([created, created.Filled(partial, false)], false)
      case SyncFails => Trace([created, created.Filled(content, false)], false)
      case Clear => Trace([created, created.Filled(content, false), created.Filled(content, true)], true)
  }

  /** Writes a temporary and renames it into place; a failure removes the temporary if it can. */
  function ReplaceTrace(disk: Disk, target: Name, content: Blob, temporary: Name, fault: Fault, renameFails: bool,
                        cleanupFails: bool): Trace
  {
    var write := WriteTrace(disk, temporary, content, fault);
    var written := write.Last(disk);
    if write.ok && !renameFails then Trace(write.states + [written.Changed(Rename(temporary, target))], true)
    else Trace(write.states + if cleanupFails then [] else [written.Changed(Remove(temporary))], false)
  }

  function RuntimeTrace(codec: Codec, disk: Disk, a: Artifact, weather: Weather): Trace {
    ReplaceTrace(disk, Runtime, codec.runtime(a), Temporary(false, weather.temporaries.0), weather.runtime,
                 weather.renameFails.0, weather.cleanupFails)
  }

  function ManifestTrace(codec: Codec, disk: Disk, a: Artifact, weather: Weather): Trace {
    ReplaceTrace(disk, Manifest, codec.manifest(a), Temporary(true, weather.temporaries.1), weather.manifest,
                 weather.renameFails.1, weather.cleanupFails)
  }

  function TensorName(codec: Codec, a: Artifact): Name { Tensor(codec.sha(codec.tensor(a))) }

  function TensorTrace(codec: Codec, disk: Disk, a: Artifact, weather: Weather): Trace {
    WriteTrace(disk, TensorName(codec, a), codec.tensor(a), weather.tensor)
  }

  /** The three files of one commit, the manifest last. */
  function FilesTrace(codec: Codec, disk: Disk, a: Artifact, weather: Weather): Trace {
    var tensor := TensorTrace(codec, disk, a, weather);
    var runtime := RuntimeTrace(codec, tensor.Last(disk), a, weather);
    var manifest := ManifestTrace(codec, runtime.Last(tensor.Last(disk)), a, weather);
    tensor.Then(runtime.Then(manifest))
  }

  /** Deletes tensor files other than the retained one; it may stop anywhere. */
  function PruneTrace(disk: Disk, retained: Hash, prunes: seq<Hash>): seq<Disk>
    decreases |prunes|
  {
    if prunes == [] then []
    else if prunes[0] == retained then PruneTrace(disk, retained, prunes[1..])
    else
      var pruned := disk.Changed(Remove(Tensor(prunes[0])));
      [pruned] + PruneTrace(pruned, retained, prunes[1..])
  }

  /** The files, the directory sync, and last the pruning, whose failure is only reported. */
  function SaveTrace(codec: Codec, disk: Disk, a: Artifact, weather: Weather): (seq<Disk>, SaveOutcome) {
    var files := FilesTrace(codec, disk, a, weather);
    if !files.ok || weather.syncFails then (files.states, Failed)
    else
      var synced := files.Last(disk).Synced();
      (files.states + [synced] + PruneTrace(synced, codec.sha(codec.tensor(a)), weather.prunes),
       if weather.pruneFails then CommittedWithLeftovers else Committed)
  }

  // ---------------------------------------------------------------- what each step keeps

  /** The name is taken by a file with the wanted content that was never synced, as a failed save leaves it. */
  predicate ReusesUnsynced(disk: Disk, name: Name, content: Blob) {
    Wrote(disk, name, content) && !IsSynced(disk.files, disk.View(), name)
  }

  predicate Wrote(disk: Disk, name: Name, content: Blob) { Read(disk.files, disk.View(), name) == Some(content) }

  /** Writing the name goes through: an existing file matches, or a new one meets no fault. */
  predicate Proceeds(disk: Disk, name: Name, content: Blob, fault: Fault) {
    if name in disk.View() then Wrote(disk, name, content) else fault.Clear?
  }

  /** Earlier files, and all names but the changed ones, are as before. */
  ghost predicate SameBut(disk: Disk, next: Disk, changed: set<Name>) {
    && disk.files <= next.files
    && forall name :: name !in changed ==>
        (name in next.View() <==> name in disk.View()) && (name in disk.View() ==> next.View()[name] == disk.View()[name])
  }

  lemma CreatedIsSafe(codec: Codec, disk: Disk, name: Name, promise: Promise)
    requires CrashSafe(codec, disk, promise) && name !in disk.View() && name != Manifest
    ensures CrashSafe(codec, disk.Created(name), promise)
  {
    hide CrashSafe, Sound;
    var files := disk.files + [File([], false)];
    FilesKeepSafe(codec, disk, files, promise);
    var grown := disk.(files := files);
    ViewIsSound(codec, grown, promise);
    assert Bounded(files, Apply(grown.View(), Link(name, |disk.files|))) by { SoundIsBounded(codec, grown, promise); }
    UnreadIsHarmless(codec, files, grown.View(), files, Apply(grown.View(), Link(name, |disk.files|)), promise);
    ChangeKeepsSafe(codec, grown, Link(name, |disk.files|), promise);
  }

  lemma SoundIsBounded(codec: Codec, disk: Disk, promise: Promise)
    requires CrashSafe(codec, disk, promise)
    ensures Bounded(disk.files, disk.View())
  {
    ViewIsSound(codec, disk, promise);
  }

  lemma FilledIsSafe(codec: Codec, disk: Disk, content: Blob, synced: bool, promise: Promise)
    requires CrashSafe(codec, disk, promise)
    requires disk.files != [] && !disk.files[|disk.files| - 1].synced
    ensures CrashSafe(codec, disk.Filled(content, synced), promise)
  {
    FilesKeepSafe(codec, disk, disk.Filled(content, synced).files, promise);
  }

  /** Every disk passed through while an immutable file is written is safe. */
  lemma WriteIsSafe(codec: Codec, disk: Disk, name: Name, content: Blob, fault: Fault, promise: Promise)
    requires CrashSafe(codec, disk, promise) && name != Manifest
    ensures AllSafe(codec, WriteTrace(disk, name, content, fault).states, promise)
    ensures CrashSafe(codec, WriteTrace(disk, name, content, fault).Last(disk), promise)
  {
    hide CrashSafe;
    if name !in disk.View() && fault != CreateFails {
      var created := disk.Created(name);
      CreatedIsSafe(codec, disk, name, promise);
      FilledIsSafe(codec, created, if fault.WriteFails? then fault.partial else content, false, promise);
      FilledIsSafe(codec, created, content, true, promise);
    }
  }

  lemma FilledView(disk: Disk, content: Blob, synced: bool)
    requires disk.files != []
    ensures disk.Filled(content, synced).View() == disk.View()
  {
  }

  lemma CreatedView(disk: Disk, name: Name)
    ensures disk.Created(name).View() == disk.View()[name := |disk.files|]
  {
    ChangedView(disk.(files := disk.files + [File([], false)]), Link(name, |disk.files|));
    assert disk.(files := disk.files + [File([], false)]).View() == disk.View();
  }

  /** Writing succeeds with the content in place; it is synced unless an unsynced file was reused. */
  lemma WriteWrites(disk: Disk, name: Name, content: Blob, fault: Fault)
    ensures var trace := WriteTrace(disk, name, content, fault);
            var next := trace.Last(disk);
      && (trace.ok ==> Wrote(next, name, content)
                       && (IsSynced(next.files, next.View(), name) <==> !ReusesUnsynced(disk, name, content)))
      && SameBut(disk, next, {name})
      && (trace.ok <==> Proceeds(disk, name, content, fault))
  {
    hide ApplyAll;
    if name !in disk.View() && fault != CreateFails {
      CreatedView(disk, name);
    }
  }

  /** The complete artifact, and whether a power loss would leave its files alone. */
  predicate Holds(codec: Codec, disk: Disk, a: Artifact) {
    Wrote(disk, Manifest, codec.manifest(a)) && Wrote(disk, TensorName(codec, a), codec.tensor(a))
  }

  predicate HoldsSynced(codec: Codec, disk: Disk, a: Artifact) {
    && Holds(codec, disk, a)
    && IsSynced(disk.files, disk.View(), Manifest)
    && IsSynced(disk.files, disk.View(), TensorName(codec, a))
  }

  lemma HeldArtifactLoads(codec: Codec, disk: Disk, a: Artifact)
    requires Faithful(codec) && Holds(codec, disk, a)
    ensures Load(codec, disk) == Resumed(a)
    ensures Bounded(disk.files, disk.View()) ==>
      (Sound(codec, disk.files, disk.View(), Promise({a}, true)) <==> HoldsSynced(codec, disk, a))
  {
    hide ApplyAll;
  }

  lemma RenamedView(disk: Disk, temporary: Name, target: Name)
    requires temporary in disk.View() && temporary != target
    ensures var next := disk.Changed(Rename(temporary, target));
      && next.View() == (disk.View() - {temporary})[target := disk.View()[temporary]]
      && Read(next.files, next.View(), target) == Read(disk.files, disk.View(), temporary)
      && (IsSynced(next.files, next.View(), target) <==> IsSynced(disk.files, disk.View(), temporary))
  {
    hide ApplyAll;
    ChangedView(disk, Rename(temporary, target));
  }

  /** Replacing succeeds with the content in place, and changes no other name than the temporary. */
  lemma ReplaceReplaces(disk: Disk, target: Name, content: Blob, temporary: Name, fault: Fault, renameFails: bool, cleanupFails: bool)
    requires temporary != target
    ensures var trace := ReplaceTrace(disk, target, content, temporary, fault, renameFails, cleanupFails);
            var next := trace.Last(disk);
      && SameBut(disk, next, {target, temporary})
      && (trace.ok ==>
            && Wrote(next, target, content)
            && (IsSynced(next.files, next.View(), target) <==> !ReusesUnsynced(disk, temporary, content)))
      && (trace.ok <==> Proceeds(disk, temporary, content, fault) && !renameFails)
      && (trace.ok || !cleanupFails ==> temporary !in next.View())
  {
    hide ApplyAll;
    var write := WriteTrace(disk, temporary, content, fault);
    var written := write.Last(disk);
    WriteWrites(disk, temporary, content, fault);
    if write.ok && !renameFails {
      RenamedView(written, temporary, target);
    } else {
      ChangedView(written, Remove(temporary));
    }
  }

  /** Removing a name that a load does not read, or renaming a temporary over the runtime weights. */
  lemma ScratchChangeIsSafe(codec: Codec, disk: Disk, change: Change, promise: Promise)
    requires CrashSafe(codec, disk, promise)
    requires match change
             case Remove(name) => name.Temporary?
             case Rename(source, target) => source.Temporary? && target.Runtime?
             case Link(_, _) => false
    ensures CrashSafe(codec, disk.Changed(change), promise)
  {
    hide CrashSafe;
    ViewIsSound(codec, disk, promise);
    UnreadIsHarmless(codec, disk.files, disk.View(), disk.files, Apply(disk.View(), change), promise);
    ChangeKeepsSafe(codec, disk, change, promise);
  }

  lemma AppendIsSafe(codec: Codec, states: seq<Disk>, last: Disk, promise: Promise)
    requires AllSafe(codec, states, promise) && CrashSafe(codec, last, promise)
    ensures AllSafe(codec, states + [last], promise)
  {
    hide CrashSafe;
  }

  /** Every disk passed through while the runtime weights are replaced is safe. */
  lemma RuntimeIsSafe(codec: Codec, disk: Disk, a: Artifact, weather: Weather, promise: Promise)
    requires CrashSafe(codec, disk, promise)
    ensures AllSafe(codec, RuntimeTrace(codec, disk, a, weather).states, promise)
    ensures CrashSafe(codec, RuntimeTrace(codec, disk, a, weather).Last(disk), promise)
  {
    hide CrashSafe;
    var temporary := Temporary(false, weather.temporaries.0);
    var write := WriteTrace(disk, temporary, codec.runtime(a), weather.runtime);
    WriteIsSafe(codec, disk, temporary, codec.runtime(a), weather.runtime, promise);
    WriteWrites(disk, temporary, codec.runtime(a), weather.runtime);
    var change := if write.ok && !weather.renameFails.0 then Rename(temporary, Runtime) else Remove(temporary);
    ScratchChangeIsSafe(codec, write.Last(disk), change, promise);
  }

  /** So is every disk passed through while the manifest is replaced, if all it needs is there and synced. */
  lemma ManifestIsSafe(codec: Codec, disk: Disk, a: Artifact, weather: Weather, promise: Promise)
    requires Faithful(codec) && CrashSafe(codec, disk, promise) && a in promise.allowed
    requires ManifestTrace(codec, disk, a, weather).ok ==>
      && Wrote(disk, TensorName(codec, a), codec.tensor(a)) && IsSynced(disk.files, disk.View(), TensorName(codec, a))
      && !ReusesUnsynced(disk, Temporary(true, weather.temporaries.1), codec.manifest(a))
    ensures AllSafe(codec, ManifestTrace(codec, disk, a, weather).states, promise)
    ensures CrashSafe(codec, ManifestTrace(codec, disk, a, weather).Last(disk), promise)
  {
    hide CrashSafe, Faithful, Sound, SameBut;
    var temporary := Temporary(true, weather.temporaries.1);
    var write := WriteTrace(disk, temporary, codec.manifest(a), weather.manifest);
    WriteIsSafe(codec, disk, temporary, codec.manifest(a), weather.manifest, promise);
    if write.ok && !weather.renameFails.1 {
      InstalledIsSound(codec, disk, a, weather, promise);
      ChangeKeepsSafe(codec, write.Last(disk), Rename(temporary, Manifest), promise);
    } else if !weather.cleanupFails {
      ScratchChangeIsSafe(codec, write.Last(disk), Remove(temporary), promise);
    }
  }

  /** Renaming a synced temporary over the manifest, when the tensor file is there and synced, installs the artifact. */
  lemma InstalledIsSound(codec: Codec, disk: Disk, a: Artifact, weather: Weather, promise: Promise)
    requires Faithful(codec) && CrashSafe(codec, disk, promise) && a in promise.allowed
    requires Wrote(disk, TensorName(codec, a), codec.tensor(a)) && IsSynced(disk.files, disk.View(), TensorName(codec, a))
    requires ManifestTrace(codec, disk, a, weather).ok
    requires !ReusesUnsynced(disk, Temporary(true, weather.temporaries.1), codec.manifest(a))
    ensures var temporary := Temporary(true, weather.temporaries.1);
            var written := WriteTrace(disk, temporary, codec.manifest(a), weather.manifest).Last(disk);
      Sound(codec, written.files, Apply(written.View(), Rename(temporary, Manifest)), promise)
  {
    hide ApplyAll, CrashSafe;
    var temporary := Temporary(true, weather.temporaries.1);
    var written := WriteTrace(disk, temporary, codec.manifest(a), weather.manifest).Last(disk);
    WriteWrites(disk, temporary, codec.manifest(a), weather.manifest);
    WriteIsSafe(codec, disk, temporary, codec.manifest(a), weather.manifest, promise);
    SoundIsBounded(codec, written, promise);
    var next := written.Changed(Rename(temporary, Manifest));
    ChangedView(written, Rename(temporary, Manifest));
    RenamedView(written, temporary, Manifest);
    HeldArtifactLoads(codec, next, a);
  }

  lemma ThenLast(first: Trace, second: Trace, disk: Disk)
    ensures first.Then(second).Last(disk) == if first.ok then second.Last(first.Last(disk)) else first.Last(disk)
  {
  }

  lemma ThenIsSafe(codec: Codec, first: Trace, second: Trace, promise: Promise)
    requires AllSafe(codec, first.states, promise) && (first.ok ==> AllSafe(codec, second.states, promise))
    ensures AllSafe(codec, first.Then(second).states, promise)
  {
    hide CrashSafe;
  }

  /** Names not among the changed ones read as before, and are synced as before. */
  lemma SameReads(disk: Disk, next: Disk, changed: set<Name>, name: Name, content: Blob, fault: Fault)
    requires SameBut(disk, next, changed) && name !in changed && Bounded(disk.files, disk.View())
    ensures Wrote(next, name, content) <==> Wrote(disk, name, content)
    ensures IsSynced(next.files, next.View(), name) <==> IsSynced(disk.files, disk.View(), name)
    ensures ReusesUnsynced(next, name, content) <==> ReusesUnsynced(disk, name, content)
    ensures Proceeds(next, name, content, fault) <==> Proceeds(disk, name, content, fault)
  {
    hide ApplyAll;
  }

  /** The save would rely on a file that an earlier one wrote and never synced. */
  predicate ReliesOnUnsynced(codec: Codec, disk: Disk, a: Artifact, weather: Weather) {
    || ReusesUnsynced(disk, TensorName(codec, a), codec.tensor(a))
    || ReusesUnsynced(disk, Temporary(true, weather.temporaries.1), codec.manifest(a))
  }

  /** All three files go through. */
  predicate FilesProceed(codec: Codec, disk: Disk, a: Artifact, weather: Weather) {
    && Proceeds(disk, TensorName(codec, a), codec.tensor(a), weather.tensor)
    && Proceeds(disk, Temporary(false, weather.temporaries.0), codec.runtime(a), weather.runtime) && !weather.renameFails.0
    && Proceeds(disk, Temporary(true, weather.temporaries.1), codec.manifest(a), weather.manifest) && !weather.renameFails.1
  }

  lemma FramesCompose(disk: Disk, middle: Disk, next: Disk, first: set<Name>, second: set<Name>)
    requires SameBut(disk, middle, first) && SameBut(middle, next, second)
    ensures SameBut(disk, next, first + second)
  {
    hide ApplyAll;
  }

  /** The runtime weights are installed, synced unless their temporary was a reused unsynced one. */
  predicate RuntimeWritten(codec: Codec, disk: Disk, next: Disk, a: Artifact, weather: Weather) {
    && Wrote(next, Runtime, codec.runtime(a))
    && (IsSynced(next.files, next.View(), Runtime) <==>
        !ReusesUnsynced(disk, Temporary(false, weather.temporaries.0), codec.runtime(a)))
  }

  /** Before the manifest is replaced the tensor file is in place, and the temporary's name is as it was found. */
  lemma FilesReady(codec: Codec, disk: Disk, a: Artifact, weather: Weather, promise: Promise)
    requires CrashSafe(codec, disk, promise)
    ensures var tensor, manifest := TensorName(codec, a), Temporary(true, weather.temporaries.1);
            var t := TensorTrace(codec, disk, a, weather);
            var r := RuntimeTrace(codec, t.Last(disk), a, weather);
            var ready := r.Last(t.Last(disk));
      && Bounded(ready.files, ready.View())
      && (t.ok && r.ok <==>
            && Proceeds(disk, tensor, codec.tensor(a), weather.tensor)
            && Proceeds(disk, Temporary(false, weather.temporaries.0), codec.runtime(a), weather.runtime) && !weather.renameFails.0)
      && (t.ok ==> Wrote(ready, tensor, codec.tensor(a))
                   && (IsSynced(ready.files, ready.View(), tensor) <==> !ReusesUnsynced(disk, tensor, codec.tensor(a))))
      && (t.ok && r.ok ==> RuntimeWritten(codec, disk, ready, a, weather))
      && (Proceeds(ready, manifest, codec.manifest(a), weather.manifest) <==>
          Proceeds(disk, manifest, codec.manifest(a), weather.manifest))
      && (ReusesUnsynced(ready, manifest, codec.manifest(a)) <==> ReusesUnsynced(disk, manifest, codec.manifest(a)))
  {
    hide ApplyAll, CrashSafe, WriteTrace, ReplaceTrace, SameBut, Proceeds, ReusesUnsynced, IsSynced, Wrote;
    var tensor, manifest := TensorName(codec, a), Temporary(true, weather.temporaries.1);
    var afterTensor := TensorTrace(codec, disk, a, weather).Last(disk);
    var ready := RuntimeTrace(codec, afterTensor, a, weather).Last(afterTensor);
    var temporary := Temporary(false, weather.temporaries.0);
    WriteWrites(disk, tensor, codec.tensor(a), weather.tensor);
    WriteIsSafe(codec, disk, tensor, codec.tensor(a), weather.tensor, promise);
    RuntimeIsSafe(codec, afterTensor, a, weather, promise);
    SoundIsBounded(codec, disk, promise);
    SoundIsBounded(codec, afterTensor, promise);
    SoundIsBounded(codec, ready, promise);
    ReplaceReplaces(afterTensor, Runtime, codec.runtime(a), temporary, weather.runtime,
                    weather.renameFails.0, weather.cleanupFails);
    FramesCompose(disk, afterTensor, ready, {tensor}, {Runtime, temporary});
    SameReads(disk, afterTensor, {tensor}, temporary, codec.runtime(a), weather.runtime);
    SameReads(disk, ready, {tensor} + {Runtime, temporary}, manifest, codec.manifest(a), weather.manifest);
    SameReads(afterTensor, ready, {Runtime, temporary}, tensor, codec.tensor(a), Clear);
  }

  /** The three files end holding the artifact, synced unless the save relied on an unsynced file. */
  lemma FilesWrite(codec: Codec, disk: Disk, a: Artifact, weather: Weather, promise: Promise)
    requires CrashSafe(codec, disk, promise)
    ensures var files := FilesTrace(codec, disk, a, weather);
            var next := files.Last(disk);
      && (files.ok <==> FilesProceed(codec, disk, a, weather))
      && (files.ok ==> Holds(codec, next, a) && (HoldsSynced(codec, next, a) <==> !ReliesOnUnsynced(codec, disk, a, weather)))
      && (files.ok ==> RuntimeWritten(codec, disk, next, a, weather))
  {
    hide ApplyAll, CrashSafe, WriteTrace, ReplaceTrace, SameBut, Proceeds, ReusesUnsynced, IsSynced, Wrote;
    var manifest := Temporary(true, weather.temporaries.1);
    var t := TensorTrace(codec, disk, a, weather);
    var r := RuntimeTrace(codec, t.Last(disk), a, weather);
    var ready := r.Last(t.Last(disk));
    var m := ManifestTrace(codec, ready, a, weather);
    FilesReady(codec, disk, a, weather, promise);
    ReplaceReplaces(ready, Manifest, codec.manifest(a), manifest, weather.manifest,
                    weather.renameFails.1, weather.cleanupFails);
    SameReads(ready, m.Last(ready), {Manifest, manifest}, TensorName(codec, a), codec.tensor(a), Clear);
    SameReads(ready, m.Last(ready), {Manifest, manifest}, Runtime, codec.runtime(a), Clear);
    ThenLast(r, m, t.Last(disk));
    ThenLast(t, r.Then(m), disk);
  }

  /** While the files are written every disk passed through is safe, unless the save goes through on an unsynced file. */
  lemma FilesAreSafe(codec: Codec, disk: Disk, a: Artifact, weather: Weather, promise: Promise)
    requires Faithful(codec) && CrashSafe(codec, disk, promise) && a in promise.allowed
    requires FilesProceed(codec, disk, a, weather) ==> !ReliesOnUnsynced(codec, disk, a, weather)
    ensures AllSafe(codec, FilesTrace(codec, disk, a, weather).states, promise)
    ensures CrashSafe(codec, FilesTrace(codec, disk, a, weather).Last(disk), promise)
  {
    hide ApplyAll, CrashSafe, AllSafe, WriteTrace, ReplaceTrace, SameBut, Proceeds, ReusesUnsynced, IsSynced, Wrote, Faithful;
    var t := TensorTrace(codec, disk, a, weather);
    var afterTensor := t.Last(disk);
    var r := RuntimeTrace(codec, afterTensor, a, weather);
    var ready := r.Last(afterTensor);
    var m := ManifestTrace(codec, ready, a, weather);
    WriteIsSafe(codec, disk, TensorName(codec, a), codec.tensor(a), weather.tensor, promise);
    RuntimeIsSafe(codec, afterTensor, a, weather, promise);
    if t.ok && r.ok {
      FilesReady(codec, disk, a, weather, promise);
      ReplaceReplaces(ready, Manifest, codec.manifest(a), Temporary(true, weather.temporaries.1), weather.manifest,
                      weather.renameFails.1, weather.cleanupFails);
      ManifestIsSafe(codec, ready, a, weather, promise);
    }
    if t.ok {
      ThenIsSafe(codec, r, m, promise);
    }
    ThenIsSafe(codec, t, r.Then(m), promise);
    ThenLast(r, m, afterTensor);
    ThenLast(t, r.Then(m), disk);
  }

  // ---------------------------------------------------------------- the commit

  /** The directory sync makes the artifact the only one a power loss can leave. */
  lemma SyncCommits(codec: Codec, disk: Disk, a: Artifact, promise: Promise)
    requires Faithful(codec) && CrashSafe(codec, disk, promise) && HoldsSynced(codec, disk, a)
    ensures CrashSafe(codec, disk.Synced(), Promise({a}, true)) && disk.Synced().View() == disk.View()
  {
    hide Faithful, Sound, Holds;
    SoundIsBounded(codec, disk, promise);
    HeldArtifactLoads(codec, disk, a);
    assert forall kept :: 0 <= kept <= |disk.Synced().pending| ==> disk.Synced().After(kept) == disk.View();
  }

  /** Pruning, however far it gets, never removes the tensor file the manifest names. */
  lemma PruneIsSafe(codec: Codec, disk: Disk, a: Artifact, prunes: seq<Hash>)
    requires Faithful(codec) && CrashSafe(codec, disk, Promise({a}, true)) && HoldsSynced(codec, disk, a)
    ensures var states := PruneTrace(disk, codec.sha(codec.tensor(a)), prunes);
      && AllSafe(codec, states, Promise({a}, true))
      && (states != [] ==> HoldsSynced(codec, states[|states| - 1], a))
    decreases |prunes|
  {
    hide CrashSafe, Faithful, ApplyAll, Sound;
    var retained := codec.sha(codec.tensor(a));
    if prunes != [] {
      if prunes[0] == retained {
        PruneIsSafe(codec, disk, a, prunes[1..]);
      } else {
        var pruned := disk.Changed(Remove(Tensor(prunes[0])));
        ChangedView(disk, Remove(Tensor(prunes[0])));
        SoundIsBounded(codec, disk, Promise({a}, true));
        HeldArtifactLoads(codec, pruned, a);
        ChangeKeepsSafe(codec, disk, Remove(Tensor(prunes[0])), Promise({a}, true));
        PruneIsSafe(codec, pruned, a, prunes[1..]);
      }
    }
  }

  function Wider(promise: Promise, a: Artifact): Promise { promise.(allowed := promise.allowed + {a}) }

  /** Nothing but earlier possible artifacts and the new one can be resumed; after success only the new one. */
  ghost predicate SaveKeepsPromise(codec: Codec, disk: Disk, a: Artifact, weather: Weather, promise: Promise) {
    var (states, outcome) := SaveTrace(codec, disk, a, weather);
    && (forall i :: 0 <= i < |states| ==> Resumable(codec, states[i], Wider(promise, a)))
    && (!outcome.Failed? ==> Resumable(codec, LastOf(disk, states), Promise({a}, true)))
  }

  lemma WeakerIsSafe(codec: Codec, states: seq<Disk>, a: Artifact, promise: Promise)
    requires AllSafe(codec, states, Promise({a}, true))
    ensures AllSafe(codec, states, Wider(promise, a))
  {
    hide CrashSafe;
    forall i | 0 <= i < |states| ensures CrashSafe(codec, states[i], Wider(promise, a)) {
      SafeForMore(codec, states[i], Promise({a}, true), Wider(promise, a));
    }
  }

  lemma ConcatIsSafe(codec: Codec, first: seq<Disk>, second: seq<Disk>, promise: Promise)
    requires AllSafe(codec, first, promise) && AllSafe(codec, second, promise)
    ensures AllSafe(codec, first + second, promise)
  {
    hide CrashSafe;
  }

  /** A save that does not go through on an unsynced file passes safe disks only, and commits when it reports so. */
  lemma SaveIsSafe(codec: Codec, disk: Disk, a: Artifact, weather: Weather, promise: Promise)
    requires Faithful(codec) && CrashSafe(codec, disk, promise)
    requires FilesProceed(codec, disk, a, weather) ==> !ReliesOnUnsynced(codec, disk, a, weather)
    ensures var (states, outcome) := SaveTrace(codec, disk, a, weather);
      && AllSafe(codec, states, Wider(promise, a))
      && CrashSafe(codec, LastOf(disk, states), if outcome.Failed? then Wider(promise, a) else Promise({a}, true))
  {
    hide CrashSafe, AllSafe, Faithful, ApplyAll, FilesTrace, FilesProceed, ReliesOnUnsynced, PruneTrace, HoldsSynced, Holds;
    var files := FilesTrace(codec, disk, a, weather);
    var next := files.Last(disk);
    SafeForMore(codec, disk, promise, Wider(promise, a));
    FilesAreSafe(codec, disk, a, weather, Wider(promise, a));
    FilesWrite(codec, disk, a, weather, promise);
    if files.ok && !weather.syncFails {
      SyncCommits(codec, next, a, Wider(promise, a));
      SyncedHolds(codec, next, a);
      var pruned := PruneTrace(next.Synced(), codec.sha(codec.tensor(a)), weather.prunes);
      PruneIsSafe(codec, next.Synced(), a, weather.prunes);
      WeakerIsSafe(codec, pruned, a, promise);
      SafeForMore(codec, next.Synced(), Promise({a}, true), Wider(promise, a));
      AppendIsSafe(codec, files.states, next.Synced(), Wider(promise, a));
      ConcatIsSafe(codec, files.states + [next.Synced()], pruned, Wider(promise, a));
      LastIsSafe(codec, next.Synced(), pruned, Promise({a}, true));
    }
  }

  lemma SyncedHolds(codec: Codec, disk: Disk, a: Artifact)
    requires HoldsSynced(codec, disk, a)
    ensures HoldsSynced(codec, disk.Synced(), a)
  {
    assert disk.Synced().View() == disk.View();
  }

  lemma LastIsSafe(codec: Codec, disk: Disk, states: seq<Disk>, promise: Promise)
    requires CrashSafe(codec, disk, promise) && AllSafe(codec, states, promise)
    ensures CrashSafe(codec, LastOf(disk, states), promise)
  {
    hide CrashSafe;
  }

  // ---------------------------------------------------------------- when a save is not safe

  /** Pruning leaves the artifact where it is, synced or not. */
  lemma PruneKeeps(codec: Codec, disk: Disk, a: Artifact, prunes: seq<Hash>)
    requires Holds(codec, disk, a)
    ensures var last := LastOf(disk, PruneTrace(disk, codec.sha(codec.tensor(a)), prunes));
      Holds(codec, last, a) && (HoldsSynced(codec, last, a) <==> HoldsSynced(codec, disk, a))
    decreases |prunes|
  {
    hide ApplyAll;
    var retained := codec.sha(codec.tensor(a));
    if prunes != [] {
      if prunes[0] == retained {
        PruneKeeps(codec, disk, a, prunes[1..]);
      } else {
        var pruned := disk.Changed(Remove(Tensor(prunes[0])));
        ChangedView(disk, Remove(Tensor(prunes[0])));
        PruneKeeps(codec, pruned, a, prunes[1..]);
      }
    }
  }

  /** Pruning removes exactly the listed tensor files other than the retained one. */
  lemma PruneRemoves(disk: Disk, retained: Hash, prunes: seq<Hash>)
    ensures var last := LastOf(disk, PruneTrace(disk, retained, prunes));
      && last.files == disk.files
      && last.View() == disk.View() - set h | h in prunes && h != retained :: Tensor(h)
    decreases |prunes|
  {
    hide ApplyAll;
    if prunes != [] {
      if prunes[0] == retained {
        PruneRemoves(disk, retained, prunes[1..]);
        assert forall h :: h in prunes && h != retained <==> h in prunes[1..] && h != retained;
      } else {
        var pruned := disk.Changed(Remove(Tensor(prunes[0])));
        ChangedView(disk, Remove(Tensor(prunes[0])));
        PruneRemoves(pruned, retained, prunes[1..]);
        assert forall h :: h in prunes <==> h == prunes[0] || h in prunes[1..];
      }
    }
  }

  /** Whatever a power loss keeps, the runtime weights are there, complete and synced. */
  ghost predicate RuntimeStays(codec: Codec, disk: Disk, a: Artifact) {
    forall kept :: 0 <= kept <= |disk.pending| ==>
      Read(disk.files, disk.After(kept), Runtime) == Some(codec.runtime(a)) && IsSynced(disk.files, disk.After(kept), Runtime)
  }

  lemma PruneKeepsRuntime(codec: Codec, disk: Disk, a: Artifact, retained: Hash, prunes: seq<Hash>)
    requires RuntimeStays(codec, disk, a)
    ensures RuntimeStays(codec, LastOf(disk, PruneTrace(disk, retained, prunes)), a)
    decreases |prunes|
  {
    hide ApplyAll;
    if prunes != [] {
      if prunes[0] == retained {
        PruneKeepsRuntime(codec, disk, a, retained, prunes[1..]);
      } else {
        var change := Remove(Tensor(prunes[0]));
        FullPrefix(disk);
        forall kept | 0 <= kept <= |disk.pending| + 1
          ensures Read(disk.files, disk.Changed(change).After(kept), Runtime) == Some(codec.runtime(a))
          ensures IsSynced(disk.files, disk.Changed(change).After(kept), Runtime)
        {
          AppendedPrefix(disk, change, kept);
        }
        PruneKeepsRuntime(codec, disk.Changed(change), a, retained, prunes[1..]);
      }
    }
  }

  /**
   * A save that reports success has installed the runtime weights of its
   * artifact; they survive every power loss unless their temporary was a
   * reused unsynced one.
   */
  lemma SaveInstallsRuntime(codec: Codec, disk: Disk, a: Artifact, weather: Weather, promise: Promise)
    requires CrashSafe(codec, disk, promise)
    ensures var (states, outcome) := SaveTrace(codec, disk, a, weather);
            var last := LastOf(disk, states);
            var reused := ReusesUnsynced(disk, Temporary(false, weather.temporaries.0), codec.runtime(a));
      && (outcome.Failed? <==> !FilesProceed(codec, disk, a, weather) || weather.syncFails)
      && (!outcome.Failed? ==> RuntimeWritten(codec, disk, last, a, weather) && Holds(codec, last, a))
      && (!outcome.Failed? && !reused ==> RuntimeSurvives(codec, last, a))
  {
    hide CrashSafe, ApplyAll, FilesTrace, FilesProceed, ReliesOnUnsynced, PruneTrace, ReusesUnsynced, RuntimeSurvives;
    var files := FilesTrace(codec, disk, a, weather);
    var next := files.Last(disk);
    FilesWrite(codec, disk, a, weather, promise);
    if files.ok && !weather.syncFails {
      var synced, retained := next.Synced(), codec.sha(codec.tensor(a));
      var last := LastOf(synced, PruneTrace(synced, retained, weather.prunes));
      SyncMovesNothing(codec, next, a);
      SyncedView(next);
      PruneRemoves(synced, retained, weather.prunes);
      PruneKeeps(codec, synced, a, weather.prunes);
      if IsSynced(next.files, next.View(), Runtime) {
        forall kept | 0 <= kept <= |synced.pending| ensures synced.After(kept) == next.View() {
          SyncedView(next);
          FullPrefix(synced);
        }
        PruneKeepsRuntime(codec, synced, a, retained, weather.prunes);
        StayingSurvives(codec, last, a);
      }
    }
  }

  lemma SyncedView(disk: Disk)
    ensures disk.Synced().View() == disk.View()
  {
  }

  ghost predicate RuntimeSurvives(codec: Codec, disk: Disk, a: Artifact) {
    forall kept, torn :: 0 <= kept <= |disk.pending| ==> Wrote(disk.Recovered(kept, torn), Runtime, codec.runtime(a))
  }

  lemma StayingSurvives(codec: Codec, disk: Disk, a: Artifact)
    requires RuntimeStays(codec, disk, a)
    ensures RuntimeSurvives(codec, disk, a)
  {
    forall kept, torn | 0 <= kept <= |disk.pending| ensures Wrote(disk.Recovered(kept, torn), Runtime, codec.runtime(a)) {
      assert disk.Recovered(kept, torn).View() == disk.After(kept);
    }
  }

  /** An artifact held in a file that was never synced is lost if the power loss empties that file. */
  lemma UnsyncedIsLost(codec: Codec, disk: Disk, a: Artifact)
    requires Faithful(codec) && Holds(codec, disk, a) && !HoldsSynced(codec, disk, a)
    ensures Load(codec, disk.Recovered(|disk.pending|, [])) == Damaged
  {
    hide ApplyAll;
    FullPrefix(disk);
    UnsteadyIsDamaged(codec, disk, |disk.pending|);
  }

  /** A save that goes through on an unsynced file may report success and still leave nothing to load. */
  lemma SaveLosesUnsynced(codec: Codec, disk: Disk, a: Artifact, weather: Weather, promise: Promise)
    requires Faithful(codec) && CrashSafe(codec, disk, promise)
    requires FilesProceed(codec, disk, a, weather) && ReliesOnUnsynced(codec, disk, a, weather)
    ensures var (states, outcome) := SaveTrace(codec, disk, a, weather);
            var last := LastOf(disk, states);
      && states != [] && (outcome.Failed? <==> weather.syncFails) && Load(codec, last) == Resumed(a)
      && Load(codec, last.Recovered(|last.pending|, [])) == Damaged
  {
    hide CrashSafe, Faithful, ApplyAll, FilesProceed, ReliesOnUnsynced, HoldsSynced, Holds, Load;
    var files := FilesTrace(codec, disk, a, weather);
    var next := files.Last(disk);
    FilesWrite(codec, disk, a, weather, promise);
    var synced := next.Synced();
    SyncMovesNothing(codec, next, a);
    PruneKeeps(codec, synced, a, weather.prunes);
    var last := if weather.syncFails then next else LastOf(synced, PruneTrace(synced, codec.sha(codec.tensor(a)), weather.prunes));
    HeldArtifactLoads(codec, last, a);
    UnsyncedIsLost(codec, last, a);
    FilesPass(codec, disk, a, weather);
  }

  lemma FilesPass(codec: Codec, disk: Disk, a: Artifact, weather: Weather)
    requires FilesTrace(codec, disk, a, weather).ok
    ensures FilesTrace(codec, disk, a, weather).states != []
  {
    hide ApplyAll, WriteTrace;
  }

  lemma SyncMovesNothing(codec: Codec, disk: Disk, a: Artifact)
    ensures Holds(codec, disk.Synced(), a) <==> Holds(codec, disk, a)
    ensures HoldsSynced(codec, disk.Synced(), a) <==> HoldsSynced(codec, disk, a)
  {
    assert disk.Synced().View() == disk.View();
  }

  /**
   * Whatever step of a save fails or is interrupted by a power loss, only an
   * earlier possible artifact or the new one is resumed, and after reported
   * success only the new one: exactly unless the save goes through on a file
   * that an earlier save wrote and never synced.
   */
  lemma SaveIsSafeExactly(codec: Codec, disk: Disk, a: Artifact, weather: Weather, promise: Promise)
    requires Faithful(codec) && CrashSafe(codec, disk, promise)
    ensures SaveKeepsPromise(codec, disk, a, weather, promise)
       <==> !(FilesProceed(codec, disk, a, weather) && ReliesOnUnsynced(codec, disk, a, weather))
  {
    hide CrashSafe, Faithful, ApplyAll, FilesProceed, ReliesOnUnsynced, SaveTrace, Resumable;
    var (states, outcome) := SaveTrace(codec, disk, a, weather);
    if FilesProceed(codec, disk, a, weather) && ReliesOnUnsynced(codec, disk, a, weather) {
      SaveLosesUnsynced(codec, disk, a, weather, promise);
      DamagedIsNotResumable(codec, LastOf(disk, states), Wider(promise, a));
    } else {
      SaveIsSafe(codec, disk, a, weather, promise);
      forall i | 0 <= i < |states| ensures Resumable(codec, states[i], Wider(promise, a)) {
        SafeResumes(codec, states[i], Wider(promise, a));
      }
      SafeResumes(codec, LastOf(disk, states), if outcome.Failed? then Wider(promise, a) else Promise({a}, true));
    }
  }

  lemma DamagedIsNotResumable(codec: Codec, disk: Disk, promise: Promise)
    requires Load(codec, disk.Recovered(|disk.pending|, [])) == Damaged
    ensures !Resumable(codec, disk, promise)
  {
    hide Load;
    assert !Kept(promise, Load(codec, disk.Recovered(|disk.pending|, [])));
  }

  /** The save may go through on an unsynced file, whatever temporary numbers it draws. */
  ghost predicate MayRelyOnUnsynced(codec: Codec, disk: Disk, a: Artifact) {
    || ReusesUnsynced(disk, TensorName(codec, a), codec.tensor(a))
    || (Proceeds(disk, TensorName(codec, a), codec.tensor(a), Clear)
        && exists n :: ReusesUnsynced(disk, Temporary(true, n), codec.manifest(a)))
  }

  /** No step fails. */
  function Fair(temporaries: (nat, nat)): Weather {
    Weather(Clear, Clear, Clear, (false, false), false, false, false, temporaries, [])
  }

  lemma FreshTemporary(names: set<Name>) returns (n: nat)
    ensures forall m, forManifest :: n <= m ==> Temporary(forManifest, m) !in names
  {
    n := 0;
    var rest := names;
    while rest != {}
      invariant rest <= names
      invariant forall m, forManifest :: n <= m ==> Temporary(forManifest, m) !in names - rest
    {
      var name :| name in rest;
      n := if name.Temporary? && n <= name.sequence then name.sequence + 1 else n;
      rest := rest - {name};
    }
  }

  /**
   * Saving an artifact is safe whatever happens, exactly when neither its
   * tensor file nor a manifest temporary with its contents was left unsynced.
   */
  lemma SavingIsSafeExactly(codec: Codec, disk: Disk, a: Artifact, promise: Promise)
    requires Faithful(codec) && CrashSafe(codec, disk, promise)
    ensures (forall weather :: SaveKeepsPromise(codec, disk, a, weather, promise)) <==> !MayRelyOnUnsynced(codec, disk, a)
  {
    hide CrashSafe, Faithful, ApplyAll, SaveKeepsPromise;
    forall weather
      ensures SaveKeepsPromise(codec, disk, a, weather, promise)
         <==> !(FilesProceed(codec, disk, a, weather) && ReliesOnUnsynced(codec, disk, a, weather))
    {
      SaveIsSafeExactly(codec, disk, a, weather, promise);
    }
    if MayRelyOnUnsynced(codec, disk, a) {
      var n := FreshTemporary(disk.View().Keys);
      var m := if ReusesUnsynced(disk, TensorName(codec, a), codec.tensor(a)) then n
               else var m :| ReusesUnsynced(disk, Temporary(true, m), codec.manifest(a)); m;
      assert FilesProceed(codec, disk, a, Fair((n, m))) && ReliesOnUnsynced(codec, disk, a, Fair((n, m)));
      assert !SaveKeepsPromise(codec, disk, a, Fair((n, m)), promise);
    }
  }

  const BLANK := Disk(map[], [], [])

  /**
   * A first save whose tensor sync fails, then a second save of the same
   * artifact that meets no fault and reports success: a power loss may still
   * leave a manifest that names an empty tensor file.
   */
  lemma RetryAfterFailedSyncIsLost(codec: Codec, a: Artifact)
    requires Faithful(codec)
    ensures var (failed, first) := SaveTrace(codec, BLANK, a, Fair((0, 1)).(tensor := SyncFails));
            var retried := LastOf(BLANK, failed);
            var (saved, second) := SaveTrace(codec, retried, a, Fair((2, 3)));
            var last := LastOf(retried, saved);
      && first == Failed && second == Committed && Load(codec, last) == Resumed(a)
      && Load(codec, last.Recovered(|last.pending|, [])) == Damaged
  {
    hide Load;
    var weather := Fair((0, 1)).(tensor := SyncFails);
    var tensor := TensorName(codec, a);
    var created := BLANK.Created(tensor);
    var retried := created.Filled(codec.tensor(a), false);
    assert TensorTrace(codec, BLANK, a, weather) == Trace([created, retried], false);
    CreatedView(BLANK, tensor);
    FilledView(created, codec.tensor(a), false);
    assert retried.View() == map[tensor := 0] && retried.files == [File(codec.tensor(a), false)];
    BlankIsSafe(codec);
    WriteIsSafe(codec, BLANK, tensor, codec.tensor(a), SyncFails, Promise({}, false));
    SaveLosesUnsynced(codec, retried, a, Fair((2, 3)), Promise({}, false));
  }

  /** An empty directory holds no artifact, and may. */
  lemma BlankIsSafe(codec: Codec)
    ensures CrashSafe(codec, BLANK, Promise({}, false))
  {
  }

  // ---------------------------------------------------------------- every run

  /** A save that runs to its end or is killed after so many disk changes, and a power loss. */
  datatype Event = Saving(a: Artifact, weather: Weather, killed: Option<nat>) | PowerLoss(kept: nat, torn: seq<Blob>)

  /** The disk, and what may be resumed from it by what was reported so far. */
  datatype World = World(disk: Disk, promise: Promise)

  function Step(codec: Codec, world: World, event: Event): World {
    match event
    case PowerLoss(kept, torn) =>
      World(world.disk.Recovered(if kept <= |world.disk.pending| then kept else |world.disk.pending|, torn), world.promise)
    case Saving(a, weather, killed) =>
      var (states, outcome) := SaveTrace(codec, world.disk, a, weather);
      if killed.Some? && killed.value < |states| then World(LastOf(world.disk, states[..killed.value]), Wider(world.promise, a))
      else World(LastOf(world.disk, states), if outcome.Failed? then Wider(world.promise, a) else Promise({a}, true))
  }

  function Run(codec: Codec, world: World, events: seq<Event>): World
    decreases |events|
  {
    if events == [] then world else Run(codec, Step(codec, world, events[0]), events[1..])
  }

  /** Every save finds no unsynced file to rely on. */
  ghost predicate Guarded(codec: Codec, world: World, events: seq<Event>)
    decreases |events|
  {
    events != [] ==>
      && (events[0].Saving? ==> !MayRelyOnUnsynced(codec, world.disk, events[0].a))
      && Guarded(codec, Step(codec, world, events[0]), events[1..])
  }

  lemma StepIsSafe(codec: Codec, world: World, event: Event)
    requires Faithful(codec) && CrashSafe(codec, world.disk, world.promise)
    requires event.Saving? ==> !MayRelyOnUnsynced(codec, world.disk, event.a)
    ensures CrashSafe(codec, Step(codec, world, event).disk, Step(codec, world, event).promise)
  {
    hide CrashSafe, Faithful, ApplyAll, SaveTrace;
    match event
    case PowerLoss(kept, torn) =>
      RecoveredIsSafe(codec, world.disk, if kept <= |world.disk.pending| then kept else |world.disk.pending|, torn, world.promise);
    case Saving(a, weather, killed) =>
      SafeForMore(codec, world.disk, world.promise, Wider(world.promise, a));
      SaveIsSafe(codec, world.disk, a, weather, world.promise);
  }

  /**
   * Over every run of saves, kills and power losses in which no save relies
   * on an unsynced file, every load resumes a possible artifact complete: the
   * one last reported as saved or one of those tried since.
   */
  lemma {:induction false} EveryRunResumes(codec: Codec, world: World, events: seq<Event>)
    requires Faithful(codec) && CrashSafe(codec, world.disk, world.promise) && Guarded(codec, world, events)
    ensures var end := Run(codec, world, events);
      && CrashSafe(codec, end.disk, end.promise)
      && Resumable(codec, end.disk, end.promise) && Kept(end.promise, Load(codec, end.disk))
    decreases |events|
  {
    hide CrashSafe, Faithful, MayRelyOnUnsynced, Resumable, Load, Step;
    if events == [] {
      SafeResumes(codec, world.disk, world.promise);
    } else {
      StepIsSafe(codec, world, events[0]);
      EveryRunResumes(codec, Step(codec, world, events[0]), events[1..]);
    }
  }

  predicate Matters(name: Name) { name.Tensor? || (name.Temporary? && name.forManifest) }

  /** No tensor file and no manifest temporary is left unsynced. */
  ghost predicate Tidy(disk: Disk) {
    forall name :: name in disk.View() && Matters(name) ==> IsSynced(disk.files, disk.View(), name)
  }

  /** No fault leaves such a file behind unsynced. */
  predicate Clean(weather: Weather) {
    && (weather.tensor.Clear? || weather.tensor.CreateFails?)
    && (weather.manifest.Clear? || weather.manifest.CreateFails? || !weather.cleanupFails)
  }

  lemma TidyElsewhere(disk: Disk, next: Disk, changed: set<Name>)
    requires Tidy(disk) && SameBut(disk, next, changed)
    requires forall name :: name in changed && name in next.View() && Matters(name) ==> IsSynced(next.files, next.View(), name)
    ensures Tidy(next)
  {
    hide ApplyAll;
  }

  lemma WriteKeepsTidy(disk: Disk, name: Name, content: Blob, fault: Fault)
    requires Tidy(disk) && (Matters(name) ==> fault.Clear? || fault.CreateFails?)
    ensures Tidy(WriteTrace(disk, name, content, fault).Last(disk))
  {
    hide ApplyAll, SameBut;
    WriteWrites(disk, name, content, fault);
    TidyElsewhere(disk, WriteTrace(disk, name, content, fault).Last(disk), {name});
  }

  lemma ReplaceKeepsTidy(disk: Disk, target: Name, content: Blob, temporary: Name, fault: Fault, renameFails: bool, cleanupFails: bool)
    requires Tidy(disk) && temporary.Temporary? && (target.Runtime? || target.Manifest?)
    requires Matters(temporary) ==> fault.Clear? || fault.CreateFails? || !cleanupFails
    ensures Tidy(ReplaceTrace(disk, target, content, temporary, fault, renameFails, cleanupFails).Last(disk))
  {
    hide ApplyAll, SameBut;
    var next := ReplaceTrace(disk, target, content, temporary, fault, renameFails, cleanupFails).Last(disk);
    var write := WriteTrace(disk, temporary, content, fault);
    var written := write.Last(disk);
    ReplaceReplaces(disk, target, content, temporary, fault, renameFails, cleanupFails);
    WriteWrites(disk, temporary, content, fault);
    if write.ok && !renameFails {
      RenamedView(written, temporary, target);
    } else if !cleanupFails {
      ChangedView(written, Remove(temporary));
    } else {
      if Matters(temporary) {
        WriteKeepsTidy(disk, temporary, content, fault);
      }
    }
    TidyElsewhere(disk, next, {target, temporary});
  }

  /** A save that runs to its end without such a fault leaves nothing unsynced that a later one could rely on. */
  lemma CleanSaveKeepsTidy(codec: Codec, disk: Disk, a: Artifact, weather: Weather)
    requires Tidy(disk) && Clean(weather)
    ensures Tidy(LastOf(disk, SaveTrace(codec, disk, a, weather).0))
  {
    hide Tidy, ApplyAll, WriteTrace, ReplaceTrace, PruneTrace;
    var t := TensorTrace(codec, disk, a, weather);
    var r := RuntimeTrace(codec, t.Last(disk), a, weather);
    var ready := r.Last(t.Last(disk));
    var m := ManifestTrace(codec, ready, a, weather);
    WriteKeepsTidy(disk, TensorName(codec, a), codec.tensor(a), weather.tensor);
    ReplaceKeepsTidy(t.Last(disk), Runtime, codec.runtime(a), Temporary(false, weather.temporaries.0), weather.runtime,
                     weather.renameFails.0, weather.cleanupFails);
    ReplaceKeepsTidy(ready, Manifest, codec.manifest(a), Temporary(true, weather.temporaries.1), weather.manifest,
                     weather.renameFails.1, weather.cleanupFails);
    ThenLast(r, m, t.Last(disk));
    ThenLast(t, r.Then(m), disk);
    var next := FilesTrace(codec, disk, a, weather).Last(disk);
    SyncKeepsTidy(next);
    PruneKeepsTidy(next.Synced(), codec.sha(codec.tensor(a)), weather.prunes);
  }

  lemma SyncKeepsTidy(disk: Disk)
    requires Tidy(disk)
    ensures Tidy(disk.Synced())
  {
    assert disk.Synced().View() == disk.View();
  }

  lemma PruneKeepsTidy(disk: Disk, retained: Hash, prunes: seq<Hash>)
    requires Tidy(disk)
    ensures Tidy(LastOf(disk, PruneTrace(disk, retained, prunes)))
    decreases |prunes|
  {
    hide ApplyAll;
    if prunes != [] {
      if prunes[0] == retained {
        PruneKeepsTidy(disk, retained, prunes[1..]);
      } else {
        ChangedView(disk, Remove(Tensor(prunes[0])));
        PruneKeepsTidy(disk.Changed(Remove(Tensor(prunes[0]))), retained, prunes[1..]);
      }
    }
  }

  lemma RecoveredIsTidy(codec: Codec, disk: Disk, kept: nat, torn: seq<Blob>, promise: Promise)
    requires CrashSafe(codec, disk, promise) && kept <= |disk.pending|
    ensures Tidy(disk.Recovered(kept, torn))
  {
    hide ApplyAll, CrashSafe;
    RecoveredIsSafe(codec, disk, kept, torn, promise);
    SoundIsBounded(codec, disk.Recovered(kept, torn), promise);
  }

  /** A save that is killed or meets such a fault is followed by a power loss, not by another save. */
  predicate RestartsAfterFaults(events: seq<Event>) {
    forall i :: 0 <= i < |events| - 1 && events[i].Saving? && !(events[i].killed.None? && Clean(events[i].weather)) ==>
      events[i + 1].PowerLoss?
  }

  /** If the machine restarts after every save that was cut short, no save ever relies on an unsynced file. */
  lemma {:induction false} RestartingRunsAreGuarded(codec: Codec, world: World, events: seq<Event>)
    requires Faithful(codec) && CrashSafe(codec, world.disk, world.promise) && RestartsAfterFaults(events)
    requires events != [] && !events[0].PowerLoss? ==> Tidy(world.disk)
    ensures Guarded(codec, world, events)
    decreases |events|
  {
    hide CrashSafe, Faithful, Tidy, ApplyAll, SaveTrace;
    if events != [] {
      var next := Step(codec, world, events[0]);
      match events[0] {
        case PowerLoss(kept, torn) =>
          RecoveredIsTidy(codec, world.disk, if kept <= |world.disk.pending| then kept else |world.disk.pending|, torn, world.promise);
        case Saving(a, weather, killed) =>
          TidyNeedsNoGuard(codec, world.disk, a);
          if killed.None? && Clean(weather) {
            CleanSaveKeepsTidy(codec, world.disk, a, weather);
          } else if 1 < |events| {
            assert events[1].PowerLoss?;
          }
      }
      StepIsSafe(codec, world, events[0]);
      RestartingRunsAreGuarded(codec, next, events[1..]);
    }
  }

  lemma TidyNeedsNoGuard(codec: Codec, disk: Disk, a: Artifact)
    requires Tidy(disk)
    ensures !MayRelyOnUnsynced(codec, disk, a)
  {
    hide ApplyAll;
  }

  // ---------------------------------------------------------------- the directory under a running process

  /** A checkpoint directory; its history is every disk that a kill or a power loss could have found. */
  class Folder {
    const codec: Codec
    var disk: Disk
    ghost var history: seq<Disk>

    constructor (codec: Codec, disk: Disk)
      ensures this.codec == codec && this.disk == disk && history == []
    {
      this.codec, this.disk, history := codec, disk, [];
    }

    method Advance(next: Disk)
      modifies this
      ensures disk == next && history == old(history) + [next]
    {
      disk, history := next, history + [next];
    }

    /** Creates, fills and syncs a file that must not change afterwards; an existing one has to match. */
    method WriteImmutable(name: Name, content: Blob, fault: Fault) returns (ok: bool)
      modifies this
      ensures var trace := WriteTrace(old(disk), name, content, fault);
        ok == trace.ok && disk == trace.Last(old(disk)) && history == old(history) + trace.states
    {
      if name in disk.View() {
        return Wrote(disk, name, content);
      }
      if fault.CreateFails? {
        return false;
      }
      Advance(disk.Created(name));
      Advance(disk.Filled(if fault.WriteFails? then fault.partial else content, false));
      if !fault.Clear? {
        return false;
      }
      Advance(disk.Filled(content, true));
      ok := true;
    }

    /** Fills a temporary and renames it into place; a failure removes the temporary if it can. */
    method ReplaceFile(target: Name, content: Blob, temporary: Name, fault: Fault, renameFails: bool, cleanupFails: bool)
      returns (ok: bool)
      modifies this
      ensures var trace := ReplaceTrace(old(disk), target, content, temporary, fault, renameFails, cleanupFails);
        ok == trace.ok && disk == trace.Last(old(disk)) && history == old(history) + trace.states
    {
      hide ApplyAll, WriteTrace;
      ok := WriteImmutable(temporary, content, fault);
      ok := ok && !renameFails;
      if ok {
        Advance(disk.Changed(Rename(temporary, target)));
      } else if !cleanupFails {
        Advance(disk.Changed(Remove(temporary)));
      }
    }

    /** Deletes tensor files other than the retained one. */
    method Prune(retained: Hash, prunes: seq<Hash>)
      modifies this
      ensures var states := PruneTrace(old(disk), retained, prunes);
        disk == LastOf(old(disk), states) && history == old(history) + states
    {
      hide ApplyAll;
      for i := 0 to |prunes|
        invariant history + PruneTrace(disk, retained, prunes[i..]) == old(history) + PruneTrace(old(disk), retained, prunes)
        invariant LastOf(disk, PruneTrace(disk, retained, prunes[i..])) == LastOf(old(disk), PruneTrace(old(disk), retained, prunes))
      {
        assert prunes[i..][1..] == prunes[i + 1..];
        if prunes[i] != retained {
          Advance(disk.Changed(Remove(Tensor(prunes[i]))));
        }
      }
    }

    /** Tensor file, runtime weights and manifest, each only after the one before. */
    method WriteFiles(a: Artifact, weather: Weather) returns (ok: bool)
      modifies this
      ensures var trace := FilesTrace(codec, old(disk), a, weather);
        ok == trace.ok && disk == trace.Last(old(disk)) && history == old(history) + trace.states
    {
      hide ApplyAll, WriteTrace, ReplaceTrace;
      ok := WriteImmutable(TensorName(codec, a), codec.tensor(a), weather.tensor);
      if !ok {
        return;
      }
      ok := ReplaceFile(Runtime, codec.runtime(a), Temporary(false, weather.temporaries.0), weather.runtime,
                        weather.renameFails.0, weather.cleanupFails);
      if !ok {
        return;
      }
      ok := ReplaceFile(Manifest, codec.manifest(a), Temporary(true, weather.temporaries.1), weather.manifest,
                        weather.renameFails.1, weather.cleanupFails);
    }

    /**
     * Commits an artifact: the files, the directory sync, and last the
     * pruning. The disks passed through keep the promise exactly unless the
     * save goes through on a file that was never synced.
     */
    method Save(a: Artifact, weather: Weather, ghost promise: Promise) returns (outcome: SaveOutcome)
      requires Faithful(codec) && CrashSafe(codec, disk, promise)
      modifies this
      ensures old(history) <= history
      ensures var states := history[|old(history)|..];
        && (states, outcome) == SaveTrace(codec, old(disk), a, weather) && disk == LastOf(old(disk), states)
        && ((forall i :: 0 <= i < |states| ==> Resumable(codec, states[i], Wider(promise, a)))
            && (!outcome.Failed? ==> Resumable(codec, disk, Promise({a}, true)))
            <==> !(FilesProceed(codec, old(disk), a, weather) && ReliesOnUnsynced(codec, old(disk), a, weather)))
      ensures outcome.Failed? <==> !FilesProceed(codec, old(disk), a, weather) || weather.syncFails
      ensures !outcome.Failed? ==>
        && Holds(codec, disk, a) && RuntimeWritten(codec, old(disk), disk, a, weather)
        && (ReusesUnsynced(old(disk), Temporary(false, weather.temporaries.0), codec.runtime(a)) || RuntimeSurvives(codec, disk, a))
    {
      hide ApplyAll, FilesTrace, Faithful, CrashSafe, FilesProceed, ReliesOnUnsynced, PruneTrace, Resumable;
      hide RuntimeWritten, RuntimeSurvives, ReusesUnsynced, Holds;
      SaveIsSafeExactly(codec, disk, a, weather, promise);
      SaveInstallsRuntime(codec, disk, a, weather, promise);
      var ok := WriteFiles(a, weather);
      assert history[|old(history)|..] == FilesTrace(codec, old(disk), a, weather).states;
      if !ok || weather.syncFails {
        return Failed;
      }
      Advance(disk.Synced());
      Prune(codec.sha(codec.tensor(a)), weather.prunes);
      assert history[|old(history)|..] == SaveTrace(codec, old(disk), a, weather).0;
      outcome := if weather.pruneFails then CommittedWithLeftovers else Committed;
    }
  }
}
