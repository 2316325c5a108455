/** The direct run of `src/processor.ts`: plan like the preview but stop the
    whole run at the first problem, then rename on the filesystem, logging an
    inverse step for every change so that a failure can be rewound, and clean
    up backups and emptied directories once every rename went through. */
module Processor {
  import opened Wrappers
  import opened Strings
  import opened Utils
  import opened Filesystem
  import opened Batch
  import opened Renaming
  import Rename
  import Sorting

  // ---------------------------------------------------------------------
  // Truncating a name to `maxLength`

  /** The extension of a name: from its last `.` on, or nothing. */
  function ExtensionOf(name: string): (r: string)
    ensures |r| <= |name| && r == name[|name| - |r|..]
    ensures r != [] ==> r[0] == '.' && forall j :: 0 < j < |r| ==> r[j] != '.'
    ensures r == [] ==> '.' !in name
  {
    var k := LastIndexOf(name, '.');
    if k > -1 then name[k..] else []
  }

  /** The name without its extension. */
  function BaseOf(name: string): (r: string)
    ensures r + ExtensionOf(name) == name
  {
    name[..|name| - |ExtensionOf(name)|]
  }

  /** The `maxLength` cut: a name longer than the limit keeps its extension
      (from the last `.`) and as much of the rest as fits, at least one
      character of it, unless the extension alone reaches the limit, in which
      case the name is simply cut. */
  function Truncate(name: string, maxLength: int): (r: string)
    ensures |name| <= maxLength ==> r == name
  {
    if |name| > maxLength then
      var extensionIndex := LastIndexOf(name, '.');
      var filename := if extensionIndex > -1 then Slice(name, 0, extensionIndex) else name;
      var extension := if extensionIndex > -1 then Slice(name, extensionIndex, |name|) else "";
      if |extension| >= maxLength then Slice(name, 0, maxLength)
      else Slice(filename, 0, Max(1, Min(maxLength - |extension|, |filename|))) + extension
    else name
  }

  /** The cut expressed through the name's base and extension. */
  lemma TruncateParts(name: string, maxLength: int)
    requires |name| > maxLength
    ensures var ext := ExtensionOf(name);
      |ext| >= maxLength ==> Truncate(name, maxLength) == Slice(name, 0, maxLength)
    ensures var ext := ExtensionOf(name); var base := BaseOf(name);
      |ext| < maxLength ==> Truncate(name, maxLength) == Slice(base, 0, Max(1, Min(maxLength - |ext|, |base|))) + ext
  {
    var k := LastIndexOf(name, '.');
    if k > -1 {
      assert Slice(name, 0, k) == name[..k];
      assert Slice(name, k, |name|) == name[k..];
    }
  }

  /** A non-negative limit is never exceeded. */
  lemma TruncateBound(name: string, maxLength: int)
    requires 0 <= maxLength
    ensures |Truncate(name, maxLength)| <= maxLength
  {
    if |name| > maxLength {
      TruncateParts(name, maxLength);
      var ext, base := ExtensionOf(name), BaseOf(name);
      if |ext| < maxLength {
        var m := Min(maxLength - |ext|, |base|);
        assert |base| > 0 && Max(1, m) == m;
        assert |Slice(base, 0, m)| == m;
      }
    }
  }

  /** When the extension is shorter than the limit, the cut keeps the
      extension whole and the longest leading part of the base that fits
      beside it, so a name with a base keeps at least one base character. */
  lemma TruncateKeepsExtension(name: string, maxLength: int)
    requires |ExtensionOf(name)| < maxLength
    ensures Truncate(name, maxLength)
      == BaseOf(name)[..Min(maxLength - |ExtensionOf(name)|, |BaseOf(name)|)] + ExtensionOf(name)
    ensures BaseOf(name) != [] ==> |Truncate(name, maxLength)| > |ExtensionOf(name)|
  {
    var ext, base := ExtensionOf(name), BaseOf(name);
    var m := Min(maxLength - |ext|, |base|);
    if |name| > maxLength {
      TruncateParts(name, maxLength);
      assert Max(1, m) == m;
      assert Slice(base, 0, Max(1, m)) == base[..m];
    } else {
      assert m == |base| && base[..m] == base;
    }
  }

  // ---------------------------------------------------------------------
  // Metadata and checksums, per file

  /** The metadata step of one file in the populate loop. */
  datatype MetaStep =
    | Keep(meta: Option<Value>)   // the file goes on with this `meta`
    | SkipRest                    // `continue`: no metadata, no checksums
    | HaltWith(message: string)   // `output.error(message); return`

  /** A directory stops the run; a failed probe skips the rest of the file
      under `skip`, stops the run under `abort` and gives `{}` under
      `ignore`. The proxy the code wraps around the metadata is applied when
      the template runs. */
  function RunMeta(file: FileRecord, extractMeta: bool, policy: MissingMetaPolicy, env: Env): (r: MetaStep)
    ensures !extractMeta ==> r == Keep(file.meta)
    ensures extractMeta && !file.isfile ==> r == HaltWith(Rename.DirectoryMetaMessage)
    ensures r == SkipRest ==> policy == Skip
    ensures extractMeta && r.Keep? ==> r.meta.Some?
  {
    if !extractMeta then Keep(file.meta)
    else if !file.isfile then HaltWith(Rename.DirectoryMetaMessage)
    else match env.probe(file.path)
      case Success(v) => Keep(Some(v))
      case Failure(e) =>
        match policy
        case Skip => SkipRest
        case Abort => HaltWith(Rename.MetaFailureMessage(file.path, Eem(e, false)))
        case Ignore => Keep(Some(Obj(map[])))
  }

  /** The file goes through its populate step without stopping the run. */
  predicate TaskPasses(file: FileRecord, extractMeta: bool, hashes: seq<Hash>, policy: MissingMetaPolicy, env: Env) {
    match RunMeta(file, extractMeta, policy, env)
    case HaltWith(_) => false
    case SkipRest => true
    case Keep(_) => Rename.WantsChecksums(file, hashes) ==> forall h :: h in hashes ==> env.checksum(file.path, h).Success?
  }

  /** The file after a populate step that passed. */
  ghost predicate RunPopulated(before: FileRecord, after: FileRecord, extractMeta: bool, hashes: seq<Hash>,
                               policy: MissingMetaPolicy, env: Env) {
    match RunMeta(before, extractMeta, policy, env)
    case HaltWith(_) => false
    case SkipRest => after == before
    case Keep(meta) =>
      && after == before.(meta := meta, checksums := after.checksums)
      && if Rename.WantsChecksums(before, hashes) then
           && after.checksums.Keys == SumNames(hashes)
           && forall h :: h in hashes ==>
                env.checksum(before.path, h).Success? && SumsHold(after.checksums, h, env.checksum(before.path, h).value)
         else after.checksums == before.checksums
  }

  /** How the populate loop ends. */
  datatype Populate = Ready(files: seq<FileRecord>) | Halted(message: string) | Threw(error: Thrown)

  predicate PassesUpTo(files: seq<FileRecord>, k: nat, extractMeta: bool, hashes: seq<Hash>, policy: MissingMetaPolicy, env: Env)
    requires k <= |files|
  {
    forall j :: 0 <= j < k ==> TaskPasses(files[j], extractMeta, hashes, policy, env)
  }

  /** The populate step stops the run with `r` at this file. */
  ghost predicate StopsWith(file: FileRecord, r: Populate, extractMeta: bool, hashes: seq<Hash>, policy: MissingMetaPolicy, env: Env) {
    match r
    case Ready(_) => false
    case Halted(message) => RunMeta(file, extractMeta, policy, env) == HaltWith(message)
    case Threw(error) =>
      && RunMeta(file, extractMeta, policy, env).Keep? && Rename.WantsChecksums(file, hashes)
      && exists h :: h in hashes && env.checksum(file.path, h) == Failure(error)
  }

  /** One file's populate step: its metadata when the template reads it, then
      its checksums; `Failure` carries how the run stops. */
  method RunFile(file: FileRecord, extractMeta: bool, hashes: seq<Hash>, policy: MissingMetaPolicy, env: Env)
    returns (r: Result<FileRecord, Populate>)
    ensures r.Success? <==> TaskPasses(file, extractMeta, hashes, policy, env)
    ensures r.Success? ==> RunPopulated(file, r.value, extractMeta, hashes, policy, env)
    ensures r.Failure? ==> StopsWith(file, r.error, extractMeta, hashes, policy, env)
  {
    var f := file;
    var step := RunMeta(file, extractMeta, policy, env);
    if step.HaltWith? {
      return Failure(Halted(step.message));
    }
    if step.Keep? {
      f := f.(meta := step.meta);
      if Rename.WantsChecksums(file, hashes) {
        var sums := ComputeChecksums(file.path, hashes, env);
        ChecksumsMeaning(file.path, hashes, env);
        if sums.Failure? {
          return Failure(Threw(sums.error));
        }
        f := f.(checksums := sums.value);
      }
    }
    r := Success(f);
  }

  /** The populate loop of the run, one file after another: the first
      directory or (under `abort`) the first failed probe stops the run with
      a message, the first failing checksum rejects it. */
  method PopulateRun(files: seq<FileRecord>, extractMeta: bool, hashes: seq<Hash>, policy: MissingMetaPolicy, env: Env)
    returns (r: Populate)
    ensures r.Ready? <==> PassesUpTo(files, |files|, extractMeta, hashes, policy, env)
    ensures r.Ready? ==> |r.files| == |files|
    ensures r.Ready? ==> forall k :: 0 <= k < |files| ==> RunPopulated(files[k], r.files[k], extractMeta, hashes, policy, env)
    ensures !r.Ready? ==> exists k :: (
      && 0 <= k < |files| && PassesUpTo(files, k, extractMeta, hashes, policy, env)
      && StopsWith(files[k], r, extractMeta, hashes, policy, env))
  {
    var done: seq<FileRecord> := [];
    for k := 0 to |files|
      invariant |done| == k
      invariant PassesUpTo(files, k, extractMeta, hashes, policy, env)
      invariant forall j :: 0 <= j < k ==> RunPopulated(files[j], done[j], extractMeta, hashes, policy, env)
    {
      var one := RunFile(files[k], extractMeta, hashes, policy, env);
      if one.Failure? {
        return one.error;
      }
      ghost var before := done;
      done := done + [one.value];
      forall j | 0 <= j < k + 1 ensures RunPopulated(files[j], done[j], extractMeta, hashes, policy, env) {
        if j < k { assert done[j] == before[j]; }
      }
    }
    r := Populate.Ready(done);
  }

  // ---------------------------------------------------------------------
  // The template of each file

  /** What the template loop makes of one file. */
  datatype FileOutcome =
    | SkipFile                   // a `SkipError` from the proxy: `continue`
    | Halt(message: string)      // `output.error(message); return`
    | Target(newPath: string)    // the path the file would be renamed to

  /** The thrown error's message when the template reads a missing metadata property. */
  function MissingPropMessage(prop: string): string {
    "Meta property \"" + prop + "\" is missing."
  }

  /** One file's template: a throw is reported; under `skip` and `abort` the
      metadata proxy throws at the first missing property read (a `SkipError`
      under `skip`, which skips the file); otherwise the trimmed text is made a
      valid file name, cut to `maxLength` and resolved against the file's
      directory. */
  function RunOutcome(file: FileRecord, template: string, common: CommonVariables, options: Options, env: Env): (r: FileOutcome)
    ensures r == SkipFile ==> options.onMissingMeta == Skip && file.meta.Some?
    ensures env.expand(template, Variables(common, file)).Failure? ==>
      r == Halt("Template expansion error: " + Eem(env.expand(template, Variables(common, file)).error, false))
  {
    match env.expand(template, Variables(common, file))
    case Failure(e) => Halt("Template expansion error: " + Eem(e, false))
    case Success(x) =>
      var missing := if file.meta.Some? && options.onMissingMeta != Ignore then MissingProps(file.meta.value, x.metaReads) else [];
      if missing != [] then
        if options.onMissingMeta == Skip then SkipFile
        else Halt("Template expansion error: " + MissingPropMessage(missing[0]))
      else
        var newName := Truncate(env.filenamify(Trim(x.text), options.replacement), options.maxLength);
        Target(env.paths.resolve(file.dirname, newName))
  }

  const MatchesInputMessageTail: string := "\"\n\nwhich matches current path of one of the other files in batch."

  function MatchesInputMessage(path: string, newPath: string): string {
    "Path:\n\n\"" + path + "\"\n\nwould be renamed to:\n\n\"" + newPath + MatchesInputMessageTail
  }

  /** What the planning loop works from: the files' paths, each file's
      template outcome, the overwrite option, the filesystem as it was
      found, and the collaborator that says whether two paths name the same
      file. */
  datatype PlanInput = PlanInput(paths: seq<string>, outcomes: seq<FileOutcome>, overwrite: bool, disk: Nodes,
                                 isSamePath: (string, string) -> bool)
  {
    predicate WellFormed() {
      |outcomes| == |paths|
    }
  }

  /** The template outcome of every file of a batch. */
  function Outcomes(files: seq<FileRecord>, template: string, common: CommonVariables, options: Options, env: Env)
    : (r: seq<FileOutcome>)
    ensures |r| == |files|
  {
    seq(|files|, j requires 0 <= j < |files| => RunOutcome(files[j], template, common, options, env))
  }

  /** The planning loop's variables: each file's `newPath` so far, the owner
      of every claimed path (`newPaths`) and `existingPaths`. */
  datatype PlanState = PlanState(targets: seq<Option<string>>, owners: map<string, string>, existing: set<string>)

  /** One turn of the planning loop for the file at `path`: a clash with an
      earlier file, a destination that exists (without overwrite, or one
      that is another input's path) stops the run; an existing destination
      that may be overwritten is recorded. */
  function PlanStep(st: PlanState, path: string, outcome: FileOutcome, input: PlanInput): (r: Result<PlanState, string>)
  {
    match outcome
    case SkipFile => Success(st.(targets := st.targets + [None]))
    case Halt(message) => Failure(message)
    case Target(p) =>
      if p in st.owners then Failure(Rename.ConflictMessage(path, st.owners[p], p))
      else if !input.isSamePath(path, p) && p in input.disk then
        if !input.overwrite then Failure(Rename.ExistsMessage(path, p))
        else if p in input.paths then Failure(MatchesInputMessage(path, p))
        else Success(PlanState(st.targets + [Some(p)], st.owners[p := path], st.existing + {p}))
      else Success(PlanState(st.targets + [Some(p)], st.owners[p := path], st.existing))
  }

  /** A step that passes appends the file's destination, if any, claims it
      for the file, and records it when it exists already. */
  lemma StepEffect(st: PlanState, path: string, outcome: FileOutcome, input: PlanInput)
    requires PlanStep(st, path, outcome, input).Success?
    ensures !outcome.Halt?
    ensures PlanStep(st, path, outcome, input).value.targets ==
      st.targets + [if outcome.Target? then Some(outcome.newPath) else None]
    ensures PlanStep(st, path, outcome, input).value.owners ==
      if outcome.Target? then st.owners[outcome.newPath := path] else st.owners
    ensures PlanStep(st, path, outcome, input).value.existing ==
      if outcome.Target? && !input.isSamePath(path, outcome.newPath) && outcome.newPath in input.disk
      then st.existing + {outcome.newPath} else st.existing
    ensures outcome.Target? ==> outcome.newPath !in st.owners
    ensures outcome.Target? && !input.isSamePath(path, outcome.newPath) && outcome.newPath in input.disk ==>
      input.overwrite && outcome.newPath !in input.paths
  {
  }

  /** The planning loop over the first `k` files. */
  function PlanUpTo(input: PlanInput, k: nat): (r: Result<PlanState, string>)
    requires input.WellFormed() && k <= |input.paths|
    ensures r.Success? ==> |r.value.targets| == k
  {
    if k == 0 then Success(PlanState([], map[], {}))
    else match PlanUpTo(input, k - 1)
      case Failure(message) => Failure(message)
      case Success(st) => PlanStep(st, input.paths[k - 1], input.outcomes[k - 1], input)
  }

  /** Each file's entry in the plan comes from its own outcome: a skipped
      file has no destination, a file with a target has that one, and no
      file of a successful plan halts. */
  lemma {:induction false} PlanTarget(input: PlanInput, k: nat, j: nat)
    requires input.WellFormed() && j < k <= |input.paths|
    requires PlanUpTo(input, k).Success?
    ensures var o := input.outcomes[j]; var t := PlanUpTo(input, k).value.targets[j];
      && !o.Halt?
      && (o.SkipFile? <==> t.None?)
      && (o.Target? ==> t == Some(o.newPath))
  {
    var prev := PlanUpTo(input, k - 1).value;
    StepEffect(prev, input.paths[k - 1], input.outcomes[k - 1], input);
    if j < k - 1 {
      PlanTarget(input, k - 1, j);
      assert PlanUpTo(input, k).value.targets[j] == prev.targets[j];
    }
  }

  /** A file with a destination owns it: the path is claimed, by that file. */
  lemma {:induction false} PlanOwner(input: PlanInput, k: nat, j: nat)
    requires input.WellFormed() && j < k <= |input.paths|
    requires PlanUpTo(input, k).Success?
    ensures var st := PlanUpTo(input, k).value;
      st.targets[j].Some? ==> st.targets[j].value in st.owners && st.owners[st.targets[j].value] == input.paths[j]
  {
    var prev := PlanUpTo(input, k - 1).value;
    StepEffect(prev, input.paths[k - 1], input.outcomes[k - 1], input);
    if j < k - 1 {
      PlanOwner(input, k - 1, j);
      assert PlanUpTo(input, k).value.targets[j] == prev.targets[j];
    }
  }

  /** Every claimed path is some file's destination. */
  lemma {:induction false} PlanClaimed(input: PlanInput, k: nat, p: string)
    requires input.WellFormed() && k <= |input.paths|
    requires PlanUpTo(input, k).Success? && p in PlanUpTo(input, k).value.owners
    ensures exists j :: 0 <= j < k && PlanUpTo(input, k).value.targets[j] == Some(p)
  {
    var st := PlanUpTo(input, k).value;
    var prev := PlanUpTo(input, k - 1).value;
    StepEffect(prev, input.paths[k - 1], input.outcomes[k - 1], input);
    if st.targets[k - 1] != Some(p) {
      PlanClaimed(input, k - 1, p);
      var j :| 0 <= j < k - 1 && prev.targets[j] == Some(p);
      assert st.targets[j] == Some(p);
    }
  }

  /** No two files of a plan get the same destination. */
  lemma {:induction false} PlanDistinct(input: PlanInput, k: nat, i: nat, j: nat)
    requires input.WellFormed() && i < j < k <= |input.paths|
    requires PlanUpTo(input, k).Success?
    ensures var st := PlanUpTo(input, k).value;
      st.targets[i].Some? ==> st.targets[i] != st.targets[j]
  {
    var prev := PlanUpTo(input, k - 1).value;
    var st := PlanUpTo(input, k).value;
    StepEffect(prev, input.paths[k - 1], input.outcomes[k - 1], input);
    assert st.targets[i] == prev.targets[i];
    if j < k - 1 {
      PlanDistinct(input, k - 1, i, j);
      assert st.targets[j] == prev.targets[j];
    } else {
      PlanOwner(input, k - 1, i);
    }
  }

  /** A destination that already exists (and is not the file itself) passed
      only with overwrite on and when it is no input's path, and it is then
      recorded as an existing path. */
  lemma {:induction false} PlanRecorded(input: PlanInput, k: nat, j: nat)
    requires input.WellFormed() && j < k <= |input.paths|
    requires PlanUpTo(input, k).Success?
    ensures var st := PlanUpTo(input, k).value;
      st.targets[j].Some? && !input.isSamePath(input.paths[j], st.targets[j].value) && st.targets[j].value in input.disk ==>
        && input.overwrite
        && st.targets[j].value !in input.paths
        && st.targets[j].value in st.existing
  {
    var prev := PlanUpTo(input, k - 1).value;
    StepEffect(prev, input.paths[k - 1], input.outcomes[k - 1], input);
    if j < k - 1 {
      PlanRecorded(input, k - 1, j);
      assert PlanUpTo(input, k).value.targets[j] == prev.targets[j];
    }
  }

  /** Only such destinations are recorded as existing paths. */
  lemma {:induction false} PlanExisting(input: PlanInput, k: nat, p: string)
    requires input.WellFormed() && k <= |input.paths|
    requires PlanUpTo(input, k).Success? && p in PlanUpTo(input, k).value.existing
    ensures exists j :: (&& 0 <= j < k && PlanUpTo(input, k).value.targets[j] == Some(p)
                         && !input.isSamePath(input.paths[j], p) && p in input.disk)
  {
    var st := PlanUpTo(input, k).value;
    var prev := PlanUpTo(input, k - 1).value;
    StepEffect(prev, input.paths[k - 1], input.outcomes[k - 1], input);
    if p in prev.existing {
      PlanExisting(input, k - 1, p);
      var j :| 0 <= j < k - 1 && prev.targets[j] == Some(p) && !input.isSamePath(input.paths[j], p) && p in input.disk;
      assert st.targets[j] == Some(p);
    }
  }

  /** A plan that stops is the plan of the first file that stops it; later files change nothing. */
  lemma {:induction false} PlanUpToStops(input: PlanInput, k: nat, n: nat)
    requires input.WellFormed() && k <= n <= |input.paths|
    requires PlanUpTo(input, k).Failure?
    ensures PlanUpTo(input, n) == PlanUpTo(input, k)
    decreases n - k
  {
    if k < n {
      PlanUpToStops(input, k, n - 1);
    }
  }

  /** How planning ends: the message the run stops with, or each file's destination and the recorded existing paths. */
  datatype Plan = Stopped(message: string) | Planned(targets: seq<Option<string>>, existing: set<string>)

  /** The inputs of the template loop of a run. */
  function PlanInputOf(files: seq<FileRecord>, template: string, common: CommonVariables, options: Options, env: Env,
                       disk: Nodes): (r: PlanInput)
    ensures r.WellFormed() && |r.paths| == |files|
  {
    PlanInput(Rename.PathsOf(files), Outcomes(files, template, common, options, env), options.overwrite, disk, env.isSamePath)
  }

  /** One turn of the template loop, on the loop's own variables. */
  method PlanOne(st: PlanState, files: seq<FileRecord>, i: nat, template: string, common: CommonVariables, options: Options,
                 env: Env, input: PlanInput)
    returns (r: Result<PlanState, string>)
    requires i < |files| && input == PlanInputOf(files, template, common, options, env, input.disk)
    ensures r == PlanStep(st, input.paths[i], input.outcomes[i], input)
  {
    var file := files[i];
    assert input.paths[i] == file.path && input.outcomes[i] == RunOutcome(file, template, common, options, env);
    var expanded := env.expand(template, Variables(common, file));
    if expanded.Failure? {
      return Failure("Template expansion error: " + Eem(expanded.error, false));
    }
    var x := expanded.value;
    var missing := if file.meta.Some? && options.onMissingMeta != Ignore then MissingProps(file.meta.value, x.metaReads) else [];
    if missing != [] {
      if options.onMissingMeta == Skip {
        return Success(st.(targets := st.targets + [None]));
      }
      return Failure("Template expansion error: " + MissingPropMessage(missing[0]));
    }
    var newName := Truncate(env.filenamify(Trim(x.text), options.replacement), options.maxLength);
    var newPath := env.paths.resolve(file.dirname, newName);
    assert RunOutcome(file, template, common, options, env) == Target(newPath);
    var newPaths, existingPaths := st.owners, st.existing;
    if newPath in newPaths {
      return Failure(Rename.ConflictMessage(file.path, newPaths[newPath], newPath));
    }
    if !env.isSamePath(file.path, newPath) && newPath in input.disk {
      existingPaths := existingPaths + {newPath};
      if !options.overwrite {
        return Failure(Rename.ExistsMessage(file.path, newPath));
      } else if newPath in input.paths {
        return Failure(MatchesInputMessage(file.path, newPath));
      }
    }
    r := Success(PlanState(st.targets + [Some(newPath)], newPaths[newPath := file.path], existingPaths));
  }

  /** What the template loop reports for a planning result. */
  function PlanOf(spec: Result<PlanState, string>): Plan {
    match spec
    case Failure(message) => Stopped(message)
    case Success(st) => Planned(st.targets, st.existing)
  }

  /** The template loop of the run. */
  method PlanRun(files: seq<FileRecord>, template: string, common: CommonVariables, options: Options, env: Env, disk: Nodes)
    returns (r: Plan)
    ensures r == PlanOf(PlanUpTo(PlanInputOf(files, template, common, options, env, disk), |files|))
  {
    var input := PlanInputOf(files, template, common, options, env, disk);
    var res: Result<PlanState, string> := Success(PlanState([], map[], {}));
    var i := 0;
    while i < |files| && res.Success?
      invariant i <= |files| && res == PlanUpTo(input, i)
    {
      res := PlanOne(res.value, files, i, template, common, options, env, input);
      i := i + 1;
    }
    if res.Failure? {
      PlanUpToStops(input, i, |files|);
    }
    r := PlanOf(res);
  }

  /** `commondir`: the first file's directory, narrowed by `commonPathsRoot` with every later file's path. */
  function FoldRoot(root: string, paths: seq<string>, sep: string): string
    decreases |paths|
  {
    if paths == [] then root
    else FoldRoot(Join(CommonPrefix(SplitPath(root), SplitPath(paths[0])), sep), paths[1..], sep)
  }

  /** The `commondir` loop; an empty batch has no `files[0]` and throws. */
  method CommonDirOf(files: seq<FileRecord>, sep: string) returns (r: Result<string, Rejection>)
    ensures files == [] ==> r == Failure(Raised(NoFirstFileMessage))
    ensures files != [] ==> r == Success(FoldRoot(files[0].dirname, Rename.PathsOf(files)[1..], sep))
  {
    if files == [] {
      return Failure(Raised(NoFirstFileMessage));
    }
    var commondir := files[0].dirname;
    ghost var paths := Rename.PathsOf(files);
    for i := 1 to |files|
      invariant FoldRoot(commondir, paths[i..], sep) == FoldRoot(files[0].dirname, paths[1..], sep)
    {
      assert paths[i..][1..] == paths[i + 1..];
      commondir := CommonPathsRoot(commondir, files[i].path, sep);
    }
    r := Success(commondir);
  }

  /** The `TypeError` of reading `dirname` from the missing first file. */
  const NoFirstFileMessage: string := "Cannot read properties of undefined (reading 'dirname')"

  // ---------------------------------------------------------------------
  // After the loop went through

  /** What the run reports through `output`. */
  datatype Output = ErrorOutput(message: string) | WarningOutput(message: string) | FileOutput(path: Option<string>)

  /** The paths of the failed removals among `calls`, in order. */
  function FailedRemovals(calls: seq<Call>): seq<string> {
    if calls == [] then []
    else
      var last := calls[|calls| - 1];
      FailedRemovals(calls[..|calls| - 1]) + (if last.RemoveCall? && last.outcome.Err? then [last.path] else [])
  }

  /** A path is reported exactly when one of its removals failed. */
  lemma {:induction false} FailedRemovalsMeaning(calls: seq<Call>, p: string)
    ensures p in FailedRemovals(calls) <==> exists e :: RemoveCall(p, Err(e)) in calls
  {
    if calls != [] {
      var init, last := calls[..|calls| - 1], calls[|calls| - 1];
      assert calls == init + [last];
      FailedRemovalsMeaning(init, p);
      if last.RemoveCall? && last.path == p && last.outcome.Err? {
        assert RemoveCall(p, Err(last.outcome.code)) in calls;
      }
      if exists e :: RemoveCall(p, Err(e)) in calls {
        var e :| RemoveCall(p, Err(e)) in calls;
        if RemoveCall(p, Err(e)) != last {
          assert RemoveCall(p, Err(e)) in init;
        }
      }
    }
  }

  /** `calls` are one `deletePath` call per path of `paths`, in order. */
  ghost predicate Removals(calls: seq<Call>, paths: seq<string>) {
    |calls| == |paths| && forall k :: 0 <= k < |paths| ==> calls[k].RemoveCall? && calls[k].path == paths[k]
  }

  /** Deleting the leftovers (backups, and sources copied across devices)
      one after another; a failure is remembered, not thrown. */
  method Cleanup(fs: FileSystem, toDelete: seq<string>) returns (failed: seq<string>)
    modifies fs
    ensures old(fs.journal) <= fs.journal
    ensures Removals(fs.journal[|old(fs.journal)|..], toDelete)
    ensures failed == FailedRemovals(fs.journal[|old(fs.journal)|..])
    ensures forall p :: p in toDelete && p !in failed ==> p !in fs.nodes
    ensures forall p :: p in fs.nodes ==> p in old(fs.nodes) && fs.nodes[p] == old(fs.nodes)[p]
  {
    failed := [];
    ghost var calls: seq<Call> := [];
    for i := 0 to |toDelete|
      invariant fs.journal == old(fs.journal) + calls
      invariant CleanupState(old(fs.nodes), fs.nodes, calls, failed, toDelete, i)
    {
      ghost var before := fs.nodes;
      var removed := fs.Remove(toDelete[i]);
      CleanupStep(old(fs.nodes), before, fs.nodes, calls, failed, toDelete, i, removed);
      calls := calls + [RemoveCall(toDelete[i], removed)];
      if removed.Err? {
        failed := failed + [toDelete[i]];
      }
    }
    assert fs.journal[|old(fs.journal)|..] == calls;
    assert toDelete[..|toDelete|] == toDelete;
  }

  /** What `Cleanup` knows after its first `i` removals. */
  ghost predicate CleanupState(initial: Nodes, nodes: Nodes, calls: seq<Call>, failed: seq<string>,
                               toDelete: seq<string>, i: nat) {
    && i <= |toDelete|
    && Removals(calls, toDelete[..i])
    && failed == FailedRemovals(calls)
    && (forall k :: 0 <= k < i && toDelete[k] !in failed ==> toDelete[k] !in nodes)
    && (forall p :: p in nodes ==> p in initial && nodes[p] == initial[p])
  }

  /** One more removal keeps `Cleanup`'s account. */
  lemma CleanupStep(initial: Nodes, nodes: Nodes, nodes': Nodes, calls: seq<Call>, failed: seq<string>,
                    toDelete: seq<string>, i: nat, removed: Outcome)
    requires i < |toDelete| && CleanupState(initial, nodes, calls, failed, toDelete, i)
    requires removed.Ok? ==> nodes' == nodes - {toDelete[i]}
    requires removed.Err? ==> nodes' == nodes
    ensures CleanupState(initial, nodes', calls + [RemoveCall(toDelete[i], removed)],
      if removed.Err? then failed + [toDelete[i]] else failed, toDelete, i + 1)
  {
    assert (calls + [RemoveCall(toDelete[i], removed)])[..|calls|] == calls;
    assert toDelete[..i + 1] == toDelete[..i] + [toDelete[i]];
  }

  function LeftoverWarning(failed: seq<string>): string {
    "Renaming went well, but these leftover files coulnd't be deleted:\n" + Join(failed, "\n")
  }

  /** The comparator that puts longer paths first. */
  function LongerFirst(a: string, b: string): int {
    if |a| < |b| then 1 else if |a| > |b| then -1 else 0
  }

  lemma LongerFirstIsPreorder()
    ensures Sorting.TotalPreorder(LongerFirst)
  {
  }

  /** The directories in the order they are tried: longest path first,
      equally long ones in their first-added order. */
  function LongestFirst(dirs: seq<string>): (r: seq<string>)
    ensures multiset(r) == multiset(dirs)
    ensures forall i, j :: 0 <= i < j < |r| ==> |r[i]| >= |r[j]|
  {
    LongerFirstIsPreorder();
    Sorting.SortSorted(dirs, LongerFirst);
    var r := Sorting.Sort(dirs, LongerFirst);
    assert forall i, j :: 0 <= i < j < |r| ==> LongerFirst(r[i], r[j]) <= 0;
    r
  }

  /** Trying to remove the emptied source directories and the common
      directory, longest path first so that a subdirectory goes before its
      parent; `rmdir` fails on a directory that is not empty, and failures
      are ignored. No file is touched. */
  method RemoveEmptyDirs(fs: FileSystem, dirs: seq<string>, commondir: string) returns (order: seq<string>)
    modifies fs
    ensures order == LongestFirst(if commondir in dirs then dirs else dirs + [commondir])
    ensures old(fs.journal) <= fs.journal
    ensures Rmdirs(fs.journal[|old(fs.journal)|..], order)
    ensures forall p :: p in fs.nodes ==> p in old(fs.nodes) && fs.nodes[p] == old(fs.nodes)[p]
    ensures forall p :: p in old(fs.nodes) && p !in fs.nodes ==> old(fs.nodes)[p].Dir? && p in order
  {
    var all := if commondir in dirs then dirs else dirs + [commondir];
    order := LongestFirst(all);
    ghost var calls: seq<Call> := [];
    for k := 0 to |order|
      invariant fs.journal == old(fs.journal) + calls
      invariant Rmdirs(calls, order[..k])
      invariant forall p :: p in fs.nodes ==> p in old(fs.nodes) && fs.nodes[p] == old(fs.nodes)[p]
      invariant forall p :: p in old(fs.nodes) && p !in fs.nodes ==> old(fs.nodes)[p].Dir? && p in order[..k]
    {
      var removed := fs.Rmdir(order[k]);
      calls := calls + [RmdirCall(order[k], removed)];
      assert order[..k + 1] == order[..k] + [order[k]];
    }
    assert fs.journal[|old(fs.journal)|..] == calls;
    assert order[..|order|] == order;
  }

  /** `calls` are one `rmdir` call per path of `paths`, in order. */
  ghost predicate Rmdirs(calls: seq<Call>, paths: seq<string>) {
    |calls| == |paths| && forall k :: 0 <= k < |paths| ==> calls[k].RmdirCall? && calls[k].path == paths[k]
  }

  /** The new paths of the files that have one, in batch order. */
  function RenamedPaths(targets: seq<Option<string>>): (r: seq<string>)
    ensures forall p :: p in r <==> Some(p) in targets
  {
    if targets == [] then []
    else
      var last := targets[|targets| - 1];
      var rest := RenamedPaths(targets[..|targets| - 1]);
      assert forall t :: t in targets <==> t in targets[..|targets| - 1] || t == last;
      rest + (if last.Some? then [last.value] else [])
  }

  /** `output.file(newPath!)` for every file, as the code does it: a file
      that was skipped has no `newPath`, and `undefined` goes out for it. */
  method EmitAsWritten(targets: seq<Option<string>>) returns (outputs: seq<Output>)
    ensures |outputs| == |targets|
    ensures forall k :: 0 <= k < |targets| ==> outputs[k] == FileOutput(targets[k])
    ensures None in targets ==> FileOutput(None) in outputs
  {
    outputs := [];
    for k := 0 to |targets|
      invariant |outputs| == k
      invariant forall j :: 0 <= j < k ==> outputs[j] == FileOutput(targets[j])
    {
      outputs := outputs + [FileOutput(targets[k])];
    }
    if None in targets {
      var k :| 0 <= k < |targets| && targets[k] == None;
      assert outputs[k] == FileOutput(None);
    }
  }

  /** Emitting the new path of every renamed file, in batch order, and
      nothing for a file that was skipped. */
  method EmitRenamed(targets: seq<Option<string>>) returns (outputs: seq<Output>)
    ensures |outputs| == |RenamedPaths(targets)|
    ensures forall k :: 0 <= k < |outputs| ==> outputs[k] == FileOutput(Some(RenamedPaths(targets)[k]))
  {
    outputs := [];
    for k := 0 to |targets|
      invariant |outputs| == |RenamedPaths(targets[..k])|
      invariant forall j :: 0 <= j < |outputs| ==> outputs[j] == FileOutput(Some(RenamedPaths(targets[..k])[j]))
    {
      assert targets[..k + 1][..k] == targets[..k];
      if targets[k].Some? {
        outputs := outputs + [FileOutput(Some(targets[k].value))];
      }
    }
    assert targets[..|targets|] == targets;
  }

  /** Every emitted output names a path, and exactly the renamed files' new paths are emitted. */
  lemma EmitRenamedPaths(targets: seq<Option<string>>, outputs: seq<Output>)
    requires |outputs| == |RenamedPaths(targets)|
    requires forall k :: 0 <= k < |outputs| ==> outputs[k] == FileOutput(Some(RenamedPaths(targets)[k]))
    ensures forall p :: FileOutput(Some(p)) in outputs <==> Some(p) in targets
    ensures FileOutput(None) !in outputs
  {
    forall p ensures FileOutput(Some(p)) in outputs <==> p in RenamedPaths(targets) {
      if p in RenamedPaths(targets) {
        var k :| 0 <= k < |outputs| && RenamedPaths(targets)[k] == p;
        assert outputs[k] == FileOutput(Some(p));
      }
    }
  }

  // ---------------------------------------------------------------------
  // The whole run

  /** Everything before the filesystem is changed: stating the inputs,
      sorting, the common variables and `commondir`, the populate loop and
      the template loop. It reads the filesystem as `disk` and changes
      nothing. `Ended` carries what to report and how the run's promise
      settles when the run ends here. */
  datatype Prepared =
    | Ended(outputs: seq<Output>, rejection: Option<Rejection>)
    | ToRename(files: seq<FileRecord>, commondir: string, targets: seq<Option<string>>, existing: set<string>)

  /** The populate loop keeps every file's path. */
  lemma PopulatedPaths(files: seq<FileRecord>, ready: seq<FileRecord>, extractMeta: bool, hashes: seq<Hash>,
                       policy: MissingMetaPolicy, env: Env)
    requires |ready| == |files|
    requires forall k :: 0 <= k < |files| ==> RunPopulated(files[k], ready[k], extractMeta, hashes, policy, env)
    ensures Rename.PathsOf(ready) == Rename.PathsOf(files)
  {
    forall k | 0 <= k < |files| ensures ready[k].path == files[k].path {
      assert RunPopulated(files[k], ready[k], extractMeta, hashes, policy, env);
    }
  }

  /** How the run ends when the populate loop stops it: a directory or an
      aborted metadata read is reported and the run resolves; a checksum
      error rejects the run. */
  function StopOf(populate: Populate): (r: Option<Prepared>)
    ensures r.Some? <==> !populate.Ready?
    ensures r.Some? ==> r.value.Ended? && forall k :: 0 <= k < |r.value.outputs| ==> r.value.outputs[k].ErrorOutput?
  {
    match populate
    case Ready(_) => None
    case Halted(message) => Some(Ended([ErrorOutput(message)], None))
    case Threw(error) => Some(Ended([], Some(Propagated(error))))
  }

  /** The template loop's input for the populated batch. */
  function PlanFor(files: seq<FileRecord>, commondir: string, options: Options, env: Env, disk: Nodes, now: int): (r: PlanInput)
    ensures r.WellFormed() && |r.paths| == |files|
  {
    var template := NormalizeTemplate(options.template);
    var platform := PlatformVariables(template, env.platformNames, env.platformPath);
    PlanInputOf(files, template, CommonVariables(now, files, platform, Some(commondir)), options, env, disk)
  }

  /** How the run goes on after the template loop: it stops with the
      loop's message, or hands over each file's destination. */
  function Settled(plan: Result<PlanState, string>, files: seq<FileRecord>, commondir: string): Prepared {
    match plan
    case Failure(message) => Ended([ErrorOutput(message)], None)
    case Success(st) => ToRename(files, commondir, st.targets, st.existing)
  }

  /** What the stages before the template loop compute, stated on their
      intermediate values: the batch as staged, `commondir`, and how the
      populate loop ended. */
  ghost predicate GatheredBy(inputs: seq<string>, template: string, options: Options, env: Env, disk: Nodes,
                             staged: seq<FileRecord>, populate: Populate, commondir: string) {
    var extractMeta, hashes, policy := MentionsMeta(template), HashesToSum(template), options.onMissingMeta;
    && (AllStated(inputs, disk) ==> staged == Staged(inputs, options.sorting, env, disk))
    && (AllStated(inputs, disk) && inputs != [] ==>
          && commondir == FoldRoot(staged[0].dirname, Rename.PathsOf(staged)[1..], env.paths.sep)
          && (populate.Ready? <==> PassesUpTo(staged, |staged|, extractMeta, hashes, policy, env))
          && (populate.Ready? ==>
                && |populate.files| == |staged|
                && forall k :: 0 <= k < |staged| ==> RunPopulated(staged[k], populate.files[k], extractMeta, hashes, policy, env))
          && (!populate.Ready? ==>
                exists k :: 0 <= k < |staged| && PassesUpTo(staged, k, extractMeta, hashes, policy, env)
                            && StopsWith(staged[k], populate, extractMeta, hashes, policy, env)))
  }

  /** What `Prepare` computes: the stages before the template loop, then the
      run ends as the populate loop stopped it, or as the template loop
      settles over the populated files. */
  ghost predicate PreparedBy(inputs: seq<string>, options: Options, env: Env, disk: Nodes, now: int, r: Prepared,
                             staged: seq<FileRecord>, populate: Populate, commondir: string) {
    && GatheredBy(inputs, NormalizeTemplate(options.template), options, env, disk, staged, populate, commondir)
    && (AllStated(inputs, disk) && inputs != [] ==>
          && (populate.Ready? ==>
                r == Settled(PlanUpTo(PlanFor(populate.files, commondir, options, env, disk, now), |populate.files|),
                             populate.files, commondir))
          && (!populate.Ready? ==> StopOf(populate) == Some(r)))
  }

  /** The first stages of a run: stating the inputs, sorting, `commondir`
      and the indices. A missing input or an empty batch rejects the run. */
  method StageRun(inputs: seq<string>, options: Options, env: Env, disk: Nodes)
    returns (rejection: Option<Rejection>, files: seq<FileRecord>, commondir: string)
    ensures !AllStated(inputs, disk) ==> rejection.Some?
    ensures AllStated(inputs, disk) && inputs == [] ==> rejection == Some(Raised(NoFirstFileMessage))
    ensures AllStated(inputs, disk) && inputs != [] ==>
      && rejection.None? && files == Staged(inputs, options.sorting, env, disk)
      && commondir == FoldRoot(files[0].dirname, Rename.PathsOf(files)[1..], env.paths.sep)
    ensures rejection.None? ==> multiset(Rename.PathsOf(files)) == multiset(inputs)
  {
    files, commondir := [], "";
    var collected := CollectFiles(inputs, disk, env.paths);
    if collected.Failure? {
      return Some(Raised(collected.error)), files, commondir;
    }
    assert Rename.PathsOf(collected.value) == inputs;
    files := SortFiles(collected.value, options.sorting, env);
    Rename.PathsPermute(collected.value, files);
    var dir := CommonDirOf(files, env.paths.sep);
    if dir.Failure? {
      return Some(dir.error), files, commondir;
    }
    commondir := dir.value;
    ghost var sorted := files;
    files := AssignIndices(files);
    assert Rename.PathsOf(files) == Rename.PathsOf(sorted);
    assert files[0].dirname == sorted[0].dirname;
    rejection := None;
  }

  /** The stages before the template loop: `StageRun`, then the populate
      loop. It either ends the run or hands over the populated files, whose
      paths are the inputs in the chosen order. */
  method Gather(inputs: seq<string>, template: string, options: Options, env: Env, disk: Nodes)
    returns (stop: Option<Prepared>, files: seq<FileRecord>, commondir: string,
             ghost staged: seq<FileRecord>, ghost populate: Populate)
    ensures (exists k :: 0 <= k < |inputs| && inputs[k] !in disk) ==>
      stop.Some? && stop.value.Ended? && stop.value.outputs == [] && stop.value.rejection.Some?
    ensures AllStated(inputs, disk) && inputs == [] ==> stop == Some(Ended([], Some(Raised(NoFirstFileMessage))))
    ensures stop.Some? ==> stop.value.Ended?
    ensures stop.Some? ==> (stop.value.rejection.None? <==> |stop.value.outputs| == 1 && stop.value.outputs[0].ErrorOutput?)
    ensures stop.Some? && stop.value.rejection.Some? ==> stop.value.outputs == []
    ensures stop.Some? ==> forall k :: 0 <= k < |stop.value.outputs| ==> stop.value.outputs[k].ErrorOutput?
    ensures stop.None? ==> multiset(Rename.PathsOf(files)) == multiset(inputs)
    ensures GatheredBy(inputs, template, options, env, disk, staged, populate, commondir)
    ensures AllStated(inputs, disk) && inputs != [] ==> stop == StopOf(populate)
    ensures AllStated(inputs, disk) && inputs != [] && populate.Ready? ==> files == populate.files
  {
    var rejection;
    rejection, files, commondir := StageRun(inputs, options, env, disk);
    staged, populate := files, Halted("");
    if AllStated(inputs, disk) {
      staged := Staged(inputs, options.sorting, env, disk);
    }
    if rejection.Some? {
      return Some(Ended([], rejection)), files, commondir, staged, populate;
    }
    var populated := PopulateRun(files, MentionsMeta(template), HashesToSum(template), options.onMissingMeta, env);
    populate := populated;
    stop := StopOf(populated);
    if populated.Ready? {
      PopulatedPaths(files, populated.files, MentionsMeta(template), HashesToSum(template), options.onMissingMeta, env);
      files := populated.files;
    }
  }

  /** Everything before the filesystem is changed, ending with the template
      loop's plan. */
  method Prepare(inputs: seq<string>, options: Options, env: Env, disk: Nodes, now: int)
    returns (r: Prepared, ghost staged: seq<FileRecord>, ghost populate: Populate, ghost commondir: string)
    ensures (exists k :: 0 <= k < |inputs| && inputs[k] !in disk) ==> r.Ended? && r.outputs == [] && r.rejection.Some?
    ensures AllStated(inputs, disk) && inputs == [] ==> r == Ended([], Some(Raised(NoFirstFileMessage)))
    ensures PreparedBy(inputs, options, env, disk, now, r, staged, populate, commondir)
    ensures r.Ended? ==> (r.rejection.None? <==> |r.outputs| == 1 && r.outputs[0].ErrorOutput?)
    ensures r.Ended? && r.rejection.Some? ==> r.outputs == []
    ensures r.Ended? ==> forall k :: 0 <= k < |r.outputs| ==> r.outputs[k].ErrorOutput?
    ensures r.ToRename? ==> |r.targets| == |r.files| && multiset(Rename.PathsOf(r.files)) == multiset(inputs)
    ensures r.ToRename? ==> forall i, j :: 0 <= i < j < |r.targets| && r.targets[i].Some? ==> r.targets[i] != r.targets[j]
    ensures r.ToRename? ==> forall p :: p in r.existing ==> p in disk && Some(p) in r.targets && p !in inputs
  {
    var template := NormalizeTemplate(options.template);
    var stop, files, dir;
    stop, files, dir, staged, populate := Gather(inputs, template, options, env, disk);
    commondir := dir;
    if stop.Some? {
      r := stop.value;
    } else {
      r := PlanStage(files, dir, options, env, disk, now, inputs);
    }
    PreparedFrom(inputs, options, env, disk, now, r, staged, populate, commondir, stop, files);
  }

  /** Closing step of `Prepare`: the run ends where the gathering stopped,
      or where the template loop settled over the populated files. */
  lemma PreparedFrom(inputs: seq<string>, options: Options, env: Env, disk: Nodes, now: int, r: Prepared,
                     staged: seq<FileRecord>, populate: Populate, commondir: string,
                     stop: Option<Prepared>, files: seq<FileRecord>)
    requires GatheredBy(inputs, NormalizeTemplate(options.template), options, env, disk, staged, populate, commondir)
    requires AllStated(inputs, disk) && inputs != [] ==> stop == StopOf(populate)
    requires AllStated(inputs, disk) && inputs != [] && populate.Ready? ==> files == populate.files
    requires stop.Some? ==> r == stop.value
    requires stop.None? ==> r == Settled(PlanUpTo(PlanFor(files, commondir, options, env, disk, now), |files|), files, commondir)
    ensures PreparedBy(inputs, options, env, disk, now, r, staged, populate, commondir)
  {
  }

  /** The template loop over the populated batch and what the renaming
      takes from it. */
  method PlanStage(files: seq<FileRecord>, commondir: string, options: Options, env: Env, disk: Nodes, now: int,
                   ghost inputs: seq<string>)
    returns (r: Prepared)
    requires multiset(Rename.PathsOf(files)) == multiset(inputs)
    ensures r == Settled(PlanUpTo(PlanFor(files, commondir, options, env, disk, now), |files|), files, commondir)
    ensures r.Ended? ==> r.rejection.None? && |r.outputs| == 1 && r.outputs[0].ErrorOutput?
    ensures r.ToRename? ==> r.files == files && r.commondir == commondir && |r.targets| == |files|
    ensures r.ToRename? ==> forall i, j :: 0 <= i < j < |r.targets| && r.targets[i].Some? ==> r.targets[i] != r.targets[j]
    ensures r.ToRename? ==> forall p :: p in r.existing ==> p in disk && Some(p) in r.targets && p !in inputs
  {
    var template := NormalizeTemplate(options.template);
    var platform := PlatformVariables(template, env.platformNames, env.platformPath);
    var common := CommonVariables(now, files, platform, Some(commondir));
    var plan := PlanRun(files, template, common, options, env, disk);
    assert PlanInputOf(files, template, common, options, env, disk) == PlanFor(files, commondir, options, env, disk, now);
    if plan.Stopped? {
      return Ended([ErrorOutput(plan.message)], None);
    }
    PlannedFacts(PlanInputOf(files, template, common, options, env, disk));
    r := ToRename(files, commondir, plan.targets, plan.existing);
    forall p | p in r.existing ensures p !in inputs {
      assert p !in multiset(Rename.PathsOf(files));
    }
  }

  /** The facts about a finished plan that the renaming relies on. */
  lemma PlannedFacts(input: PlanInput)
    requires input.WellFormed() && PlanUpTo(input, |input.paths|).Success?
    ensures var st := PlanUpTo(input, |input.paths|).value;
      && (forall i, j :: 0 <= i < j < |st.targets| && st.targets[i].Some? ==> st.targets[i] != st.targets[j])
      && (forall p :: p in st.existing ==> p in input.disk && Some(p) in st.targets && p !in input.paths)
  {
    var k := |input.paths|;
    var st := PlanUpTo(input, k).value;
    forall i, j | 0 <= i < j < |st.targets| && st.targets[i].Some? ensures st.targets[i] != st.targets[j] {
      PlanDistinct(input, k, i, j);
    }
    forall p | p in st.existing ensures p in input.disk && Some(p) in st.targets && p !in input.paths {
      PlanExisting(input, k, p);
      var j :| 0 <= j < k && st.targets[j] == Some(p) && !input.isSamePath(input.paths[j], p) && p in input.disk;
      PlanRecorded(input, k, j);
    }
  }

  /** A rejection propagating the error of a failed call: the last call
      made after `before` failed, and the rejection carries its code. */
  ghost predicate RejectedBy(rejection: Rejection, before: seq<Call>, after: seq<Call>) {
    && |before| < |after|
    && after[|after| - 1].outcome.Err?
    && rejection == Propagated(FsError(after[|after| - 1].outcome.code))
  }

  /** The `catch` of the renaming loop: report the error, then replay the
      log; a step that fails throws out of the run. When every logged step
      undoes its action exactly and the replay goes through, the filesystem
      is back to `original`. */
  method Recover(fs: FileSystem, error: Thrown, log: seq<RewindStep>, dirname: string -> string, now: int,
                 ghost original: Nodes, ghost exact: bool)
    returns (outputs: seq<Output>, rejection: Option<Rejection>)
    modifies fs
    requires exact ==> RestoresTo(fs.nodes, log, original, dirname, now)
    ensures old(fs.journal) <= fs.journal
    ensures outputs == [ErrorOutput(Eem(error, false))]
    ensures rejection.None? ==> Replay(old(fs.nodes), log, dirname, now) == Replayed(fs.nodes, |log|)
    ensures exact && rejection.None? ==> fs.nodes == original
    ensures rejection.Some? ==> RejectedBy(rejection.value, old(fs.journal), fs.journal)
  {
    outputs := [ErrorOutput(Eem(error, false))];
    var completed, failure := Rewind(fs, log, dirname, now);
    rejection := if failure.Some? then Some(Propagated(FsError(failure.value))) else None;
  }

  /** The warning `Finish` issues about the leftovers it could not delete:
      one, when any deletion failed. */
  function LeftoverReport(failed: seq<string>): seq<Output> {
    if failed != [] then [WarningOutput(LeftoverWarning(failed))] else []
  }

  /** What the corrected emit sends out: the new path of every renamed file, in batch order. */
  function Emitted(targets: seq<Option<string>>): (r: seq<Output>)
    ensures forall k :: 0 <= k < |r| ==> r[k].FileOutput? && r[k].path.Some?
    ensures forall p :: FileOutput(Some(p)) in r <==> Some(p) in targets
  {
    var renamed := RenamedPaths(targets);
    var r := seq(|renamed|, k requires 0 <= k < |renamed| => FileOutput(Some(renamed[k])));
    EmitRenamedPaths(targets, r);
    r
  }

  /** After a renaming loop that went through: delete the leftovers (their
      failures go out as one warning), try to remove the emptied
      directories, and emit the new paths when asked to. */
  method Finish(fs: FileSystem, moves: Moves, files: seq<FileRecord>, targets: seq<Option<string>>, commondir: string,
                emit: bool)
    returns (outputs: seq<Output>, failed: seq<string>)
    modifies fs
    requires |targets| == |files|
    ensures old(fs.journal) <= fs.journal
    ensures outputs == LeftoverReport(failed) + (if emit then Emitted(targets) else [])
    ensures forall p :: p in failed <==> exists e :: RemoveCall(p, Err(e)) in fs.journal[|old(fs.journal)|..]
    ensures forall p :: p in failed ==> p in moves.toDelete
    ensures forall p :: p in moves.toDelete && p !in failed ==> p !in fs.nodes
    ensures moves.toDelete == [] && moves.dirs == [] ==> fs.nodes == old(fs.nodes) && fs.journal == old(fs.journal)
    ensures forall k :: 0 <= k < |outputs| ==> !outputs[k].ErrorOutput?
    ensures forall k :: 0 <= k < |outputs| && outputs[k].FileOutput? ==> outputs[k].path.Some?
    ensures forall p :: FileOutput(Some(p)) in outputs ==> Some(p) in targets
    ensures emit ==> forall p :: Some(p) in targets ==> FileOutput(Some(p)) in outputs
  {
    var warnings;
    warnings, failed := Tidy(fs, moves, commondir);
    var emitted := [];
    if emit {
      emitted := EmitRenamed(targets);
      EmitRenamedPaths(targets, emitted);
      assert emitted == Emitted(targets);
    }
    outputs := warnings + emitted;
    ReportShape(failed, targets, emit);
  }

  /** The outputs `Finish` reports hold no error, and they name exactly the
      renamed destinations when emitting. */
  lemma ReportShape(failed: seq<string>, targets: seq<Option<string>>, emit: bool)
    ensures var outputs := LeftoverReport(failed) + (if emit then Emitted(targets) else []);
      && (forall k :: 0 <= k < |outputs| ==> !outputs[k].ErrorOutput?)
      && (forall k :: 0 <= k < |outputs| && outputs[k].FileOutput? ==> outputs[k].path.Some?)
      && (forall p :: FileOutput(Some(p)) in outputs ==> Some(p) in targets)
      && (emit ==> forall p :: Some(p) in targets ==> FileOutput(Some(p)) in outputs)
  {
    var report := LeftoverReport(failed);
    var emitted := if emit then Emitted(targets) else [];
    var outputs := report + emitted;
    forall k | 0 <= k < |outputs|
      ensures !outputs[k].ErrorOutput? && (outputs[k].FileOutput? ==> outputs[k].path.Some?)
    {
      if k < |report| {
        assert outputs[k] == report[k];
      } else {
        assert outputs[k] == emitted[k - |report|];
      }
    }
    forall p | FileOutput(Some(p)) in outputs ensures Some(p) in targets {
      assert FileOutput(Some(p)) !in report;
    }
  }

  /** The deletions and directory removals of `Finish`: every leftover gets
      one deletion, the ones that failed are reported in one warning, and the
      directories get their `rmdir`. Only removals happen. */
  method Tidy(fs: FileSystem, moves: Moves, commondir: string) returns (warnings: seq<Output>, failed: seq<string>)
    modifies fs
    ensures old(fs.journal) <= fs.journal
    ensures warnings == LeftoverReport(failed)
    ensures forall p :: p in failed <==> exists e :: RemoveCall(p, Err(e)) in fs.journal[|old(fs.journal)|..]
    ensures forall p :: p in failed ==> p in moves.toDelete
    ensures forall p :: p in moves.toDelete && p !in failed ==> p !in fs.nodes
    ensures forall p :: p in fs.nodes ==> p in old(fs.nodes) && fs.nodes[p] == old(fs.nodes)[p]
    ensures moves.toDelete == [] && moves.dirs == [] ==> fs.nodes == old(fs.nodes) && fs.journal == old(fs.journal)
  {
    failed := [];
    ghost var removals: seq<Call> := [];
    if moves.toDelete != [] {
      failed := Cleanup(fs, moves.toDelete);
      removals := fs.journal[|old(fs.journal)|..];
    }
    ghost var middle := fs.journal;
    ghost var rmdirs: seq<Call> := [];
    if moves.dirs != [] {
      var order := RemoveEmptyDirs(fs, moves.dirs, commondir);
      rmdirs := fs.journal[|middle|..];
    }
    FailuresReported(removals, rmdirs, failed, moves.toDelete);
    assert fs.journal[|old(fs.journal)|..] == removals + rmdirs;
    warnings := LeftoverReport(failed);
  }

  /** The failed deletions are exactly the failed `deletePath` calls, even
      with the `rmdir` calls that follow them, and each was a queued path. */
  lemma FailuresReported(removals: seq<Call>, rmdirs: seq<Call>, failed: seq<string>, toDelete: seq<string>)
    requires Removals(removals, toDelete) && failed == FailedRemovals(removals)
    requires forall k :: 0 <= k < |rmdirs| ==> rmdirs[k].RmdirCall?
    ensures forall p :: p in failed <==> exists e :: RemoveCall(p, Err(e)) in removals + rmdirs
    ensures forall p :: p in failed ==> p in toDelete
  {
    forall p ensures p in failed <==> exists e :: RemoveCall(p, Err(e)) in removals + rmdirs {
      FailedRemovalsMeaning(removals, p);
      if exists e :: RemoveCall(p, Err(e)) in removals + rmdirs {
        var e :| RemoveCall(p, Err(e)) in removals + rmdirs;
        assert RemoveCall(p, Err(e)) !in rmdirs;
      }
    }
    forall p | p in failed ensures p in toDelete {
      FailedRemovalsMeaning(removals, p);
      var e :| RemoveCall(p, Err(e)) in removals;
      var k :| 0 <= k < |removals| && removals[k] == RemoveCall(p, Err(e));
    }
  }

  /** What the run leaves after the loop that made `turns` from `start` and
      ended on `loopEnd`, followed by the calls `later`: `loopEnd` is where
      the loop's calls took `start`. After a throw that the rewind did not
      rethrow, the whole log was replayed from `loopEnd`. Without a throw,
      the outputs are the leftover report and the emitted paths, the failed
      deletions are exactly those among `later`, each was queued, and every
      other queued path is gone. */
  ghost predicate Aftermath(start: Nodes, turns: seq<Turn>, loopEnd: Nodes, thrown: Option<Thrown>, rejection: Option<Rejection>,
                            later: seq<Call>, failed: seq<string>, nodes: Nodes, outputs: seq<Output>,
                            targets: seq<Option<string>>, emit: bool, dirname: string -> string, now: int) {
    && Reached(start, CallsOf(turns), loopEnd, now)
    && (thrown.Some? && rejection.None? ==>
          Replay(loopEnd, UndoLog(CallsOf(turns)), dirname, now) == Replayed(nodes, |UndoLog(CallsOf(turns))|))
    && (thrown.None? ==>
          && loopEnd == AfterAll(start, CallsOf(turns), now)
          && outputs == LeftoverReport(failed) + (if emit then Emitted(targets) else [])
          && (forall p :: p in failed <==> exists e :: RemoveCall(p, Err(e)) in later)
          && (forall p :: p in failed ==> p in QueueOf(turns))
          && (forall p :: p in QueueOf(turns) && p !in failed ==> p !in nodes))
  }

  /** The direct run: prepare, rename, and then either recover from the
      loop's throw or finish. The ghost `exact` says every action of the
      renaming loop was exactly undoable. */
  method Process(fs: FileSystem, inputs: seq<string>, options: Options, env: Env, now: int)
    returns (outputs: seq<Output>, rejection: Option<Rejection>, ghost exact: bool,
             ghost prepared: Prepared, ghost staged: seq<FileRecord>, ghost populate: Populate, ghost commondir: string,
             ghost turns: seq<Turn>, ghost thrown: Option<Thrown>, ghost loopEnd: Nodes, ghost later: seq<Call>,
             ghost failed: seq<string>)
    modifies fs
    ensures PreparedBy(inputs, options, env, old(fs.nodes), now, prepared, staged, populate, commondir)
    ensures prepared.Ended? ==>
      outputs == prepared.outputs && rejection == prepared.rejection &&
      fs.nodes == old(fs.nodes) && fs.journal == old(fs.journal)
    ensures prepared.ToRename? ==> |prepared.targets| == |prepared.files|
    ensures prepared.ToRename? ==>
      && fs.journal == old(fs.journal) + CallsOf(turns) + later
      && Aftermath(old(fs.nodes), turns, loopEnd, thrown, rejection, later, failed, fs.nodes, outputs, prepared.targets,
                   options.emit, env.paths.dirname, now)
      && LoopRan(turns, if options.simulate then [] else PlannedPairs(prepared.files, prepared.targets, |prepared.files|),
                 prepared.existing, options.overwrite, env.paths.dirname, thrown)
      && exact == ExactRun(old(fs.nodes), CallsOf(turns), env.paths.dirname, now)
      && ParentsFit(turns, old(fs.nodes), options.overwrite, env.paths.dirname, now)
    ensures prepared.ToRename? && thrown.Some? ==>
      outputs == [ErrorOutput(Eem(thrown.value, false))] &&
      LoopFailure(thrown.value, CallsOf(turns), PlannedPairs(prepared.files, prepared.targets, |prepared.files|))
    ensures prepared.ToRename? && thrown.None? ==> forall k :: 0 <= k < |outputs| ==> !outputs[k].ErrorOutput?
    ensures prepared.ToRename? && rejection.Some? ==> thrown.Some? && RejectedBy(rejection.value, old(fs.journal), fs.journal)
    ensures prepared.ToRename? && (forall k :: 0 <= k < |outputs| ==> !outputs[k].ErrorOutput?) ==>
      && rejection.None?
      && (!options.simulate ==>
            forall j :: 0 <= j < |prepared.files| && prepared.targets[j].Some? ==>
              Moved(fs.journal, prepared.files[j].path, prepared.targets[j].value))
      && (options.emit ==> forall p :: Some(p) in prepared.targets ==> FileOutput(Some(p)) in outputs)
    ensures (exists k :: 0 <= k < |inputs| && inputs[k] !in old(fs.nodes)) ==>
      outputs == [] && rejection.Some? && fs.nodes == old(fs.nodes) && fs.journal == old(fs.journal)
    ensures options.simulate ==> fs.nodes == old(fs.nodes) && fs.journal == old(fs.journal)
    ensures exact && rejection.None? && (exists k :: 0 <= k < |outputs| && outputs[k].ErrorOutput?) ==> fs.nodes == old(fs.nodes)
    ensures forall k :: 0 <= k < |outputs| && outputs[k].FileOutput? ==> outputs[k].path.Some?
    ensures !options.simulate ==>
      forall p :: FileOutput(Some(p)) in outputs ==> exists from :: Moved(fs.journal, from, p)
  {
    var ready;
    ready, staged, populate, commondir := Prepare(inputs, options, env, fs.nodes, now);
    prepared := ready;
    if ready.Ended? {
      return ready.outputs, ready.rejection, true, prepared, staged, populate, commondir, [], None, fs.nodes, [], [];
    }
    outputs, rejection, exact, turns, thrown, loopEnd, later, failed := Execute(fs, ready.files, ready.targets, ready.existing, ready.commondir, options, env, now);
  }

  /** The part of the run that changes the filesystem: the renaming loop,
      then the recovery from its throw or the final clean-up. */
  method Execute(fs: FileSystem, files: seq<FileRecord>, targets: seq<Option<string>>, existing: set<string>,
                 commondir: string, options: Options, env: Env, now: int)
    returns (outputs: seq<Output>, rejection: Option<Rejection>, ghost exact: bool, ghost turns: seq<Turn>,
             ghost thrown: Option<Thrown>, ghost loopEnd: Nodes, ghost later: seq<Call>, ghost failed: seq<string>)
    modifies fs
    requires |targets| == |files|
    ensures fs.journal == old(fs.journal) + CallsOf(turns) + later
    ensures Aftermath(old(fs.nodes), turns, loopEnd, thrown, rejection, later, failed, fs.nodes, outputs, targets,
                      options.emit, env.paths.dirname, now)
    ensures LoopRan(turns, if options.simulate then [] else PlannedPairs(files, targets, |files|), existing,
                    options.overwrite, env.paths.dirname, thrown)
    ensures exact == ExactRun(old(fs.nodes), CallsOf(turns), env.paths.dirname, now)
    ensures ParentsFit(turns, old(fs.nodes), options.overwrite, env.paths.dirname, now)
    ensures thrown.Some? ==>
      outputs == [ErrorOutput(Eem(thrown.value, false))] &&
      LoopFailure(thrown.value, CallsOf(turns), PlannedPairs(files, targets, |files|))
    ensures thrown.None? ==> forall k :: 0 <= k < |outputs| ==> !outputs[k].ErrorOutput?
    ensures rejection.Some? ==> thrown.Some? && RejectedBy(rejection.value, old(fs.journal), fs.journal)
    ensures (forall k :: 0 <= k < |outputs| ==> !outputs[k].ErrorOutput?) ==>
      && rejection.None?
      && (!options.simulate ==>
            forall j :: 0 <= j < |files| && targets[j].Some? ==> Moved(fs.journal, files[j].path, targets[j].value))
      && (options.emit ==> forall p :: Some(p) in targets ==> FileOutput(Some(p)) in outputs)
    ensures options.simulate ==> fs.nodes == old(fs.nodes) && fs.journal == old(fs.journal)
    ensures exact && rejection.None? && (exists k :: 0 <= k < |outputs| && outputs[k].ErrorOutput?) ==> fs.nodes == old(fs.nodes)
    ensures forall k :: 0 <= k < |outputs| && outputs[k].FileOutput? ==> outputs[k].path.Some?
    ensures !options.simulate ==>
      forall p :: FileOutput(Some(p)) in outputs ==> exists from :: Moved(fs.journal, from, p)
  {
    var moves;
    moves, exact, turns := RenameAll(fs, files, targets, existing, options, env.paths, now);
    thrown := moves.error;
    loopEnd := fs.nodes;
    outputs, rejection, failed, later := Conclude(fs, moves, files, targets, commondir, options, env, now, old(fs.nodes), exact,
                                                  turns);
  }

  /** After the renaming loop: a throw is reported and the log rewound, and
      otherwise the run is finished. */
  method Conclude(fs: FileSystem, moves: Moves, files: seq<FileRecord>, targets: seq<Option<string>>, commondir: string,
                  options: Options, env: Env, now: int, ghost original: Nodes, ghost exact: bool, ghost turns: seq<Turn>)
    returns (outputs: seq<Output>, rejection: Option<Rejection>, ghost failed: seq<string>, ghost later: seq<Call>)
    modifies fs
    requires |targets| == |files|
    requires moves.log == UndoLog(CallsOf(turns)) && moves.toDelete == QueueOf(turns)
    requires Reached(original, CallsOf(turns), fs.nodes, now)
    requires moves.error.None? ==> fs.nodes == AfterAll(original, CallsOf(turns), now)
    requires exact ==> RestoresTo(fs.nodes, moves.log, original, env.paths.dirname, now)
    requires moves.error.None? && !options.simulate ==>
      forall j :: 0 <= j < |files| && targets[j].Some? ==> Moved(fs.journal, files[j].path, targets[j].value)
    requires options.simulate ==> moves == Moves([], [], [], None)
    ensures moves.error.Some? ==> outputs == [ErrorOutput(Eem(moves.error.value, false))]
    ensures moves.error.None? ==> forall k :: 0 <= k < |outputs| ==> !outputs[k].ErrorOutput?
    ensures rejection.Some? ==> moves.error.Some? && RejectedBy(rejection.value, old(fs.journal), fs.journal)
    ensures fs.journal == old(fs.journal) + later
    ensures Aftermath(original, turns, old(fs.nodes), moves.error, rejection, later, failed, fs.nodes, outputs, targets,
                      options.emit, env.paths.dirname, now)
    ensures (forall k :: 0 <= k < |outputs| ==> !outputs[k].ErrorOutput?) ==>
      && moves.error.None? && rejection.None?
      && (!options.simulate ==>
            forall j :: 0 <= j < |files| && targets[j].Some? ==> Moved(fs.journal, files[j].path, targets[j].value))
      && (options.emit ==> forall p :: Some(p) in targets ==> FileOutput(Some(p)) in outputs)
    ensures options.simulate ==> fs.nodes == old(fs.nodes) && fs.journal == old(fs.journal)
    ensures exact && rejection.None? && (exists k :: 0 <= k < |outputs| && outputs[k].ErrorOutput?) ==> fs.nodes == original
    ensures forall k :: 0 <= k < |outputs| && outputs[k].FileOutput? ==> outputs[k].path.Some?
    ensures !options.simulate ==>
      forall p :: FileOutput(Some(p)) in outputs ==> exists from :: Moved(fs.journal, from, p)
  {
    if moves.error.Some? {
      outputs, rejection := Recover(fs, moves.error.value, moves.log, env.paths.dirname, now, original, exact);
      assert outputs[0].ErrorOutput?;
      failed, later := [], fs.journal[|old(fs.journal)|..];
      ThrowSettled(original, turns, old(fs.nodes), moves.error, rejection, later, fs.nodes, outputs, targets, options.emit,
                   env.paths.dirname, now);
    } else {
      ghost var moved := fs.journal;
      outputs, failed := Finish(fs, moves, files, targets, commondir, options.emit);
      EmittedWereMoved(files, targets, moved, fs.journal, options.simulate);
      rejection := None;
      later := fs.journal[|old(fs.journal)|..];
      FinishSettled(original, turns, old(fs.nodes), later, failed, fs.nodes, outputs, targets, options.emit,
                    env.paths.dirname, now);
    }
  }

  /** A rewind that was not rethrown replayed the whole log: the run is settled as `Aftermath` says. */
  lemma ThrowSettled(start: Nodes, turns: seq<Turn>, loopEnd: Nodes, thrown: Option<Thrown>, rejection: Option<Rejection>,
                     later: seq<Call>, nodes: Nodes, outputs: seq<Output>, targets: seq<Option<string>>, emit: bool,
                     dirname: string -> string, now: int)
    requires thrown.Some? && Reached(start, CallsOf(turns), loopEnd, now)
    requires rejection.None? ==>
      Replay(loopEnd, UndoLog(CallsOf(turns)), dirname, now) == Replayed(nodes, |UndoLog(CallsOf(turns))|)
    ensures Aftermath(start, turns, loopEnd, thrown, rejection, later, [], nodes, outputs, targets, emit, dirname, now)
  {
  }

  /** A clean-up after a loop that went through: the run is settled as `Aftermath` says. */
  lemma FinishSettled(start: Nodes, turns: seq<Turn>, loopEnd: Nodes, later: seq<Call>, failed: seq<string>, nodes: Nodes,
                      outputs: seq<Output>, targets: seq<Option<string>>, emit: bool, dirname: string -> string, now: int)
    requires loopEnd == AfterAll(start, CallsOf(turns), now)
    requires outputs == LeftoverReport(failed) + (if emit then Emitted(targets) else [])
    requires forall p :: p in failed <==> exists e :: RemoveCall(p, Err(e)) in later
    requires forall p :: p in failed ==> p in QueueOf(turns)
    requires forall p :: p in QueueOf(turns) && p !in failed ==> p !in nodes
    ensures Aftermath(start, turns, loopEnd, None, None, later, failed, nodes, outputs, targets, emit, dirname, now)
  {
  }

  /** The moves recorded before the clean-up stay recorded after it, so
      every emitted destination was the target of a successful move. */
  lemma EmittedWereMoved(files: seq<FileRecord>, targets: seq<Option<string>>, journal: seq<Call>, later: seq<Call>, simulate: bool)
    requires |targets| == |files| && journal <= later
    requires !simulate ==> forall j :: 0 <= j < |files| && targets[j].Some? ==> Moved(journal, files[j].path, targets[j].value)
    ensures !simulate ==> forall j :: 0 <= j < |files| && targets[j].Some? ==> Moved(later, files[j].path, targets[j].value)
    ensures !simulate ==> forall p :: Some(p) in targets ==> exists from :: Moved(later, from, p)
  {
    if !simulate {
      MovedUpToKept(journal, later, files, targets, |files|);
      forall p | Some(p) in targets ensures exists from :: Moved(later, from, p) {
        var j :| 0 <= j < |targets| && targets[j] == Some(p);
        MovedKept(journal, later, files[j].path, p);
      }
    }
  }
}
