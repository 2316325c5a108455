/** `createRenameTable` of `src/lib/rename.ts`: the planner behind the
    preview. It states and sorts the inputs, gives each its batch index,
    fetches metadata and checksums, runs the template for every file and
    classifies the resulting item (missing metadata, a clash inside the batch,
    a destination that already exists). Nothing on disk changes. */
module Rename {
  import opened Wrappers
  import opened Strings
  import opened Utils
  import opened Filesystem
  import opened Batch

  datatype Variant = Warning | Danger

  datatype Message = Message(variant: Variant, text: string)

  /** One row of the preview. `outputPath` is `None` only while the item is being built. */
  datatype RenameItem = RenameItem(
    inputPath: string,
    outputPath: Option<string>,
    skip: bool,
    message: Option<Message>,
    meta: Option<Value>)

  /** The plan. `warnings` and `errors` hold the same item objects as `items`
      in the code, so here they are positions in `items`: an item warned about
      and later found in a clash sits in `warnings` with a `danger` message,
      and an item can be in `errors` twice. */
  datatype RenameTable = RenameTable(
    items: seq<RenameItem>,
    warnings: seq<nat>,
    errors: seq<nat>,
    commonInputDir: Option<string>,
    commonOutputDir: Option<string>,
    commonDir: Option<string>,
    existingPaths: seq<string>)

  // ---------------------------------------------------------------------
  // Messages

  function MissingMessage(missing: seq<string>): string {
    "Missing meta: " + Join(missing, ", ")
  }

  function ConflictMessage(path: string, ownerPath: string, newPath: string): string {
    "Template would cause these paths:\n\n\"" + path + "\"\n\"" + ownerPath
      + "\"\n\nto be renamed to a same path:\n\n\"" + newPath + "\""
  }

  function ExistsMessage(path: string, newPath: string): string {
    "Path:\n\n\"" + path + "\"\n\nwould be renamed to:\n\n\"" + newPath + "\"\n\nbut this path already exists."
  }

  const DirectoryMetaMessage: string :=
    "Your template requests metadata, but you've dropped a directory into the profile without expand directories option enabled, and directories don't have meta data."

  function MetaFailureMessage(path: string, reason: string): string {
    "Meta couldn't be retrieved for file \"" + path + "\": " + reason
  }

  // ---------------------------------------------------------------------
  // Populating the files: metadata and checksums

  /** The metadata step of one file: the probed metadata, or the message of
      the error it catches (a directory is refused before probing). */
  function MetaProbe(file: FileRecord, env: Env): (r: Result<Value, string>)
    ensures !file.isfile ==> r == Failure(DirectoryMetaMessage)
    ensures file.isfile && env.probe(file.path).Success? ==> r == Success(env.probe(file.path).value)
    ensures file.isfile && env.probe(file.path).Failure? ==> r == Failure(Eem(env.probe(file.path).error, false))
  {
    if !file.isfile then Failure(DirectoryMetaMessage)
    else match env.probe(file.path)
      case Success(v) => Success(v)
      case Failure(e) => Failure(Eem(e, false))
  }

  /** The metadata a file's task stores when the template reads metadata:
      the probed metadata, or `{}` when it could not be retrieved. */
  function Fetched(file: FileRecord, env: Env): Value {
    match MetaProbe(file, env)
    case Success(v) => v
    case Failure(_) => Obj(map[])
  }

  predicate WantsChecksums(file: FileRecord, hashes: seq<Hash>) {
    file.isfile && hashes != []
  }

  /** A file's task ends without throwing. */
  predicate TaskSucceeds(file: FileRecord, extractMeta: bool, hashes: seq<Hash>, policy: MissingMetaPolicy, env: Env) {
    && !(extractMeta && policy == Abort && MetaProbe(file, env).Failure?)
    && (WantsChecksums(file, hashes) ==> forall h :: h in hashes ==> env.checksum(file.path, h).Success?)
  }

  /** A file's task throws `e`: the metadata error under `abort`, otherwise
      the error of one of its checksums. */
  predicate TaskFailsWith(file: FileRecord, e: Rejection, extractMeta: bool, hashes: seq<Hash>, policy: MissingMetaPolicy, env: Env) {
    if extractMeta && policy == Abort && MetaProbe(file, env).Failure? then
      e == Raised(MetaFailureMessage(file.path, MetaProbe(file, env).error))
    else
      && WantsChecksums(file, hashes) && e.Propagated?
      && exists h :: h in hashes && env.checksum(file.path, h) == Failure(e.error)
  }

  /** The file after a task that succeeded. */
  ghost predicate Populated(before: FileRecord, after: FileRecord, extractMeta: bool, hashes: seq<Hash>, env: Env) {
    && after == before.(rawMeta := after.rawMeta, meta := after.meta, checksums := after.checksums)
    && (if extractMeta then after.rawMeta == after.meta == Some(Fetched(before, env))
        else after.rawMeta == before.rawMeta && after.meta == before.meta)
    && (if WantsChecksums(before, hashes) then
          && after.checksums.Keys == SumNames(hashes)
          && forall h :: h in hashes ==>
               env.checksum(before.path, h).Success? && SumsHold(after.checksums, h, env.checksum(before.path, h).value)
        else after.checksums == before.checksums)
  }

  /** One file's task: metadata when the template reads it, then checksums. */
  method PopulateFile(file: FileRecord, extractMeta: bool, hashes: seq<Hash>, policy: MissingMetaPolicy, env: Env)
    returns (r: Result<FileRecord, Rejection>)
    ensures r.Success? <==> TaskSucceeds(file, extractMeta, hashes, policy, env)
    ensures r.Success? ==> Populated(file, r.value, extractMeta, hashes, env)
    ensures r.Failure? ==> TaskFailsWith(file, r.error, extractMeta, hashes, policy, env)
  {
    var f := file;
    if extractMeta {
      var meta: Value := Obj(map[]);
      var probed := MetaProbe(file, env);
      if probed.Failure? {
        if policy == Abort {
          return Failure(Raised(MetaFailureMessage(file.path, probed.error)));
        }
      } else {
        meta := probed.value;
      }
      f := f.(rawMeta := Some(meta), meta := Some(meta));
    }
    if WantsChecksums(file, hashes) {
      var sums := ComputeChecksums(file.path, hashes, env);
      ChecksumsMeaning(file.path, hashes, env);
      if sums.Failure? {
        return Failure(Propagated(sums.error));
      }
      f := f.(checksums := sums.value);
    }
    r := Success(f);
  }

  /** The jobs of the first `k` files all succeed. */
  predicate PrefixSucceeds(files: seq<FileRecord>, k: nat, extractMeta: bool, hashes: seq<Hash>, policy: MissingMetaPolicy, env: Env)
    requires k <= |files|
  {
    forall j :: 0 <= j < k ==> TaskSucceeds(files[j], extractMeta, hashes, policy, env)
  }

  /** File `k`'s job is the first to throw, and it throws `e`. */
  predicate FirstFailure(files: seq<FileRecord>, k: int, e: Rejection, extractMeta: bool, hashes: seq<Hash>, policy: MissingMetaPolicy, env: Env) {
    && 0 <= k < |files|
    && PrefixSucceeds(files, k, extractMeta, hashes, policy, env)
    && TaskFailsWith(files[k], e, extractMeta, hashes, policy, env)
  }

  /** The job queue, run one job after another; the first job that throws
      rejects the whole call. */
  method PopulateFiles(files: seq<FileRecord>, extractMeta: bool, hashes: seq<Hash>, policy: MissingMetaPolicy, env: Env)
    returns (r: Result<seq<FileRecord>, Rejection>)
    ensures r.Success? <==> PrefixSucceeds(files, |files|, extractMeta, hashes, policy, env)
    ensures r.Success? ==> |r.value| == |files|
    ensures r.Success? ==> forall k :: 0 <= k < |files| ==> Populated(files[k], r.value[k], extractMeta, hashes, env)
    ensures r.Failure? ==> exists k :: FirstFailure(files, k, r.error, extractMeta, hashes, policy, env)
  {
    var done: seq<FileRecord> := [];
    for k := 0 to |files|
      invariant |done| == k
      invariant PrefixSucceeds(files, k, extractMeta, hashes, policy, env)
      invariant forall j :: 0 <= j < k ==> Populated(files[j], done[j], extractMeta, hashes, env)
    {
      var one := PopulateFile(files[k], extractMeta, hashes, policy, env);
      if one.Failure? {
        assert FirstFailure(files, k, one.error, extractMeta, hashes, policy, env);
        return Failure(one.error);
      }
      ghost var before := done;
      done := done + [one.value];
      forall j | 0 <= j < k + 1 ensures Populated(files[j], done[j], extractMeta, hashes, env) {
        if j < k { assert done[j] == before[j]; }
      }
    }
    r := Success(done);
  }

  // ---------------------------------------------------------------------
  // What the template gives each file

  /** The outcome of one file's template: its path, its metadata, the path it
      would be renamed to and the properties of `meta` it found missing, in
      the order it read them. */
  datatype Derived = Derived(path: string, meta: Option<Value>, newPath: string, missing: seq<string>)

  /** `expandTemplateLiteral(template, variables).trim()`, resolved against
      the file's directory and sanitised; the missing reads are those the
      proxy reports, and only a file with metadata has the proxy. */
  function Derive(file: FileRecord, template: string, common: CommonVariables, options: Options, env: Env): (r: Result<Derived, Thrown>)
    ensures r.Success? <==> env.expand(template, Variables(common, file)).Success?
    ensures r.Failure? ==> r.error == env.expand(template, Variables(common, file)).error
    ensures r.Success? ==> r.value.path == file.path && r.value.meta == file.rawMeta
    ensures r.Success? ==> |r.value.missing| <= |env.expand(template, Variables(common, file)).value.metaReads|
    ensures r.Success? && file.meta.None? ==> r.value.missing == []
  {
    match env.expand(template, Variables(common, file))
    case Failure(e) => Failure(e)
    case Success(x) => Success(Outcome(file, x, options, env))
  }

  /** The outcome of a template that gave `x`. */
  function Outcome(file: FileRecord, x: Expansion, options: Options, env: Env): (d: Derived)
    ensures d.path == file.path && d.meta == file.rawMeta
    ensures |d.missing| <= |x.metaReads|
    ensures file.meta.None? ==> d.missing == []
  {
    var missing := if file.meta.Some? then MissingProps(file.meta.value, x.metaReads) else [];
    var newPath := env.sanitizePath(env.paths.resolve(file.dirname, Trim(x.text)), options.replacement, options.maxLength);
    Derived(file.path, file.rawMeta, newPath, missing)
  }

  /** The templates of the first `k` files, in order; the first one that
      throws is what the loop reports. */
  function DeriveAll(files: seq<FileRecord>, k: nat, template: string, common: CommonVariables, options: Options, env: Env)
    : (r: Result<seq<Derived>, Thrown>)
    requires k <= |files|
    ensures r.Success? ==> |r.value| == k
  {
    if k == 0 then Success([])
    else match DeriveAll(files, k - 1, template, common, options, env)
      case Failure(e) => Failure(e)
      case Success(ds) =>
        match Derive(files[k - 1], template, common, options, env)
        case Failure(e) => Failure(e)
        case Success(d) => Success(ds + [d])
  }

  /** The batch's templates all succeed exactly when each file's does, and
      then item `j` is file `j`'s outcome; otherwise the error is that of the
      first file whose template throws. */
  lemma {:induction false} DeriveAllMeaning(files: seq<FileRecord>, k: nat, template: string, common: CommonVariables, options: Options, env: Env)
    requires k <= |files|
    ensures var r := DeriveAll(files, k, template, common, options, env);
      r.Success? <==> forall j :: 0 <= j < k ==> Derive(files[j], template, common, options, env).Success?
    ensures var r := DeriveAll(files, k, template, common, options, env);
      r.Success? ==> forall j :: 0 <= j < k ==> Derive(files[j], template, common, options, env) == Success(r.value[j])
    ensures var r := DeriveAll(files, k, template, common, options, env);
      r.Failure? ==> exists j :: (
        && 0 <= j < k
        && (forall i :: 0 <= i < j ==> Derive(files[i], template, common, options, env).Success?)
        && Derive(files[j], template, common, options, env) == Failure(r.error))
  {
    if k > 0 {
      DeriveAllMeaning(files, k - 1, template, common, options, env);
      var prev := DeriveAll(files, k - 1, template, common, options, env);
      var last := Derive(files[k - 1], template, common, options, env);
      var r := DeriveAll(files, k, template, common, options, env);
      if prev.Success? && last.Success? {
        assert r.value == prev.value + [last.value];
        forall j | 0 <= j < k ensures Derive(files[j], template, common, options, env) == Success(r.value[j]) {
          if j < k - 1 {
            assert r.value[j] == prev.value[j];
          }
        }
      }
    }
  }

  /** One more file: its template's error, or its outcome appended. */
  lemma DeriveAllNext(files: seq<FileRecord>, i: nat, template: string, common: CommonVariables, options: Options, env: Env)
    requires i < |files| && DeriveAll(files, i, template, common, options, env).Success?
    ensures var x := env.expand(template, Variables(common, files[i]));
      DeriveAll(files, i + 1, template, common, options, env)
        == if x.Failure? then Failure(x.error)
           else Success(DeriveAll(files, i, template, common, options, env).value + [Outcome(files[i], x.value, options, env)])
  {
  }

  /** Once a template has thrown, later files do not change the outcome. */
  lemma {:induction false} DeriveAllFailed(files: seq<FileRecord>, k: nat, n: nat, template: string, common: CommonVariables, options: Options, env: Env)
    requires k <= n <= |files|
    requires DeriveAll(files, k, template, common, options, env).Failure?
    ensures DeriveAll(files, n, template, common, options, env) == DeriveAll(files, k, template, common, options, env)
    decreases n - k
  {
    if k < n {
      DeriveAllFailed(files, k, n - 1, template, common, options, env);
    }
  }

  // ---------------------------------------------------------------------
  // Classification, stated per item

  /** What the classification reads besides the derived paths. */
  datatype Checks = Checks(
    policy: MissingMetaPolicy,
    overwrite: bool,
    oldPaths: set<string>,
    disk: Nodes,
    isSamePath: (string, string) -> bool)

  /** The first of the first `k` items whose output is `p`: the file
      `filesByNewPath` holds for `p` when item `k` is reached. */
  function FirstClaim(ds: seq<Derived>, p: string, k: nat): (r: Option<nat>)
    requires k <= |ds|
    ensures r.Some? ==> r.value < k && ds[r.value].newPath == p
    ensures r.Some? ==> forall j :: 0 <= j < r.value ==> ds[j].newPath != p
    ensures r.None? ==> forall j :: 0 <= j < k ==> ds[j].newPath != p
  {
    if k == 0 then None
    else match FirstClaim(ds, p, k - 1)
      case Some(j) => Some(j)
      case None => if ds[k - 1].newPath == p then Some(k - 1) else None
  }

  /** Item `k` would land where an earlier item lands. */
  predicate Clashes(ds: seq<Derived>, k: nat)
    requires k < |ds|
  {
    FirstClaim(ds, ds[k].newPath, k).Some?
  }

  /** Whether item `d`, claiming a path nobody claimed before, is blocked by
      what is on disk. */
  predicate BlockedOnDisk(d: Derived, c: Checks) {
    !c.overwrite && !c.isSamePath(d.path, d.newPath) && d.newPath !in c.oldPaths && d.newPath in c.disk
  }

  /** Item `k` owns its path and would overwrite something on disk that is
      neither itself nor an input. */
  predicate Blocked(ds: seq<Derived>, k: nat, c: Checks)
    requires k < |ds|
  {
    !Clashes(ds, k) && BlockedOnDisk(ds[k], c)
  }

  predicate Missing(d: Derived) { d.missing != [] }

  /** The item of a file once its missing reads are classified: `abort`
      and `skip` skip it, `abort` with a `danger` message, the others with a
      warning; no missing read leaves it as pushed. */
  function AfterMissing(d: Derived, policy: MissingMetaPolicy): (item: RenameItem)
    ensures item.inputPath == d.path && item.outputPath == Some(d.newPath) && item.meta == d.meta
    ensures item.skip <==> Missing(d) && policy != Ignore
    ensures item.message.None? <==> !Missing(d)
    ensures item.message.Some? ==> item.message.value.text == MissingMessage(d.missing)
    ensures item.message.Some? ==> (item.message.value.variant == Danger <==> policy == Abort)
  {
    var pushed := RenameItem(d.path, Some(d.newPath), false, None, d.meta);
    if !Missing(d) then pushed
    else match policy
      case Abort => pushed.(skip := true, message := Some(Message(Danger, MissingMessage(d.missing))))
      case Skip => pushed.(skip := true, message := Some(Message(Warning, MissingMessage(d.missing))))
      case Ignore => pushed.(message := Some(Message(Warning, MissingMessage(d.missing))))
  }

  /** The item of a file whose path an earlier file claimed: skipped, with a
      `danger` message that keeps any earlier message's text in front. */
  function AfterClash(item: RenameItem, path: string, ownerPath: string, newPath: string): (r: RenameItem)
    ensures r.skip && r.message.Some? && r.message.value.variant == Danger
    ensures r.inputPath == item.inputPath && r.outputPath == item.outputPath && r.meta == item.meta
    ensures item.message.None? ==> r.message.value.text == ConflictMessage(path, ownerPath, newPath)
    ensures item.message.Some? ==> r.message.value.text == item.message.value.text + "\n\n" + ConflictMessage(path, ownerPath, newPath)
  {
    var earlier := if item.message.Some? then item.message.value.text + "\n\n" else "";
    item.(skip := true, message := Some(Message(Danger, earlier + ConflictMessage(path, ownerPath, newPath))))
  }

  /** The finished item `k`. */
  function ItemFor(ds: seq<Derived>, k: nat, c: Checks): (item: RenameItem)
    requires k < |ds|
    ensures item.inputPath == ds[k].path && item.outputPath == Some(ds[k].newPath) && item.meta == ds[k].meta
    ensures item.skip <==> (Missing(ds[k]) && c.policy != Ignore) || Clashes(ds, k) || Blocked(ds, k, c)
    ensures item.message.None? <==> !Missing(ds[k]) && !Clashes(ds, k) && !Blocked(ds, k, c)
    ensures item.message.Some? && item.message.value.variant == Danger <==>
      (Missing(ds[k]) && c.policy == Abort) || Clashes(ds, k) || Blocked(ds, k, c)
  {
    var d := ds[k];
    var item := AfterMissing(d, c.policy);
    if Clashes(ds, k) then
      AfterClash(item, d.path, ds[FirstClaim(ds, d.newPath, k).value].path, d.newPath)
    else if Blocked(ds, k, c) then
      item.(skip := true, message := Some(Message(Danger, ExistsMessage(d.path, d.newPath))))
    else item
  }

  /** `warnings` after the first `k` items: those with missing metadata, unless the policy is `abort`. */
  function WarningsUpTo(ds: seq<Derived>, k: nat, c: Checks): (r: seq<nat>)
    requires k <= |ds|
    ensures forall j :: j in r <==> 0 <= j < k && Missing(ds[j]) && c.policy != Abort
  {
    if k == 0 then []
    else WarningsUpTo(ds, k - 1, c) + When(Missing(ds[k - 1]) && c.policy != Abort, k - 1)
  }

  /** `[k]` when `b` holds, nothing otherwise: one turn's contribution to a list of indices. */
  function When(b: bool, k: nat): seq<nat> {
    if b then [k] else []
  }

  /** `errors` after the first `k` items: an item with missing metadata under
      `abort`, then again when it clashes or is blocked. */
  function ErrorsUpTo(ds: seq<Derived>, k: nat, c: Checks): (r: seq<nat>)
    requires k <= |ds|
  {
    if k == 0 then []
    else
      ErrorsUpTo(ds, k - 1, c)
        + When(Missing(ds[k - 1]) && c.policy == Abort, k - 1)
        + When(Clashes(ds, k - 1) || Blocked(ds, k - 1, c), k - 1)
  }

  /** `existingPaths` after the first `k` items: the paths that blocked an
      item, each once, in the order first met. */
  function ExistingUpTo(ds: seq<Derived>, k: nat, c: Checks): (r: seq<string>)
    requires k <= |ds|
  {
    if k == 0 then []
    else
      var before := ExistingUpTo(ds, k - 1, c);
      if Blocked(ds, k - 1, c) && ds[k - 1].newPath !in before then before + [ds[k - 1].newPath] else before
  }

  /** The four collections the expansion loop builds. */
  datatype Classified = Classified(items: seq<RenameItem>, warnings: seq<nat>, errors: seq<nat>, existingPaths: seq<string>)

  /** The classification of the whole batch, stated item by item. */
  function ClassifyAll(ds: seq<Derived>, c: Checks): (r: Classified)
    ensures |r.items| == |ds|
    ensures forall k :: 0 <= k < |ds| ==> r.items[k] == ItemFor(ds, k, c)
  {
    Classified(seq(|ds|, k requires 0 <= k < |ds| => ItemFor(ds, k, c)),
               WarningsUpTo(ds, |ds|, c), ErrorsUpTo(ds, |ds|, c), ExistingUpTo(ds, |ds|, c))
  }

  /** An item lands in `errors` exactly when it is marked `danger`: missing
      metadata under `abort`, a clash or a blocked destination. */
  lemma {:induction false} ErrorsMeaning(ds: seq<Derived>, n: nat, c: Checks)
    requires n <= |ds|
    ensures forall k :: k in ErrorsUpTo(ds, n, c) <==>
      0 <= k < n && ((Missing(ds[k]) && c.policy == Abort) || Clashes(ds, k) || Blocked(ds, k, c))
  {
    if n > 0 {
      var m := n - 1;
      var before := ErrorsUpTo(ds, m, c);
      var missing := When(Missing(ds[m]) && c.policy == Abort, m);
      var flagged := When(Clashes(ds, m) || Blocked(ds, m, c), m);
      assert ErrorsUpTo(ds, n, c) == before + missing + flagged;
      forall k ensures k in ErrorsUpTo(ds, n, c) <==>
        0 <= k < n && ((Missing(ds[k]) && c.policy == Abort) || Clashes(ds, k) || Blocked(ds, k, c))
      {
        ErrorsMeaning(ds, m, c);
        assert k in before + missing + flagged <==> k in before || k in missing || k in flagged;
        if k != m {
          assert k !in missing && k !in flagged;
        }
      }
    }
  }

  predicate NoDuplicates<T(==)>(s: seq<T>) {
    forall a, b :: 0 <= a < b < |s| ==> s[a] != s[b]
  }

  /** `existingPaths` lists each blocked destination once. */
  lemma {:induction false} ExistingMeaning(ds: seq<Derived>, n: nat, c: Checks)
    requires n <= |ds|
    ensures forall p :: p in ExistingUpTo(ds, n, c) <==> exists k :: 0 <= k < n && Blocked(ds, k, c) && ds[k].newPath == p
    ensures NoDuplicates(ExistingUpTo(ds, n, c))
  {
    if n > 0 {
      ExistingMeaning(ds, n - 1, c);
      var before := ExistingUpTo(ds, n - 1, c);
      forall p | p in ExistingUpTo(ds, n, c) ensures exists k :: 0 <= k < n && Blocked(ds, k, c) && ds[k].newPath == p {
        if p !in before {
          assert Blocked(ds, n - 1, c) && ds[n - 1].newPath == p;
        }
      }
      var e := ExistingUpTo(ds, n, c);
      if e != before {
        assert e == before + [ds[n - 1].newPath] && ds[n - 1].newPath !in before;
        forall a, b | 0 <= a < b < |e| ensures e[a] != e[b] {
          if b < |before| {
            assert e[a] == before[a] && e[b] == before[b];
          } else {
            assert e[a] == before[a] && before[a] in before && e[b] == ds[n - 1].newPath;
          }
        }
      }
    }
  }

  /** An item whose path an earlier item lands on is a clash: the first
      claimant keeps the path. */
  lemma LaterClaimantClashes(ds: seq<Derived>, j: nat, k: nat)
    requires j < k < |ds| && ds[j].newPath == ds[k].newPath
    ensures Clashes(ds, k)
  {
  }

  // ---------------------------------------------------------------------
  // Classification, as the loop does it

  /** The expansion loop: one item pushed per file; the template's missing
      reads classified by the policy; a path already in `filesByNewPath` makes
      the item a clash; otherwise the file claims the path, and a path that
      exists on disk blocks the item unless one of the exemptions holds. A
      template that throws rejects the call. */
  method ClassifyFiles(files: seq<FileRecord>, template: string, common: CommonVariables, options: Options, env: Env, disk: Nodes)
    returns (r: Result<Classified, Rejection>)
    ensures var all := DeriveAll(files, |files|, template, common, options, env);
      r.Success? ==> all.Success? && r.value == ClassifyAll(all.value, Checks(options.onMissingMeta, options.overwrite,
                                                                    set f | f in files :: f.path, disk, env.isSamePath))
    ensures var all := DeriveAll(files, |files|, template, common, options, env);
      r.Failure? ==> all.Failure? && r.error == Raised("Template expansion error: " + Eem(all.error, false))
  {
    var oldPaths := set f | f in files :: f.path;
    ghost var c := Checks(options.onMissingMeta, options.overwrite, oldPaths, disk, env.isSamePath);
    var st := Progress([], [], [], map[], []);
    ghost var ds: seq<Derived> := [];
    for i := 0 to |files|
      invariant DeriveAll(files, i, template, common, options, env) == Success(ds)
      invariant Tracks(st, ds, c)
    {
      var expanded := env.expand(template, Variables(common, files[i]));
      DeriveAllNext(files, i, template, common, options, env);
      if expanded.Failure? {
        DeriveAllFailed(files, i + 1, |files|, template, common, options, env);
        return Failure(Raised("Template expansion error: " + Eem(expanded.error, false)));
      }
      st := ClassifyOne(st, files[i], expanded.value, options, env, disk, oldPaths, ds, c);
      ds := ds + [Outcome(files[i], expanded.value, options, env)];
    }
    TracksClassified(st, ds, c);
    r := Success(Classified(st.items, st.warnings, st.errors, st.existingPaths));
  }

  /** The loop's variables after every item are the whole classification. */
  lemma TracksClassified(st: Progress, ds: seq<Derived>, c: Checks)
    requires Tracks(st, ds, c)
    ensures Classified(st.items, st.warnings, st.errors, st.existingPaths) == ClassifyAll(ds, c)
  {
  }

  /** The loop's variables: `renameItems`, `warnings`, `errors`, `filesByNewPath` and `existingPaths`. */
  datatype Progress = Progress(
    items: seq<RenameItem>,
    warnings: seq<nat>,
    errors: seq<nat>,
    byNewPath: map<string, FileRecord>,
    existingPaths: seq<string>)

  /** The loop's variables after the items of `ds`. */
  ghost predicate Tracks(st: Progress, ds: seq<Derived>, c: Checks) {
    && |st.items| == |ds|
    && (forall j :: 0 <= j < |ds| ==> st.items[j] == ItemFor(ds, j, c))
    && ClaimsAre(st.byNewPath, ds)
    && st.warnings == WarningsUpTo(ds, |ds|, c)
    && st.errors == ErrorsUpTo(ds, |ds|, c)
    && st.existingPaths == ExistingUpTo(ds, |ds|, c)
  }

  /** The first half of a turn of the expansion loop: push the item,
      classify the missing reads and set the output path. */
  method MarkMissing(file: FileRecord, x: Expansion, options: Options, env: Env, i: nat, warnings: seq<nat>, errors: seq<nat>)
    returns (item: RenameItem, warnings': seq<nat>, errors': seq<nat>)
    ensures var d := Outcome(file, x, options, env);
      && item == AfterMissing(d, options.onMissingMeta)
      && warnings' == warnings + When(Missing(d) && options.onMissingMeta != Abort, i)
      && errors' == errors + When(Missing(d) && options.onMissingMeta == Abort, i)
  {
    warnings', errors' := warnings, errors;
    var missing := if file.meta.Some? then MissingProps(file.meta.value, x.metaReads) else [];
    var newName := Trim(x.text);
    item := RenameItem(file.path, None, false, None, file.rawMeta);
    if |missing| > 0 {
      var message := MissingMessage(missing);
      match options.onMissingMeta {
        case Abort =>
          item := item.(skip := true, message := Some(Message(Danger, message)));
          errors' := errors' + [i];
        case Skip =>
          item := item.(skip := true, message := Some(Message(Warning, message)));
          warnings' := warnings' + [i];
        case Ignore =>
          item := item.(message := Some(Message(Warning, message)));
          warnings' := warnings' + [i];
      }
    }
    var newPath := env.sanitizePath(env.paths.resolve(file.dirname, newName), options.replacement, options.maxLength);
    item := item.(outputPath := Some(newPath));
  }

  /** One turn of the expansion loop after the template gave `x`: push the
      item, classify the missing reads, set the output path, then either
      report the clash or claim the path and check the disk. */
  method ClassifyOne(st: Progress, file: FileRecord, x: Expansion, options: Options, env: Env, disk: Nodes,
                     oldPaths: set<string>, ghost ds: seq<Derived>, ghost c: Checks)
    returns (st': Progress)
    requires Tracks(st, ds, c)
    requires c == Checks(options.onMissingMeta, options.overwrite, oldPaths, disk, env.isSamePath)
    ensures Tracks(st', ds + [Outcome(file, x, options, env)], c)
  {
    var i: nat := |st.items|;
    var filesByNewPath := st.byNewPath;
    var existingPaths := st.existingPaths;
    var item, warnings, errors := MarkMissing(file, x, options, env, i, st.warnings, st.errors);
    var newPath := item.outputPath.value;
    ghost var d := Outcome(file, x, options, env);
    if newPath in filesByNewPath {
      var conflictFile := filesByNewPath[newPath];
      item := AfterClash(item, file.path, conflictFile.path, newPath);
      errors := errors + [i];
      ClashTracks(st, ds, d, c);
    } else {
      filesByNewPath := filesByNewPath[newPath := file];
      if !options.overwrite && !env.isSamePath(file.path, newPath) && newPath !in oldPaths && newPath in disk {
        if newPath !in existingPaths {
          existingPaths := existingPaths + [newPath];
        }
        item := item.(skip := true, message := Some(Message(Danger, ExistsMessage(file.path, newPath))));
        errors := errors + [i];
        BlockedTracks(st, ds, d, c, file);
      } else {
        ClaimTracks(st, ds, d, c, file);
      }
    }
    st' := Progress(st.items + [item], warnings, errors, filesByNewPath, existingPaths);
  }

  /** A turn whose path is already claimed: the item is refused as a clash. */
  lemma ClashTracks(st: Progress, ds: seq<Derived>, d: Derived, c: Checks)
    requires Tracks(st, ds, c)
    requires d.newPath in st.byNewPath
    ensures Tracks(Progress(
      st.items + [AfterClash(AfterMissing(d, c.policy), d.path, st.byNewPath[d.newPath].path, d.newPath)],
      st.warnings + When(Missing(d) && c.policy != Abort, |ds|),
      st.errors + When(Missing(d) && c.policy == Abort, |ds|) + [|ds|],
      st.byNewPath, st.existingPaths), ds + [d], c)
  {
    StepLists(ds, d, c);
    ClashStep(ds, d, c, st.byNewPath);
    ClaimsKept(ds, d, st.byNewPath);
    TracksAppend(st, ds, d, c, AfterClash(AfterMissing(d, c.policy), d.path, st.byNewPath[d.newPath].path, d.newPath),
      st.warnings + When(Missing(d) && c.policy != Abort, |ds|),
      st.errors + When(Missing(d) && c.policy == Abort, |ds|) + [|ds|],
      st.byNewPath, st.existingPaths);
  }

  /** A turn that claims a free path that is not blocked: the item stays as
      the missing reads left it. */
  lemma ClaimTracks(st: Progress, ds: seq<Derived>, d: Derived, c: Checks, file: FileRecord)
    requires Tracks(st, ds, c)
    requires d.newPath !in st.byNewPath && file.path == d.path && !BlockedOnDisk(d, c)
    ensures Tracks(Progress(
      st.items + [AfterMissing(d, c.policy)],
      st.warnings + When(Missing(d) && c.policy != Abort, |ds|),
      st.errors + When(Missing(d) && c.policy == Abort, |ds|),
      st.byNewPath[d.newPath := file], st.existingPaths), ds + [d], c)
  {
    StepLists(ds, d, c);
    ClaimStep(ds, d, c, st.byNewPath);
    ClaimsGrow(ds, d, st.byNewPath, file);
    var errors := st.errors + When(Missing(d) && c.policy == Abort, |ds|);
    assert errors + [] == errors;
    TracksAppend(st, ds, d, c, AfterMissing(d, c.policy), st.warnings + When(Missing(d) && c.policy != Abort, |ds|),
      errors, st.byNewPath[d.newPath := file], st.existingPaths);
  }

  /** A turn that claims a free path that is blocked: the item is refused and
      the path is listed once among the existing ones. */
  lemma BlockedTracks(st: Progress, ds: seq<Derived>, d: Derived, c: Checks, file: FileRecord)
    requires Tracks(st, ds, c)
    requires d.newPath !in st.byNewPath && file.path == d.path && BlockedOnDisk(d, c)
    ensures Tracks(Progress(
      st.items + [AfterMissing(d, c.policy).(skip := true, message := Some(Message(Danger, ExistsMessage(d.path, d.newPath))))],
      st.warnings + When(Missing(d) && c.policy != Abort, |ds|),
      st.errors + When(Missing(d) && c.policy == Abort, |ds|) + [|ds|],
      st.byNewPath[d.newPath := file],
      if d.newPath !in st.existingPaths then st.existingPaths + [d.newPath] else st.existingPaths), ds + [d], c)
  {
    StepLists(ds, d, c);
    ClaimStep(ds, d, c, st.byNewPath);
    ClaimsGrow(ds, d, st.byNewPath, file);
    TracksAppend(st, ds, d, c,
      AfterMissing(d, c.policy).(skip := true, message := Some(Message(Danger, ExistsMessage(d.path, d.newPath)))),
      st.warnings + When(Missing(d) && c.policy != Abort, |ds|),
      st.errors + When(Missing(d) && c.policy == Abort, |ds|) + [|ds|],
      st.byNewPath[d.newPath := file],
      if d.newPath !in st.existingPaths then st.existingPaths + [d.newPath] else st.existingPaths);
  }

  /** The loop's variables stay in step when the next item and lists are the
      ones the classification gives. */
  lemma TracksAppend(st: Progress, ds: seq<Derived>, d: Derived, c: Checks, item: RenameItem, warnings: seq<nat>,
                     errors: seq<nat>, byNewPath: map<string, FileRecord>, existingPaths: seq<string>)
    requires Tracks(st, ds, c)
    requires item == ItemFor(ds + [d], |ds|, c)
    requires ClaimsAre(byNewPath, ds + [d])
    requires warnings == WarningsUpTo(ds + [d], |ds| + 1, c)
    requires errors == ErrorsUpTo(ds + [d], |ds| + 1, c)
    requires existingPaths == ExistingUpTo(ds + [d], |ds| + 1, c)
    ensures Tracks(Progress(st.items + [item], warnings, errors, byNewPath, existingPaths), ds + [d], c)
  {
    var items := st.items + [item];
    ItemForExtend(ds, d, c);
    forall j | 0 <= j < |ds| + 1 ensures items[j] == ItemFor(ds + [d], j, c) {
      if j < |ds| {
        assert items[j] == st.items[j];
      }
    }
  }

  /** `filesByNewPath` maps each path claimed so far to its first claimant. */
  ghost predicate ClaimsAre(byNewPath: map<string, FileRecord>, ds: seq<Derived>) {
    && (forall p :: p in byNewPath <==> FirstClaim(ds, p, |ds|).Some?)
    && (forall p :: p in byNewPath ==> byNewPath[p].path == ds[FirstClaim(ds, p, |ds|).value].path)
  }

  /** Appending an item leaves everything stated about the earlier items as it was. */
  lemma ExtendAll(ds: seq<Derived>, d: Derived, c: Checks)
    ensures forall k :: 0 <= k < |ds| ==> ItemFor(ds + [d], k, c) == ItemFor(ds, k, c)
    ensures WarningsUpTo(ds + [d], |ds|, c) == WarningsUpTo(ds, |ds|, c)
    ensures ErrorsUpTo(ds + [d], |ds|, c) == ErrorsUpTo(ds, |ds|, c)
    ensures ExistingUpTo(ds + [d], |ds|, c) == ExistingUpTo(ds, |ds|, c)
  {
    ItemForExtend(ds, d, c);
    WarningsPrefix(ds, d, c, |ds|);
    ErrorsPrefix(ds, d, c, |ds|);
    ExistingPrefix(ds, d, c, |ds|);
  }

  /** An item whose path is taken claims nothing. */
  lemma ClaimsKept(ds: seq<Derived>, d: Derived, byNewPath: map<string, FileRecord>)
    requires ClaimsAre(byNewPath, ds)
    requires d.newPath in byNewPath
    ensures ClaimsAre(byNewPath, ds + [d])
  {
    var e := ds + [d];
    forall p | p in byNewPath ensures FirstClaim(e, p, |e|) == FirstClaim(ds, p, |ds|) {
      FirstClaimPrefix(ds, d, p, |ds|);
    }
    forall p | p !in byNewPath ensures FirstClaim(e, p, |e|).None? {
      FirstClaimPrefix(ds, d, p, |ds|);
      assert e[|ds|] == d;
    }
    forall p | p in byNewPath ensures byNewPath[p].path == e[FirstClaim(e, p, |e|).value].path {
      var j := FirstClaim(ds, p, |ds|).value;
      assert e[j] == ds[j];
    }
  }

  /** An item that takes a free path becomes that path's claimant. */
  lemma ClaimsGrow(ds: seq<Derived>, d: Derived, byNewPath: map<string, FileRecord>, file: FileRecord)
    requires ClaimsAre(byNewPath, ds)
    requires d.newPath !in byNewPath
    requires file.path == d.path
    ensures ClaimsAre(byNewPath[d.newPath := file], ds + [d])
  {
    var e := ds + [d];
    var m := byNewPath[d.newPath := file];
    assert e[|ds|] == d;
    forall p ensures (p in m <==> FirstClaim(e, p, |e|).Some?) && (p in m ==> m[p].path == e[FirstClaim(e, p, |e|).value].path) {
      FirstClaimPrefix(ds, d, p, |ds|);
      if p in byNewPath {
        var j := FirstClaim(ds, p, |ds|).value;
        assert e[j] == ds[j];
      }
    }
  }

  /** The lists after one more item, in terms of how that item is classified. */
  lemma StepLists(ds: seq<Derived>, d: Derived, c: Checks)
    ensures var e := ds + [d];
      WarningsUpTo(e, |e|, c) == WarningsUpTo(ds, |ds|, c) + When(Missing(d) && c.policy != Abort, |ds|)
    ensures var e := ds + [d];
      ErrorsUpTo(e, |e|, c) == ErrorsUpTo(ds, |ds|, c) + When(Missing(d) && c.policy == Abort, |ds|)
        + When(Clashes(e, |ds|) || Blocked(e, |ds|, c), |ds|)
    ensures var e := ds + [d];
      ExistingUpTo(e, |e|, c) == (var before := ExistingUpTo(ds, |ds|, c);
        if Blocked(e, |ds|, c) && d.newPath !in before then before + [d.newPath] else before)
  {
    var e := ds + [d];
    assert e[|ds|] == d;
    WarningsPrefix(ds, d, c, |ds|);
    ErrorsPrefix(ds, d, c, |ds|);
    ExistingPrefix(ds, d, c, |ds|);
  }

  /** The item whose path is taken becomes a clash naming the claimant. */
  lemma ClashStep(ds: seq<Derived>, d: Derived, c: Checks, byNewPath: map<string, FileRecord>)
    requires ClaimsAre(byNewPath, ds)
    requires d.newPath in byNewPath
    ensures Clashes(ds + [d], |ds|) && !Blocked(ds + [d], |ds|, c)
    ensures ItemFor(ds + [d], |ds|, c) == AfterClash(AfterMissing(d, c.policy), d.path, byNewPath[d.newPath].path, d.newPath)
  {
    var e := ds + [d];
    var i := |ds|;
    FirstClaimPrefix(ds, d, d.newPath, i);
    assert e[i] == d;
    var j := FirstClaim(ds, d.newPath, i).value;
    assert e[j] == ds[j];
  }

  /** The item that claims a free path is blocked exactly when overwrite is
      off and the path exists and is neither the file's own nor an input's. */
  lemma ClaimStep(ds: seq<Derived>, d: Derived, c: Checks, byNewPath: map<string, FileRecord>)
    requires ClaimsAre(byNewPath, ds)
    requires d.newPath !in byNewPath
    ensures !Clashes(ds + [d], |ds|)
    ensures Blocked(ds + [d], |ds|, c) <==> BlockedOnDisk(d, c)
    ensures ItemFor(ds + [d], |ds|, c) == (if Blocked(ds + [d], |ds|, c) then
      AfterMissing(d, c.policy).(skip := true, message := Some(Message(Danger, ExistsMessage(d.path, d.newPath))))
      else AfterMissing(d, c.policy))
  {
    var e := ds + [d];
    var i := |ds|;
    FirstClaimPrefix(ds, d, d.newPath, i);
    assert e[i] == d;
  }

  lemma {:induction false} FirstClaimPrefix(ds: seq<Derived>, d: Derived, p: string, k: nat)
    requires k <= |ds|
    ensures FirstClaim(ds + [d], p, k) == FirstClaim(ds, p, k)
  {
    if k > 0 {
      FirstClaimPrefix(ds, d, p, k - 1);
      assert (ds + [d])[k - 1] == ds[k - 1];
    }
  }

  /** Items already classified keep their classification when an item is appended. */
  lemma ItemForExtend(ds: seq<Derived>, d: Derived, c: Checks)
    ensures forall k :: 0 <= k < |ds| ==> ItemFor(ds + [d], k, c) == ItemFor(ds, k, c)
  {
    forall k | 0 <= k < |ds| ensures ItemFor(ds + [d], k, c) == ItemFor(ds, k, c) {
      var e := ds + [d];
      assert e[k] == ds[k];
      FirstClaimPrefix(ds, d, ds[k].newPath, k);
      if Clashes(ds, k) {
        var j := FirstClaim(ds, ds[k].newPath, k).value;
        assert e[j] == ds[j];
      }
    }
  }

  lemma {:induction false} WarningsPrefix(ds: seq<Derived>, d: Derived, c: Checks, k: nat)
    requires k <= |ds|
    ensures WarningsUpTo(ds + [d], k, c) == WarningsUpTo(ds, k, c)
  {
    if k > 0 {
      WarningsPrefix(ds, d, c, k - 1);
      assert (ds + [d])[k - 1] == ds[k - 1];
    }
  }

  /** Whether an earlier item clashes or is blocked does not depend on items after it. */
  lemma CheckPrefix(ds: seq<Derived>, d: Derived, c: Checks, k: nat)
    requires k < |ds|
    ensures Clashes(ds + [d], k) == Clashes(ds, k)
    ensures Blocked(ds + [d], k, c) == Blocked(ds, k, c)
  {
    assert (ds + [d])[k] == ds[k];
    FirstClaimPrefix(ds, d, ds[k].newPath, k);
  }

  lemma {:induction false} ErrorsPrefix(ds: seq<Derived>, d: Derived, c: Checks, k: nat)
    requires k <= |ds|
    ensures ErrorsUpTo(ds + [d], k, c) == ErrorsUpTo(ds, k, c)
  {
    if k > 0 {
      ErrorsPrefix(ds, d, c, k - 1);
      assert (ds + [d])[k - 1] == ds[k - 1];
      CheckPrefix(ds, d, c, k - 1);
    }
  }

  lemma {:induction false} ExistingPrefix(ds: seq<Derived>, d: Derived, c: Checks, k: nat)
    requires k <= |ds|
    ensures ExistingUpTo(ds + [d], k, c) == ExistingUpTo(ds, k, c)
  {
    if k > 0 {
      ExistingPrefix(ds, d, c, k - 1);
      assert (ds + [d])[k - 1] == ds[k - 1];
      CheckPrefix(ds, d, c, k - 1);
    }
  }

  // ---------------------------------------------------------------------
  // The planner

  /** `files.map((file) => file.path)`. */
  function PathsOf(files: seq<FileRecord>): (r: seq<string>)
    ensures |r| == |files| && forall k :: 0 <= k < |files| ==> r[k] == files[k].path
  {
    seq(|files|, k requires 0 <= k < |files| => files[k].path)
  }

  lemma PathsConcat(u: seq<FileRecord>, v: seq<FileRecord>)
    ensures PathsOf(u + v) == PathsOf(u) + PathsOf(v)
  {
    assert forall k :: 0 <= k < |u| + |v| ==> PathsOf(u + v)[k] == (PathsOf(u) + PathsOf(v))[k];
  }

  /** Reordering the files reorders their paths the same way. */
  lemma {:induction false} PathsPermute(a: seq<FileRecord>, b: seq<FileRecord>)
    requires multiset(a) == multiset(b)
    ensures multiset(PathsOf(a)) == multiset(PathsOf(b))
    decreases |a|
  {
    if a == [] {
      assert |b| == |multiset(b)| == 0;
    } else {
      assert a[0] in multiset(b);
      var i :| 0 <= i < |b| && b[i] == a[0];
      PermuteRest(a, b, i);
      PathsPermute(a[1..], b[..i] + b[i + 1..]);
      PathsRest(a, b, i);
    }
  }

  /** Taking the first of `a` out of `b` leaves a rearrangement of the rest of `a`. */
  lemma PermuteRest(a: seq<FileRecord>, b: seq<FileRecord>, i: nat)
    requires a != [] && i < |b| && b[i] == a[0] && multiset(a) == multiset(b)
    ensures multiset(a[1..]) == multiset(b[..i] + b[i + 1..])
  {
    var u, v := multiset(a[1..]), multiset(b[..i] + b[i + 1..]);
    assert a == [a[0]] + a[1..];
    TakeOut(b, i);
    forall y ensures u[y] == v[y] {
      assert multiset(a)[y] == (u + multiset{a[0]})[y];
      assert multiset(b)[y] == (v + multiset{a[0]})[y];
    }
  }

  /** The paths of `a` and `b` agree once they agree without the matched pair. */
  lemma PathsRest(a: seq<FileRecord>, b: seq<FileRecord>, i: nat)
    requires a != [] && i < |b| && b[i] == a[0]
    requires multiset(PathsOf(a[1..])) == multiset(PathsOf(b[..i] + b[i + 1..]))
    ensures multiset(PathsOf(a)) == multiset(PathsOf(b))
  {
    assert a == [a[0]] + a[1..];
    PathsConcat([a[0]], a[1..]);
    assert PathsOf([a[0]]) == [a[0].path];
    TakeOut(b, i);
  }

  lemma TakeOut(b: seq<FileRecord>, i: nat)
    requires i < |b|
    ensures multiset(b) == multiset(b[..i] + b[i + 1..]) + multiset{b[i]}
    ensures multiset(PathsOf(b)) == multiset(PathsOf(b[..i] + b[i + 1..])) + multiset{b[i].path}
  {
    var u, v := b[..i], b[i + 1..];
    assert b == u + [b[i]] + v;
    PathsConcat(u + [b[i]], v);
    PathsConcat(u, [b[i]]);
    PathsConcat(u, v);
    assert PathsOf([b[i]]) == [b[i].path];
  }

  /** The output paths the common output directory is found over: the defined, non-empty ones (`filter((path) => !!path)`). */
  function DefinedOutputs(items: seq<RenameItem>): (r: seq<string>)
    ensures forall p :: p in r <==> p != [] && exists k :: 0 <= k < |items| && items[k].outputPath == Some(p)
  {
    if items == [] then []
    else
      var rest := DefinedOutputs(items[1..]);
      assert forall k :: 0 <= k < |items| - 1 ==> items[1..][k] == items[k + 1];
      if items[0].outputPath.Some? && items[0].outputPath.value != [] then [items[0].outputPath.value] + rest else rest
  }

  /** `commonDir`: the common directory of both, found through a `noop` child
      of each, when both are known and non-empty; otherwise none. */
  function CommonDir(input: Option<string>, output: Option<string>, env: Env): (r: Option<string>)
    ensures input.None? || output.None? ==> r.None?
  {
    if input.Some? && input.value != [] && output.Some? && output.value != [] then
      env.findCommonDirectory([env.paths.join(input.value, "noop"), env.paths.join(output.value, "noop")])
    else None
  }

  /** `normalizePath(input.path)` for every input, in order. */
  function Normalized(inputs: seq<string>, env: Env): (r: seq<string>)
    ensures |r| == |inputs| && forall k :: 0 <= k < |inputs| ==> r[k] == env.normalizePath(inputs[k])
  {
    seq(|inputs|, k requires 0 <= k < |inputs| => env.normalizePath(inputs[k]))
  }

  function InputPaths(items: seq<RenameItem>): (r: seq<string>)
    ensures |r| == |items| && forall k :: 0 <= k < |items| ==> r[k] == items[k].inputPath
  {
    seq(|items|, k requires 0 <= k < |items| => items[k].inputPath)
  }

  /** The first loop and the sort: every input is stated, in order, and the
      records are sorted; the first input with nothing at it stops the planner. */
  method StageInputs(inputs: seq<string>, sorting: SortingMode, env: Env, disk: Nodes)
    returns (r: Result<seq<FileRecord>, Rejection>)
    ensures r.Success? <==> forall k :: 0 <= k < |inputs| ==> Normalized(inputs, env)[k] in disk
    ensures r.Failure? ==> exists k :: (
      && 0 <= k < |inputs| && Normalized(inputs, env)[k] !in disk
      && r.error == Raised("ENOENT: no such file or directory, stat '" + Normalized(inputs, env)[k] + "'"))
    ensures r.Success? ==>
      && AllStated(Normalized(inputs, env), disk)
      && r.value == SortFiles(Records(Normalized(inputs, env), disk, env.paths), sorting, env)
    ensures r.Success? ==> multiset(PathsOf(r.value)) == multiset(Normalized(inputs, env))
    ensures r.Success? && sorting == Disabled ==> PathsOf(r.value) == Normalized(inputs, env)
  {
    var paths := Normalized(inputs, env);
    var collected := CollectFiles(paths, disk, env.paths);
    if collected.Failure? {
      return Failure(Raised(collected.error));
    }
    var sorted := SortFiles(collected.value, sorting, env);
    assert PathsOf(collected.value) == paths;
    PathsPermute(sorted, collected.value);
    r := Success(sorted);
  }

  /** The variables every expansion of the planner sees: the clock, the
      batch, the platform folders and the inputs' common directory. */
  function PlannerCommon(files: seq<FileRecord>, options: Options, env: Env, now: int): CommonVariables {
    var template := NormalizeTemplate(options.template);
    CommonVariables(now, files, PlatformVariables(template, env.platformNames, env.platformPath),
                    env.findCommonDirectory(PathsOf(files)))
  }

  /** What the expansion loop checks each item against. */
  function PlannerChecks(files: seq<FileRecord>, options: Options, env: Env, disk: Nodes): Checks {
    Checks(options.onMissingMeta, options.overwrite, set f | f in files :: f.path, disk, env.isSamePath)
  }

  /** The planner after the populate step: the expansion loop over the
      populated batch, and the common directories of the table. */
  method PlanTable(files: seq<FileRecord>, options: Options, env: Env, disk: Nodes, now: int)
    returns (r: Result<RenameTable, Rejection>)
    ensures var all := DeriveAll(files, |files|, NormalizeTemplate(options.template), PlannerCommon(files, options, env, now), options, env);
      && (r.Success? <==> all.Success?)
      && (r.Failure? ==> r.error == Raised("Template expansion error: " + Eem(all.error, false)))
      && (r.Success? ==> var t := ClassifyAll(all.value, PlannerChecks(files, options, env, disk));
            && r.value.items == t.items && r.value.warnings == t.warnings
            && r.value.errors == t.errors && r.value.existingPaths == t.existingPaths)
    ensures r.Success? ==> r.value.commonInputDir == env.findCommonDirectory(PathsOf(files))
    ensures r.Success? ==> InputPaths(r.value.items) == PathsOf(files)
    ensures r.Success? ==> Consistent(r.value, options.onMissingMeta, options.overwrite, disk)
    ensures r.Success? ==> r.value.commonOutputDir == env.findCommonDirectory(DefinedOutputs(r.value.items))
    ensures r.Success? ==> r.value.commonDir == CommonDir(r.value.commonInputDir, r.value.commonOutputDir, env)
  {
    var template := NormalizeTemplate(options.template);
    var platform := PlatformVariables(template, env.platformNames, env.platformPath);
    var commonInputDir := env.findCommonDirectory(PathsOf(files));
    var common := CommonVariables(now, files, platform, commonInputDir);
    var classified := ClassifyFiles(files, template, common, options, env, disk);
    if classified.Failure? {
      return Failure(classified.error);
    }
    var table := classified.value;
    var commonOutputDir := env.findCommonDirectory(DefinedOutputs(table.items));
    var commonDir := CommonDir(commonInputDir, commonOutputDir, env);
    PlanFacts(files, template, common, options, env, disk, commonInputDir, commonOutputDir, commonDir);
    r := Success(RenameTable(table.items, table.warnings, table.errors, commonInputDir, commonOutputDir, commonDir, table.existingPaths));
  }

  /** The planner: state and sort the inputs, index them, fetch what the
      template needs, run the template for every file and classify the
      items. The ghost `staged` is the indexed batch and `populated` the
      batch after the populate step. It rejects when an input is missing,
      when a file's job throws (a metadata error under `abort`, a checksum
      error) and when the template throws. */
  method CreateRenameTable(inputs: seq<string>, options: Options, env: Env, disk: Nodes, now: int)
    returns (r: Result<RenameTable, Rejection>, ghost staged: seq<FileRecord>, ghost populated: seq<FileRecord>)
    // the rejections, stage by stage
    ensures var template := NormalizeTemplate(options.template);
      r.Success? <==>
        && AllStated(Normalized(inputs, env), disk)
        && PrefixSucceeds(staged, |staged|, MentionsMeta(template), HashesToSum(template), options.onMissingMeta, env)
        && DeriveAll(populated, |populated|, template, PlannerCommon(populated, options, env, now), options, env).Success?
    ensures !AllStated(Normalized(inputs, env), disk) ==> r.Failure? && exists k :: (
      && 0 <= k < |inputs| && Normalized(inputs, env)[k] !in disk
      && r.error == Raised("ENOENT: no such file or directory, stat '" + Normalized(inputs, env)[k] + "'"))
    ensures AllStated(Normalized(inputs, env), disk) ==> staged == Staged(Normalized(inputs, env), options.sorting, env, disk)
    ensures var template := NormalizeTemplate(options.template);
      AllStated(Normalized(inputs, env), disk) &&
      !PrefixSucceeds(staged, |staged|, MentionsMeta(template), HashesToSum(template), options.onMissingMeta, env) ==>
        r.Failure? && exists k :: FirstFailure(staged, k, r.error, MentionsMeta(template), HashesToSum(template), options.onMissingMeta, env)
    ensures var template := NormalizeTemplate(options.template);
      AllStated(Normalized(inputs, env), disk) &&
      PrefixSucceeds(staged, |staged|, MentionsMeta(template), HashesToSum(template), options.onMissingMeta, env) ==>
        && |populated| == |staged|
        && forall k :: 0 <= k < |staged| ==> Populated(staged[k], populated[k], MentionsMeta(template), HashesToSum(template), env)
    ensures var template := NormalizeTemplate(options.template);
      var all := DeriveAll(populated, |populated|, template, PlannerCommon(populated, options, env, now), options, env);
      AllStated(Normalized(inputs, env), disk) && all.Failure? &&
      PrefixSucceeds(staged, |staged|, MentionsMeta(template), HashesToSum(template), options.onMissingMeta, env) ==>
        r == Failure(Raised("Template expansion error: " + Eem(all.error, false)))
    // the table is the expansion loop's classification
    ensures var all := DeriveAll(populated, |populated|, NormalizeTemplate(options.template), PlannerCommon(populated, options, env, now), options, env);
      r.Success? ==> all.Success? && var t := ClassifyAll(all.value, PlannerChecks(populated, options, env, disk));
        && r.value.items == t.items && r.value.warnings == t.warnings
        && r.value.errors == t.errors && r.value.existingPaths == t.existingPaths
    // one item per input, in the sorted order
    ensures r.Success? ==> multiset(InputPaths(r.value.items)) == multiset(Normalized(inputs, env))
    ensures r.Success? && options.sorting == Disabled ==> InputPaths(r.value.items) == Normalized(inputs, env)
    ensures r.Success? ==> Consistent(r.value, options.onMissingMeta, options.overwrite, disk)
    // common directories
    ensures r.Success? ==> r.value.commonInputDir == env.findCommonDirectory(PathsOf(populated))
    ensures r.Success? ==> r.value.commonOutputDir == env.findCommonDirectory(DefinedOutputs(r.value.items))
    ensures r.Success? ==> r.value.commonDir == CommonDir(r.value.commonInputDir, r.value.commonOutputDir, env)
  {
    var template := NormalizeTemplate(options.template);
    staged, populated := [], [];
    var stated := StageInputs(inputs, options.sorting, env, disk);
    if stated.Failure? {
      return Failure(stated.error), staged, populated;
    }
    var files := AssignIndices(stated.value);
    staged := files;
    assert PathsOf(files) == PathsOf(stated.value);
    var jobs := PopulateFiles(files, MentionsMeta(template), HashesToSum(template), options.onMissingMeta, env);
    if jobs.Failure? {
      return Failure(jobs.error), staged, populated;
    }
    PopulatedPaths(files, jobs.value, MentionsMeta(template), HashesToSum(template), env);
    populated := jobs.value;
    r := PlanTable(jobs.value, options, env, disk, now);
  }

  /** Fetching metadata and checksums keeps every file's path. */
  lemma PopulatedPaths(files: seq<FileRecord>, done: seq<FileRecord>, extractMeta: bool, hashes: seq<Hash>, env: Env)
    requires |done| == |files|
    requires forall k :: 0 <= k < |files| ==> Populated(files[k], done[k], extractMeta, hashes, env)
    ensures PathsOf(done) == PathsOf(files)
  {
    forall k | 0 <= k < |files| ensures done[k].path == files[k].path {
      assert Populated(files[k], done[k], extractMeta, hashes, env);
    }
  }

  /** The table the expansion loop classifies: one item per file, in order, and consistent. */
  lemma PlanFacts(files: seq<FileRecord>, template: string, common: CommonVariables, options: Options, env: Env, disk: Nodes,
                  commonInputDir: Option<string>, commonOutputDir: Option<string>, commonDir: Option<string>)
    requires DeriveAll(files, |files|, template, common, options, env).Success?
    ensures var ds := DeriveAll(files, |files|, template, common, options, env).value;
      var t := ClassifyAll(ds, Checks(options.onMissingMeta, options.overwrite, set f | f in files :: f.path, disk, env.isSamePath));
      && InputPaths(t.items) == PathsOf(files)
      && Consistent(RenameTable(t.items, t.warnings, t.errors, commonInputDir, commonOutputDir, commonDir, t.existingPaths),
                    options.onMissingMeta, options.overwrite, disk)
  {
    var ds := DeriveAll(files, |files|, template, common, options, env).value;
    var c := Checks(options.onMissingMeta, options.overwrite, set f | f in files :: f.path, disk, env.isSamePath);
    DeriveAllMeaning(files, |files|, template, common, options, env);
    forall k | 0 <= k < |ds| ensures ds[k].path == files[k].path && ds[k].path in c.oldPaths {
      assert Derive(files[k], template, common, options, env) == Success(ds[k]);
      assert files[k] in files;
    }
    ClassifiedConsistent(ds, c, commonInputDir, commonOutputDir, commonDir);
  }

  /** What holds of every table the planner returns: each item has an output
      path; a `danger` item is skipped; `errors` holds exactly the `danger`
      items; `warnings` only items with a message, never under `abort`, and
      skipped ones under `skip`; a later item landing on an earlier item's
      path is a skipped `danger`, so the items that run have distinct
      destinations; `existingPaths` lists each blocked destination once, only
      with overwrite off, each on disk, no input's path and some skipped
      item's destination. */
  ghost predicate Consistent(t: RenameTable, policy: MissingMetaPolicy, overwrite: bool, disk: Nodes) {
    && (forall k :: 0 <= k < |t.items| ==> t.items[k].outputPath.Some?)
    && (forall k :: 0 <= k < |t.items| && IsDanger(t.items[k]) ==> t.items[k].skip)
    && (forall k :: k in t.errors <==> 0 <= k < |t.items| && IsDanger(t.items[k]))
    && (forall k :: k in t.warnings ==>
          && policy != Abort && 0 <= k < |t.items| && t.items[k].message.Some?
          && (policy == Skip ==> t.items[k].skip))
    && (forall j, k :: 0 <= j < k < |t.items| && t.items[j].outputPath == t.items[k].outputPath ==>
          t.items[k].skip && IsDanger(t.items[k]))
    && NoDuplicates(t.existingPaths)
    && (forall p :: p in t.existingPaths ==>
          && !overwrite && p in disk
          && (forall k :: 0 <= k < |t.items| ==> t.items[k].inputPath != p)
          && (exists k :: 0 <= k < |t.items| && t.items[k].outputPath == Some(p) && t.items[k].skip))
  }

  /** Among the items that run, no two share a destination. */
  lemma RunningDistinct(t: RenameTable, policy: MissingMetaPolicy, overwrite: bool, disk: Nodes)
    requires Consistent(t, policy, overwrite, disk)
    ensures forall j, k :: 0 <= j < |t.items| && 0 <= k < |t.items| && j != k && !t.items[j].skip && !t.items[k].skip ==>
      t.items[j].outputPath != t.items[k].outputPath
  {
  }

  /** The classification of any batch is consistent. */
  lemma ClassifiedConsistent(ds: seq<Derived>, c: Checks, commonInputDir: Option<string>, commonOutputDir: Option<string>,
                             commonDir: Option<string>)
    requires forall k :: 0 <= k < |ds| ==> ds[k].path in c.oldPaths
    ensures var t := ClassifyAll(ds, c);
      && (forall k :: 0 <= k < |ds| ==> t.items[k].inputPath == ds[k].path)
      && Consistent(RenameTable(t.items, t.warnings, t.errors, commonInputDir, commonOutputDir, commonDir, t.existingPaths),
                    c.policy, c.overwrite, c.disk)
  {
    ClassifiedItems(ds, c);
    ClassifiedErrors(ds, c);
    ClassifiedWarnings(ds, c);
    ClassifiedExisting(ds, c);
  }

  predicate IsDanger(item: RenameItem) {
    item.message.Some? && item.message.value.variant == Danger
  }

  /** Every item has an output path, a `danger` item is skipped, and a later
      item landing on an earlier item's path is a skipped `danger`. */
  lemma ClassifiedItems(ds: seq<Derived>, c: Checks)
    ensures var t := ClassifyAll(ds, c);
      forall k :: 0 <= k < |t.items| ==> t.items[k].outputPath == Some(ds[k].newPath) && t.items[k].inputPath == ds[k].path
    ensures var t := ClassifyAll(ds, c);
      forall k :: 0 <= k < |t.items| && IsDanger(t.items[k]) ==> t.items[k].skip
    ensures var t := ClassifyAll(ds, c);
      forall j, k :: 0 <= j < k < |t.items| && t.items[j].outputPath == t.items[k].outputPath ==> t.items[k].skip && IsDanger(t.items[k])
  {
    var t := ClassifyAll(ds, c);
    forall j, k | 0 <= j < k < |t.items| && t.items[j].outputPath == t.items[k].outputPath
      ensures t.items[k].skip && IsDanger(t.items[k])
    {
      LaterClaimantClashes(ds, j, k);
    }
  }

  /** `errors` holds exactly the `danger` items. */
  lemma ClassifiedErrors(ds: seq<Derived>, c: Checks)
    ensures var t := ClassifyAll(ds, c);
      forall k :: k in t.errors <==> 0 <= k < |t.items| && IsDanger(t.items[k])
  {
    ErrorsMeaning(ds, |ds|, c);
  }

  /** `warnings` holds the items with missing metadata when the policy is not `abort`. */
  lemma ClassifiedWarnings(ds: seq<Derived>, c: Checks)
    ensures var t := ClassifyAll(ds, c);
      forall k :: k in t.warnings ==>
        && c.policy != Abort && 0 <= k < |t.items| && t.items[k].message.Some?
        && (c.policy == Skip ==> t.items[k].skip)
  {
  }

  /** `existingPaths` lists each blocked destination once; each exists on
      disk, is no input's path, and its item is skipped. */
  lemma ClassifiedExisting(ds: seq<Derived>, c: Checks)
    ensures NoDuplicates(ClassifyAll(ds, c).existingPaths)
    ensures var t := ClassifyAll(ds, c);
      forall p :: p in t.existingPaths ==> !c.overwrite && p in c.disk && p !in c.oldPaths
    ensures var t := ClassifyAll(ds, c);
      forall p :: p in t.existingPaths ==> exists k :: 0 <= k < |t.items| && t.items[k].outputPath == Some(p) && t.items[k].skip
  {
    ExistingMeaning(ds, |ds|, c);
    var t := ClassifyAll(ds, c);
    forall p | p in t.existingPaths
      ensures !c.overwrite && p in c.disk && p !in c.oldPaths
      ensures exists k :: 0 <= k < |t.items| && t.items[k].outputPath == Some(p) && t.items[k].skip
    {
      var k :| 0 <= k < |ds| && Blocked(ds, k, c) && ds[k].newPath == p;
      assert t.items[k] == ItemFor(ds, k, c);
    }
  }
}
