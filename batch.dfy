/** What the planner (`src/lib/rename.ts`) and the processor
    (`src/processor.ts`) share: the options, the per-file record with its
    batch index, the template normalisation, the tests that decide which
    metadata and checksums a template needs, and the collaborators both call
    (the `path` module, template evaluation, `ffprobe`, checksums, collators
    and the helpers of `utils.ts` whose code is not part of this model). */
module Batch {
  import opened Wrappers
  import opened Strings
  import opened Utils
  import opened Filesystem
  import Sorting

  datatype SortingMode = Disabled | Lexicographical | Natural

  datatype MissingMetaPolicy = Abort | Skip | Ignore

  /** The profile options both entry points read. */
  datatype Options = Options(
    template: string,
    sorting: SortingMode,
    overwrite: bool,
    emit: bool,
    onMissingMeta: MissingMetaPolicy,
    replacement: string,
    maxLength: int,
    simulate: bool,
    verbose: bool)

  /** Why a run's promise rejects: an `Error` the code itself constructs
      (given by its message), or a collaborator's error passed on unchanged. */
  datatype Rejection = Raised(message: string) | Propagated(error: Thrown)

  // ---------------------------------------------------------------------
  // Template normalisation

  /** `template.replace(/\r?\n/g, '').trim()`. */
  function NormalizeTemplate(template: string): (r: string)
    ensures '\n' !in r
    ensures r != [] ==> !IsWhitespace(r[0]) && !IsWhitespace(r[|r| - 1])
  {
    var once := RemoveNewlines(template);
    TrimMeaning(once);
    Trim(once)
  }

  /** Normalising twice changes nothing. */
  lemma NormalizeIdempotent(template: string)
    ensures NormalizeTemplate(NormalizeTemplate(template)) == NormalizeTemplate(template)
  {
    var t := NormalizeTemplate(template);
    RemoveNewlinesNoop(t);
    TrimIdempotent(RemoveNewlines(template));
  }

  // ---------------------------------------------------------------------
  // Does the template read metadata?  /(^|\W)meta\s*(\.|\[)/

  predicate IsWordChar(c: char) {
    'a' <= c <= 'z' || 'A' <= c <= 'Z' || '0' <= c <= '9' || c == '_'
  }

  /** The first index at or after `k` that is not white space. */
  function SkipWhitespace(t: string, k: nat): (j: nat)
    requires k <= |t|
    ensures k <= j <= |t|
    ensures forall m :: k <= m < j ==> IsWhitespace(t[m])
    ensures j < |t| ==> !IsWhitespace(t[j])
    decreases |t| - k
  {
    if k < |t| && IsWhitespace(t[k]) then SkipWhitespace(t, k + 1) else k
  }

  /** The regular expression matches with `meta` starting at `k`: at the start
      or after a non-word character, followed by optional white space and a
      `.` or a `[`. */
  predicate MetaAccessAt(t: string, k: nat) {
    && k + 4 <= |t|
    && t[k..k + 4] == "meta"
    && (k == 0 || !IsWordChar(t[k - 1]))
    && var j := SkipWhitespace(t, k + 4);
       j < |t| && (t[j] == '.' || t[j] == '[')
  }

  /** `extractMeta`: the template reads a property of `meta`. */
  predicate MentionsMeta(t: string) {
    exists k | 0 <= k < |t| :: MetaAccessAt(t, k)
  }

  lemma MentionsMetaExample(t: string)
    requires t == "${meta.title}"
    ensures MentionsMeta(t)
  {
    assert t[2..6] == "meta";
    assert MetaAccessAt(t, 2);
  }

  lemma MentionsMetaCounterExample(t: string)
    requires t == "${metadata}"
    ensures !MentionsMeta(t)
  {
    forall k | 0 <= k < |t| ensures !MetaAccessAt(t, k) {
      if k == 2 {
        assert SkipWhitespace(t, 6) == 6;
      } else if k + 4 <= |t| {
        assert t[k..k + 4][0] == t[k];
      }
    }
  }

  /** White space skipped inside `v` is skipped the same way once `v` sits
      inside a longer text. */
  lemma {:induction false} SkipWhitespaceShift(u: string, v: string, w: string, k: nat)
    requires k <= |v| && SkipWhitespace(v, k) < |v|
    ensures SkipWhitespace(u + v + w, |u| + k) == |u| + SkipWhitespace(v, k)
    decreases |v| - k
  {
    var t := u + v + w;
    assert t[|u| + k] == v[k];
    if IsWhitespace(v[k]) {
      SkipWhitespaceShift(u, v, w, k + 1);
    }
  }

  /** A read of `meta` at `k` in `v` is one at `|u| + k` in `u + v + w`,
      when the text in front ends in a non-word character. */
  lemma MetaAccessShift(u: string, v: string, w: string, k: nat)
    requires MetaAccessAt(v, k)
    requires u == [] || !IsWordChar(u[|u| - 1])
    ensures MetaAccessAt(u + v + w, |u| + k)
  {
    var t := u + v + w;
    SkipWhitespaceShift(u, v, w, k + 4);
    assert t[|u| + k..|u| + k + 4] == v[k..k + 4];
    if k > 0 {
      assert t[|u| + k - 1] == v[k - 1];
    } else if u != [] {
      assert t[|u| - 1] == u[|u| - 1];
    }
  }

  /** Text around a read of `meta` never hides it, as long as the text in
      front of it ends in a non-word character. */
  lemma MentionsMetaInContext(u: string, v: string, w: string)
    requires MentionsMeta(v)
    requires u == [] || !IsWordChar(u[|u| - 1])
    ensures MentionsMeta(u + v + w)
  {
    var k :| 0 <= k < |v| && MetaAccessAt(v, k);
    MetaAccessShift(u, v, w, k);
  }

  /** A template that reads metadata spells `meta`. */
  lemma MentionsMetaSpellsMeta(t: string)
    requires MentionsMeta(t)
    ensures Contains(t, "meta")
  {
    var k :| 0 <= k < |t| && MetaAccessAt(t, k);
    assert OccursAt(t, "meta", k);
  }

  // ---------------------------------------------------------------------
  // Which checksums does the template need?

  datatype Hash = Crc32 | Md5 | Sha1 | Sha256 | Sha512
  {
    function Name(): string {
      match this
      case Crc32 => "crc32"
      case Md5 => "md5"
      case Sha1 => "sha1"
      case Sha256 => "sha256"
      case Sha512 => "sha512"
    }

    /** `type.toUpperCase()`. */
    function UpperName(): string {
      match this
      case Crc32 => "CRC32"
      case Md5 => "MD5"
      case Sha1 => "SHA1"
      case Sha256 => "SHA256"
      case Sha512 => "SHA512"
    }
  }

  const AllHashes: seq<Hash> := [Crc32, Md5, Sha1, Sha256, Sha512]

  function FilterHashes(hashes: seq<Hash>, lowered: string): (r: seq<Hash>)
    ensures forall h :: h in r <==> h in hashes && Contains(lowered, h.Name())
    ensures |r| <= |hashes|
  {
    if hashes == [] then []
    else (if Contains(lowered, hashes[0].Name()) then [hashes[0]] else []) + FilterHashes(hashes[1..], lowered)
  }

  /** `hashesToSum`: the algorithms whose name occurs in the lower-cased
      template, in the order crc32, md5, sha1, sha256, sha512. Lower-casing
      only the ASCII letters is exact here: no other character lower-cases
      to a letter of these names. */
  function HashesToSum(template: string): (r: seq<Hash>)
    ensures forall h :: h in r <==> Contains(AsciiLower(template), h.Name())
  {
    FilterHashes(AllHashes, AsciiLower(template))
  }

  // ---------------------------------------------------------------------
  // Batch index fields: i, I, n, N

  /** `${files.length - 1}`.length: the width of `I` (2 for an empty batch, because of the minus sign). */
  function IPadSize(count: nat): nat { |IntToString(count - 1)| }

  /** `${files.length}`.length: the width of `N`. */
  function NPadSize(count: nat): nat { |IntToString(count)| }

  datatype BatchIndex = BatchIndex(i: nat, I: string, n: nat, N: string)

  /** The index fields of the `i`-th of `count` files: `I` is `i` and `N` is
      `n = i + 1`, both zero-padded. */
  function IndexOf(i: nat, count: nat): BatchIndex {
    BatchIndex(i, ZeroPad(i, IPadSize(count)), i + 1, ZeroPad(i + 1, NPadSize(count)))
  }

  /** In a batch every `I` has the width of the largest index and every `N`
      the width of the batch size, and the digits still spell `i` and `i + 1`. */
  lemma IndexWidths(i: nat, count: nat)
    requires i < count
    ensures IndexOf(i, count).n == IndexOf(i, count).i + 1
    ensures |IndexOf(i, count).I| == IPadSize(count)
    ensures |IndexOf(i, count).N| == NPadSize(count)
    ensures AllDigits(IndexOf(i, count).I) && DecimalValue(IndexOf(i, count).I) == i
    ensures AllDigits(IndexOf(i, count).N) && DecimalValue(IndexOf(i, count).N) == i + 1
  {
    IndexIWidth(i, count);
    IndexNWidth(i, count);
    ZeroPadMeaning(i, IPadSize(count));
    ZeroPadMeaning(i + 1, NPadSize(count));
  }

  lemma IndexIWidth(i: nat, count: nat)
    requires i < count
    ensures |IndexOf(i, count).I| == IPadSize(count)
  {
    PaddedWidth(i, count - 1);
  }

  lemma IndexNWidth(i: nat, count: nat)
    requires i < count
    ensures |IndexOf(i, count).N| == NPadSize(count)
  {
    PaddedWidth(i + 1, count);
    assert IndexOf(i, count).N == ZeroPad(i + 1, |IntToString(count)|);
  }

  /** A number no larger than `bound`, padded to the width of `bound`, has exactly that width. */
  lemma PaddedWidth(v: nat, bound: nat)
    requires v <= bound
    ensures |ZeroPad(v, |IntToString(bound)|)| == |IntToString(bound)|
  {
    assert IntToString(bound) == NatToDecimal(bound);
    WidthMonotone(v, bound);
    ZeroPadMeaning(v, |IntToString(bound)|);
  }

  /** `file.pad(value, length, padString = '0')` of the planner, for a value
      already converted to its string. */
  function Pad(value: string, length: int, padString: string): (r: string)
    ensures padString != [] ==> |r| == Max(|value|, length)
    ensures |r| >= |value| && r[|r| - |value|..] == value
  {
    PadStart(value, length, padString)
  }

  /** `${value}` padded with zeros to the width of `${bound}`. */
  function PadTo(value: int, bound: int): string {
    PadStart(IntToString(value), |IntToString(bound)|, "0")
  }

  /** A number no larger than `bound`, padded to the width of `bound`, is
      made of digits that spell it and has exactly that width. */
  lemma PadToWidth(value: nat, bound: nat)
    requires value <= bound
    ensures |PadTo(value, bound)| == |IntToString(bound)|
    ensures AllDigits(PadTo(value, bound)) && DecimalValue(PadTo(value, bound)) == value
  {
    ZeroPadMeaning(value, |IntToString(bound)|);
    PaddedWidth(value, bound);
  }

  /** `offsetI(amount)` of the processor: `i + amount`, padded to the width
      of `files.length - 1 + amount`; for `amount >= 0` its width and digits
      are those `PadToWidth` gives. */
  function OffsetI(i: nat, count: nat, amount: int): string {
    PadTo(i + amount, count - 1 + amount)
  }

  /** `offsetN(amount)` of the processor: `n + amount`, padded to the width
      of `files.length + amount`. */
  function OffsetN(i: nat, count: nat, amount: int): string {
    PadTo(i + 1 + amount, count + amount)
  }

  // ---------------------------------------------------------------------
  // File records and collaborators

  /** The parts of node's `path` module the code calls. */
  datatype PathOps = PathOps(
    sep: string,
    extname: string -> string,
    dirname: string -> string,
    basename: string -> string,
    basenameWithout: (string, string) -> string,
    resolve: (string, string) -> string,
    join: (string, string) -> string)

  /** One input with what the template can read about it. */
  datatype FileRecord = FileRecord(
    path: string,
    basename: string,
    filename: string,
    extname: string,
    ext: string,
    dirname: string,
    dirbasename: string,
    stat: StatData,
    isfile: bool,
    isdirectory: bool,
    index: Option<BatchIndex>,
    rawMeta: Option<Value>,
    meta: Option<Value>,
    checksums: map<string, string>)

  /** The record built from a path and its `stat`: `ext` is `extname` without its leading dot. */
  function MakeRecord(path: string, node: Node, paths: PathOps): (r: FileRecord)
    ensures r.path == path && r.stat == node.stat
    ensures r.isfile == node.File? && r.isdirectory == node.Dir?
    ensures r.extname != [] && r.extname[0] == '.' ==> ['.'] + r.ext == r.extname
    ensures !(r.extname != [] && r.extname[0] == '.') ==> r.ext == r.extname
    ensures r.index.None? && r.meta.None? && r.rawMeta.None? && r.checksums == map[]
  {
    var extname := paths.extname(path);
    var dirname := paths.dirname(path);
    var ext := if extname != [] && extname[0] == '.' then Slice(extname, 1, |extname|) else extname;
    assert extname != [] && extname[0] == '.' ==> ['.'] + ext == extname;
    FileRecord(path, paths.basename(path), paths.basenameWithout(path, extname), extname, ext, dirname,
               paths.basename(dirname), node.stat, node.File?, node.Dir?, None, None, None, map[])
  }

  /** The variables one file's template sees: the batch-wide ones and the
      file's own, which win on a clash. */
  datatype CommonVariables = CommonVariables(
    starttime: int,
    files: seq<FileRecord>,
    platform: map<string, string>,
    commondir: Option<string>)

  datatype Variables = Variables(common: CommonVariables, file: FileRecord)

  /** What evaluating a template gives: the text, and the names of the
      properties of `meta` it read, in the order it read them. */
  datatype Expansion = Expansion(text: string, metaReads: seq<string>)

  /** The collaborators. Each is a function of its arguments; what they do
      inside is not part of this model. */
  datatype Env = Env(
    paths: PathOps,
    expand: (string, Variables) -> Result<Expansion, Thrown>,
    probe: string -> Result<Value, Thrown>,
    checksum: (string, Hash) -> Result<string, Thrown>,
    collate: (string, string) -> int,
    naturalCollate: (string, string) -> int,
    isSamePath: (string, string) -> bool,
    normalizePath: string -> string,
    sanitizePath: (string, string, int) -> string,
    findCommonDirectory: seq<string> -> Option<string>,
    filenamify: (string, string) -> string,
    platformNames: seq<string>,
    platformPath: string -> string)

  /** The platform folders a template names (`template.includes(name)`), each looked up once. */
  function PlatformVariables(template: string, names: seq<string>, lookup: string -> string): (r: map<string, string>)
    ensures forall name :: name in r <==> name in names && Contains(template, name)
    ensures forall name :: name in r ==> r[name] == lookup(name)
  {
    if names == [] then map[]
    else
      var rest := PlatformVariables(template, names[1..], lookup);
      if Contains(template, names[0]) then rest[names[0] := lookup(names[0])] else rest
  }

  /** `files.sort((a, b) => collator.compare(a.path, b.path))` for the chosen collator, or no sort. */
  function SortFiles(files: seq<FileRecord>, mode: SortingMode, env: Env): (r: seq<FileRecord>)
    ensures multiset(r) == multiset(files)
    ensures mode == Disabled ==> r == files
  {
    match mode
    case Disabled => files
    case Lexicographical => Sorting.Sort(files, (a: FileRecord, b: FileRecord) => env.collate(a.path, b.path))
    case Natural => Sorting.Sort(files, (a: FileRecord, b: FileRecord) => env.naturalCollate(a.path, b.path))
  }

  /** Stating every input, in order, as the first loop of both entry points
      does; the first path with nothing at it makes `stat` throw. */
  method CollectFiles(inputs: seq<string>, disk: Nodes, paths: PathOps) returns (r: Result<seq<FileRecord>, string>)
    ensures r.Success? <==> forall k :: 0 <= k < |inputs| ==> inputs[k] in disk
    ensures r.Success? ==> |r.value| == |inputs|
    ensures r.Success? ==> forall k :: 0 <= k < |inputs| ==> r.value[k] == MakeRecord(inputs[k], disk[inputs[k]], paths)
    ensures r.Success? ==> AllStated(inputs, disk) && r.value == Records(inputs, disk, paths)
    ensures r.Failure? ==> exists k :: (
      && 0 <= k < |inputs| && inputs[k] !in disk
      && r.error == "ENOENT: no such file or directory, stat '" + inputs[k] + "'"
      && forall j :: 0 <= j < k ==> inputs[j] in disk)
  {
    var files: seq<FileRecord> := [];
    for k := 0 to |inputs|
      invariant |files| == k
      invariant forall j :: 0 <= j < k ==> inputs[j] in disk && files[j] == MakeRecord(inputs[j], disk[inputs[j]], paths)
    {
      var path := inputs[k];
      if path !in disk {
        return Failure("ENOENT: no such file or directory, stat '" + path + "'");
      }
      files := files + [MakeRecord(path, disk[path], paths)];
    }
    r := Success(files);
  }

  /** Every input is on disk. */
  predicate AllStated(inputs: seq<string>, disk: Nodes) {
    forall k :: 0 <= k < |inputs| ==> inputs[k] in disk
  }

  /** The records `stat` gives for the inputs, in input order. */
  function Records(inputs: seq<string>, disk: Nodes, paths: PathOps): seq<FileRecord>
    requires AllStated(inputs, disk)
  {
    seq(|inputs|, k requires 0 <= k < |inputs| => MakeRecord(inputs[k], disk[inputs[k]], paths))
  }

  /** The records with their batch indices. */
  function Indexed(files: seq<FileRecord>): seq<FileRecord> {
    seq(|files|, k requires 0 <= k < |files| => files[k].(index := Some(IndexOf(k, |files|))))
  }

  /** The batch as both loops over files receive it: stated, sorted and indexed. */
  function Staged(inputs: seq<string>, sorting: SortingMode, env: Env, disk: Nodes): seq<FileRecord>
    requires AllStated(inputs, disk)
  {
    Indexed(SortFiles(Records(inputs, disk, env.paths), sorting, env))
  }

  /** The first part of the populate loop: every file gets its batch index. */
  method AssignIndices(files: seq<FileRecord>) returns (r: seq<FileRecord>)
    ensures |r| == |files|
    ensures forall k :: 0 <= k < |files| ==> r[k] == files[k].(index := Some(IndexOf(k, |files|)))
    ensures r == Indexed(files)
  {
    r := files;
    for i := 0 to |files|
      invariant |r| == |files|
      invariant forall k :: 0 <= k < i ==> r[k] == files[k].(index := Some(IndexOf(k, |files|)))
      invariant forall k :: i <= k < |files| ==> r[k] == files[k]
    {
      r := r[i := r[i].(index := Some(IndexOf(i, |files|)))];
    }
  }

  /** The checksums a file gets, one algorithm after another: for each, its
      value under the lower-case name and the upper-cased value under the
      upper-case name; the first failing digest is what the caller throws. */
  function ChecksumsOf(path: string, hashes: seq<Hash>, env: Env): Result<map<string, string>, Thrown>
    decreases |hashes|
  {
    if hashes == [] then Success(map[])
    else match ChecksumsOf(path, hashes[..|hashes| - 1], env)
      case Failure(e) => Failure(e)
      case Success(sums) =>
        match env.checksum(path, hashes[|hashes| - 1])
        case Failure(e) => Failure(e)
        case Success(value) => Success(PutSum(sums, hashes[|hashes| - 1], value))
  }

  /** The checksum loop of a file. */
  method ComputeChecksums(path: string, hashes: seq<Hash>, env: Env) returns (r: Result<map<string, string>, Thrown>)
    ensures r == ChecksumsOf(path, hashes, env)
  {
    r := Success(map[]);
    var k := 0;
    while k < |hashes| && r.Success?
      invariant k <= |hashes| && r == ChecksumsOf(path, hashes[..k], env)
    {
      var sum := env.checksum(path, hashes[k]);
      ChecksumsNext(path, hashes, k, env);
      r := if sum.Failure? then Failure(sum.error) else Success(PutSum(r.value, hashes[k], sum.value));
      k := k + 1;
    }
    if r.Failure? {
      ChecksumsStop(path, hashes, k, env);
    } else {
      assert hashes[..k] == hashes;
    }
  }

  /** One more algorithm after a run of successful ones. */
  lemma ChecksumsNext(path: string, hashes: seq<Hash>, k: nat, env: Env)
    requires k < |hashes| && ChecksumsOf(path, hashes[..k], env).Success?
    ensures var sum := env.checksum(path, hashes[k]);
      ChecksumsOf(path, hashes[..k + 1], env)
        == if sum.Failure? then Failure(sum.error)
           else Success(PutSum(ChecksumsOf(path, hashes[..k], env).value, hashes[k], sum.value))
  {
    assert hashes[..k + 1][..k] == hashes[..k];
  }

  /** Once a digest has failed, the later algorithms change nothing. */
  lemma {:induction false} ChecksumsStop(path: string, hashes: seq<Hash>, k: nat, env: Env)
    requires k <= |hashes| && ChecksumsOf(path, hashes[..k], env).Failure?
    ensures ChecksumsOf(path, hashes, env) == ChecksumsOf(path, hashes[..k], env)
    decreases |hashes| - k
  {
    if k < |hashes| {
      var init := hashes[..|hashes| - 1];
      assert init[..k] == hashes[..k];
      ChecksumsStop(path, init, k, env);
    } else {
      assert hashes[..k] == hashes;
    }
  }

  /** The checksums succeed exactly when every digest does; then every
      algorithm's two fields hold its value and its upper-cased value, and
      they are the only fields written. A failure is the error of one of the
      digests. */
  lemma {:induction false} ChecksumsMeaning(path: string, hashes: seq<Hash>, env: Env)
    ensures ChecksumsOf(path, hashes, env).Success? <==> forall h :: h in hashes ==> env.checksum(path, h).Success?
    ensures var r := ChecksumsOf(path, hashes, env);
      r.Success? ==>
        && r.value.Keys == SumNames(hashes)
        && forall h :: h in hashes ==> SumsHold(r.value, h, env.checksum(path, h).value)
    ensures var r := ChecksumsOf(path, hashes, env);
      r.Failure? ==> exists h :: h in hashes && env.checksum(path, h) == Failure(r.error)
    decreases |hashes|
  {
    if hashes != [] {
      var init, last := hashes[..|hashes| - 1], hashes[|hashes| - 1];
      ChecksumsMeaning(path, init, env);
      assert hashes == init + [last];
      assert forall h :: h in hashes <==> h in init || h == last;
      var prev := ChecksumsOf(path, init, env);
      if prev.Success? && env.checksum(path, last).Success? {
        var value := env.checksum(path, last).value;
        SumNamesSnoc(init, last);
        forall h | h in hashes ensures SumsHold(PutSum(prev.value, last, value), h, env.checksum(path, h).value) {
          if h in init {
            PutSumKeeps(prev.value, last, value, h, env.checksum(path, h).value);
          }
        }
      }
    }
  }

  /** `file[type] = checksum; file[type.toUpperCase()] = checksum.toUpperCase()`. */
  function PutSum(sums: map<string, string>, h: Hash, value: string): (r: map<string, string>)
    ensures SumsHold(r, h, value)
    ensures r.Keys == sums.Keys + {h.Name(), h.UpperName()}
  {
    NamesDistinct();
    sums[h.Name() := value][h.UpperName() := AsciiUpper(value)]
  }

  ghost predicate SumsHold(sums: map<string, string>, h: Hash, value: string) {
    && h.Name() in sums && sums[h.Name()] == value
    && h.UpperName() in sums && sums[h.UpperName()] == AsciiUpper(value)
  }

  /** The keys a list of algorithms puts on a file: each algorithm's name
      and its upper-case name. */
  function SumNames(hashes: seq<Hash>): (r: set<string>)
    ensures forall h :: h in hashes ==> h.Name() in r && h.UpperName() in r
  {
    if hashes == [] then {}
    else SumNames(hashes[..|hashes| - 1]) + {hashes[|hashes| - 1].Name(), hashes[|hashes| - 1].UpperName()}
  }

  lemma SumNamesSnoc(hashes: seq<Hash>, h: Hash)
    ensures SumNames(hashes + [h]) == SumNames(hashes) + {h.Name(), h.UpperName()}
  {
    assert (hashes + [h])[..|hashes|] == hashes;
  }

  /** Storing one algorithm's sums keeps those of every other algorithm (and of
      the same one, when the value is the same). */
  lemma PutSumKeeps(sums: map<string, string>, h: Hash, value: string, g: Hash, previous: string)
    requires SumsHold(sums, g, previous)
    requires g == h ==> value == previous
    ensures SumsHold(PutSum(sums, h, value), g, previous)
  {
    NamesDistinct();
  }

  /** The ten field names are pairwise distinct, so no checksum overwrites another. */
  lemma NamesDistinct()
    ensures forall h: Hash, g: Hash :: h.Name() != g.UpperName()
    ensures forall h: Hash, g: Hash :: h != g ==> h.Name() != g.Name() && h.UpperName() != g.UpperName()
  {
  }

  /** The names a template read from `meta` that the proxy reported missing,
      in the order of the reads (what `onMissingProp` collects). */
  function MissingProps(meta: Value, accessed: seq<string>): (r: seq<string>)
    ensures |r| <= |accessed|
  {
    if accessed == [] then []
    else
      (if ProxyGet(meta, StringKey(accessed[0])).CallsOnMissingProp? then [accessed[0]] else [])
      + MissingProps(meta, accessed[1..])
  }

  /** A name is reported exactly when the template read it and the proxy
      found nothing (undefined or null) under it. */
  lemma {:induction false} MissingPropsMeaning(meta: Value, accessed: seq<string>)
    ensures forall p :: p in MissingProps(meta, accessed) <==> p in accessed && ProxyGet(meta, StringKey(p)).CallsOnMissingProp?
  {
    if accessed != [] {
      MissingPropsMeaning(meta, accessed[1..]);
      assert forall p :: p in accessed <==> p == accessed[0] || p in accessed[1..];
    }
  }
}
