# drovp/rename in Dafny

A model of the core of drovp/rename, a plugin that renames batches of files
from a template, and proofs about that model. It covers three parts:

- **The planner.** This is `createRenameTable` in `src/lib/rename.ts`, and the
  preview shows its output.
  - It states and sorts the inputs and gives every file its batch index
    (`i`, `I`, `n`, `N`).
  - It fetches metadata and checksums when the template needs them.
  - It runs the template for every file and classifies each resulting item:
    missing metadata under the `abort`, `skip` and `ignore` policies; a
    clash with an earlier file's destination (the first claimant wins); and
    a destination that already exists while overwrite is off.
  - It returns the `RenameTable`: items, warnings, errors, the common
    directories and the existing destinations.
- **The direct run.** This is the default export of `src/processor.ts`.
  - It plans the same way, except that the first problem ends the run.
  - It cuts file names to `maxLength` while keeping the extension.
  - It then renames on the filesystem, keeping a rewind log (newest step
    first), a queue of leftovers to delete, and the source directories to
    remove once they are empty.
  - When the renaming loop throws, it replays the log. When the loop goes
    through, it deletes the leftovers and removes the directories longest
    path first.
- **The helpers of `src/lib/utils.ts`.** These are `eem`, `uid`,
  `commonPathsRoot` and the `get` trap of `makeUndefinedProxy`.

## Files

| file | what it holds |
|---|---|
| `wrappers.dfy` | `Option` and `Result` |
| `strings.dfy` | the JavaScript string operations the code relies on: `String(n)`, `padStart`, `slice`, `lastIndexOf`, `trim`, the `\r?\n` removal, `includes`, `join`, case mapping |
| `utils.dfy` | `eem`, `uid`, `commonPathsRoot`, the proxy's `get` |
| `sorting.dfy` | `Array.prototype.sort` under a comparator, as a stable insertion sort |
| `filesystem.dfy` | the filesystem as a map from path to node, as a class whose methods are the five mutating calls the run makes; the rewind steps and what replaying them does |
| `batch.dfy` | what both entry points share: options, the file record, template normalisation, the `meta` and checksum tests, batch indices, checksums, the collaborators |
| `rename.dfy` | `createRenameTable` |
| `renaming.dfy` | the renaming loop of the direct run: backup, destination directory, move, with the rewind log and the deletion queue read off the journal of calls |
| `processor.dfy` | the direct run |

The collaborators are fields of the datatype `Batch.Env`. Each field is a
function the model cannot see inside. They are:

- the `path` module;
- template evaluation (`expandTemplateLiteral`);
- `ffprobe`, `checksumFile` and the collators;
- `filenamify`;
- the helpers `sanitizePath`, `findCommonDirectory`, `isSamePath` and
  `normalizePath`, which are imported from `utils.ts` but whose code is not
  part of this model.

The filesystem the planner reads is a parameter `disk`. The run works on a
`Filesystem.FileSystem` object.

Where the documented behaviour of the system and the code disagree, the model
follows the code:

- **Clashing destinations.** Only the later claimant of a destination is
  marked, not both items (`src/lib/rename.ts:271-287`).
- **No staging renames.** The run does not first move every source to a
  temporary name: it renames `path` to `newPath` directly
  (`src/processor.ts:318-328`).
- **The run truncates names itself.** It calls `filenamify` and then cuts
  the name to `maxLength` itself (`src/processor.ts:217-228`). It does not
  call `sanitizePath`.

## Model

| member | source | states |
|---|---|---|
| Strings.NatToDecimal | src/processor.ts:155-157 | `${n}` of a natural number is non-empty, made of decimal digits, and starts with `0` only for 0 |
| Strings.IntToString | src/processor.ts:141-142 | `${k}` of any integer (such as `files.length - 1`) is non-empty, and all digits when `k >= 0` |
| Strings.DecimalRoundTrip | src/processor.ts:155-157 | the digits `${n}` writes spell `n` back |
| Strings.WidthMonotone | src/processor.ts:141-142 | a larger number never has fewer digits, so no index is wider than the pad size of the batch |
| Strings.PadStart | src/lib/rename.ts:187 | `padStart(target, fill)`: the length is `max(len, target)` (unchanged for an empty filler); the original string ends the result; the front is the filler repeated |
| Strings.ZeroPadMeaning | src/processor.ts:155-157 | `${n}`.padStart(w, '0') is made of digits that spell `n`, and is as wide as `w` or as `n` needs |
| Strings.Slice | src/processor.ts:221-226 | `slice(begin, end)` with an in-range start is the substring up to `min(end, length)`; it is never longer than the string |
| Strings.LastIndexOf | src/processor.ts:220 | `-1` exactly when the character does not occur; otherwise an index holding it with no later occurrence |
| Strings.TrimStartMeaning | src/processor.ts:72 | `trimStart` drops exactly the leading white space |
| Strings.TrimEndMeaning | src/processor.ts:72 | `trimEnd` drops exactly the trailing white space |
| Strings.TrimMeaning | src/processor.ts:72 | `trim` gives the piece between the leading and the trailing white space, and it neither starts nor ends with white space |
| Strings.TrimIdempotent | src/processor.ts:72 | trimming twice is trimming once |
| Strings.RemoveNewlines | src/processor.ts:72 | after `replace(/\r?\n/g, '')` no line feed is left, and the text is no longer |
| Strings.RemoveNewlinesNoop | src/processor.ts:72 | text without a line feed is left as it is |
| Strings.AsciiLower | src/processor.ts:143 | `toLowerCase` maps every character, keeping the length |
| Strings.AsciiUpper | src/processor.ts:202 | `toUpperCase` maps every character, keeping the length |
| Utils.Eem | src/lib/utils.ts:13-15 | an `Error` gives its message, or its stack when asked for and not empty; anything else gives its string conversion |
| Utils.Base36Digit | src/lib/utils.ts:73 | `d.toString(36)` of a value below 36 is one character of `0-9a-z` |
| Utils.Base36DigitBijective | src/lib/utils.ts:73 | every character of `0-9a-z` is the digit of exactly one value below 36 |
| Utils.Uid | src/lib/utils.ts:70-74 | `uid(size)` has exactly `size` characters, each of `0-9a-z`, whatever the random draws |
| Utils.SkipSeparators | src/lib/utils.ts:19-20 | a run of `/` or `\` is dropped from the front, leaving a suffix that starts with no separator |
| Utils.SplitPath | src/lib/utils.ts:19-20 | splitting on runs of `/` or `\` gives at least one segment, and no segment holds a separator |
| Utils.SplitPlain | src/lib/utils.ts:19-20 | a string without separators splits into itself |
| Utils.SplitSegment | src/lib/utils.ts:19-20 | a segment followed by a separator splits off as the first segment |
| Utils.SplitTwoSegments | src/lib/utils.ts:19-20 | `/dir/base` splits into the empty root segment, `dir` and `base` |
| Utils.CommonPrefixIsLongest | src/lib/utils.ts:21-26 | the kept segments start both lists, and the next segments (when both exist) differ |
| Utils.CommonPrefixGreatest | src/lib/utils.ts:21-26 | any list both inputs start with is a prefix of the kept segments |
| Utils.CommonPrefixSymmetric | src/lib/utils.ts:23-25 | the kept segments do not depend on the order of the two paths |
| Utils.CommonPrefixAt | src/lib/utils.ts:23-26 | a shared prefix that stops at the end of a list or at a mismatch is exactly the kept segments |
| Utils.CommonPathsRoot | src/lib/utils.ts:17-29 | the loop's result is the join, with `Path.sep`, of the longest common segment prefix of the two split paths |
| Utils.SegmentWise | src/lib/utils.ts:21-26 | segments are compared whole: `/foo/ba` and `/foo/bar` share only `['', 'foo']` |
| Utils.Lookup | src/lib/utils.ts:99 | `target[prop]` on an object is its own field when it has one, and `undefined` otherwise; on any other non-nullish target it is `undefined` |
| Utils.ProxyGetAsWritten | src/lib/utils.ts:97-104 | the trap as written: `toJSON` gives the target; a nullish target throws for every other key; `onMissingTarget` is never called |
| Utils.ProxyGet | src/lib/utils.ts:97-104 | the trap with the null check first: `toJSON` gives the target; a symbol gives `undefined`; a nullish target calls `onMissingTarget`; a nullish value calls `onMissingProp(prop, value)` with the looked-up value; a present value is returned as it is |
| Utils.ProxyGetAgrees | src/lib/utils.ts:97-104 | on any non-nullish target the two versions of the trap agree |
| Utils.ProxyGetNullTargetThrows | src/lib/utils.ts:99-101 | with a null target, reading `title` throws as written, where `onMissingTarget` was meant |
| Utils.ProxyReportsMissing | src/lib/utils.ts:102-103 | a string property of an object is reported missing exactly when it is absent or nullish |
| Sorting.Insert | src/processor.ts:103 | inserting adds exactly one element and loses none |
| Sorting.Sort | src/processor.ts:100-112 | sorting is a permutation of the input |
| Sorting.SortSorted | src/processor.ts:103 | under a total preorder comparator, the result is ordered by it |
| Sorting.InsertSorted | src/processor.ts:103 | inserting into an ordered list keeps it ordered |
| Filesystem.Move | src/processor.ts:319 | `rename(from, to)`: the node moves to `to` and leaves `from`; every other path is unchanged |
| Filesystem.EnsureDir | src/processor.ts:313 | `mkdir -p`: the path is then a directory; an existing directory is left as it is; every other path is unchanged |
| Filesystem.MoveBack | src/processor.ts:387 | moving to a free path and back gives the original map |
| Filesystem.FileSystem.constructor | src/processor.ts:274 | the run starts from the given nodes with an empty journal |
| Filesystem.FileSystem.StatIfExists | src/processor.ts:294 | `statIfExists` gives the node exactly when one is there |
| Filesystem.FileSystem.Rename | src/processor.ts:288 | a missing source fails with `ENOENT`; success moves the node; failure changes nothing; the call is journalled |
| Filesystem.FileSystem.Mkdir | src/processor.ts:313 | a file in the way fails with `EEXIST`; success makes the directory; failure changes nothing |
| Filesystem.FileSystem.Copy | src/processor.ts:326 | success puts a copy of the source at the destination; failure may leave a partial node there, and changes nothing else |
| Filesystem.FileSystem.Remove | src/lib/utils.ts:66-68 | `deletePath` (`rm` with `force`) removes the path on success; failure changes nothing |
| Filesystem.FileSystem.Rmdir | src/processor.ts:368 | success means the path was a directory and is gone; failure changes nothing |
| Filesystem.Replay | src/processor.ts:383-394 | the replay completes at most all steps, and stops only at a step whose action fails |
| Filesystem.ReplayStep | src/processor.ts:383-394 | a first step that succeeds adds one to the replay of the rest |
| Filesystem.ReplayAppend | src/processor.ts:383-394 | a completed replay followed by one more step is the replay of the longer log |
| Filesystem.UndoMove | src/processor.ts:319-320 | the logged `rename{newPath -> path}` step exactly undoes a move to a free path whose source's parent is a directory |
| Filesystem.UndoAdd | src/processor.ts:313-314 | the logged `delete` step exactly undoes adding a node at a free path |
| Filesystem.RestoresAfterUndo | src/processor.ts:287 | putting the undo step of an action in front (`unshift`) of a log that restores the earlier state gives a log that restores from the later state |
| Filesystem.Rewind | src/processor.ts:383-394 | the replay runs the steps in log order; with no failure the filesystem is the full replay; after a failure, exactly the completed steps were replayed (plus possibly the parent a failed rename made), the failure is the code of the last call, which failed, and every earlier call of the replay succeeded |
| Filesystem.RewindOne | src/processor.ts:384-393 | one step: a `rename` step runs `mkdir -p` of the destination's parent and then `rename`, a `delete` step runs `rm`; success is the step's effect; a failure is the code of the last call, which failed, and leaves the files alone or with only the parent made |
| Filesystem.RunAppend | src/processor.ts:277-329 | the filesystem after two runs of calls, and whether both were exactly undoable, are those of the joined run |
| Batch.NormalizeTemplate | src/processor.ts:72 | the normalised template has no line feed and neither starts nor ends with white space |
| Batch.NormalizeIdempotent | src/processor.ts:72 | normalising twice is normalising once |
| Batch.SkipWhitespace | src/processor.ts:144 | `\s*`: the first non-white-space index at or after the start |
| Batch.MentionsMetaExample | src/processor.ts:144 | `${meta.title}` reads metadata |
| Batch.MentionsMetaCounterExample | src/processor.ts:144 | `${metadata}` does not: the regular expression needs `.` or `[` after `meta` |
| Batch.SkipWhitespaceShift | src/processor.ts:144 | `\s*` matches the same whitespace in a piece of text as in any longer string that contains it |
| Batch.MetaAccessShift | src/processor.ts:144 | a `meta.` or `meta[` access stays an access when text is added after it, and before it when that text ends in a non-word character |
| Batch.MentionsMetaInContext | src/processor.ts:144 | a template that reads `meta` still does inside any longer template whose text before it ends in a non-word character |
| Batch.MentionsMetaSpellsMeta | src/processor.ts:144 | a template that reads `meta` contains the word `meta` |
| Batch.FilterHashes | src/processor.ts:145-147 | an algorithm is kept exactly when it is in the list and its name occurs in the text |
| Batch.HashesToSum | src/processor.ts:143-147 | `hashesToSum` holds exactly the algorithms whose name occurs in the lower-cased template |
| Batch.IndexWidths | src/processor.ts:141-157 | in a batch, `n = i + 1`; every `I` is as wide as `${files.length - 1}` and every `N` as wide as `${files.length}`; their digits spell `i` and `i + 1` |
| Batch.IndexIWidth | src/processor.ts:141-155 | every `I` of a batch has the same width |
| Batch.IndexNWidth | src/processor.ts:142-157 | every `N` of a batch has the same width |
| Batch.PaddedWidth | src/processor.ts:158-159 | a number up to a bound, zero-padded to the bound's width, has exactly that width |
| Batch.Pad | src/lib/rename.ts:187 | `pad(value, length, padString)` ends with the value, and its length is `max(len, length)` for a non-empty filler |
| Batch.PadToWidth | src/processor.ts:158-159 | `offsetI`/`offsetN` with a non-negative amount: the result has the width of the bound and spells the offset index |
| Batch.MakeRecord | src/processor.ts:79-96 | the record of a stated path: its path and stat; `isfile`/`isdirectory` from the node; `ext` is `extname` without a leading dot |
| Batch.PlatformVariables | src/processor.ts:127-129 | exactly the platform folders the template names are looked up, each once |
| Batch.SortFiles | src/processor.ts:100-112 | the sorted files are a permutation of the stated ones; with sorting disabled they keep their order |
| Batch.CollectFiles | src/processor.ts:77-97 | every input is stated in order; success exactly when all exist, and then the result is one record per input, made from its node; otherwise `stat` throws `ENOENT` for the first missing input |
| Batch.AssignIndices | src/processor.ts:150-157 | file `k` gets index `k` of the batch, and nothing else changes |
| Batch.ComputeChecksums | src/processor.ts:198-204 | the checksum loop computes the checksums of the file |
| Batch.ChecksumsNext | src/processor.ts:199-203 | one more algorithm adds its sums, or its error ends the loop |
| Batch.ChecksumsStop | src/processor.ts:199-203 | after a failing digest the remaining algorithms change nothing |
| Batch.ChecksumsMeaning | src/processor.ts:198-204 | the checksums succeed exactly when every digest does; then each algorithm's name holds its value and its upper-case name the upper-cased value, and no other field is written; a failure is one digest's error |
| Batch.PutSum | src/processor.ts:201-202 | one algorithm's two fields are written, and no other key is added |
| Batch.SumNames | src/processor.ts:201-202 | the names written include each algorithm's two names |
| Batch.SumNamesSnoc | src/processor.ts:199-203 | one more algorithm adds its two names |
| Batch.PutSumKeeps | src/processor.ts:201-202 | writing one algorithm's sums keeps those of every other algorithm |
| Batch.NamesDistinct | src/processor.ts:201-202 | the ten field names are pairwise distinct, so no sum overwrites another |
| Batch.MissingProps | src/lib/rename.ts:240-242 | at most one name per read of the template |
| Batch.MissingPropsMeaning | src/lib/rename.ts:240-242 | a name is collected exactly when the template read it and the proxy found nothing under it |
| Rename.MetaProbe | src/lib/rename.ts:195-206 | a directory is refused with its message before probing; otherwise the probe's metadata, or its error's message |
| Rename.PopulateFile | src/lib/rename.ts:190-219 | a file's task succeeds exactly when its metadata does not fail under `abort` and every checksum succeeds; then it stores the metadata (`{}` when probing failed) and the checksums; otherwise it throws the metadata error or a checksum's error |
| Rename.PopulateFiles | src/lib/rename.ts:177-226 | the `pAll` jobs succeed exactly when every file's does, keeping one populated record per file; otherwise the rejection is the first failing job's |
| Rename.PopulatedPaths | src/lib/rename.ts:208-218 | populating keeps every file's path |
| Rename.Derive | src/lib/rename.ts:237-268 | a file's template fails exactly when evaluation throws; otherwise the outcome keeps the file's path and raw metadata, and only a file with metadata can have missing reads |
| Rename.Outcome | src/lib/rename.ts:240-266 | the missing reads are among the template's reads, and none without metadata |
| Rename.DeriveAll | src/lib/rename.ts:229-266 | the outcomes of the first `k` files, one per file |
| Rename.DeriveAllMeaning | src/lib/rename.ts:229-266 | the loop succeeds exactly when every template does, item `j` being file `j`'s outcome; otherwise its error is the first failing template's |
| Rename.DeriveAllNext | src/lib/rename.ts:239-266 | one more file appends its outcome, or its template's error ends the loop |
| Rename.DeriveAllFailed | src/lib/rename.ts:263-265 | once a template has thrown, later files change nothing |
| Rename.FirstClaim | src/lib/rename.ts:271-287 | the file `filesByNewPath` holds for a path is the first earlier item with that output |
| Rename.AfterMissing | src/lib/rename.ts:245-262 | missing reads: `abort` skips with `danger`; `skip` skips with a warning; `ignore` warns without skipping; the text is `Missing meta: ` and the names joined by `, `; no missing read leaves the item as pushed |
| Rename.AfterClash | src/lib/rename.ts:272-284 | a later claimant is skipped with `danger`, any earlier message's text in front of the conflict text |
| Rename.ItemFor | src/lib/rename.ts:234-302 | an item is skipped exactly when it has missing reads (not under `ignore`), clashes or is blocked; it is `danger` exactly when it has missing reads under `abort`, clashes or is blocked |
| Rename.WarningsUpTo | src/lib/rename.ts:258-260 | `warnings` holds exactly the items with missing reads when the policy is not `abort` |
| Rename.ClassifyAll | src/lib/rename.ts:229-303 | the classification has one item per outcome, item `k` as `ItemFor` states |
| Rename.ErrorsMeaning | src/lib/rename.ts:249-302 | an item is in `errors` exactly when it has missing reads under `abort`, clashes or is blocked |
| Rename.ExistingMeaning | src/lib/rename.ts:294-295 | `existingPaths` holds exactly the destinations of blocked items, each once |
| Rename.LaterClaimantClashes | src/lib/rename.ts:271-272 | of two items with one output, the later one clashes |
| Rename.ClassifyFiles | src/lib/rename.ts:229-303 | the expansion loop gives the classification of all outcomes, or throws `Template expansion error: ` with the first failing template's message |
| Rename.TracksClassified | src/lib/rename.ts:229-303 | the loop's variables at the end are the classification |
| Rename.MarkMissing | src/lib/rename.ts:245-262 | one turn's missing-meta handling: the item after it, and the index pushed to `warnings` or `errors` |
| Rename.ClassifyOne | src/lib/rename.ts:230-302 | one turn of the expansion loop keeps the loop's variables equal to the classification of the items so far |
| Rename.ClashTracks | src/lib/rename.ts:271-284 | a clashing item leaves the map alone and is pushed to `errors` |
| Rename.ClaimTracks | src/lib/rename.ts:287 | an unblocked first claimant is recorded in `filesByNewPath` |
| Rename.BlockedTracks | src/lib/rename.ts:287-302 | a blocked first claimant is recorded, skipped with `danger`, pushed to `errors`, and its destination added to `existingPaths` |
| Rename.ClaimStep | src/lib/rename.ts:271-302 | a path nobody claimed: the item is blocked exactly when overwrite is off, the path is not its own, is no input's and exists |
| Rename.ClashStep | src/lib/rename.ts:271-284 | a claimed path: the item clashes with the holder, is not blocked, and gets the conflict message naming the holder |
| Rename.StepLists | src/lib/rename.ts:249-302 | one more item extends `warnings`, `errors` and `existingPaths` by its own entries only |
| Rename.ExistingPrefix | src/lib/rename.ts:295 | a later item does not change `existingPaths` of the earlier ones |
| Rename.PathsOf | src/lib/rename.ts:162 | the paths of the files, in order |
| Rename.PathsPermute | src/lib/rename.ts:125-138 | a permutation of the records permutes their paths |
| Rename.DefinedOutputs | src/lib/rename.ts:305-307 | exactly the non-empty output paths of the items |
| Rename.CommonDir | src/lib/rename.ts:313-316 | `commonDir` is null whenever the common input or output directory is |
| Rename.Normalized | src/lib/rename.ts:102 | `normalizePath` of every input, in order |
| Rename.InputPaths | src/lib/rename.ts:234 | the input paths of the items, in order |
| Rename.StageInputs | src/lib/rename.ts:101-138 | success exactly when every normalised input exists, and then the result is the inputs' records, sorted; the failure is `stat`'s `ENOENT` for a missing one; the records' paths are a permutation of the inputs, in input order when sorting is disabled |
| Rename.PlanTable | src/lib/rename.ts:140-321 | the table is the expansion loop's classification of the batch (its items, warnings, errors and existing paths), one item per file in order; a throwing template rejects with `Template expansion error`; `commonInputDir` is found over the batch's paths; the table is consistent and its common directories are found as the code does |
| Rename.CreateRenameTable | src/lib/rename.ts:87-321 | success exactly when every normalised input exists, every file's populate job passes and the template expands for every file. Each rejection carries its stage's error: `ENOENT` for a missing input, the first failing job's error (metadata under `abort`, a checksum), or `Template expansion error`. The staged batch is the inputs' records sorted and indexed. The table is the expansion loop's classification of the populated batch. `commonInputDir` is found over the inputs' paths. The items are a permutation of the inputs, in input order with sorting disabled, and the table is consistent. `commonOutputDir` is found over the defined outputs, and `commonDir` is null when either directory is |
| Rename.PlanFacts | src/lib/rename.ts:229-303 | the items follow the files and the table the loop builds is consistent |
| Rename.ClassifiedConsistent | src/lib/rename.ts:229-303 | the classification of any batch is consistent |
| Rename.ClassifiedItems | src/lib/rename.ts:249-297 | every item has an output path; every `danger` item is skipped; a later item with an earlier item's output is a skipped `danger` |
| Rename.ClassifiedErrors | src/lib/rename.ts:249-301 | `errors` holds exactly the `danger` items |
| Rename.ClassifiedWarnings | src/lib/rename.ts:255-260 | `warnings` holds only items with a message, never under `abort`, and skipped ones under `skip` |
| Rename.ClassifiedExisting | src/lib/rename.ts:294-302 | `existingPaths` lists each destination once, only with overwrite off; each exists, is no input's path, and its item is skipped |
| Rename.RunningDistinct | src/lib/rename.ts:271-287 | among the items not skipped, no two share an output path |
| Processor.ExtensionOf | src/processor.ts:220-222 | the extension is the suffix from the last `.`, or empty when there is none |
| Processor.BaseOf | src/processor.ts:221 | the name before the extension; base and extension give the name back |
| Processor.Truncate | src/processor.ts:219-228 | a name within `maxLength` is unchanged |
| Processor.TruncateParts | src/processor.ts:223-227 | a long name whose extension is at least `maxLength` is cut to `maxLength`; otherwise the base is cut to `max(1, min(maxLength - ext, base))` and the extension kept |
| Processor.TruncateBound | src/processor.ts:219-228 | the result is never longer than `maxLength` |
| Processor.TruncateKeepsExtension | src/processor.ts:219-228 | with an extension shorter than `maxLength`, the result is a prefix of the base followed by the extension, and keeps at least one base character when there is one |
| Processor.RunMeta | src/processor.ts:161-195 | without `meta` the file keeps its metadata; a directory stops the run; only `skip` passes over the rest of the file's step; with `meta`, a file that goes on has metadata |
| Processor.RunFile | src/processor.ts:150-205 | one file's step passes exactly when neither metadata nor a checksum stops the run; then the file gets its metadata and checksums; otherwise it says how the run stops |
| Processor.PopulateRun | src/processor.ts:150-205 | the loop goes through exactly when every file's step passes, one populated record per file; otherwise the first file whose step does not pass stops it, with its message or its checksum's error |
| Processor.PopulatedPaths | src/processor.ts:150-205 | the populate loop keeps every file's path |
| Processor.RunOutcome | src/processor.ts:208-237 | a `SkipError` arises only under `skip` for a file with metadata; a throwing template stops the run with `Template expansion error: ` and its message |
| Processor.Outcomes | src/processor.ts:208-237 | one template outcome per file |
| Processor.StepEffect | src/processor.ts:239-265 | a planning turn that passes records the file's destination, claims it for the file, and records an existing destination (then overwrite is on and it is no input's path) |
| Processor.PlanUpTo | src/processor.ts:208-266 | a loop that passes gives one destination entry per file |
| Processor.PlanTarget | src/processor.ts:229-265 | a skipped file has no `newPath`; any other file's is its template outcome |
| Processor.PlanOwner | src/processor.ts:265 | every destination is claimed in `newPaths` by its file |
| Processor.PlanClaimed | src/processor.ts:265 | every claimed path is some file's destination |
| Processor.PlanDistinct | src/processor.ts:240-246 | no two files share a destination |
| Processor.PlanRecorded | src/processor.ts:249-262 | an existing destination that is not the file itself passes only with overwrite on and when it is no input's path, and it is recorded |
| Processor.PlanExisting | src/processor.ts:249-250 | every recorded path is some file's existing destination |
| Processor.PlanUpToStops | src/processor.ts:234-245 | once a turn stops the run, later files change nothing |
| Processor.PlanInputOf | src/processor.ts:208-212 | one path and one outcome per file |
| Processor.PlanOne | src/processor.ts:209-265 | one turn of the template loop computes the planning step of its file |
| Processor.PlanRun | src/processor.ts:208-266 | the template loop's result is the plan of the whole batch |
| Processor.PlannedFacts | src/processor.ts:239-265 | a finished plan has distinct destinations; every recorded path exists, is a destination, and is no input's path |
| Processor.CommonDirOf | src/processor.ts:132-133 | `commondir` is the first file's directory narrowed by `commonPathsRoot` with each later path; an empty batch throws reading `files[0].dirname` |
| Renaming.MovedKept | src/processor.ts:277-329 | a recorded move stays recorded as the journal grows |
| Renaming.UndoLogAppend | src/processor.ts:284-328 | the log of later calls goes in front of that of earlier ones (`unshift`), so the log of a run is the undo steps of its calls, newest first |
| Renaming.TurnParts | src/processor.ts:284-328 | a turn's calls, log, queue, final filesystem and exactness are those of its backup, parent and move parts, in that order |
| Renaming.PlacedParts | src/processor.ts:292-328 | the same for a turn without a backup, and for one that stopped before the move |
| Renaming.QueueOfMeaning | src/processor.ts:289-327 | a path is in the run's deletion queue exactly when one of its turns queued it |
| Renaming.PlannedPairsMeaning | src/processor.ts:277-278 | the loop's pairs are exactly the files with a `newPath`, source and destination, in batch order |
| Renaming.PlannedPrefix | src/processor.ts:277-278 | the pairs of the first `n` files start the pairs of the first `m >= n` |
| Renaming.TurnFailure | src/processor.ts:282-328 | a turn that throws throws the error of its last call, which failed, or the "destination directory is a file" error |
| Renaming.LoopErrorMeaning | src/processor.ts:277-329 | a loop that throws throws the error of its last call, which failed, or the "destination directory is a file" error of one of its pairs |
| Renaming.LastTurnFailure | src/processor.ts:277-329 | what the last turn throws is a failure of the whole loop, whatever calls came before |
| Renaming.FailureAfter | src/processor.ts:277-329 | a failing last call or a pair's directory error stays a loop failure after any earlier calls |
| Renaming.BackupsQueued | src/processor.ts:285-290 | every existing destination whose turn came is first renamed to a temporary name; a backup that went through is queued for deletion; every turn that went through backed up successfully |
| Renaming.CopyQueued | src/processor.ts:324-327 | a turn whose copy went through queues its source |
| Renaming.CopiesQueued | src/processor.ts:324-327 | the source of every copy that went through is in the run's deletion queue |
| Renaming.BackUp | src/processor.ts:284-290 | the corrected backup: one `rename` of `p` to a name that starts with `p.tmp` and ends in ten base-36 digits; the `rename{tmp -> p}` step is logged only once that rename succeeded; a failure throws its error code and leaves the log and the files alone; the log still restores the start; the filesystem is what its calls made of the start |
| Renaming.BackUpAsWritten | src/processor.ts:286-288 | the backup as written: the undo step is logged whether or not the rename succeeds |
| Renaming.DanglingBackUpStep | src/processor.ts:286-288 | after a failed backup, the replay fails at its first step and undoes nothing, even where the rest of the log would have restored the start |
| Renaming.MakeParent | src/processor.ts:312-315 | one `mkdir -p` of the missing destination directory; on success the directory is made and its `delete` step is logged; a failure throws its error code and logs nothing; the filesystem is what its calls made of the start |
| Renaming.MoveFile | src/processor.ts:317-328 | one `rename`, followed by a copy only when it failed with `EXDEV`; a rename that went through logs `rename{newPath -> path}` and queues nothing; one that failed otherwise throws its code and changes nothing; the copy fallback logs `delete newPath` before copying and queues the source only when the copy went through; the error is the last call's code; after success the source's node is at `newPath`; the filesystem is what its calls made of the start, up to the node a failed last copy may have left at its destination |
| Renaming.MoveBookkeeping | src/processor.ts:318-327 | the log and queue of a move, read from its calls, are the three cases of the `try`/`catch` |
| Renaming.CopyAcross | src/processor.ts:324-327 | the `EXDEV` fallback: `delete newPath` is logged first; the copy's error is thrown; the source is queued exactly when the copy went through, and then `newPath` holds the source's node; a failed copy changes nothing, or only the node at `newPath` |
| Renaming.PrepareParent | src/processor.ts:292-315 | the calls fit what `statIfExists` found: none for a directory, none for a file without overwrite, a backup of the file in the way (followed by `mkdir -p` when it went through) for a file under overwrite, and `mkdir -p` when nothing is there; a failed call throws its code, and the only other error is the "destination directory is a file" one, exactly when overwrite is off and a file is in the way (then nothing changes); after success the directory is a directory; the log and queue are those of the calls, the backup's name queued when it went through; the filesystem is what its calls made of the start |
| Renaming.ReplaceParent | src/processor.ts:298-315 | under overwrite, the file in the way is backed up and the directory made; it throws exactly when a call failed, with its code; otherwise the path is a directory; the filesystem is what its calls made of the start |
| Renaming.PlaceFile | src/processor.ts:292-328 | the parent and move parts of a turn, the parent part fitting the directory it found: what it throws is the turn's error, the log and queue are those of its calls, and after success the file was moved to `newPath`; the filesystem is what its calls made of the start, up to the node a failed last copy may have left at its destination |
| Renaming.BackupJoined | src/processor.ts:284-328 | a backup in front of the rest of a turn puts its call first, its name first in the queue and its undo step last in the turn's log |
| Renaming.BackupShape | src/processor.ts:284-290 | a successful backup in front of a turn keeps the turn's error and gives it the shape of a turn with backup |
| Renaming.MoveOne | src/processor.ts:282-328 | one turn: backup exactly for an existing destination, then the parent part fitting the directory found after the backup, then the move, the first failing call ending it; what it throws is `TurnError`; the log and queue are those of its calls; after success the destination exists and the move is journalled; a file in the parent's place without backup or overwrite throws and changes nothing; the log keeps restoring the start; the filesystem is what its calls made of the start, up to the node a failed last copy may have left at its destination |
| Renaming.MovedUpToNext | src/processor.ts:277-329 | one more file moved extends the moved prefix |
| Renaming.MovedUpToKept | src/processor.ts:277-329 | the moved prefix stays moved as the journal grows |
| Renaming.AddOnce | src/processor.ts:282 | `Set.add`: the result holds the old members and the new one, has no duplicates when the old had none, and keeps the old order |
| Renaming.DirsUpToMeaning | src/processor.ts:277-282 | the queued source directories are distinct, each the directory of a file with a `newPath`, and every such file's directory is queued |
| Renaming.TurnTaken | src/processor.ts:277-329 | a further turn appends its calls and queue, puts its undo steps in front of the log, and runs after the earlier turns |
| Renaming.LoopExtend | src/processor.ts:277-329 | a loop that went through, followed by a turn over the next pair, is a loop whose error is that turn's |
| Renaming.LoopSkip | src/processor.ts:278 | a file without `newPath` adds no pair, so the loop's account is unchanged |
| Renaming.LoopRanLonger | src/processor.ts:277-329 | a loop that threw stays an account of any longer list of pairs |
| Renaming.ProgressSkip | src/processor.ts:278 | a file without `newPath` keeps every fact of the loop at the next index |
| Renaming.TakeTurn | src/processor.ts:282-328 | one turn for a file with a `newPath` keeps every fact of the loop at the next index |
| Renaming.FitsExtend | src/processor.ts:292-315 | a further turn that prepared the directory it found keeps every turn of the run fitting, each read on the map the earlier turns left |
| Renaming.ReachedAfter | src/processor.ts:277-329 | calls read forwards followed by calls that reached a filesystem from there reached it together, so a failed copy's partial node survives in the account of the whole loop |
| Renaming.TurnProgress | src/processor.ts:277-329 | one turn's journal, log, queue, error, filesystem and exactness extend the loop's account by one file |
| Renaming.Advance | src/processor.ts:277-329 | one iteration of the `for` loop keeps every fact of the loop at the next index |
| Renaming.RunLoop | src/processor.ts:277-329 | the loop stops at the first turn that throws, or after every file; its account holds at that index |
| Renaming.RenameAll | src/processor.ts:277-329 | the journal is the loop's calls, a turn per planned pair, each turn shaped as above with a backup exactly for an existing destination and a parent part that fits the directory the turn found; the log is the calls' undo steps newest first; the queue is the turns' backups and copies; the error is that of the last turn, and a thrown error is the code of a failed call or the directory error of a pair; a simulation touches nothing; without error every file with a destination was moved and its source directory queued; the queued directories are distinct and each is some renamed file's; `exact` is exactly "every call was exactly undoable", and then the log restores the start; the filesystem is what the journalled calls made of the start, up to the node a failed last copy may have left at its destination, and exactly that without error |
| Processor.FailedRemovalsMeaning | src/processor.ts:337-346 | a path is reported exactly when one of its deletions failed |
| Processor.Cleanup | src/processor.ts:334-346 | one deletion per queued path, in order; failures are collected and do not throw; every path deleted without failure is gone; nothing else changes |
| Processor.CleanupStep | src/processor.ts:339-346 | one more deletion keeps the account of the loop |
| Processor.LongerFirstIsPreorder | src/processor.ts:363 | the comparator of the directory sort is a total preorder |
| Processor.LongestFirst | src/processor.ts:359-363 | the directories are a permutation, longest path first |
| Processor.RemoveEmptyDirs | src/processor.ts:357-370 | `commondir` is added; each directory gets one `rmdir`, longest first; failures are ignored; only directories of the list can go |
| Processor.RenamedPaths | src/processor.ts:374-375 | exactly the destinations of the renamed files |
| Processor.EmitAsWritten | src/processor.ts:374-375 | as written, every file is emitted, `undefined` for a skipped one |
| Processor.EmitRenamed | src/processor.ts:374-375 | the corrected emit: the new paths of the renamed files, in batch order |
| Processor.EmitRenamedPaths | src/processor.ts:374-375 | exactly the renamed files' new paths go out, and never `undefined` |
| Processor.Gather | src/processor.ts:77-205 | a missing input rejects; an empty batch rejects on `files[0]`; otherwise the batch is the inputs' records sorted and indexed, with `commondir` folded from it; the populate loop hands over the files exactly when every file passes, each populated, and otherwise stops at the first file that fails, as that file's step says |
| Processor.StageRun | src/processor.ts:77-157 | a missing input rejects; an empty batch rejects with the `files[0]` error; otherwise the batch is the inputs' records sorted and indexed, and `commondir` folds `commonPathsRoot` from the first file's directory over the other paths |
| Processor.StopOf | src/processor.ts:165-181 | a populate stop ends the run and reports only errors: a directory or an aborted metadata read gives one error, a checksum error rejects |
| Processor.Prepare | src/processor.ts:61-266 | the run before any filesystem change, tied to its stages: the staged batch, `commondir` and the populate loop's end as in `Gather`; a populate stop ends the run with its one error or its rejection; otherwise the result is the template loop's plan over the populated files, a stopped plan reporting its message; a passing plan has distinct destinations, and its existing ones exist, are destinations and are no input's path |
| Processor.PlanStage | src/processor.ts:207-266 | the result is the template loop's plan over the files: its message as the one error when it stops, otherwise every file's destination; the destinations are distinct, and the existing ones exist, are destinations and are no file's path |
| Processor.Recover | src/processor.ts:377-395 | the error is reported with its message; a replay that goes through is the full replay of the log and, when every action was exactly undoable, restores the start; a rejection is the rethrown error of the last rewind call, which failed |
| Processor.Tidy | src/processor.ts:333-371 | the warning is one leftover warning listing exactly the paths whose deletion failed, and nothing when none failed; the failed paths are queued ones; every other queued path is gone; only removals happen; nothing queued means nothing touched |
| Processor.FailuresReported | src/processor.ts:337-353 | the collected failures are exactly the paths whose deletion failed in the journal, and each was queued |
| Processor.Finish | src/processor.ts:331-376 | the outputs are the leftover warning when some deletion failed, followed with `emit` by the renamed files' new paths; the failures are exactly the failed deletions, each a queued path; every other queued path is gone; no error is reported; what is emitted is a renamed file's new path, and with `emit` every one is |
| Processor.ReportShape | src/processor.ts:348-376 | the clean-up's outputs hold no error and only defined paths, name only renamed destinations, and with `emit` all of them |
| Processor.Emitted | src/processor.ts:374-375 | every output of the corrected emit is a defined file path, and they are exactly the renamed files' new paths |
| Processor.Process | src/processor.ts:61-396 | the run starts as `Prepare` says; an early end is its outputs and rejection and changes nothing; after a passing plan the loop ran as `RenameAll` states (turn shapes, parent parts fitting what they found, exactness), a thrown error is reported alone and is the code of a failed call or a pair's directory error, and a rejection is the rewind's failed call; when no error is reported, nothing is rejected, every planned file was moved to its destination, and with `emit` every destination went out; a missing input rejects and changes nothing; a simulation changes nothing; an error after a full rewind leaves the files as they were, when every action was exactly undoable; every emitted path is defined and was moved there; the journal is the loop's calls followed by the later ones, and the loop left the filesystem where its calls took the start (up to a failed copy's partial node); after a thrown error that the rewind did not rethrow, the whole log was replayed from there, whether or not every action was exactly undoable; without a thrown error, the outputs are the leftover warning for exactly the failed deletions among the later calls, each a queued path, followed with `emit` by the renamed files' new paths, and every other queued path is gone |
| Processor.Execute | src/processor.ts:268-395 | the journal starts with the loop's calls, as `RenameAll` states them, each turn's parent part fitting what it found; a thrown error is reported as the one error output and is the code of a failed call or a pair's directory error; a rejection follows a thrown error and is the rewind's failed call; when no error is reported, nothing is rejected, every file with a destination was moved there, and with `emit` every destination went out; a simulation changes nothing; an error after a full rewind leaves the files as they were when every action was exactly undoable; every emitted path is defined and was moved there; the journal is the loop's calls followed by the later ones, and the loop left the filesystem where its calls took the start (up to a failed copy's partial node); after a thrown error that the rewind did not rethrow, the whole log was replayed from there, whether or not every action was exactly undoable; without a thrown error, the outputs are the leftover warning for exactly the failed deletions among the later calls, each a queued path, followed with `emit` by the renamed files' new paths, and every other queued path is gone |
| Processor.Conclude | src/processor.ts:331-395 | after the loop: a thrown error is the one error output and is followed by the rewind, whose failure is the only rejection; without one there is no error output, every file was moved, and with `emit` every destination went out; a full rewind restores the start when every action was exactly undoable; the journal grows by the later calls only, the loop having left the filesystem where its calls took the start (up to a failed copy's partial node); after a thrown error that the rewind did not rethrow, the whole log was replayed from there, whether or not every action was exactly undoable; without a thrown error, the outputs are the leftover warning for exactly the failed deletions among the later calls, each a queued path, followed with `emit` by the renamed files' new paths, and every other queued path is gone |
| Processor.EmittedWereMoved | src/processor.ts:374-375 | every destination emitted was the target of a successful move |

## Left out

- Concurrency: `pAll` runs the planner's tasks concurrently (`src/lib/rename.ts:226`). The model runs them one after another and rejects with the first failing task in batch order. With real concurrency, a different failing task may win.
- Progress (`onProgress`), `console` logging, `verbose`, and the text of `output` calls other than the error, warning and file outputs are left out.
- Clock and randomness: `Date.now()` is the parameter `now`. The random draws of `uid` are a free choice.
- I/O: `FSP.stat`, `pathExists`, `ffprobe`, `checksumFile`, the collators, `filenamify`, `expandTemplateLiteral` and the `path` module are the fields of `Batch.Env` or the map `disk`.
- `sanitizePath`, `findCommonDirectory`, `isSamePath` and `normalizePath` are imported from `utils.ts`, but their code is not part of this model.
- Template variables: the template sees the common variables and the file's own record. It does not see the `newPath` fields that earlier turns of the run's loop set, or functions such as `offsetI`.
- The metadata proxy: a template's reads of `meta` are a list (`metaReads`) that the proxy is applied to after evaluation. A throw from the proxy in the middle of a template is modelled by its first missing read.
- Filesystem: the map is flat. `mkdir -p` does not add ancestor entries, `rm -r` and `rmdir` do not see children, and whether a directory is empty is a free choice of `Rmdir`.
- Filesystem errors: node's error messages are shortened to the error code (`ENOENT`, `EEXIST`, `EXDEV` or a free message). `FSP.stat` of a missing input rejects with a message of the same form.
- Processor.Process: restoring the start after a rewind is proved only when the ghost flag `exact` holds. `exact` is pinned to the journal: it is `ExactRun` of the loop's calls, that is every `rename` that went through moved a node whose parent is a directory to a free path, and every copy went to a free path. When `exact` is false (a backup name that happened to exist, or a source whose parent is not a directory in the flat map), what the rewind leaves is stated as the replay of the whole log from where the loop left the filesystem, not as the start.
- Renaming.RenameAll: the log is proved to restore the start only when `exact` holds, for the same reason; without it the log is still stated exactly (the undo steps of the calls, newest first).
- Processor.Process: runs the corrected backup order and the corrected emit of Findings, not the code as written. The undo step of a backup is logged after the backup rename, and only renamed files are emitted. The as-written versions are `Renaming.BackUpAsWritten` and `Processor.EmitAsWritten`.
- Processor.Execute: runs the corrected backup order and the corrected emit, as `Processor.Process` does.
- Renaming.RenameAll: runs the corrected backup order (`Renaming.BackUp`), not `src/processor.ts:286-289` as written.
- Simulation: with `simulate` on, `Renaming.RenameAll` returns before the loop. The code goes through the loop and only logs each pair to the console (`src/processor.ts:279-280`), which is left out with the rest of the logging, so no call, log step, queued path or directory results either way.
- Renaming.MoveOne: backs up an existing destination with the corrected order (`Renaming.BackUp`).
- Renaming.PrepareParent: backs up a file in the way of the destination's directory with the corrected order (`Renaming.BackUp`), not `src/processor.ts:300-303` as written.
- Processor.Finish: emits with the corrected emit (`Processor.EmitRenamed`), not `src/processor.ts:375` as written.
- Processor.Truncate: lengths, `slice` and `lastIndexOf` count characters, that is code points, where JavaScript counts UTF-16 code units. A name with characters outside the Basic Multilingual Plane is cut at a different place, and its length can differ from JavaScript's. The same holds for Strings.Slice, Strings.LastIndexOf, Processor.TruncateParts and Processor.TruncateBound.
- Batch.PadToWidth: `offsetI` and `offsetN` are modelled (`Batch.OffsetI`, `Batch.OffsetN`), but their width and digits are proved only for a non-negative `amount`. A negative amount can make `${…}` negative.
- Processor.TruncateBound: requires `maxLength >= 0`. The option schema allows 1 to 255 (`src/index.ts:83-88`).
- Strings.AsciiLower: case-maps only the ASCII letters. That is exact for the algorithm names it is used for; other scripts are not modelled.
- Strings.AsciiUpper: case-maps only the ASCII letters. That is exact for hexadecimal checksums.
- Utils.Lookup: only own fields are modelled. A property an object inherits from `Object.prototype`, such as `constructor` or `toString`, reads as `undefined` here, where JavaScript returns the inherited function; so `Utils.ProxyGet` calls `onMissingProp` for such a key. A target that is not an object has no properties here; the properties of string and number prototypes are not modelled.
- Sorting.Sort: stated as a permutation, and as ordered under a total preorder. Its tie order is that of a stable insertion sort; the collator itself is a collaborator.
- Preview UI, `src/components/*`, `src/preview.tsx`, `src/config/shortcuts.ts`, `src/lib/elementScroller.ts` and the plugin registration in `src/index.ts` are not part of this model.

## Findings

| source | as written | input that shows it | evidently intended | confidence | as-written member | corrected member |
|---|---|---|---|---|---|---|
| src/processor.ts:286-289 (and 300-303) | the undo step `rename{tmp -> newPath}` is unshifted before `FSP.rename(newPath, tmp)` runs | with overwrite on, an earlier file was moved, then the rename of an existing destination to its backup fails (for example with `EPERM`): the rewind's first step renames a `tmp` path that does not exist, throws, and the earlier move is never undone | log the undo step only after the backup rename succeeded, as the main move does (lines 319-320) | high, not executed | Renaming.BackUpAsWritten, Renaming.DanglingBackUpStep | Renaming.BackUp |
| src/processor.ts:374-375 | `output.file(newPath!)` for every file | `onMissingMeta: skip`, `emit` on, and a file whose template reads a missing `meta` property: that file has no `newPath`, and `undefined` is emitted | emit only the files that were renamed | medium, not executed | Processor.EmitAsWritten | Processor.EmitRenamed, Processor.EmitRenamedPaths |
| src/lib/utils.ts:99-101 | `target[prop]` is read before the `target == null` check | a proxy over `null`, read at `title`: the read throws a `TypeError`, and `onMissingTarget` is never called | test the target first, so that a nullish target calls `onMissingTarget` | medium, not executed | Utils.ProxyGetAsWritten, Utils.ProxyGetNullTargetThrows | Utils.ProxyGet, Utils.ProxyGetAgrees |
