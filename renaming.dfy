/** The renaming loop of the processor (the `for` loop of the default export
    of `src/processor.ts`): per file with a destination, back up an existing
    destination, make sure the destination directory exists, and move the
    file, logging for each action the step that undoes it and queueing the
    leftovers to delete once the run went well. Its contracts read the log,
    the queue and the error off the filesystem's journal of calls. */
module Renaming {
  import opened Wrappers
  import opened Utils
  import opened Filesystem
  import opened Batch
  import Rename

  // ---------------------------------------------------------------------
  // Renaming on the filesystem

  /** The `Error` a failed filesystem call throws, its message shortened to the error code. */
  function FsError(code: ErrorCode): Thrown {
    var name := match code
      case Enoent => "ENOENT"
      case Eexist => "EEXIST"
      case Exdev => "EXDEV"
      case Other(message) => message;
    ErrorValue(name, "")
  }

  function DirIsFileMessage(path: string, newPath: string): string {
    "Can't rename file:\n\"" + path + "\"\nto:\n\"" + newPath
    + "\"\nbecause destination directory is a file, and Overwrite option is disabled."
  }

  /** A `rename` or a `cp` from `from` to `to` that succeeded. */
  ghost predicate Moved(journal: seq<Call>, from: string, to: string) {
    RenameCall(from, to, Ok) in journal || CopyCall(from, to, Ok) in journal
  }

  lemma MovedKept(journal: seq<Call>, later: seq<Call>, from: string, to: string)
    requires journal <= later && Moved(journal, from, to)
    ensures Moved(later, from, to)
  {
    var k :| 0 <= k < |journal| && (journal[k] == RenameCall(from, to, Ok) || journal[k] == CopyCall(from, to, Ok));
    assert later[k] == journal[k];
  }

  // ---------------------------------------------------------------------
  // What the renaming loop logs and queues, read from its calls

  /** The undo steps the loop logs for one of its calls: a `rename` that went
      through is undone by renaming back; a directory made by `mkdir -p` (the
      loop only makes missing ones) and the destination of a copy (logged
      before the copy is tried) are undone by deleting them; a failed
      `rename` or `mkdir -p` logs nothing. */
  function UndoOf(c: Call): seq<RewindStep> {
    match c
    case RenameCall(from, to, outcome) => if outcome.Ok? then [RenameStep(to, from)] else []
    case MkdirCall(d, outcome) => if outcome.Ok? then [DeleteStep(d)] else []
    case CopyCall(_, to, _) => [DeleteStep(to)]
    case _ => []
  }

  /** The log the loop keeps for `calls`: their undo steps, the most recent call's first. */
  function UndoLog(calls: seq<Call>): seq<RewindStep>
    decreases |calls|
  {
    if calls == [] then [] else UndoLog(calls[1..]) + UndoOf(calls[0])
  }

  lemma UndoOne(c: Call)
    ensures UndoLog([c]) == UndoOf(c)
  {
    assert [c][1..] == [];
  }

  /** The steps of later calls go in front of those of earlier ones. */
  lemma {:induction false} UndoLogAppend(a: seq<Call>, b: seq<Call>)
    ensures UndoLog(a + b) == UndoLog(b) + UndoLog(a)
    decreases |a|
  {
    if a == [] {
      assert a + b == b;
    } else {
      assert (a + b)[0] == a[0] && (a + b)[1..] == a[1..] + b;
      UndoLogAppend(a[1..], b);
    }
  }

  /** Concatenation regroups. */
  lemma AppendAssoc<T>(a: seq<T>, b: seq<T>, c: seq<T>)
    ensures a + (b + c) == a + b + c
  {
  }

  /** The calls of one turn of the loop, for the file at `path` going to
      `newPath`, in its three parts: the backup of an existing destination,
      the preparation of the destination directory, and the move. */
  datatype Turn = Turn(path: string, newPath: string, backup: seq<Call>, parent: seq<Call>, move: seq<Call>)

  function Calls(t: Turn): seq<Call> {
    t.backup + t.parent + t.move
  }

  /** `tmp` is a temporary name for `p`: `p.tmp` and a ten-digit base-36 id. */
  ghost predicate IsTemp(tmp: string, p: string) {
    && |tmp| == |p| + 14 && tmp[..|p| + 4] == p + ".tmp"
    && forall k :: |p| + 4 <= k < |tmp| ==> IsBase36Digit(tmp[k])
  }

  /** The last of `calls` failed. */
  predicate Failed(calls: seq<Call>) {
    calls != [] && calls[|calls| - 1].outcome.Err?
  }

  /** A backup of `p`: one `rename` of it to a temporary name. */
  ghost predicate BackupCall(calls: seq<Call>, p: string) {
    |calls| == 1 && calls[0].RenameCall? && calls[0].from == p && IsTemp(calls[0].to, p)
  }

  /** The preparation of the destination directory `d`: no call when it is a
      directory (or, without overwrite, a file, which throws); under
      overwrite, a backup of it, followed by `mkdir -p` when the backup went
      through; or `mkdir -p` alone. */
  ghost predicate ParentCalls(calls: seq<Call>, d: string, overwrite: bool) {
    || calls == []
    || (&& overwrite && BackupCall(calls[..1], d)
        && if calls[0].outcome.Ok? then |calls| == 2 && calls[1].MkdirCall? && calls[1].path == d else |calls| == 1)
    || (|calls| == 1 && calls[0].MkdirCall? && calls[0].path == d)
  }

  /** The move: a `rename`, and after one that failed with `EXDEV` a copy. */
  ghost predicate MoveCalls(calls: seq<Call>, path: string, newPath: string) {
    || (|calls| == 1 && calls[0].RenameCall? && calls[0].from == path && calls[0].to == newPath && calls[0].outcome != Err(Exdev))
    || (&& |calls| == 2 && calls[0] == RenameCall(path, newPath, Err(Exdev))
        && calls[1].CopyCall? && calls[1].from == path && calls[1].to == newPath)
  }

  /** A turn made of those parts, in that order, the first failing call ending it. Without a
      failure it ends before the move only when the destination directory is a file and
      overwrite is off. */
  ghost predicate TurnShape(t: Turn, backup: bool, overwrite: bool, d: string) {
    && (if backup then BackupCall(t.backup, t.newPath) else t.backup == [])
    && ParentCalls(t.parent, d, overwrite)
    && (t.move == [] || MoveCalls(t.move, t.path, t.newPath))
    && (Failed(t.backup) ==> t.parent == [] && t.move == [])
    && (Failed(t.parent) ==> t.move == [])
    && (t.move == [] && !Failed(t.backup) && !Failed(t.parent) ==> t.parent == [] && !overwrite)
  }

  /** The preparation fits what the turn found at `d` on the map `m`: no
      call for a directory, none for a file without overwrite (the turn then
      throws), a backup first for a file under overwrite, and `mkdir -p` when
      nothing is there. */
  ghost predicate ParentFits(m: Nodes, calls: seq<Call>, d: string, overwrite: bool) {
    if d in m && m[d].Dir? then calls == []
    else if d in m then (if overwrite then calls != [] && calls[0].RenameCall? else calls == [])
    else calls != [] && calls[0].MkdirCall?
  }

  /** A turn started on `m` prepared the directory it found once its backup went through. */
  ghost predicate TurnFits(m: Nodes, t: Turn, d: string, overwrite: bool, now: int) {
    !Failed(t.backup) ==> ParentFits(AfterAll(m, t.backup, now), t.parent, d, overwrite)
  }

  /** Every turn of a run from `start` prepared the directory it found. */
  ghost predicate ParentsFit(turns: seq<Turn>, start: Nodes, overwrite: bool, dirname: string -> string, now: int) {
    forall k :: 0 <= k < |turns| ==>
      TurnFits(AfterAll(start, CallsOf(turns[..k]), now), turns[k], dirname(turns[k].newPath), overwrite, now)
  }

  /** A further turn that prepared what it found keeps a run's preparations fitting. */
  lemma FitsExtend(turns: seq<Turn>, t: Turn, start: Nodes, overwrite: bool, dirname: string -> string, now: int)
    requires ParentsFit(turns, start, overwrite, dirname, now)
    requires TurnFits(AfterAll(start, CallsOf(turns), now), t, dirname(t.newPath), overwrite, now)
    ensures ParentsFit(turns + [t], start, overwrite, dirname, now)
  {
    var longer := turns + [t];
    forall k | 0 <= k < |longer|
      ensures TurnFits(AfterAll(start, CallsOf(longer[..k]), now), longer[k], dirname(longer[k].newPath), overwrite, now)
    {
      if k < |turns| {
        assert longer[..k] == turns[..k] && longer[k] == turns[k];
      } else {
        assert longer[..k] == turns && longer[k] == t;
      }
    }
  }

  /** What a turn throws: the error of its failing call (the parts are tried
      in order), the directory-is-a-file error when it stopped before the
      move without one, and nothing when the move went through. */
  function TurnError(t: Turn): Option<Thrown> {
    if Failed(t.backup) then Some(FsError(t.backup[|t.backup| - 1].outcome.code))
    else if Failed(t.parent) then Some(FsError(t.parent[|t.parent| - 1].outcome.code))
    else if t.move == [] then Some(ErrorValue(DirIsFileMessage(t.path, t.newPath), ""))
    else if Failed(t.move) then Some(FsError(t.move[|t.move| - 1].outcome.code))
    else None
  }

  /** `nodes` is where `calls` took `m`: the journal read forwards, except
      that a last copy that failed may have left a partial node at its
      destination. */
  ghost predicate Reached(m: Nodes, calls: seq<Call>, nodes: Nodes, now: int) {
    var r := AfterAll(m, calls, now);
    || nodes == r
    || (&& Failed(calls) && calls[|calls| - 1].CopyCall? && calls[|calls| - 1].to in nodes
        && nodes == r[calls[|calls| - 1].to := nodes[calls[|calls| - 1].to]])
  }

  /** Calls read forwards, then calls that reached `nodes` from there, reached `nodes` together. */
  lemma ReachedAfter(m: Nodes, a: seq<Call>, b: seq<Call>, mid: Nodes, nodes: Nodes, now: int)
    requires mid == AfterAll(m, a, now) && Reached(mid, b, nodes, now)
    ensures Reached(m, a + b, nodes, now)
  {
    RunAppend(m, a, b, x => x, now);
    if b == [] {
      assert a + b == a;
    } else {
      assert (a + b)[|a + b| - 1] == b[|b| - 1];
    }
  }

  /** The temporary name of a backup that went through, when `calls` start with one. */
  function BackedUp(calls: seq<Call>): seq<string> {
    if calls != [] && calls[0].RenameCall? && calls[0].outcome.Ok? then [calls[0].to] else []
  }

  /** The source of a move, when it was copied across devices and the copy went through. */
  function Copied(calls: seq<Call>, path: string): seq<string> {
    if |calls| == 2 && calls[1].outcome.Ok? then [path] else []
  }

  /** What a turn queues for deletion on success: the temporary names of the
      backups that went through, then the source of a copy that went through. */
  function Queued(t: Turn): seq<string> {
    BackedUp(t.backup) + BackedUp(t.parent) + Copied(t.move, t.path)
  }

  /** A turn's calls, log and forward reading, part by part. */
  lemma TurnParts(t: Turn, journal: seq<Call>, log: seq<RewindStep>, queue: seq<string>, m: Nodes,
                   dirname: string -> string, now: int)
    ensures journal + Calls(t) == journal + t.backup + t.parent + t.move
    ensures queue + Queued(t) == queue + BackedUp(t.backup) + BackedUp(t.parent) + Copied(t.move, t.path)
    ensures UndoLog(Calls(t)) + log == UndoLog(t.move) + (UndoLog(t.parent) + (UndoLog(t.backup) + log))
    ensures var m1 := AfterAll(m, t.backup, now); var m2 := AfterAll(m1, t.parent, now);
      && AfterAll(m, Calls(t), now) == AfterAll(m2, t.move, now)
      && ExactRun(m, Calls(t), dirname, now) ==
           (ExactRun(m, t.backup, dirname, now) && ExactRun(m1, t.parent, dirname, now) && ExactRun(m2, t.move, dirname, now))
  {
    AppendAssoc(journal, t.backup + t.parent, t.move);
    AppendAssoc(journal, t.backup, t.parent);
    var b, p := BackedUp(t.backup), BackedUp(t.parent);
    AppendAssoc(queue, b + p, Copied(t.move, t.path));
    AppendAssoc(queue, b, p);
    UndoLogAppend(t.backup, t.parent);
    UndoLogAppend(t.backup + t.parent, t.move);
    AppendAssoc(UndoLog(t.move), UndoLog(t.parent) + UndoLog(t.backup), log);
    AppendAssoc(UndoLog(t.parent), UndoLog(t.backup), log);
    RunAppend(m, t.backup, t.parent, dirname, now);
    RunAppend(m, t.backup + t.parent, t.move, dirname, now);
  }

  /** The same for the second half of a turn, which has no backup part, and
      for a second half that stopped before the move. */
  lemma PlacedParts(t: Turn, journal: seq<Call>, log: seq<RewindStep>, queue: seq<string>, m: Nodes,
                    dirname: string -> string, now: int)
    requires t.backup == []
    ensures journal + Calls(t) == journal + t.parent + t.move
    ensures queue + Queued(t) == queue + BackedUp(t.parent) + Copied(t.move, t.path)
    ensures UndoLog(Calls(t)) + log == UndoLog(t.move) + (UndoLog(t.parent) + log)
    ensures AfterAll(m, Calls(t), now) == AfterAll(AfterAll(m, t.parent, now), t.move, now)
    ensures ExactRun(m, Calls(t), dirname, now) ==
      (ExactRun(m, t.parent, dirname, now) && ExactRun(AfterAll(m, t.parent, now), t.move, dirname, now))
    ensures t.move == [] ==>
      && journal + Calls(t) == journal + t.parent
      && queue + Queued(t) == queue + BackedUp(t.parent)
      && UndoLog(Calls(t)) + log == UndoLog(t.parent) + log
      && AfterAll(m, Calls(t), now) == AfterAll(m, t.parent, now)
      && ExactRun(m, Calls(t), dirname, now) == ExactRun(m, t.parent, dirname, now)
  {
    assert Calls(t) == t.parent + t.move;
    AppendAssoc(journal, t.parent, t.move);
    AppendAssoc(queue, BackedUp(t.parent), Copied(t.move, t.path));
    UndoLogAppend(t.parent, t.move);
    AppendAssoc(UndoLog(t.move), UndoLog(t.parent), log);
    RunAppend(m, t.parent, t.move, dirname, now);
    if t.move == [] {
      assert Calls(t) == t.parent;
    }
  }

  /** The calls of a run of turns, in order. */
  function CallsOf(turns: seq<Turn>): seq<Call>
    decreases |turns|
  {
    if turns == [] then [] else CallsOf(turns[..|turns| - 1]) + Calls(turns[|turns| - 1])
  }

  /** The deletion queue of a run of turns, in order. */
  function QueueOf(turns: seq<Turn>): seq<string>
    decreases |turns|
  {
    if turns == [] then [] else QueueOf(turns[..|turns| - 1]) + Queued(turns[|turns| - 1])
  }

  /** A path is queued by a run exactly when one of its turns queued it. */
  lemma {:induction false} QueueOfMeaning(turns: seq<Turn>, p: string)
    ensures p in QueueOf(turns) <==> exists k :: 0 <= k < |turns| && p in Queued(turns[k])
    decreases |turns|
  {
    if turns != [] {
      var init := turns[..|turns| - 1];
      QueueOfMeaning(init, p);
      if exists k :: 0 <= k < |turns| && p in Queued(turns[k]) {
        var k :| 0 <= k < |turns| && p in Queued(turns[k]);
        if k < |init| {
          assert init[k] == turns[k];
        }
      }
      if exists k :: 0 <= k < |init| && p in Queued(init[k]) {
        var k :| 0 <= k < |init| && p in Queued(init[k]);
        assert turns[k] == init[k];
      }
    }
  }

  /** The pairs of source and destination the loop goes through among the first `n` files: those with a destination, in batch order. */
  function PlannedPairs(files: seq<FileRecord>, targets: seq<Option<string>>, n: nat): seq<(string, string)>
    requires |targets| == |files| && n <= |files|
  {
    if n == 0 then []
    else PlannedPairs(files, targets, n - 1) + (if targets[n - 1].Some? then [(files[n - 1].path, targets[n - 1].value)] else [])
  }

  /** The planned pairs are exactly the files among the first `n` that have a destination. */
  lemma {:induction false} PlannedPairsMeaning(files: seq<FileRecord>, targets: seq<Option<string>>, n: nat)
    requires |targets| == |files| && n <= |files|
    ensures var r := PlannedPairs(files, targets, n);
      && (forall k :: 0 <= k < |r| ==> exists j :: 0 <= j < n && targets[j] == Some(r[k].1) && files[j].path == r[k].0)
      && (forall j :: 0 <= j < n && targets[j].Some? ==> (files[j].path, targets[j].value) in r)
  {
    if n > 0 {
      PlannedPairsMeaning(files, targets, n - 1);
      var init := PlannedPairs(files, targets, n - 1);
      var r := PlannedPairs(files, targets, n);
      forall k | 0 <= k < |r| ensures exists j :: 0 <= j < n && targets[j] == Some(r[k].1) && files[j].path == r[k].0 {
        if k < |init| {
          assert r[k] == init[k];
          assert exists j :: 0 <= j < n - 1 && targets[j] == Some(init[k].1) && files[j].path == init[k].0;
          var j :| 0 <= j < n - 1 && targets[j] == Some(init[k].1) && files[j].path == init[k].0;
          assert 0 <= j < n && targets[j] == Some(r[k].1) && files[j].path == r[k].0;
        } else {
          assert targets[n - 1] == Some(r[k].1) && files[n - 1].path == r[k].0;
        }
      }
      forall j | 0 <= j < n && targets[j].Some? ensures (files[j].path, targets[j].value) in r {
        if j < n - 1 {
          assert (files[j].path, targets[j].value) in init;
        }
      }
    }
  }

  lemma {:induction false} PlannedPrefix(files: seq<FileRecord>, targets: seq<Option<string>>, n: nat, m: nat)
    requires |targets| == |files| && n <= m <= |files|
    ensures PlannedPairs(files, targets, n) <= PlannedPairs(files, targets, m)
    decreases m - n
  {
    if n < m {
      PlannedPrefix(files, targets, n, m - 1);
    }
  }

  /** The loop ran its turns over the first `|turns|` of the planned `pairs`:
      each turn has its shape, with a backup exactly for a destination in
      `existing`; every turn but the last went through; `error` is what the
      last one threw; and without an error every pair had its turn. */
  ghost predicate LoopRan(turns: seq<Turn>, pairs: seq<(string, string)>, existing: set<string>, overwrite: bool,
                          dirname: string -> string, error: Option<Thrown>) {
    && |turns| <= |pairs|
    && (forall k :: 0 <= k < |turns| ==>
          && turns[k].path == pairs[k].0 && turns[k].newPath == pairs[k].1
          && TurnShape(turns[k], turns[k].newPath in existing, overwrite, dirname(turns[k].newPath)))
    && (forall k :: 0 <= k < |turns| - 1 ==> TurnError(turns[k]).None?)
    && error == (if turns == [] then None else TurnError(turns[|turns| - 1]))
    && (error.None? ==> |turns| == |pairs|)
  }

  /** `e` is what a failing loop throws: the error of its last call, which failed, or the directory-is-a-file error of one of the pairs. */
  ghost predicate LoopFailure(e: Thrown, calls: seq<Call>, pairs: seq<(string, string)>) {
    || (calls != [] && calls[|calls| - 1].outcome.Err? && e == FsError(calls[|calls| - 1].outcome.code))
    || (exists k :: 0 <= k < |pairs| && e == ErrorValue(DirIsFileMessage(pairs[k].0, pairs[k].1), ""))
  }

  /** A turn that threw threw the error of its last call, which failed, or
      the directory-is-a-file error. */
  lemma TurnFailure(t: Turn, backup: bool, overwrite: bool, d: string)
    requires TurnShape(t, backup, overwrite, d) && TurnError(t).Some?
    ensures || (Failed(Calls(t)) && TurnError(t) == Some(FsError(Calls(t)[|Calls(t)| - 1].outcome.code)))
            || TurnError(t) == Some(ErrorValue(DirIsFileMessage(t.path, t.newPath), ""))
  {
    var calls := Calls(t);
    if Failed(t.backup) {
      assert calls == t.backup;
      assert Failed(calls) && TurnError(t) == Some(FsError(calls[|calls| - 1].outcome.code));
    } else if Failed(t.parent) {
      assert calls == t.backup + t.parent;
      assert calls[|calls| - 1] == t.parent[|t.parent| - 1];
      assert Failed(calls) && TurnError(t) == Some(FsError(calls[|calls| - 1].outcome.code));
    } else if t.move != [] {
      assert calls[|calls| - 1] == t.move[|t.move| - 1];
      assert Failed(calls) && TurnError(t) == Some(FsError(calls[|calls| - 1].outcome.code));
    } else {
      assert TurnError(t) == Some(ErrorValue(DirIsFileMessage(t.path, t.newPath), ""));
    }
  }

  /** A loop that threw threw the error of a failed call, or the directory-is-a-file error. */
  lemma {:induction false} LoopErrorMeaning(turns: seq<Turn>, pairs: seq<(string, string)>, existing: set<string>, overwrite: bool,
                         dirname: string -> string, error: Option<Thrown>)
    requires LoopRan(turns, pairs, existing, overwrite, dirname, error) && error.Some?
    ensures LoopFailure(error.value, CallsOf(turns), pairs)
  {
    var k := |turns| - 1;
    var t := turns[k];
    assert TurnShape(t, t.newPath in existing, overwrite, dirname(t.newPath));
    LastTurnFailure(CallsOf(turns[..k]), t, pairs, k, t.newPath in existing, overwrite, dirname(t.newPath));
  }

  /** The failure of a loop's last turn, the `k`-th: what it throws is what
      the whole loop throws. */
  lemma LastTurnFailure(earlier: seq<Call>, t: Turn, pairs: seq<(string, string)>, k: nat, backup: bool, overwrite: bool, d: string)
    requires TurnShape(t, backup, overwrite, d) && TurnError(t).Some?
    requires k < |pairs| && t.path == pairs[k].0 && t.newPath == pairs[k].1
    ensures LoopFailure(TurnError(t).value, earlier + Calls(t), pairs)
  {
    TurnFailure(t, backup, overwrite, d);
    FailureAfter(earlier, Calls(t), TurnError(t).value, pairs, k);
  }

  /** A failure of the last calls, or a directory-is-a-file error of a pair,
      is a loop failure whatever calls came before. */
  lemma FailureAfter(earlier: seq<Call>, last: seq<Call>, e: Thrown, pairs: seq<(string, string)>, k: nat)
    requires || (Failed(last) && e == FsError(last[|last| - 1].outcome.code))
             || (k < |pairs| && e == ErrorValue(DirIsFileMessage(pairs[k].0, pairs[k].1), ""))
    ensures LoopFailure(e, earlier + last, pairs)
  {
    var calls := earlier + last;
    if Failed(last) && e == FsError(last[|last| - 1].outcome.code) {
      assert calls[|calls| - 1] == last[|last| - 1];
    }
  }

  /** Every destination in `existing` whose turn came is first renamed to a
      temporary name; when that went through, the name is queued for
      deletion; and it went through in every turn that did. */
  lemma {:induction false} BackupsQueued(turns: seq<Turn>, pairs: seq<(string, string)>, existing: set<string>, overwrite: bool,
                      dirname: string -> string, error: Option<Thrown>)
    requires LoopRan(turns, pairs, existing, overwrite, dirname, error)
    ensures forall k :: 0 <= k < |turns| && pairs[k].1 in existing ==>
      && BackupCall(turns[k].backup, pairs[k].1) && Calls(turns[k])[0] == turns[k].backup[0]
      && (turns[k].backup[0].outcome.Ok? ==> turns[k].backup[0].to in QueueOf(turns))
      && (TurnError(turns[k]).None? ==> turns[k].backup[0].outcome.Ok?)
  {
    forall k | 0 <= k < |turns| && pairs[k].1 in existing
      ensures turns[k].backup[0].outcome.Ok? ==> turns[k].backup[0].to in QueueOf(turns)
    {
      QueueOfMeaning(turns, turns[k].backup[0].to);
    }
  }

  /** A turn whose copy went through queues its source. */
  lemma CopyQueued(t: Turn)
    requires t.move == [] || MoveCalls(t.move, t.path, t.newPath)
    requires CopyCall(t.path, t.newPath, Ok) in t.move
    ensures t.path in Queued(t)
  {
    assert |t.move| == 2 && t.move[1] == CopyCall(t.path, t.newPath, Ok);
  }

  /** The source of every copy that went through is queued for deletion. */
  lemma {:induction false} CopiesQueued(turns: seq<Turn>, pairs: seq<(string, string)>, existing: set<string>, overwrite: bool,
                     dirname: string -> string, error: Option<Thrown>)
    requires LoopRan(turns, pairs, existing, overwrite, dirname, error)
    ensures forall k :: 0 <= k < |turns| && CopyCall(pairs[k].0, pairs[k].1, Ok) in turns[k].move ==>
      pairs[k].0 in QueueOf(turns)
  {
    forall k | 0 <= k < |turns| && CopyCall(pairs[k].0, pairs[k].1, Ok) in turns[k].move
      ensures pairs[k].0 in QueueOf(turns)
    {
      assert TurnShape(turns[k], turns[k].newPath in existing, overwrite, dirname(turns[k].newPath));
      CopyQueued(turns[k]);
      QueueOfMeaning(turns, pairs[k].0);
    }
  }

  /** Moving `p` out of the way to `p.tmp<uid>`, to be deleted once the run
      went well; the `rename` step that undoes it is logged once the call
      succeeded. The ghost `exact'` keeps `exact` and adds that the move is
      exactly undoable (the temporary name was free and `p`'s parent is a
      directory); with it the log still rewinds to `original`. */
  method BackUp(fs: FileSystem, p: string, log: seq<RewindStep>, dirname: string -> string, now: int,
                ghost original: Nodes, ghost exact: bool)
    returns (tmp: string, log': seq<RewindStep>, err: Option<Thrown>, ghost exact': bool, ghost calls: seq<Call>)
    modifies fs
    requires exact ==> RestoresTo(fs.nodes, log, original, dirname, now)
    ensures fs.journal == old(fs.journal) + calls && BackupCall(calls, p) && calls[0].to == tmp
    ensures err.None? <==> calls[0].outcome.Ok?
    ensures err.Some? ==> err == Some(FsError(calls[0].outcome.code)) && fs.nodes == old(fs.nodes) && log' == log
    ensures err.None? ==> p in old(fs.nodes) && fs.nodes == Move(old(fs.nodes), p, tmp) && log' == [RenameStep(tmp, p)] + log
    ensures fs.nodes == AfterAll(old(fs.nodes), calls, now)
    ensures log' == UndoLog(calls) + log
    ensures exact' == (exact && ExactRun(old(fs.nodes), calls, dirname, now))
    ensures exact' ==> RestoresTo(fs.nodes, log', original, dirname, now)
  {
    var id := Uid(10);
    tmp := p + ".tmp" + id;
    assert tmp[..|p| + 4] == p + ".tmp";
    assert forall k :: |p| + 4 <= k < |tmp| ==> tmp[k] == id[k - |p| - 4];
    ghost var before := fs.nodes;
    var moved := fs.Rename(p, tmp);
    calls := [RenameCall(p, tmp, moved)];
    RunOne(before, calls[0], dirname, now);
    UndoOne(calls[0]);
    if moved.Err? {
      return tmp, log, Some(FsError(moved.code)), exact, calls;
    }
    log' := [RenameStep(tmp, p)] + log;
    exact' := exact && UndoableMove(before, p, tmp, dirname);
    if exact' {
      UndoMove(before, p, tmp, dirname, now);
      RestoresAfterUndo(before, fs.nodes, RenameStep(tmp, p), log, original, dirname, now);
    }
    err := None;
  }

  /** The backup as the code orders it: the undo step is logged before the
      `rename` is attempted, so it stays in the log when the call fails. */
  method BackUpAsWritten(fs: FileSystem, p: string, log: seq<RewindStep>)
    returns (tmp: string, log': seq<RewindStep>, err: Option<Thrown>)
    modifies fs
    ensures |tmp| == |p| + 14 && tmp[..|p|] == p
    ensures log' == [RenameStep(tmp, p)] + log
    ensures err.None? ==> p in old(fs.nodes) && fs.nodes == Move(old(fs.nodes), p, tmp)
    ensures err.Some? ==> fs.nodes == old(fs.nodes)
  {
    var id := Uid(10);
    tmp := p + ".tmp" + id;
    log' := [RenameStep(tmp, p)] + log;
    var moved := fs.Rename(p, tmp);
    if moved.Err? {
      return tmp, log', Some(FsError(moved.code));
    }
    err := None;
  }

  /** After a failed backup in the code's order, the first step of the rewind
      names a temporary path that was never made: the rewind throws on it
      and undoes none of the earlier steps, even from a state the rest of the
      log would restore. */
  lemma {:induction false} DanglingBackUpStep(m: Nodes, p: string, tmp: string, log: seq<RewindStep>, original: Nodes,
                                              dirname: string -> string, now: int)
    requires tmp !in m && tmp != dirname(p)
    requires RestoresTo(m, log, original, dirname, now) && log != []
    ensures Replay(m, [RenameStep(tmp, p)] + log, dirname, now) == Replayed(m, 0)
    ensures Replay(m, log, dirname, now).completed > 0
  {
    var d := dirname(p);
    if !(d in m && m[d].File?) {
      assert tmp !in EnsureDir(m, d, now);
    }
  }

  /** `mkdir -p` of a destination directory that is not there; the `delete`
      step that undoes it is logged once the call succeeded. */
  method MakeParent(fs: FileSystem, d: string, log: seq<RewindStep>, dirname: string -> string, now: int,
                    ghost original: Nodes, ghost exact: bool)
    returns (log': seq<RewindStep>, err: Option<Thrown>, ghost calls: seq<Call>)
    modifies fs
    requires d !in fs.nodes
    requires exact ==> RestoresTo(fs.nodes, log, original, dirname, now)
    ensures fs.journal == old(fs.journal) + calls && |calls| == 1 && calls[0].MkdirCall? && calls[0].path == d
    ensures err.None? <==> calls[0].outcome.Ok?
    ensures err.Some? ==> err == Some(FsError(calls[0].outcome.code)) && fs.nodes == old(fs.nodes) && log' == log
    ensures err.None? ==> fs.nodes == old(fs.nodes)[d := NewDir(now)] && log' == [DeleteStep(d)] + log
    ensures fs.nodes == AfterAll(old(fs.nodes), calls, now)
    ensures log' == UndoLog(calls) + log
    ensures ExactRun(old(fs.nodes), calls, dirname, now)
    ensures exact ==> RestoresTo(fs.nodes, log', original, dirname, now)
  {
    ghost var before := fs.nodes;
    var made := fs.Mkdir(d, now);
    calls := [MkdirCall(d, made)];
    RunOne(before, calls[0], dirname, now);
    UndoOne(calls[0]);
    if made.Err? {
      return log, Some(FsError(made.code)), calls;
    }
    log' := [DeleteStep(d)] + log;
    if exact {
      UndoAdd(before, d, NewDir(now), dirname, now);
      RestoresAfterUndo(before, fs.nodes, DeleteStep(d), log, original, dirname, now);
    }
    err := None;
  }

  /** The move proper: `rename`, whose undo step is logged once it succeeded;
      on `EXDEV` (another device) the `delete` step of the destination is
      logged first, the file is copied and the source queued for deletion;
      any other failure throws. The ghost `exact'` adds that the move is
      exactly undoable (the destination was free, and for a rename the
      source's parent is a directory). */
  method MoveFile(fs: FileSystem, path: string, newPath: string, log: seq<RewindStep>, toDelete: seq<string>,
                  dirname: string -> string, now: int, ghost original: Nodes, ghost exact: bool)
    returns (log': seq<RewindStep>, toDelete': seq<string>, err: Option<Thrown>, ghost exact': bool, ghost calls: seq<Call>)
    modifies fs
    requires exact ==> RestoresTo(fs.nodes, log, original, dirname, now)
    ensures fs.journal == old(fs.journal) + calls && MoveCalls(calls, path, newPath)
    ensures err.None? <==> !Failed(calls)
    ensures err.Some? ==> err == Some(FsError(calls[|calls| - 1].outcome.code))
    ensures calls[0].outcome.Ok? ==> log' == [RenameStep(newPath, path)] + log && toDelete' == toDelete
    ensures |calls| == 1 && calls[0].outcome.Err? ==> log' == log && toDelete' == toDelete && fs.nodes == old(fs.nodes)
    ensures |calls| == 2 ==> log' == [DeleteStep(newPath)] + log
    ensures toDelete' == toDelete + Copied(calls, path)
    ensures log' == UndoLog(calls) + log
    ensures err.None? ==> fs.nodes == AfterAll(old(fs.nodes), calls, now)
    ensures Reached(old(fs.nodes), calls, fs.nodes, now)
    ensures err.None? ==> path in old(fs.nodes) && newPath in fs.nodes && fs.nodes[newPath] == old(fs.nodes)[path]
    ensures err.None? ==> Moved(fs.journal, path, newPath)
    ensures exact' == (exact && ExactRun(old(fs.nodes), calls, dirname, now))
    ensures exact' ==> RestoresTo(fs.nodes, log', original, dirname, now)
  {
    ghost var before := fs.nodes;
    var moved := fs.Rename(path, newPath);
    calls := [RenameCall(path, newPath, moved)];
    RunOne(before, calls[0], dirname, now);
    UndoOne(calls[0]);
    log', toDelete', err, exact' := log, toDelete, None, exact;
    if moved.Ok? {
      log' := [RenameStep(newPath, path)] + log;
      exact' := exact && UndoableMove(before, path, newPath, dirname);
      if exact' {
        UndoMove(before, path, newPath, dirname, now);
        RestoresAfterUndo(before, fs.nodes, RenameStep(newPath, path), log, original, dirname, now);
      }
      assert path in before && newPath in fs.nodes && fs.nodes[newPath] == before[path];
    } else if moved.code != Exdev {
      err := Some(FsError(moved.code));
    } else {
      ghost var copy;
      log', toDelete', err, exact', copy := CopyAcross(fs, path, newPath, log, toDelete, dirname, now, original, exact);
      RunOne(before, copy, dirname, now);
      UndoOne(copy);
      RunAppend(before, calls, [copy], dirname, now);
      UndoLogAppend(calls, [copy]);
      calls := calls + [copy];
    }
    MoveBookkeeping(calls, path, newPath, log, log', toDelete, toDelete');
  }

  /** What the log and the queue gain from each way a move can go. */
  lemma MoveBookkeeping(calls: seq<Call>, path: string, newPath: string, log: seq<RewindStep>, log': seq<RewindStep>,
                        toDelete: seq<string>, toDelete': seq<string>)
    requires MoveCalls(calls, path, newPath)
    requires log' == UndoLog(calls) + log && toDelete' == toDelete + Copied(calls, path)
    ensures calls[0].outcome.Ok? ==> log' == [RenameStep(newPath, path)] + log && toDelete' == toDelete
    ensures |calls| == 1 && calls[0].outcome.Err? ==> log' == log && toDelete' == toDelete
    ensures |calls| == 2 ==> log' == [DeleteStep(newPath)] + log
  {
    if |calls| == 1 {
      UndoOne(calls[0]);
      assert Copied(calls, path) == [];
    } else {
      assert calls == [calls[0]] + [calls[1]];
      UndoLogAppend([calls[0]], [calls[1]]);
      UndoOne(calls[0]);
      UndoOne(calls[1]);
      assert UndoLog(calls) == [DeleteStep(newPath)];
    }
  }

  /** The fallback after a cross-device `rename`: copy the file, logging the
      deletion of the copy first; a copy that went through queues its source. */
  method CopyAcross(fs: FileSystem, path: string, newPath: string, log: seq<RewindStep>, toDelete: seq<string>,
                    dirname: string -> string, now: int, ghost original: Nodes, ghost exact: bool)
    returns (log': seq<RewindStep>, toDelete': seq<string>, err: Option<Thrown>, ghost exact': bool, ghost copy: Call)
    modifies fs
    requires exact ==> RestoresTo(fs.nodes, log, original, dirname, now)
    ensures fs.journal == old(fs.journal) + [copy] && copy.CopyCall? && copy.from == path && copy.to == newPath
    ensures log' == [DeleteStep(newPath)] + log
    ensures err.None? <==> copy.outcome.Ok?
    ensures err.Some? ==> err == Some(FsError(copy.outcome.code))
    ensures toDelete' == toDelete + (if copy.outcome.Ok? then [path] else [])
    ensures err.None? ==> fs.nodes == After(old(fs.nodes), copy, now)
    ensures err.Some? ==> fs.nodes == old(fs.nodes) || (newPath in fs.nodes && fs.nodes == old(fs.nodes)[newPath := fs.nodes[newPath]])
    ensures err.None? ==> path in old(fs.nodes) && newPath in fs.nodes && fs.nodes[newPath] == old(fs.nodes)[path]
    ensures exact' == (exact && ExactCall(old(fs.nodes), copy, dirname))
    ensures exact' ==> RestoresTo(fs.nodes, log', original, dirname, now)
  {
    ghost var before := fs.nodes;
    log' := [DeleteStep(newPath)] + log;
    exact' := exact && newPath !in before;
    var copied := fs.Copy(path, newPath);
    copy := CopyCall(path, newPath, copied);
    if exact' {
      if fs.nodes == before {
        assert before - {newPath} == before;
      } else {
        UndoAdd(before, newPath, fs.nodes[newPath], dirname, now);
      }
      RestoresAfterUndo(before, fs.nodes, DeleteStep(newPath), log, original, dirname, now);
    }
    if copied.Err? {
      toDelete', err := toDelete, Some(FsError(copied.code));
    } else {
      toDelete', err := toDelete + [path], None;
    }
  }

  /** Making sure the destination directory exists: one that is a file is
      moved out of the way under overwrite (without it the run throws), a
      missing one is made. */
  method PrepareParent(fs: FileSystem, path: string, newPath: string, overwrite: bool, paths: PathOps,
                       log: seq<RewindStep>, toDelete: seq<string>, now: int, ghost original: Nodes, ghost exact: bool)
    returns (log': seq<RewindStep>, toDelete': seq<string>, err: Option<Thrown>, ghost exact': bool, ghost calls: seq<Call>)
    modifies fs
    requires exact ==> RestoresTo(fs.nodes, log, original, paths.dirname, now)
    ensures fs.journal == old(fs.journal) + calls && ParentCalls(calls, paths.dirname(newPath), overwrite)
    ensures ParentFits(old(fs.nodes), calls, paths.dirname(newPath), overwrite)
    ensures Failed(calls) ==> err == Some(FsError(calls[|calls| - 1].outcome.code))
    ensures err.Some? && !Failed(calls) ==>
      calls == [] && !overwrite && err == Some(ErrorValue(DirIsFileMessage(path, newPath), ""))
    ensures err.None? ==> paths.dirname(newPath) in fs.nodes && fs.nodes[paths.dirname(newPath)].Dir?
    ensures !overwrite && paths.dirname(newPath) in old(fs.nodes) && old(fs.nodes)[paths.dirname(newPath)].File? ==>
      err == Some(ErrorValue(DirIsFileMessage(path, newPath), "")) && fs.nodes == old(fs.nodes) && log' == log
    ensures log' == UndoLog(calls) + log
    ensures toDelete' == toDelete + BackedUp(calls)
    ensures fs.nodes == AfterAll(old(fs.nodes), calls, now)
    ensures exact' == (exact && ExactRun(old(fs.nodes), calls, paths.dirname, now))
    ensures exact' ==> RestoresTo(fs.nodes, log', original, paths.dirname, now)
  {
    log', toDelete', err, exact', calls := log, toDelete, None, exact, [];
    NoCalls(fs.journal, log, toDelete, fs.nodes, paths.dirname, now);
    var d := paths.dirname(newPath);
    var stat := fs.StatIfExists(d);
    if stat.Some? && stat.value.File? {
      if overwrite {
        log', toDelete', err, exact', calls := ReplaceParent(fs, d, log, toDelete, paths.dirname, now, original, exact);
      } else {
        err := Some(ErrorValue(DirIsFileMessage(path, newPath), ""));
      }
    } else if stat.None? {
      log', err, calls := MakeParent(fs, d, log, paths.dirname, now, original, exact);
    }
  }

  /** Making no call logs, queues and changes nothing. */
  lemma NoCalls(journal: seq<Call>, log: seq<RewindStep>, toDelete: seq<string>, m: Nodes, dirname: string -> string, now: int)
    ensures journal + [] == journal && UndoLog([]) + log == log && toDelete + BackedUp([]) == toDelete
    ensures !Failed([]) && AfterAll(m, [], now) == m && ExactRun(m, [], dirname, now)
  {
  }

  /** A destination directory that is a file, under overwrite: it is backed
      up to a temporary name, queued for deletion, and the directory made. */
  method ReplaceParent(fs: FileSystem, d: string, log: seq<RewindStep>, toDelete: seq<string>, dirname: string -> string,
                       now: int, ghost original: Nodes, ghost exact: bool)
    returns (log': seq<RewindStep>, toDelete': seq<string>, err: Option<Thrown>, ghost exact': bool, ghost calls: seq<Call>)
    modifies fs
    requires exact ==> RestoresTo(fs.nodes, log, original, dirname, now)
    ensures fs.journal == old(fs.journal) + calls && calls != [] && ParentCalls(calls, d, true) && calls[0].RenameCall?
    ensures err.Some? <==> Failed(calls)
    ensures Failed(calls) ==> err == Some(FsError(calls[|calls| - 1].outcome.code))
    ensures err.None? ==> d in fs.nodes && fs.nodes[d].Dir?
    ensures log' == UndoLog(calls) + log
    ensures toDelete' == toDelete + BackedUp(calls)
    ensures fs.nodes == AfterAll(old(fs.nodes), calls, now)
    ensures exact' == (exact && ExactRun(old(fs.nodes), calls, dirname, now))
    ensures exact' ==> RestoresTo(fs.nodes, log', original, dirname, now)
  {
    var tmp;
    tmp, log', err, exact', calls := BackUp(fs, d, log, dirname, now, original, exact);
    assert calls[..1] == calls;
    toDelete' := toDelete;
    if err.None? {
      toDelete' := toDelete + [tmp];
      ghost var backup := calls;
      ghost var made;
      log', err, made := MakeParent(fs, d, log', dirname, now, original, exact');
      calls := backup + made;
      assert calls[..|backup|] == backup;
      AppendAssoc(old(fs.journal), backup, made);
      UndoLogAppend(backup, made);
      AppendAssoc(UndoLog(made), UndoLog(backup), log);
      RunAppend(old(fs.nodes), backup, made, dirname, now);
    }
  }

  /** The second half of a turn: make sure the destination directory exists,
      then move the file. */
  method PlaceFile(fs: FileSystem, path: string, newPath: string, overwrite: bool, paths: PathOps,
                   log: seq<RewindStep>, toDelete: seq<string>, now: int, ghost original: Nodes, ghost exact: bool)
    returns (log': seq<RewindStep>, toDelete': seq<string>, err: Option<Thrown>, ghost exact': bool, ghost t: Turn)
    modifies fs
    requires exact ==> RestoresTo(fs.nodes, log, original, paths.dirname, now)
    ensures t.path == path && t.newPath == newPath && fs.journal == old(fs.journal) + Calls(t)
    ensures TurnShape(t, false, overwrite, paths.dirname(newPath))
    ensures TurnFits(old(fs.nodes), t, paths.dirname(newPath), overwrite, now)
    ensures err == TurnError(t)
    ensures log' == UndoLog(Calls(t)) + log
    ensures toDelete' == toDelete + Queued(t)
    ensures err.None? ==> fs.nodes == AfterAll(old(fs.nodes), Calls(t), now)
    ensures Reached(old(fs.nodes), Calls(t), fs.nodes, now)
    ensures err.None? ==> newPath in fs.nodes && Moved(fs.journal, path, newPath)
    ensures !overwrite && paths.dirname(newPath) in old(fs.nodes) && old(fs.nodes)[paths.dirname(newPath)].File? ==>
      err == Some(ErrorValue(DirIsFileMessage(path, newPath), "")) && fs.nodes == old(fs.nodes) && log' == log
    ensures exact' == (exact && ExactRun(old(fs.nodes), Calls(t), paths.dirname, now))
    ensures exact' ==> RestoresTo(fs.nodes, log', original, paths.dirname, now)
  {
    ghost var prepared, moved := [], [];
    log', toDelete', err, exact', prepared := PrepareParent(fs, path, newPath, overwrite, paths, log, toDelete, now, original, exact);
    ghost var mid := fs.nodes;
    if err.None? {
      log', toDelete', err, exact', moved := MoveFile(fs, path, newPath, log', toDelete', paths.dirname, now, original, exact');
    }
    t := Turn(path, newPath, [], prepared, moved);
    PlacedParts(t, old(fs.journal), log, toDelete, old(fs.nodes), paths.dirname, now);
    assert Calls(t) == prepared + moved;
    ReachedAfter(old(fs.nodes), prepared, moved, mid, fs.nodes, now);
  }

  /** A backup that went through, put in front of the second half of a turn:
      the calls, queue, log and forward reading compose. */
  lemma BackupJoined(t: Turn, saved: seq<Call>, overwrite: bool, d: string, m: Nodes, dirname: string -> string, now: int)
    requires TurnShape(t, false, overwrite, d) && BackupCall(saved, t.newPath) && !Failed(saved)
    ensures var t' := Turn(t.path, t.newPath, saved, t.parent, t.move);
      && Calls(t') == saved + Calls(t)
      && Queued(t') == BackedUp(saved) + Queued(t)
      && UndoLog(Calls(t')) == UndoLog(Calls(t)) + UndoLog(saved)
      && AfterAll(m, Calls(t'), now) == AfterAll(AfterAll(m, saved, now), Calls(t), now)
      && ExactRun(m, Calls(t'), dirname, now) ==
           (ExactRun(m, saved, dirname, now) && ExactRun(AfterAll(m, saved, now), Calls(t), dirname, now))
  {
    assert t.backup + t.parent == t.parent;
    assert BackedUp(t.backup) == [];
    AppendAssoc(saved, t.parent, t.move);
    AppendAssoc(BackedUp(saved), BackedUp(t.parent), Copied(t.move, t.path));
    UndoLogAppend(saved, Calls(t));
    RunAppend(m, saved, Calls(t), dirname, now);
  }

  /** A backup that went through, put in front of the second half of a turn:
      the turn keeps its shape and throws what the second half throws. */
  lemma BackupShape(t: Turn, saved: seq<Call>, overwrite: bool, d: string)
    requires TurnShape(t, false, overwrite, d) && BackupCall(saved, t.newPath) && !Failed(saved)
    ensures var t' := Turn(t.path, t.newPath, saved, t.parent, t.move);
      TurnError(t') == TurnError(t) && TurnShape(t', true, overwrite, d)
  {
    assert !Failed(t.backup);
  }

  /** One turn of the renaming loop for a file with a destination: back up an
      existing destination, make sure the destination directory exists, then
      move the file. */
  method MoveOne(fs: FileSystem, path: string, newPath: string, backup: bool, overwrite: bool, paths: PathOps,
                 log: seq<RewindStep>, toDelete: seq<string>, now: int, ghost original: Nodes, ghost exact: bool)
    returns (log': seq<RewindStep>, toDelete': seq<string>, err: Option<Thrown>, ghost exact': bool, ghost t: Turn)
    modifies fs
    requires exact ==> RestoresTo(fs.nodes, log, original, paths.dirname, now)
    ensures t.path == path && t.newPath == newPath && fs.journal == old(fs.journal) + Calls(t)
    ensures TurnShape(t, backup, overwrite, paths.dirname(newPath))
    ensures TurnFits(old(fs.nodes), t, paths.dirname(newPath), overwrite, now)
    ensures err == TurnError(t)
    ensures log' == UndoLog(Calls(t)) + log
    ensures toDelete' == toDelete + Queued(t)
    ensures err.None? ==> fs.nodes == AfterAll(old(fs.nodes), Calls(t), now)
    ensures Reached(old(fs.nodes), Calls(t), fs.nodes, now)
    ensures err.None? ==> newPath in fs.nodes && Moved(fs.journal, path, newPath)
    ensures !backup && !overwrite && paths.dirname(newPath) in old(fs.nodes) && old(fs.nodes)[paths.dirname(newPath)].File? ==>
      err == Some(ErrorValue(DirIsFileMessage(path, newPath), "")) && fs.nodes == old(fs.nodes) && log' == log
    ensures exact' == (exact && ExactRun(old(fs.nodes), Calls(t), paths.dirname, now))
    ensures exact' ==> RestoresTo(fs.nodes, log', original, paths.dirname, now)
  {
    if !backup {
      log', toDelete', err, exact', t := PlaceFile(fs, path, newPath, overwrite, paths, log, toDelete, now, original, exact);
      return;
    }
    var tmp;
    ghost var saved;
    tmp, log', err, exact', saved := BackUp(fs, newPath, log, paths.dirname, now, original, exact);
    if err.Some? {
      toDelete' := toDelete;
      t := Turn(path, newPath, saved, [], []);
      TurnParts(t, old(fs.journal), log, toDelete, old(fs.nodes), paths.dirname, now);
      return;
    }
    assert BackedUp(saved) == [tmp];
    ghost var rest;
    log', toDelete', err, exact', rest := PlaceFile(fs, path, newPath, overwrite, paths, log', toDelete + [tmp], now, original, exact');
    t := Turn(path, newPath, saved, rest.parent, rest.move);
    BackupJoined(rest, saved, overwrite, paths.dirname(newPath), old(fs.nodes), paths.dirname, now);
    BackupShape(rest, saved, overwrite, paths.dirname(newPath));
    AppendAssoc(old(fs.journal), saved, Calls(rest));
    AppendAssoc(toDelete, BackedUp(saved), Queued(rest));
    AppendAssoc(UndoLog(Calls(rest)), UndoLog(saved), log);
  }

  /** Every one of the first `n` files that has a destination was moved there. */
  ghost predicate MovedUpTo(journal: seq<Call>, files: seq<FileRecord>, targets: seq<Option<string>>, n: nat)
    requires n <= |files| == |targets|
  {
    forall j :: 0 <= j < n && targets[j].Some? ==> Moved(journal, files[j].path, targets[j].value)
  }

  /** The next file keeps the property when it has no destination or was moved. */
  lemma MovedUpToNext(journal: seq<Call>, files: seq<FileRecord>, targets: seq<Option<string>>, n: nat)
    requires n < |files| == |targets| && MovedUpTo(journal, files, targets, n)
    requires targets[n].Some? ==> Moved(journal, files[n].path, targets[n].value)
    ensures MovedUpTo(journal, files, targets, n + 1)
  {
  }

  /** Later calls do not undo a move. */
  lemma MovedUpToKept(journal: seq<Call>, later: seq<Call>, files: seq<FileRecord>, targets: seq<Option<string>>, n: nat)
    requires n <= |files| == |targets| && MovedUpTo(journal, files, targets, n) && journal <= later
    ensures MovedUpTo(later, files, targets, n)
  {
    forall j | 0 <= j < n && targets[j].Some? ensures Moved(later, files[j].path, targets[j].value) {
      MovedKept(journal, later, files[j].path, targets[j].value);
    }
  }

  /** Adding to the insertion-ordered set of source directories: a
      directory already present is not added again. */
  function AddOnce(dirs: seq<string>, d: string): (r: seq<string>)
    ensures forall x :: x in r <==> x in dirs || x == d
    ensures Rename.NoDuplicates(dirs) ==> Rename.NoDuplicates(r)
    ensures dirs <= r
  {
    if d in dirs then dirs else dirs + [d]
  }

  /** The source directories of the first `n` files that have a destination,
      in the order the loop adds them. */
  function DirsUpTo(files: seq<FileRecord>, targets: seq<Option<string>>, n: nat, dirname: string -> string): seq<string>
    requires n <= |files| == |targets|
  {
    if n == 0 then []
    else if targets[n - 1].Some? then AddOnce(DirsUpTo(files, targets, n - 1, dirname), dirname(files[n - 1].path))
    else DirsUpTo(files, targets, n - 1, dirname)
  }

  /** They are listed once each, and they are exactly the directories of the
      files with a destination. */
  lemma {:induction false} DirsUpToMeaning(files: seq<FileRecord>, targets: seq<Option<string>>, n: nat, dirname: string -> string)
    requires n <= |files| == |targets|
    ensures var dirs := DirsUpTo(files, targets, n, dirname);
      && Rename.NoDuplicates(dirs)
      && (forall d :: d in dirs ==> exists j :: 0 <= j < |files| && targets[j].Some? && d == dirname(files[j].path))
      && (forall j :: 0 <= j < n && targets[j].Some? ==> dirname(files[j].path) in dirs)
  {
    if n > 0 {
      DirsUpToMeaning(files, targets, n - 1, dirname);
      var dirs := DirsUpTo(files, targets, n, dirname);
      forall d | d in dirs ensures exists j :: 0 <= j < |files| && targets[j].Some? && d == dirname(files[j].path) {
        if d !in DirsUpTo(files, targets, n - 1, dirname) {
          assert d == dirname(files[n - 1].path);
        }
      }
    }
  }

  /** Where the renaming loop leaves off: the rewind log (most recent step
      first), the paths to delete on success, the source directories to try
      to remove, and the error it threw, if any. */
  datatype Moves = Moves(log: seq<RewindStep>, toDelete: seq<string>, dirs: seq<string>, error: Option<Thrown>)

  /** One more turn extends the run's calls, log, queue and forward reading. */
  lemma TurnTaken(turns: seq<Turn>, t: Turn, m: Nodes, dirname: string -> string, now: int)
    ensures CallsOf(turns + [t]) == CallsOf(turns) + Calls(t)
    ensures QueueOf(turns + [t]) == QueueOf(turns) + Queued(t)
    ensures UndoLog(CallsOf(turns + [t])) == UndoLog(Calls(t)) + UndoLog(CallsOf(turns))
    ensures AfterAll(m, CallsOf(turns + [t]), now) == AfterAll(AfterAll(m, CallsOf(turns), now), Calls(t), now)
    ensures ExactRun(m, CallsOf(turns + [t]), dirname, now) ==
      (ExactRun(m, CallsOf(turns), dirname, now) && ExactRun(AfterAll(m, CallsOf(turns), now), Calls(t), dirname, now))
  {
    assert (turns + [t])[..|turns|] == turns;
    UndoLogAppend(CallsOf(turns), Calls(t));
    RunAppend(m, CallsOf(turns), Calls(t), dirname, now);
  }

  /** A turn of the right shape for the next file with a destination extends
      a run that went through. */
  lemma LoopExtend(turns: seq<Turn>, t: Turn, pairs: seq<(string, string)>, existing: set<string>, overwrite: bool,
                   dirname: string -> string)
    requires LoopRan(turns, pairs, existing, overwrite, dirname, None)
    requires TurnShape(t, t.newPath in existing, overwrite, dirname(t.newPath))
    ensures LoopRan(turns + [t], pairs + [(t.path, t.newPath)], existing, overwrite, dirname, TurnError(t))
  {
    var turns', pairs' := turns + [t], pairs + [(t.path, t.newPath)];
    forall k | 0 <= k < |turns'|
      ensures && turns'[k].path == pairs'[k].0 && turns'[k].newPath == pairs'[k].1
              && TurnShape(turns'[k], turns'[k].newPath in existing, overwrite, dirname(turns'[k].newPath))
    {
      if k < |turns| {
        assert turns'[k] == turns[k] && pairs'[k] == pairs[k];
      }
    }
    forall k | 0 <= k < |turns'| - 1 ensures TurnError(turns'[k]).None? {
      assert turns'[k] == turns[k];
    }
  }

  /** A file without a destination leaves a run that went through as it is. */
  lemma LoopSkip(turns: seq<Turn>, files: seq<FileRecord>, targets: seq<Option<string>>, i: nat,
                 existing: set<string>, overwrite: bool, dirname: string -> string)
    requires i < |files| == |targets| && targets[i].None?
    requires LoopRan(turns, PlannedPairs(files, targets, i), existing, overwrite, dirname, None)
    ensures LoopRan(turns, PlannedPairs(files, targets, i + 1), existing, overwrite, dirname, None)
  {
    assert PlannedPairs(files, targets, i + 1) == PlannedPairs(files, targets, i);
  }

  /** The pairs a run of turns is checked against may be extended. */
  lemma LoopRanLonger(turns: seq<Turn>, pairs: seq<(string, string)>, longer: seq<(string, string)>, existing: set<string>,
                      overwrite: bool, dirname: string -> string, error: Option<Thrown>)
    requires LoopRan(turns, pairs, existing, overwrite, dirname, error) && error.Some? && pairs <= longer
    ensures LoopRan(turns, longer, existing, overwrite, dirname, error)
  {
    forall k | 0 <= k < |pairs| ensures longer[k] == pairs[k] {
    }
  }

  /** Where the loop stands before the file at `i`: every planned pair so far
      has had its turn, the journal grew by the turns' calls, the log, the
      queue and the set of source directories are read off them, the
      filesystem is where they took it, and `exact` says whether the log
      rewinds it to `original`. */
  ghost predicate Progressed(m: Moves, turns: seq<Turn>, journal: seq<Call>, start: seq<Call>, nodes: Nodes, original: Nodes,
                             files: seq<FileRecord>, targets: seq<Option<string>>, i: nat, existing: set<string>,
                             overwrite: bool, dirname: string -> string, now: int, exact: bool)
    requires i <= |files| == |targets|
  {
    && journal == start + CallsOf(turns)
    && LoopRan(turns, PlannedPairs(files, targets, i), existing, overwrite, dirname, m.error)
    && m.log == UndoLog(CallsOf(turns)) && m.toDelete == QueueOf(turns)
    && exact == ExactRun(original, CallsOf(turns), dirname, now)
    && (m.error.None? ==> nodes == AfterAll(original, CallsOf(turns), now))
    && Reached(original, CallsOf(turns), nodes, now)
    && ParentsFit(turns, original, overwrite, dirname, now)
    && (exact ==> RestoresTo(nodes, m.log, original, dirname, now))
    && (m.error.None? ==> MovedUpTo(journal, files, targets, i))
    && m.dirs == DirsUpTo(files, targets, i, dirname)
  }

  /** A file without a destination is passed over. */
  lemma ProgressSkip(m: Moves, turns: seq<Turn>, journal: seq<Call>, start: seq<Call>, nodes: Nodes, original: Nodes,
                     files: seq<FileRecord>, targets: seq<Option<string>>, i: nat, existing: set<string>,
                     overwrite: bool, dirname: string -> string, now: int, exact: bool)
    requires i < |files| == |targets| && targets[i].None? && m.error.None?
    requires Progressed(m, turns, journal, start, nodes, original, files, targets, i, existing, overwrite, dirname, now, exact)
    ensures Progressed(m, turns, journal, start, nodes, original, files, targets, i + 1, existing, overwrite, dirname, now, exact)
  {
    LoopSkip(turns, files, targets, i, existing, overwrite, dirname);
    MovedUpToNext(journal, files, targets, i);
  }

  /** One pass of the loop for a file with a destination: its source
      directory joins the set, then it has its turn. */
  method TakeTurn(fs: FileSystem, files: seq<FileRecord>, targets: seq<Option<string>>, i: nat, existing: set<string>,
                  overwrite: bool, paths: PathOps, now: int, m: Moves,
                  ghost turns: seq<Turn>, ghost start: seq<Call>, ghost original: Nodes, ghost exact: bool)
    returns (m': Moves, ghost turns': seq<Turn>, ghost exact': bool)
    modifies fs
    requires i < |files| == |targets| && targets[i].Some? && m.error.None?
    requires Progressed(m, turns, fs.journal, start, fs.nodes, original, files, targets, i, existing, overwrite, paths.dirname, now, exact)
    ensures Progressed(m', turns', fs.journal, start, fs.nodes, original, files, targets, i + 1, existing, overwrite, paths.dirname,
                       now, exact')
  {
    var path, newPath := files[i].path, targets[i].value;
    var dirs := AddOnce(m.dirs, paths.dirname(path));
    ghost var journal, nodes := fs.journal, fs.nodes;
    var log, toDelete, err;
    ghost var t;
    log, toDelete, err, exact', t := MoveOne(fs, path, newPath, newPath in existing, overwrite, paths, m.log, m.toDelete,
                                             now, original, exact);
    m' := Moves(log, toDelete, dirs, err);
    turns' := turns + [t];
    TurnProgress(m, m', turns, t, journal, fs.journal, start, nodes, fs.nodes, original, files, targets, i, existing, overwrite,
                 paths.dirname, now, exact, exact');
  }

  /** A turn, as `MoveOne` takes it, carries the loop's progress to the next file. */
  lemma TurnProgress(m: Moves, m': Moves, turns: seq<Turn>, t: Turn, journal: seq<Call>, journal': seq<Call>, start: seq<Call>,
                     nodes: Nodes, nodes': Nodes, original: Nodes, files: seq<FileRecord>, targets: seq<Option<string>>,
                     i: nat, existing: set<string>, overwrite: bool, dirname: string -> string, now: int,
                     exact: bool, exact': bool)
    requires i < |files| == |targets| && targets[i].Some? && m.error.None?
    requires Progressed(m, turns, journal, start, nodes, original, files, targets, i, existing, overwrite, dirname, now, exact)
    requires t.path == files[i].path && t.newPath == targets[i].value && journal' == journal + Calls(t)
    requires TurnShape(t, t.newPath in existing, overwrite, dirname(t.newPath))
    requires TurnFits(nodes, t, dirname(t.newPath), overwrite, now)
    requires m'.error == TurnError(t)
    requires m'.log == UndoLog(Calls(t)) + m.log && m'.toDelete == m.toDelete + Queued(t)
    requires m'.error.None? ==> nodes' == AfterAll(nodes, Calls(t), now) && Moved(journal', t.path, t.newPath)
    requires Reached(nodes, Calls(t), nodes', now)
    requires exact' == (exact && ExactRun(nodes, Calls(t), dirname, now))
    requires exact' ==> RestoresTo(nodes', m'.log, original, dirname, now)
    requires m'.dirs == AddOnce(m.dirs, dirname(files[i].path))
    ensures Progressed(m', turns + [t], journal', start, nodes', original, files, targets, i + 1, existing, overwrite, dirname,
                       now, exact')
  {
    TurnTaken(turns, t, original, dirname, now);
    AppendAssoc(start, CallsOf(turns), Calls(t));
    assert PlannedPairs(files, targets, i + 1) == PlannedPairs(files, targets, i) + [(t.path, t.newPath)];
    LoopExtend(turns, t, PlannedPairs(files, targets, i), existing, overwrite, dirname);
    FitsExtend(turns, t, original, overwrite, dirname, now);
    ReachedAfter(original, CallsOf(turns), Calls(t), nodes, nodes', now);
    if m'.error.None? {
      MovedUpToKept(journal, journal', files, targets, i);
      MovedUpToNext(journal', files, targets, i);
    }
  }

  /** One pass of the loop: a file without a destination is passed over,
      one with a destination has its turn. */
  method Advance(fs: FileSystem, files: seq<FileRecord>, targets: seq<Option<string>>, i: nat, existing: set<string>,
                 overwrite: bool, paths: PathOps, now: int, m: Moves,
                 ghost turns: seq<Turn>, ghost start: seq<Call>, ghost original: Nodes, ghost exact: bool)
    returns (m': Moves, ghost turns': seq<Turn>, ghost exact': bool, i': nat)
    modifies fs
    requires i < |files| == |targets| && m.error.None?
    requires Progressed(m, turns, fs.journal, start, fs.nodes, original, files, targets, i, existing, overwrite, paths.dirname, now, exact)
    ensures i' == i + 1
    ensures Progressed(m', turns', fs.journal, start, fs.nodes, original, files, targets, i', existing, overwrite, paths.dirname,
                       now, exact')
  {
    if targets[i].None? {
      ProgressSkip(m, turns, fs.journal, start, fs.nodes, original, files, targets, i, existing,
                   overwrite, paths.dirname, now, exact);
      m', turns', exact' := m, turns, exact;
    } else {
      m', turns', exact' := TakeTurn(fs, files, targets, i, existing, overwrite, paths, now, m, turns, start, original, exact);
    }
    i' := i + 1;
  }

  /** The renaming loop: files without a destination, and every file in a
      simulation, are passed over; the first throw ends it. Its calls are
      its turns', one per file with a destination until the throw; the log
      and the deletion queue are read off them, and so is the ghost `exact`:
      every `rename` moved a node whose parent is a directory to a free path
      and every copy went to a free path. Then the log rewinds the
      filesystem to where the loop started. */
  method RenameAll(fs: FileSystem, files: seq<FileRecord>, targets: seq<Option<string>>, existing: set<string>,
                   options: Options, paths: PathOps, now: int)
    returns (r: Moves, ghost exact: bool, ghost turns: seq<Turn>)
    modifies fs
    requires |targets| == |files|
    ensures old(fs.journal) <= fs.journal && fs.journal == old(fs.journal) + CallsOf(turns)
    ensures LoopRan(turns, if options.simulate then [] else PlannedPairs(files, targets, |files|), existing,
                    options.overwrite, paths.dirname, r.error)
    ensures ParentsFit(turns, old(fs.nodes), options.overwrite, paths.dirname, now)
    ensures r.error.Some? ==> LoopFailure(r.error.value, CallsOf(turns), PlannedPairs(files, targets, |files|))
    ensures r.log == UndoLog(CallsOf(turns))
    ensures r.toDelete == QueueOf(turns)
    ensures exact == ExactRun(old(fs.nodes), CallsOf(turns), paths.dirname, now)
    ensures exact ==> RestoresTo(fs.nodes, r.log, old(fs.nodes), paths.dirname, now)
    ensures r.error.None? ==> fs.nodes == AfterAll(old(fs.nodes), CallsOf(turns), now)
    ensures Reached(old(fs.nodes), CallsOf(turns), fs.nodes, now)
    ensures options.simulate ==> r == Moves([], [], [], None) && fs.nodes == old(fs.nodes) && fs.journal == old(fs.journal)
    ensures r.error.None? && !options.simulate ==>
      forall j :: 0 <= j < |files| && targets[j].Some? ==> Moved(fs.journal, files[j].path, targets[j].value)
    ensures Rename.NoDuplicates(r.dirs)
    ensures forall d :: d in r.dirs ==> exists j :: 0 <= j < |files| && targets[j].Some? && d == paths.dirname(files[j].path)
    ensures r.error.None? && !options.simulate ==>
      forall j :: 0 <= j < |files| && targets[j].Some? ==> paths.dirname(files[j].path) in r.dirs
  {
    if options.simulate {
      return Moves([], [], [], None), true, [];
    }
    ghost var n;
    r, exact, turns, n := RunLoop(fs, files, targets, existing, options.overwrite, paths, now);
    DirsUpToMeaning(files, targets, n, paths.dirname);
    if r.error.Some? {
      PlannedPrefix(files, targets, n, |files|);
      LoopRanLonger(turns, PlannedPairs(files, targets, n), PlannedPairs(files, targets, |files|), existing,
                    options.overwrite, paths.dirname, r.error);
      LoopErrorMeaning(turns, PlannedPairs(files, targets, |files|), existing, options.overwrite, paths.dirname, r.error);
    }
  }

  /** The loop of a run that is not a simulation: it stops after the file at
      `n - 1`, at the end of the batch or at the first throw. */
  method RunLoop(fs: FileSystem, files: seq<FileRecord>, targets: seq<Option<string>>, existing: set<string>,
                 overwrite: bool, paths: PathOps, now: int)
    returns (r: Moves, ghost exact: bool, ghost turns: seq<Turn>, ghost n: nat)
    modifies fs
    requires |targets| == |files|
    ensures n <= |files| && (r.error.None? ==> n == |files|)
    ensures Progressed(r, turns, fs.journal, old(fs.journal), fs.nodes, old(fs.nodes), files, targets, n, existing,
                       overwrite, paths.dirname, now, exact)
  {
    r, exact, turns := Moves([], [], [], None), true, [];
    var i := 0;
    while i < |files| && r.error.None?
      invariant i <= |files|
      invariant Progressed(r, turns, fs.journal, old(fs.journal), fs.nodes, old(fs.nodes), files, targets, i, existing,
                           overwrite, paths.dirname, now, exact)
    {
      r, turns, exact, i := Advance(fs, files, targets, i, existing, overwrite, paths, now, r, turns, old(fs.journal),
                                    old(fs.nodes), exact);
    }
    n := i;
  }
}
