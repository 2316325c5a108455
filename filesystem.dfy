/** The filesystem the processor works on, as a flat map from a path to the
    node stored there, with the five mutating calls it makes (`rename`,
    `mkdir -p`, `cp -r`, `rm -rf` and `rmdir`). Every call may fail for
    reasons outside the model (permissions, a full disk, a cross-device
    move); those failures are a free choice of the method. A ghost journal
    records every mutating call with its outcome.

    Also here: the rewind steps of the processor and what replaying them does. */
module Filesystem {
  import opened Wrappers

  /** The `stat` fields the templates can see. */
  datatype StatData = StatData(size: nat, atime: int, mtime: int, ctime: int, birthtime: int)

  /** A file (its content stands for its bytes) or a directory. */
  datatype Node = File(content: nat, stat: StatData) | Dir(stat: StatData)

  type Nodes = map<string, Node>

  /** The stat of a directory created by the run: every time is the start of the run. */
  function NewDir(now: int): Node {
    Dir(StatData(0, now, now, now, now))
  }

  datatype ErrorCode = Enoent | Eexist | Exdev | Other(message: string)

  datatype Outcome = Ok | Err(code: ErrorCode)

  /** One mutating call, as the journal records it. */
  datatype Call =
    | RenameCall(from: string, to: string, outcome: Outcome)
    | MkdirCall(path: string, outcome: Outcome)
    | CopyCall(from: string, to: string, outcome: Outcome)
    | RemoveCall(path: string, outcome: Outcome)
    | RmdirCall(path: string, outcome: Outcome)

  // ---------------------------------------------------------------------
  // What a successful call does to the map

  /** `rename(from, to)`: the node leaves `from` and replaces whatever was at `to`. */
  function Move(m: Nodes, from: string, to: string): (r: Nodes)
    requires from in m
    ensures to in r && r[to] == m[from]
    ensures from != to ==> from !in r
    ensures forall p :: p != from && p != to ==> (p in r <==> p in m) && (p in m ==> r[p] == m[p])
  {
    (m - {from})[to := m[from]]
  }

  /** `mkdir(d, {recursive: true})`: nothing when `d` is a directory already. */
  function EnsureDir(m: Nodes, d: string, now: int): (r: Nodes)
    requires d in m ==> m[d].Dir?
    ensures d in r && r[d].Dir?
    ensures d in m ==> r == m
    ensures forall p :: p != d ==> (p in r <==> p in m) && (p in m ==> r[p] == m[p])
  {
    if d in m then m else m[d := NewDir(now)]
  }

  /** Moving a node to a free path and back leaves the map as it was. */
  lemma MoveBack(m: Nodes, a: string, b: string)
    requires a in m && b !in m
    ensures Move(Move(m, a, b), b, a) == m
  {
    var r := Move(Move(m, a, b), b, a);
    assert forall p :: p in r <==> p in m;
  }

  // ---------------------------------------------------------------------
  // The filesystem

  class FileSystem {
    var nodes: Nodes
    ghost var journal: seq<Call>

    constructor (initial: Nodes)
      ensures nodes == initial && journal == []
    {
      nodes := initial;
      journal := [];
    }

    /** `fs.stat(p)` / `statIfExists(p)`: the node at `p`, if any. */
    function StatIfExists(p: string): (r: Option<Node>)
      reads this
      ensures r.Some? <==> p in nodes
      ensures r.Some? ==> r.value == nodes[p]
    {
      if p in nodes then Some(nodes[p]) else None
    }

    /** `fs.promises.rename(from, to)`. */
    method Rename(from: string, to: string) returns (r: Outcome)
      modifies this
      ensures journal == old(journal) + [RenameCall(from, to, r)]
      ensures from !in old(nodes) ==> r == Err(Enoent)
      ensures r.Ok? ==> from in old(nodes) && nodes == Move(old(nodes), from, to)
      ensures r.Err? ==> nodes == old(nodes)
    {
      if from !in nodes {
        r := Err(Enoent);
      } else {
        var failure: Option<ErrorCode> :| true;
        if failure.None? {
          nodes := Move(nodes, from, to);
          r := Ok;
        } else {
          r := Err(failure.value);
        }
      }
      journal := journal + [RenameCall(from, to, r)];
    }

    /** `fs.promises.mkdir(d, {recursive: true})`. Ancestors it would also
        create are not entries of the flat map. */
    method Mkdir(d: string, now: int) returns (r: Outcome)
      modifies this
      ensures journal == old(journal) + [MkdirCall(d, r)]
      ensures d in old(nodes) && old(nodes)[d].File? ==> r == Err(Eexist)
      ensures r.Ok? ==> !(d in old(nodes) && old(nodes)[d].File?) && nodes == EnsureDir(old(nodes), d, now)
      ensures r.Err? ==> nodes == old(nodes)
    {
      if d in nodes && nodes[d].File? {
        r := Err(Eexist);
      } else if d in nodes {
        r := Ok;
      } else {
        var failure: Option<ErrorCode> :| true;
        if failure.None? {
          nodes := EnsureDir(nodes, d, now);
          r := Ok;
        } else {
          r := Err(failure.value);
        }
      }
      journal := journal + [MkdirCall(d, r)];
    }

    /** `fs.promises.cp(from, to, {recursive: true})`. A failed copy may leave
        a partial node at `to`. */
    method Copy(from: string, to: string) returns (r: Outcome)
      modifies this
      ensures journal == old(journal) + [CopyCall(from, to, r)]
      ensures from !in old(nodes) ==> r == Err(Enoent) && nodes == old(nodes)
      ensures r.Ok? ==> from in old(nodes) && nodes == old(nodes)[to := old(nodes)[from]]
      ensures r.Err? ==> nodes == old(nodes) || (to in nodes && nodes == old(nodes)[to := nodes[to]])
    {
      if from !in nodes {
        r := Err(Enoent);
      } else {
        var failure: Option<ErrorCode> :| true;
        if failure.None? {
          nodes := nodes[to := nodes[from]];
          r := Ok;
        } else {
          var partial: Option<Node> :| true;
          if partial.Some? {
            nodes := nodes[to := partial.value];
          }
          r := Err(failure.value);
        }
      }
      journal := journal + [CopyCall(from, to, r)];
    }

    /** `deletePath(p)`, that is `fs.promises.rm(p, {force: true, recursive: true})`:
        a missing path is no error. */
    method Remove(p: string) returns (r: Outcome)
      modifies this
      ensures journal == old(journal) + [RemoveCall(p, r)]
      ensures r.Ok? ==> nodes == old(nodes) - {p}
      ensures r.Err? ==> nodes == old(nodes)
    {
      var failure: Option<ErrorCode> :| true;
      if failure.None? {
        nodes := nodes - {p};
        r := Ok;
      } else {
        r := Err(failure.value);
      }
      journal := journal + [RemoveCall(p, r)];
    }

    /** `fs.promises.rmdir(p)`: only a directory goes, and only when it is
        empty, which the flat map does not know, so it may always fail. */
    method Rmdir(p: string) returns (r: Outcome)
      modifies this
      ensures journal == old(journal) + [RmdirCall(p, r)]
      ensures r.Ok? ==> p in old(nodes) && old(nodes)[p].Dir? && nodes == old(nodes) - {p}
      ensures r.Err? ==> nodes == old(nodes)
    {
      if p !in nodes {
        r := Err(Enoent);
      } else if nodes[p].File? {
        r := Err(Other("ENOTDIR"));
      } else {
        var failure: Option<ErrorCode> :| true;
        if failure.None? {
          nodes := nodes - {p};
          r := Ok;
        } else {
          r := Err(failure.value);
        }
      }
      journal := journal + [RmdirCall(p, r)];
    }
  }

  // ---------------------------------------------------------------------
  // Rewind steps

  /** One inverse action of the processor's rewind log. */
  datatype RewindStep = RenameStep(from: string, to: string) | DeleteStep(path: string)

  /** How far a replay got: the map after it, and how many steps completed. */
  datatype Replayed = Replayed(nodes: Nodes, completed: nat)

  /** What one step does when no call fails for a reason outside the map: a
      `rename` step makes the parent of `to` and moves `from` back (failing
      when the parent is a file or `from` is gone), a `delete` step removes
      the path. */
  function ApplyStep(m: Nodes, step: RewindStep, dirname: string -> string, now: int): Option<Nodes>
  {
    match step
    case RenameStep(from, to) =>
      var d := dirname(to);
      if d in m && m[d].File? then None
      else
        var m1 := EnsureDir(m, d, now);
        if from in m1 then Some(Move(m1, from, to)) else None
    case DeleteStep(path) => Some(m - {path})
  }

  /** Replaying a log from its first entry (the most recent action) onwards,
      stopping at the first step that fails. */
  function Replay(m: Nodes, steps: seq<RewindStep>, dirname: string -> string, now: int): (r: Replayed)
    ensures r.completed <= |steps|
    ensures r.completed == |steps| || ApplyStep(r.nodes, steps[r.completed], dirname, now).None?
    decreases |steps|
  {
    if steps == [] then Replayed(m, 0)
    else match ApplyStep(m, steps[0], dirname, now)
      case None => Replayed(m, 0)
      case Some(m1) =>
        var rest := Replay(m1, steps[1..], dirname, now);
        Replayed(rest.nodes, rest.completed + 1)
  }

  /** A step whose action succeeds extends the replay by one. */
  lemma ReplayStep(m: Nodes, step: RewindStep, steps: seq<RewindStep>, dirname: string -> string, now: int)
    requires ApplyStep(m, step, dirname, now).Some?
    ensures var rest := Replay(ApplyStep(m, step, dirname, now).value, steps, dirname, now);
      Replay(m, [step] + steps, dirname, now) == Replayed(rest.nodes, rest.completed + 1)
  {
    assert ([step] + steps)[1..] == steps;
  }

  /** Replaying a prefix that completes, then the rest, is replaying the whole. */
  lemma {:induction false} ReplayAppend(m: Nodes, steps: seq<RewindStep>, step: RewindStep, dirname: string -> string, now: int)
    requires Replay(m, steps, dirname, now).completed == |steps|
    ensures var r := Replay(m, steps, dirname, now);
      ApplyStep(r.nodes, step, dirname, now).Some? ==>
        Replay(m, steps + [step], dirname, now) == Replayed(ApplyStep(r.nodes, step, dirname, now).value, |steps| + 1)
    ensures var r := Replay(m, steps, dirname, now);
      ApplyStep(r.nodes, step, dirname, now).None? ==>
        Replay(m, steps + [step], dirname, now) == Replayed(r.nodes, |steps|)
    decreases |steps|
  {
    if steps == [] {
      assert [] + [step] == [step];
    } else {
      var m1 := ApplyStep(m, steps[0], dirname, now).value;
      assert (steps + [step])[0] == steps[0];
      assert (steps + [step])[1..] == steps[1..] + [step];
      ReplayAppend(m1, steps[1..], step, dirname, now);
    }
  }

  /** Moving `a` to a free path `b` while the parent of `a` is a directory that
      is neither `a` nor `b`: the rename step `b -> a` undoes it exactly. */
  ghost predicate UndoableMove(m: Nodes, a: string, b: string, dirname: string -> string) {
    && a in m && b !in m
    && dirname(a) != a && dirname(a) in m && m[dirname(a)].Dir?
  }

  lemma UndoMove(m: Nodes, a: string, b: string, dirname: string -> string, now: int)
    requires UndoableMove(m, a, b, dirname)
    ensures ApplyStep(Move(m, a, b), RenameStep(b, a), dirname, now) == Some(m)
  {
    var m1 := Move(m, a, b);
    assert dirname(a) in m1 && m1[dirname(a)] == m[dirname(a)];
    assert EnsureDir(m1, dirname(a), now) == m1;
    MoveBack(m, a, b);
  }

  /** A node added at a free path is undone by deleting that path. */
  lemma UndoAdd(m: Nodes, p: string, n: Node, dirname: string -> string, now: int)
    requires p !in m
    ensures ApplyStep(m[p := n], DeleteStep(p), dirname, now) == Some(m)
  {
    assert m[p := n] - {p} == m;
  }

  /** The rewind invariant: replaying `log` from `m` completes and gives back `original`. */
  ghost predicate RestoresTo(m: Nodes, log: seq<RewindStep>, original: Nodes, dirname: string -> string, now: int) {
    Replay(m, log, dirname, now) == Replayed(original, |log|)
  }

  /** Logging the undo step of an action in front of a log that restores the
      state before the action gives a log that restores from the state after it. */
  lemma {:induction false} RestoresAfterUndo(before: Nodes, after: Nodes, step: RewindStep, log: seq<RewindStep>,
                                             original: Nodes, dirname: string -> string, now: int)
    requires ApplyStep(after, step, dirname, now) == Some(before)
    requires RestoresTo(before, log, original, dirname, now)
    ensures RestoresTo(after, [step] + log, original, dirname, now)
  {
    ReplayStep(after, step, log, dirname, now);
  }

  /** One step of the rewind: `mkdir -p` of the parent, then `rename`, for a
      rename step; `deletePath` for a delete step. Every call but a failing
      last one went through; when none failed, the step did what `ApplyStep`
      says, and otherwise nothing changed but, perhaps, the parent made. */
  method RewindOne(fs: FileSystem, step: RewindStep, dirname: string -> string, now: int) returns (failure: Option<ErrorCode>)
    modifies fs
    ensures old(fs.journal) <= fs.journal
    ensures failure.None? ==> ApplyStep(old(fs.nodes), step, dirname, now) == Some(fs.nodes)
    ensures failure.Some? ==>
      fs.nodes == old(fs.nodes) || (step.RenameStep? && ParentMade(old(fs.nodes), fs.nodes, dirname(step.to), now))
    ensures failure.Some? ==> EndsFailing(old(fs.journal), fs.journal, failure.value)
    ensures forall k :: |old(fs.journal)| <= k < |fs.journal| - 1 ==> fs.journal[k].outcome.Ok?
    ensures failure.None? ==> forall k :: |old(fs.journal)| <= k < |fs.journal| ==> fs.journal[k].outcome.Ok?
  {
    failure := None;
    match step {
      case RenameStep(from, to) =>
        var made := fs.Mkdir(dirname(to), now);
        if made.Err? {
          failure := Some(made.code);
        } else {
          var moved := fs.Rename(from, to);
          if moved.Err? {
            failure := Some(moved.code);
          }
        }
      case DeleteStep(path) =>
        var removed := fs.Remove(path);
        if removed.Err? {
          failure := Some(removed.code);
        }
    }
  }

  /** The rewind as the processor runs it: the steps in log order, `mkdir -p`
      of the parent and `rename` for a rename step, `deletePath` for a delete
      step; the first failing call ends it. `completed` steps were replayed in
      full; after a failed `rename` the parent it made may remain. */
  method Rewind(fs: FileSystem, steps: seq<RewindStep>, dirname: string -> string, now: int)
    returns (completed: nat, failure: Option<ErrorCode>)
    modifies fs
    ensures completed <= |steps|
    ensures failure.None? ==> completed == |steps| && Replay(old(fs.nodes), steps, dirname, now) == Replayed(fs.nodes, |steps|)
    ensures failure.Some? ==> completed < |steps|
    ensures failure.Some? ==>
      var r := Replay(old(fs.nodes), steps[..completed], dirname, now);
      && r.completed == completed
      && (fs.nodes == r.nodes || (steps[completed].RenameStep? && ParentMade(r.nodes, fs.nodes, dirname(steps[completed].to), now)))
    ensures old(fs.journal) <= fs.journal
    ensures failure.Some? ==> EndsFailing(old(fs.journal), fs.journal, failure.value)
    ensures forall k :: |old(fs.journal)| <= k < |fs.journal| - 1 ==> fs.journal[k].outcome.Ok?
    ensures failure.None? ==> forall k :: |old(fs.journal)| <= k < |fs.journal| ==> fs.journal[k].outcome.Ok?
  {
    completed := 0;
    failure := None;
    while completed < |steps|
      invariant completed <= |steps| && failure.None?
      invariant Replay(old(fs.nodes), steps[..completed], dirname, now) == Replayed(fs.nodes, completed)
      invariant old(fs.journal) <= fs.journal
      invariant forall k :: |old(fs.journal)| <= k < |fs.journal| ==> fs.journal[k].outcome.Ok?
    {
      var step := steps[completed];
      assert steps[..completed + 1] == steps[..completed] + [step];
      ReplayAppend(old(fs.nodes), steps[..completed], step, dirname, now);
      failure := RewindOne(fs, step, dirname, now);
      if failure.Some? {
        return;
      }
      completed := completed + 1;
    }
    assert steps[..completed] == steps;
  }

  /** `after` has calls past `before`, and the last of them failed with `code`. */
  ghost predicate EndsFailing(before: seq<Call>, after: seq<Call>, code: ErrorCode) {
    |before| < |after| && after[|after| - 1].outcome == Err(code)
  }

  /** `after` is `before` with directory `d` made by `mkdir -p`. */
  ghost predicate ParentMade(before: Nodes, after: Nodes, d: string, now: int) {
    !(d in before && before[d].File?) && after == EnsureDir(before, d, now)
  }

  // ---------------------------------------------------------------------
  // Journals read forwards

  /** What a journalled call did to the map: a failed call is taken to have
      changed nothing (a failed copy may in fact leave a partial node, which
      only the last call of a run can do). */
  function After(m: Nodes, c: Call, now: int): Nodes {
    if c.outcome.Err? then m
    else match c
      case RenameCall(from, to, _) => if from in m then Move(m, from, to) else m
      case MkdirCall(d, _) => if d in m && m[d].File? then m else EnsureDir(m, d, now)
      case CopyCall(from, to, _) => if from in m then m[to := m[from]] else m
      case RemoveCall(p, _) => m - {p}
      case RmdirCall(p, _) => m - {p}
  }

  /** The map after the journalled `calls`, from `m`. */
  function AfterAll(m: Nodes, calls: seq<Call>, now: int): Nodes
    decreases |calls|
  {
    if calls == [] then m else AfterAll(After(m, calls[0], now), calls[1..], now)
  }

  /** A call whose effect a rewind step undoes exactly, from the map `m` it
      was made on: a `rename` that went through moved a node whose parent is
      a directory to a free path, and a copy, done or tried, went to a free
      path. Every other call (a `mkdir -p` included) qualifies. */
  ghost predicate ExactCall(m: Nodes, c: Call, dirname: string -> string) {
    match c
    case RenameCall(from, to, outcome) => outcome.Ok? ==> UndoableMove(m, from, to, dirname)
    case CopyCall(_, to, _) => to !in m
    case _ => true
  }

  /** Every one of `calls` is exact on the map it was made on, reading the journal forwards from `m`. */
  ghost predicate ExactRun(m: Nodes, calls: seq<Call>, dirname: string -> string, now: int)
    decreases |calls|
  {
    calls == [] || (ExactCall(m, calls[0], dirname) && ExactRun(After(m, calls[0], now), calls[1..], dirname, now))
  }

  /** Reading two stretches of a journal forwards is reading the first, then the second from where it left the map. */
  lemma {:induction false} RunAppend(m: Nodes, a: seq<Call>, b: seq<Call>, dirname: string -> string, now: int)
    ensures AfterAll(m, a + b, now) == AfterAll(AfterAll(m, a, now), b, now)
    ensures ExactRun(m, a + b, dirname, now) == (ExactRun(m, a, dirname, now) && ExactRun(AfterAll(m, a, now), b, dirname, now))
    decreases |a|
  {
    if a == [] {
      assert a + b == b;
    } else {
      assert (a + b)[0] == a[0] && (a + b)[1..] == a[1..] + b;
      RunAppend(After(m, a[0], now), a[1..], b, dirname, now);
    }
  }

  /** A journal of one call, read forwards. */
  lemma RunOne(m: Nodes, c: Call, dirname: string -> string, now: int)
    ensures AfterAll(m, [c], now) == After(m, c, now)
    ensures ExactRun(m, [c], dirname, now) == ExactCall(m, c, dirname)
  {
    assert [c][1..] == [];
  }
}
