/** Database migrations: any number of processes, each with its own directory of files, apply what is
    pending one transaction at a time under one advisory lock. */
module Migrator {
  import opened Wrappers

  datatype File = File(version: int, sql: string, checksum: string)

  /** `schema_migrations`, and the SQL that was committed, in the order of the commits. */
  datatype Database = Database(applied: map<int, string>, committed: seq<File>)

  /** What `loadMigrationFiles` hands out: names sort by their four-digit version, and no version comes twice. */
  predicate IsDirectory(files: seq<File>) {
    forall i, j :: 0 <= i < j < |files| ==> files[i].version < files[j].version
  }

  function Pending(applied: map<int, string>, files: seq<File>): seq<File> {
    if files == [] then []
    else
      Pending(applied, files[..|files| - 1])
      + if files[|files| - 1].version in applied then [] else [files[|files| - 1]]
  }

  function Changed(applied: map<int, string>, files: seq<File>): seq<File> {
    if files == [] then []
    else
      var f := files[|files| - 1];
      Changed(applied, files[..|files| - 1])
      + if f.version in applied && applied[f.version] != f.checksum then [f] else []
  }

  function Applied(db: Database, f: File): Database {
    Database(db.applied[f.version := f.checksum], db.committed + [f])
  }

  function AppliedAll(db: Database, files: seq<File>): Database {
    if files == [] then db else Applied(AppliedAll(db, files[..|files| - 1]), files[|files| - 1])
  }

  lemma {:induction false} PendingAre(applied: map<int, string>, files: seq<File>)
    ensures forall f :: f in Pending(applied, files) <==> f in files && f.version !in applied
  {
    if files != [] {
      PendingAre(applied, files[..|files| - 1]);
      assert files == files[..|files| - 1] + [files[|files| - 1]];
    }
  }

  lemma {:induction false} PendingInOrder(applied: map<int, string>, files: seq<File>)
    requires IsDirectory(files)
    ensures IsDirectory(Pending(applied, files))
  {
    if files != [] {
      var init, last := files[..|files| - 1], files[|files| - 1];
      PendingInOrder(applied, init);
      PendingAre(applied, init);
      var pending := Pending(applied, init);
      forall i | 0 <= i < |pending| ensures pending[i].version < last.version {
        assert pending[i] in init;
      }
    }
  }

  lemma {:induction false} NothingChangedIff(applied: map<int, string>, files: seq<File>)
    ensures Changed(applied, files) == [] <==>
            forall f :: f in files && f.version in applied ==> applied[f.version] == f.checksum
  {
    if files != [] {
      var init, last := files[..|files| - 1], files[|files| - 1];
      NothingChangedIff(applied, init);
      assert files == init + [last];
    }
  }

  lemma {:induction false} PendingOfTwoParts(applied: map<int, string>, first: seq<File>, second: seq<File>)
    ensures Pending(applied, first + second) == Pending(applied, first) + Pending(applied, second)
  {
    if second == [] {
      assert first + [] == first;
    } else {
      PendingOfTwoParts(applied, first, second[..|second| - 1]);
      assert (first + second)[..|first + second| - 1] == first + second[..|second| - 1];
    }
  }

  lemma {:induction false} PendingWhenAllAreApplied(applied: map<int, string>, files: seq<File>)
    requires forall i :: 0 <= i < |files| ==> files[i].version in applied
    ensures Pending(applied, files) == []
  {
    if files != [] { PendingWhenAllAreApplied(applied, files[..|files| - 1]); }
  }

  lemma {:induction false} PendingWhenNoneIsApplied(applied: map<int, string>, files: seq<File>)
    requires forall i :: 0 <= i < |files| ==> files[i].version !in applied
    ensures Pending(applied, files) == files
  {
    if files != [] {
      PendingWhenNoneIsApplied(applied, files[..|files| - 1]);
      assert files == files[..|files| - 1] + [files[|files| - 1]];
    }
  }

  // ---------------------------------------------------------------------------
  // One process, step by step
  // ---------------------------------------------------------------------------

  class Connection {
    var applied: map<int, string>
    var committed: seq<File>

    constructor ()
      ensures View() == Database(map[], [])
    {
      applied, committed := map[], [];
    }

    function View(): Database
      reads this
    {
      Database(applied, committed)
    }

    method GetMigrationStatus(files: seq<File>) returns (pending: seq<File>, changed: seq<File>)
      ensures pending == Pending(applied, files) && changed == Changed(applied, files)
    {
      pending, changed := [], [];
      for i := 0 to |files|
        invariant pending == Pending(applied, files[..i]) && changed == Changed(applied, files[..i])
      {
        assert files[..i + 1][..i] == files[..i];
        var file := files[i];
        if file.version !in applied {
          pending := pending + [file];
        } else if applied[file.version] != file.checksum {
          changed := changed + [file];
        }
      }
      assert files[..|files|] == files;
    }

    /** `applyPending`, under the lock. `failsAt` is the pending file whose transaction fails, if one does. */
    method ApplyPending(files: seq<File>, failsAt: nat) returns (ok: bool, versions: seq<int>)
      modifies this
      ensures Changed(old(applied), files) != [] ==> !ok && View() == old(View())
      ensures Changed(old(applied), files) == [] ==>
                var pending := Pending(old(applied), files);
                && (ok <==> |pending| <= failsAt)
                && View() == AppliedAll(old(View()), if ok then pending else pending[..failsAt])
                && (ok ==>
                      |versions| == |pending| && forall i :: 0 <= i < |pending| ==> versions[i] == pending[i].version)
    {
      var pending, changed := GetMigrationStatus(files);
      versions := [];
      if changed != [] { return false, []; }
      for i := 0 to |pending|
        invariant i <= failsAt
        invariant View() == AppliedAll(old(View()), pending[..i])
        invariant |versions| == i && forall k :: 0 <= k < i ==> versions[k] == pending[k].version
      {
        if i == failsAt { return false, []; }
        assert pending[..i + 1][..i] == pending[..i];
        var file := pending[i];
        committed := committed + [file];
        applied := applied[file.version := file.checksum];
        versions := versions + [file.version];
      }
      assert pending[..|pending|] == pending;
      return true, versions;
    }
  }

  // ---------------------------------------------------------------------------
  // Many processes
  // ---------------------------------------------------------------------------

  /** `done` is what the process has committed in this run. */
  datatype Phase =
    | Waiting
    | Locked
    | Applying(todo: seq<File>, done: seq<File>)
    | Succeeded(done: seq<File>)
    | Refused
    | Failed(todo: seq<File>, done: seq<File>)

  datatype Process = Process(files: seq<File>, phase: Phase)

  datatype System = System(db: Database, lock: Option<nat>, processes: map<nat, Process>)

  datatype Step =
    | Start(p: nat, files: seq<File>)
    | Acquire(p: nat)
    | Read(p: nat)
    | ApplyNext(p: nat, fails: bool)
    | Return(p: nat)
    | Disconnect(p: nat, committed: bool)

  /** A connection may be lost at any time under the lock, also while a commit is under way that still goes through. */
  predicate Enabled(s: System, step: Step) {
    match step
    case Start(p, files) => p !in s.processes && IsDirectory(files)
    case Acquire(p) => p in s.processes && s.processes[p].phase.Waiting? && s.lock == None
    case Read(p) => p in s.processes && s.processes[p].phase.Locked?
    case ApplyNext(p, fails) => p in s.processes && s.processes[p].phase.Applying? && s.processes[p].phase.todo != []
    case Return(p) => p in s.processes && s.processes[p].phase.Applying? && s.processes[p].phase.todo == []
    case Disconnect(p, committed) =>
      && p in s.processes && (s.processes[p].phase.Locked? || s.processes[p].phase.Applying?)
      && (committed ==> s.processes[p].phase.Applying? && s.processes[p].phase.todo != [])
  }

  function WithPhase(s: System, p: nat, phase: Phase): System
    requires p in s.processes
  {
    s.(processes := s.processes[p := s.processes[p].(phase := phase)])
  }

  function Next(s: System, step: Step): System
    requires Enabled(s, step)
  {
    match step
    case Start(p, files) => s.(processes := s.processes[p := Process(files, Waiting)])
    case Acquire(p) => WithPhase(s, p, Locked).(lock := Some(p))
    case Read(p) =>
      if Changed(s.db.applied, s.processes[p].files) != [] then WithPhase(s, p, Refused).(lock := None)
      else WithPhase(s, p, Applying(Pending(s.db.applied, s.processes[p].files), []))
    case ApplyNext(p, fails) =>
      var phase := s.processes[p].phase;
      if fails then WithPhase(s, p, Failed(phase.todo, phase.done)).(lock := None)
      else
        WithPhase(s, p, Applying(phase.todo[1..], phase.done + [phase.todo[0]])).(db := Applied(s.db, phase.todo[0]))
    case Return(p) => WithPhase(s, p, Succeeded(s.processes[p].phase.done)).(lock := None)
    case Disconnect(p, committed) =>
      var phase := s.processes[p].phase;
      if committed then
        WithPhase(s, p, Failed(phase.todo[1..], phase.done + [phase.todo[0]]))
          .(lock := None, db := Applied(s.db, phase.todo[0]))
      else WithPhase(s, p, if phase.Applying? then Failed(phase.todo, phase.done) else Failed([], [])).(lock := None)
  }

  ghost predicate IsRun(states: seq<System>, steps: seq<Step>) {
    && |states| == |steps| + 1
    && forall i :: 0 <= i < |steps| ==> Enabled(states[i], steps[i]) && states[i + 1] == Next(states[i], steps[i])
  }

  // ---------------------------------------------------------------------------
  // What every run keeps
  // ---------------------------------------------------------------------------

  /** The table names exactly the committed SQL, each version once. */
  ghost predicate TableIsTheHistory(db: Database) {
    && (forall i, j :: 0 <= i < j < |db.committed| ==> db.committed[i].version != db.committed[j].version)
    && (forall i :: 0 <= i < |db.committed| ==>
          db.committed[i].version in db.applied && db.applied[db.committed[i].version] == db.committed[i].checksum)
    && (forall v :: v in db.applied ==> exists i :: 0 <= i < |db.committed| && db.committed[i].version == v)
  }

  predicate HoldsLock(phase: Phase) {
    phase.Locked? || phase.Applying?
  }

  /** `todo` is what is pending of the process's files, and nothing applied differs from them. */
  ghost predicate IsUpTo(db: Database, files: seq<File>, todo: seq<File>) {
    && (forall f :: f in todo <==> f in files && f.version !in db.applied)
    && (forall f :: f in files && f.version in db.applied ==> db.applied[f.version] == f.checksum)
    && IsDirectory(todo)
  }

  /** What a run committed is in version order and before everything it still has to do. */
  predicate RanInOrder(phase: Phase) {
    (phase.Applying? || phase.Failed?) ==> IsDirectory(phase.done + phase.todo)
  }

  ghost predicate ProcessOk(s: System, p: nat)
    requires p in s.processes
  {
    var process := s.processes[p];
    && IsDirectory(process.files)
    && (HoldsLock(process.phase) <==> s.lock == Some(p))
    && (process.phase.Applying? ==> IsUpTo(s.db, process.files, process.phase.todo))
    && RanInOrder(process.phase)
    && (process.phase.Succeeded? ==> IsDirectory(process.phase.done))
  }

  ghost predicate Inv(s: System) {
    && TableIsTheHistory(s.db)
    && (s.lock.Some? ==> s.lock.value in s.processes)
    && forall p :: p in s.processes ==> ProcessOk(s, p)
  }

  lemma ApplyingKeepsTheTable(db: Database, f: File)
    requires TableIsTheHistory(db) && f.version !in db.applied
    ensures TableIsTheHistory(Applied(db, f))
  {
    var db' := Applied(db, f);
    forall v | v in db'.applied ensures exists i :: 0 <= i < |db'.committed| && db'.committed[i].version == v {
      if v == f.version {
        assert db'.committed[|db.committed|].version == v;
      } else {
        var i :| 0 <= i < |db.committed| && db.committed[i].version == v;
        assert db'.committed[i].version == v;
      }
    }
  }

  lemma ApplyingTheFirst(db: Database, files: seq<File>, todo: seq<File>)
    requires IsUpTo(db, files, todo) && IsDirectory(files) && todo != []
    ensures IsUpTo(Applied(db, todo[0]), files, todo[1..])
  {
    assert todo == [todo[0]] + todo[1..];
    assert todo[0] in files;
    forall f | f in files && f.version == todo[0].version ensures f == todo[0] {
      var i :| 0 <= i < |files| && files[i] == f;
      var j :| 0 <= j < |files| && files[j] == todo[0];
    }
    forall f | f in todo[1..] ensures f.version != todo[0].version {
      var i :| 0 <= i < |todo[1..]| && todo[1..][i] == f;
      assert todo[i + 1] == f;
    }
  }

  lemma ReadIsUpTo(db: Database, files: seq<File>)
    requires IsDirectory(files) && Changed(db.applied, files) == []
    ensures IsUpTo(db, files, Pending(db.applied, files))
  {
    PendingAre(db.applied, files);
    PendingInOrder(db.applied, files);
    NothingChangedIff(db.applied, files);
    hide Pending, Changed;
  }

  lemma ApplyNextKeepsInv(s: System, p: nat)
    requires Inv(s) && Enabled(s, ApplyNext(p, false))
    ensures Inv(Next(s, ApplyNext(p, false)))
  {
    var phase, s' := s.processes[p].phase, Next(s, ApplyNext(p, false));
    var f := phase.todo[0];
    assert ProcessOk(s, p);
    assert f in phase.todo;
    ApplyingKeepsTheTable(s.db, f);
    ApplyingTheFirst(s.db, s.processes[p].files, phase.todo);
    assert phase.done + [f] + phase.todo[1..] == phase.done + phase.todo;
    hide TableIsTheHistory, IsUpTo, IsDirectory;
    forall q | q in s'.processes ensures ProcessOk(s', q) {
      assert ProcessOk(s, q);
    }
  }

  /** A commit that goes through although the connection is lost is a commit, and then the loss. */
  lemma LostCommitIsTwoSteps(s: System, p: nat)
    requires Enabled(s, Disconnect(p, true))
    ensures Enabled(s, ApplyNext(p, false)) && Enabled(Next(s, ApplyNext(p, false)), Disconnect(p, false))
    ensures Next(s, Disconnect(p, true)) == Next(Next(s, ApplyNext(p, false)), Disconnect(p, false))
  {
  }

  lemma StepKeepsInv(s: System, step: Step)
    requires Inv(s) && Enabled(s, step)
    ensures Inv(Next(s, step))
    decreases step.Disconnect? && step.committed
  {
    var s' := Next(s, step);
    if step.ApplyNext? && !step.fails {
      ApplyNextKeepsInv(s, step.p);
    } else if step.Disconnect? && step.committed {
      LostCommitIsTwoSteps(s, step.p);
      ApplyNextKeepsInv(s, step.p);
      hide Inv, Next, Enabled;
      StepKeepsInv(Next(s, ApplyNext(step.p, false)), Disconnect(step.p, false));
    } else {
      if step.Read? {
        assert ProcessOk(s, step.p);
        if Changed(s.db.applied, s.processes[step.p].files) == [] {
          ReadIsUpTo(s.db, s.processes[step.p].files);
          assert [] + Pending(s.db.applied, s.processes[step.p].files) ==
                 Pending(s.db.applied, s.processes[step.p].files);
        }
      }
      if step.Return? { assert s.processes[step.p].phase.done + [] == s.processes[step.p].phase.done; }
      hide TableIsTheHistory, IsUpTo, Pending, Changed;
      forall q | q in s'.processes ensures ProcessOk(s', q) {
        if q in s.processes { assert ProcessOk(s, q); }
      }
    }
  }

  lemma {:induction false} RunKeepsInv(states: seq<System>, steps: seq<Step>, k: nat)
    requires IsRun(states, steps) && k < |states|
    requires states[0] == System(Database(map[], []), None, map[])
    ensures Inv(states[k])
    decreases k
  {
    if k > 0 {
      RunKeepsInv(states, steps, k - 1);
      hide Inv, Next, Enabled;
      StepKeepsInv(states[k - 1], steps[k - 1]);
    }
  }

  /** Over any run of any processes: the SQL of a version is committed once at most, and exactly when the table says
      so; and what one process committed, it committed in version order. */
  lemma EachVersionIsCommittedOnce(states: seq<System>, steps: seq<Step>, k: nat)
    requires IsRun(states, steps) && k < |states|
    requires states[0] == System(Database(map[], []), None, map[])
    ensures TableIsTheHistory(states[k].db)
    ensures forall p :: p in states[k].processes ==>
              var phase := states[k].processes[p].phase;
              && (phase.Succeeded? ==> IsDirectory(phase.done))
              && (phase.Failed? ==> IsDirectory(phase.done + phase.todo))
  {
    RunKeepsInv(states, steps, k);
    hide TableIsTheHistory, IsRun;
    forall p | p in states[k].processes ensures ProcessOk(states[k], p) {
    }
  }

  lemma UpToDateIsDone(db: Database, files: seq<File>, todo: seq<File>)
    requires IsUpTo(db, files, todo)
    ensures Changed(db.applied, files) == []
    ensures todo == [] ==> Pending(db.applied, files) == []
    ensures forall f :: f in todo ==> f.version !in db.applied
    ensures todo != [] ==> forall f :: f in files && f.version < todo[0].version ==> f.version in db.applied
  {
    NothingChangedIff(db.applied, files);
    if todo == [] {
      forall i | 0 <= i < |files| ensures files[i].version in db.applied {
        assert files[i] !in todo;
      }
      PendingWhenAllAreApplied(db.applied, files);
    } else {
      forall f | f in files && f.version < todo[0].version ensures f.version in db.applied {
        assert f !in todo;
      }
    }
  }

  /** What a process that has ended leaves of its files. */
  function Unapplied(phase: Phase): seq<File> {
    if phase.Failed? then phase.todo else []
  }

  /** The step takes the process out of applying: it returns, a file fails, or the connection is lost, whether or not
      a commit then under way goes through. */
  predicate EndsApplying(s: System, step: Step, p: nat) {
    && Enabled(s, step) && p in s.processes && s.processes[p].phase.Applying?
    && (step == Return(p) || step == ApplyNext(p, true) || (step.Disconnect? && step.p == p))
  }

  lemma EndOfApplying(s: System, step: Step, p: nat)
    requires Inv(s) && EndsApplying(s, step, p)
    ensures var s' := Next(s, step);
            IsUpTo(s'.db, s.processes[p].files, Unapplied(s'.processes[p].phase))
  {
    assert ProcessOk(s, p);
    if step == Disconnect(p, true) { ApplyingTheFirst(s.db, s.processes[p].files, s.processes[p].phase.todo); }
    hide IsUpTo, TableIsTheHistory, IsDirectory;
  }

  /** However a process ends that was applying, nothing applied differs from its files, and exactly those it left undone
      are not applied: none when it returns, and otherwise the ones from some file on. */
  lemma OutcomeOfARun(states: seq<System>, steps: seq<Step>, k: nat, p: nat)
    requires IsRun(states, steps) && k < |steps|
    requires states[0] == System(Database(map[], []), None, map[])
    requires EndsApplying(states[k], steps[k], p)
    ensures var applied, files := states[k + 1].db.applied, states[k].processes[p].files;
            var undone := Unapplied(states[k + 1].processes[p].phase);
            && Changed(applied, files) == []
            && (forall f :: f in files ==> (f.version in applied <==> f !in undone))
            && (forall f :: f in undone ==> f in files && undone[0].version <= f.version)
            && (forall f :: f in files && undone != [] && f.version < undone[0].version ==> f.version in applied)
            && (steps[k].Return? ==> Pending(applied, files) == [])
    ensures var phase := states[k + 1].processes[p].phase;
            && states[k + 1].lock == None
            && (phase.Succeeded? <==> steps[k].Return?) && (phase.Failed? <==> !steps[k].Return?)
  {
    RunKeepsInv(states, steps, k);
    var files, undone := states[k].processes[p].files, Unapplied(states[k + 1].processes[p].phase);
    EndOfApplying(states[k], steps[k], p);
    UpToDateIsDone(states[k + 1].db, files, undone);
    hide TableIsTheHistory, Pending, Changed, Inv, Next, Enabled;
  }

  // ---------------------------------------------------------------------------
  // A process that waits can finish
  // ---------------------------------------------------------------------------

  /** The process has returned, every file it was started with is in the table, and the lock is free. */
  predicate HasFinished(s: System, p: nat, files: seq<File>) {
    && p in s.processes && s.processes[p].phase.Succeeded? && s.lock == None
    && forall f :: f in files ==> f.version in s.db.applied && s.db.applied[f.version] == f.checksum
  }

  lemma StepsBefore(s: System, step: Step, states: seq<System>, steps: seq<Step>)
    requires Enabled(s, step) && IsRun(states, steps) && states[0] == Next(s, step)
    ensures IsRun([s] + states, [step] + steps)
  {
    hide Next, Enabled;
    var all, taken := [s] + states, [step] + steps;
    forall i | 0 <= i < |taken| ensures Enabled(all[i], taken[i]) && all[i + 1] == Next(all[i], taken[i]) {
      if i > 0 { assert all[i] == states[i - 1] && all[i + 1] == states[i] && taken[i] == steps[i - 1]; }
    }
  }

  lemma {:induction false} ApplyingCanFinish(s: System, p: nat) returns (states: seq<System>, steps: seq<Step>)
    requires Inv(s) && p in s.processes && s.processes[p].phase.Applying?
    ensures IsRun(states, steps) && states[0] == s && HasFinished(states[|steps|], p, s.processes[p].files)
    decreases |s.processes[p].phase.todo|
  {
    assert ProcessOk(s, p);
    if s.processes[p].phase.todo == [] {
      steps, states := [Return(p)], [s, Next(s, Return(p))];
    } else {
      var s' := Next(s, ApplyNext(p, false));
      StepKeepsInv(s, ApplyNext(p, false));
      hide Inv, HasFinished, IsUpTo, RanInOrder;
      states, steps := ApplyingCanFinish(s', p);
      StepsBefore(s, ApplyNext(p, false), states, steps);
      states, steps := [s] + states, [ApplyNext(p, false)] + steps;
    }
  }

  /** From any state that a run reaches, a process that waits for a free lock can run to its end: when a file differs
      from the one that was applied it refuses and changes nothing but itself; otherwise, unless a file fails or the
      connection is lost, it returns with every file of its directory applied. */
  lemma WaitingCanFinish(s: System, p: nat) returns (states: seq<System>, steps: seq<Step>)
    requires Inv(s) && p in s.processes && s.processes[p].phase.Waiting? && s.lock == None
    ensures IsRun(states, steps) && states[0] == s
    ensures var files, applied := s.processes[p].files, s.db.applied;
            if forall f :: f in files && f.version in applied ==> applied[f.version] == f.checksum
            then HasFinished(states[|steps|], p, files)
            else states[|steps|] == WithPhase(s, p, Refused)
  {
    var waited := Next(s, Acquire(p));
    var read := Next(waited, Read(p));
    StepKeepsInv(s, Acquire(p));
    StepKeepsInv(waited, Read(p));
    assert ProcessOk(s, p);
    NothingChangedIff(s.db.applied, s.processes[p].files);
    hide Inv, HasFinished, Changed, Pending, IsDirectory;
    if Changed(s.db.applied, s.processes[p].files) == [] {
      states, steps := ApplyingCanFinish(read, p);
    } else {
      states, steps := [read], [];
    }
    StepsBefore(waited, Read(p), states, steps);
    StepsBefore(s, Acquire(p), [waited] + states, [Read(p)] + steps);
    states, steps := [s] + ([waited] + states), [Acquire(p)] + ([Read(p)] + steps);
  }

  // ---------------------------------------------------------------------------
  // When every process has the same files
  // ---------------------------------------------------------------------------

  /** What is committed is the beginning of the directory, and the holder still has to do the rest. */
  ghost predicate IsPrefix(s: System, files: seq<File>) {
    && s.db.committed <= files
    && forall p :: p in s.processes ==>
         && s.processes[p].files == files
         && (s.processes[p].phase.Applying? ==> files == s.db.committed + s.processes[p].phase.todo)
  }

  lemma LaterFilesAreNotApplied(db: Database, files: seq<File>, k: nat)
    requires TableIsTheHistory(db) && IsDirectory(files) && db.committed <= files && |db.committed| <= k < |files|
    ensures files[k].version !in db.applied
  {
    forall j | 0 <= j < |db.committed| ensures db.committed[j].version < files[k].version {
      assert files[j] == db.committed[j];
    }
  }

  lemma RestIsPending(db: Database, files: seq<File>)
    requires TableIsTheHistory(db) && IsDirectory(files) && db.committed <= files
    ensures files == db.committed + Pending(db.applied, files)
  {
    var n := |db.committed|;
    var rest := files[n..];
    assert files == db.committed + rest;
    forall i | 0 <= i < |rest| ensures rest[i].version !in db.applied {
      LaterFilesAreNotApplied(db, files, n + i);
    }
    hide Pending;
    PendingOfTwoParts(db.applied, db.committed, rest);
    PendingWhenAllAreApplied(db.applied, db.committed);
    PendingWhenNoneIsApplied(db.applied, rest);
    assert [] + rest == rest;
  }

  lemma ApplyNextKeepsPrefix(s: System, p: nat, files: seq<File>)
    requires Inv(s) && Enabled(s, ApplyNext(p, false)) && IsPrefix(s, files)
    ensures IsPrefix(Next(s, ApplyNext(p, false)), files)
  {
    OnlyTheHolderApplies(s, p);
    hide Inv, IsDirectory, RanInOrder;
    var todo := s.processes[p].phase.todo;
    assert s.db.committed + todo == s.db.committed + [todo[0]] + todo[1..];
  }

  lemma ReadKeepsPrefix(s: System, p: nat, files: seq<File>)
    requires Inv(s) && Enabled(s, Read(p)) && IsPrefix(s, files) && IsDirectory(files)
    ensures IsPrefix(Next(s, Read(p)), files)
  {
    RestIsPending(s.db, files);
    hide Inv, Pending, Changed, IsDirectory;
  }

  lemma StepKeepsPrefix(s: System, step: Step, files: seq<File>)
    requires Inv(s) && Enabled(s, step) && IsPrefix(s, files) && IsDirectory(files)
    requires step.Start? ==> step.files == files
    ensures IsPrefix(Next(s, step), files)
  {
    hide Inv, IsDirectory;
    match step {
      case Read(p) => ReadKeepsPrefix(s, p, files);
      case ApplyNext(p, fails) => if !fails { ApplyNextKeepsPrefix(s, p, files); }
      case Disconnect(p, committed) =>
        if committed {
          LostCommitIsTwoSteps(s, p);
          ApplyNextKeepsPrefix(s, p, files);
        }
      case _ =>
    }
  }

  lemma OnlyTheHolderApplies(s: System, p: nat)
    requires Inv(s) && p in s.processes && s.processes[p].phase.Applying?
    ensures forall q :: q in s.processes && q != p ==> !s.processes[q].phase.Applying?
  {
    assert ProcessOk(s, p);
    forall q | q in s.processes && q != p ensures !s.processes[q].phase.Applying? { assert ProcessOk(s, q); }
  }

  /** Processes that share a directory commit its files in version order without a gap, however many they are and
      wherever they fail: at every moment what is committed is the directory up to some file. */
  lemma {:induction false} CommittedIsAPrefix(states: seq<System>, steps: seq<Step>, k: nat, files: seq<File>)
    requires IsRun(states, steps) && k < |states| && IsDirectory(files)
    requires states[0] == System(Database(map[], []), None, map[])
    requires forall i :: 0 <= i < |steps| && steps[i].Start? ==> steps[i].files == files
    ensures IsPrefix(states[k], files)
    decreases k
  {
    if k > 0 {
      CommittedIsAPrefix(states, steps, k - 1, files);
      RunKeepsInv(states, steps, k - 1);
      hide Inv, Next, Enabled, IsPrefix, IsDirectory;
      StepKeepsPrefix(states[k - 1], steps[k - 1], files);
    }
  }
}
