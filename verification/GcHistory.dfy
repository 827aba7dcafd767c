/**
 * The collector's memory: first-seen times per scan scope, and what any history of runs implies
 * about an unpinned CID.
 */
module GcHistory {
  import opened ManifestStore

  type Scope = string
  type Marks = map<Cid, int>
  /** The persisted state file. */
  type Marked = map<Scope, Marks>

  function MarksOf(file: Marked, scope: Scope): Marks {
    if scope in file then file[scope] else map[]
  }

  /** An unreadable file is treated as empty. */
  function Loaded(file: Marked, readable: bool): Marked {
    if readable then file else map[]
  }

  /** Current orphans keep their first-seen time; new ones start now; all others are forgotten. */
  function FirstSeen(orphans: seq<Cid>, previous: Marks, now: int): Marks {
    map c | c in orphans :: if c in previous then previous[c] else now
  }

  /**
   * One run as the history sees it. `priorErrors` are the errors before the unpin step;
   * `committed` says that the run got to save its marks and the save succeeded.
   */
  datatype Run = Run(scope: Scope, now: int, graceMs: int, dryRun: bool, priorErrors: bool, readable: bool,
                     orphans: seq<Cid>, unpinned: seq<Cid>, committed: bool)
  {
    predicate Sweeps() {
      !dryRun && !priorErrors
    }
  }

  /** What the collector may do on a file with the given content. */
  ghost predicate Allowed(file: Marked, run: Run) {
    var marks := FirstSeen(run.orphans, MarksOf(Loaded(file, run.readable), run.scope), run.now);
    && (run.committed ==> run.Sweeps())
    && (forall c :: c in run.unpinned ==> run.Sweeps() && c in run.orphans && run.now - marks[c] >= run.graceMs)
  }

  /** The file a run leaves behind. */
  function FileAfter(file: Marked, run: Run): Marked {
    if !run.committed then file else
    var loaded := Loaded(file, run.readable);
    loaded[run.scope := FirstSeen(run.orphans, MarksOf(loaded, run.scope), run.now) - Elements(run.unpinned)]
  }

  /** `files[i]` is the file before `runs[i]`; the first run finds none. */
  ghost predicate History(runs: seq<Run>, files: seq<Marked>) {
    && |files| == |runs| + 1 && files[0] == map[]
    && forall i :: 0 <= i < |runs| ==> Allowed(files[i], runs[i]) && files[i + 1] == FileAfter(files[i], runs[i])
  }

  predicate Commits(run: Run, scope: Scope) {
    run.committed && run.scope == scope
  }

  /** `runs[i]` committed a mark for `c`, and every later committed run of the scope before `k` saw `c` as an orphan it kept. */
  ghost predicate SeenSince(runs: seq<Run>, i: nat, k: nat, scope: Scope, c: Cid) {
    && i < k <= |runs|
    && Commits(runs[i], scope)
    && forall j :: i <= j < k && Commits(runs[j], scope) ==> c in runs[j].orphans && c !in runs[j].unpinned
  }

  /** Every mark in the file was made by such a run, at the time the mark says. */
  lemma {:induction false} MarkHasWitness(runs: seq<Run>, files: seq<Marked>, k: nat, scope: Scope, c: Cid)
    requires History(runs, files) && k <= |runs| && c in MarksOf(files[k], scope)
    ensures exists i: nat :: SeenSince(runs, i, k, scope, c) && runs[i].now == MarksOf(files[k], scope)[c]
  {
    assert k > 0;
    var run := runs[k - 1];
    assert files[k] == FileAfter(files[k - 1], run);
    if Commits(run, scope) {
      var previous := MarksOf(Loaded(files[k - 1], run.readable), scope);
      if c in previous {
        MarkHasWitness(runs, files, k - 1, scope, c);
        var i: nat :| SeenSince(runs, i, k - 1, scope, c) && runs[i].now == MarksOf(files[k - 1], scope)[c];
        assert SeenSince(runs, i, k, scope, c);
      } else {
        assert SeenSince(runs, k - 1, k, scope, c);
      }
    } else {
      MarkHasWitness(runs, files, k - 1, scope, c);
      var i: nat :| SeenSince(runs, i, k - 1, scope, c) && runs[i].now == MarksOf(files[k - 1], scope)[c];
      assert SeenSince(runs, i, k, scope, c);
    }
  }

  /**
   * Safety over every history: with a positive grace period an unpinned CID was an orphan at a
   * committed run of the same scope at least the grace period earlier, and at every committed run
   * of that scope since.
   */
  lemma UnpinnedOnlyAfterGrace(runs: seq<Run>, files: seq<Marked>, k: nat, c: Cid)
    requires History(runs, files) && k < |runs| && c in runs[k].unpinned && runs[k].graceMs > 0
    ensures c in runs[k].orphans && runs[k].Sweeps()
    ensures exists i: nat :: SeenSince(runs, i, k, runs[k].scope, c) && runs[k].now - runs[i].now >= runs[k].graceMs
  {
    var run := runs[k];
    assert Allowed(files[k], run);
    var previous := MarksOf(Loaded(files[k], run.readable), run.scope);
    assert c in previous;
    MarkHasWitness(runs, files, k, run.scope, c);
  }

  // ---------------------------------------------------------------------------------------
  // How long a mark keeps its time
  // ---------------------------------------------------------------------------------------

  /** No run starts before the one it follows. */
  ghost predicate ClockAdvances(runs: seq<Run>) {
    forall i, j :: 0 <= i < j < |runs| ==> runs[i].now <= runs[j].now
  }

  /** Every run after `runs[i]` that wrote the file could read it first, whatever its scope. */
  ghost predicate ReadableSince(runs: seq<Run>, i: nat, k: nat) {
    forall j :: i < j < k && j < |runs| && runs[j].committed ==> runs[j].readable
  }

  /** Readable runs have kept seeing `c` as an orphan for at least `graceMs`. */
  ghost predicate OrphanFor(runs: seq<Run>, scope: Scope, c: Cid, now: int, graceMs: int) {
    exists i: nat :: SeenSince(runs, i, |runs|, scope, c) && ReadableSince(runs, i, |runs|) && now - runs[i].now >= graceMs
  }

  /** An orphan that is seen again and again keeps the time at which it was first seen. */
  lemma {:induction false} MarkIsKept(runs: seq<Run>, files: seq<Marked>, i: nat, k: nat, scope: Scope, c: Cid)
    requires History(runs, files) && ClockAdvances(runs)
    requires SeenSince(runs, i, k, scope, c) && ReadableSince(runs, i, k)
    ensures c in MarksOf(files[k], scope) && MarksOf(files[k], scope)[c] <= runs[i].now
  {
    var run := runs[k - 1];
    assert files[k] == FileAfter(files[k - 1], run);
    if k == i + 1 {
      if c in MarksOf(files[i], scope) {
        MarkHasWitness(runs, files, i, scope, c);
      }
    } else {
      MarkIsKept(runs, files, i, k - 1, scope, c);
    }
  }

  /** What an unreadable run has lost comes back only with a later time. */
  lemma {:induction false} LostMarkIsNew(runs: seq<Run>, files: seq<Marked>, j: nat, k: nat, scope: Scope, c: Cid)
    requires History(runs, files) && ClockAdvances(runs)
    requires j < k <= |runs| && runs[j].committed && !runs[j].readable && c in MarksOf(files[k], scope)
    ensures MarksOf(files[k], scope)[c] >= runs[j].now
  {
    var run := runs[k - 1];
    assert files[k] == FileAfter(files[k - 1], run);
    if k > j + 1 && c in MarksOf(files[k - 1], scope) {
      LostMarkIsNew(runs, files, j, k - 1, scope, c);
    }
  }

  /**
   * When a mark is kept: over every history in which `runs[i]` committed `c` as an orphan and every
   * later committed run of the scope saw it and kept it, exactly when no run of any scope wrote the
   * file without having read it.
   */
  lemma MarkIsKeptIff(runs: seq<Run>, files: seq<Marked>, i: nat, k: nat, scope: Scope, c: Cid)
    requires History(runs, files) && ClockAdvances(runs) && SeenSince(runs, i, k, scope, c)
    requires forall j :: i < j < k ==> runs[i].now < runs[j].now
    ensures c in MarksOf(files[k], scope) && MarksOf(files[k], scope)[c] <= runs[i].now <==> ReadableSince(runs, i, k)
  {
    if ReadableSince(runs, i, k) {
      MarkIsKept(runs, files, i, k, scope, c);
    } else if c in MarksOf(files[k], scope) {
      var j :| i < j < k && runs[j].committed && !runs[j].readable;
      LostMarkIsNew(runs, files, j, k, scope, c);
    }
  }

  /** A run that follows no other unpins an orphan exactly when the grace period is not positive. */
  lemma FirstRunUnpinsIff(run: Run, c: Cid)
    requires run.Sweeps() && run.committed && c in run.orphans && run.unpinned == [c]
    ensures (exists files :: History([run], files)) <==> run.graceMs <= 0
  {
    var marks := FirstSeen(run.orphans, map[], run.now);
    if run.graceMs <= 0 {
      var files := [map[], FileAfter(map[], run)];
      assert Loaded(map[], run.readable) == map[];
      assert History([run], files);
    }
    forall files | History([run], files) ensures run.graceMs <= 0 {
      assert Allowed(files[0], [run][0]);
      assert Loaded(files[0], run.readable) == map[];
      assert c in run.unpinned && marks[c] == run.now;
    }
  }

  lemma SomeMember(s: seq<Cid>)
    ensures s == [] || exists c :: c in s
  {
    if s != [] {
      assert s[0] in s;
    }
  }

  /** A run with a prior error unpins nothing and leaves the whole file as it was; so does a dry run. */
  lemma BlockedRunChangesNothing(file: Marked, run: Run)
    requires Allowed(file, run) && (run.priorErrors || run.dryRun)
    ensures run.unpinned == [] && FileAfter(file, run) == file
  {
    SomeMember(run.unpinned);
  }

  /** A run touches its own scope only, unless it could not read the file: then the others restart. */
  lemma OtherScopesIff(file: Marked, run: Run)
    requires run.committed
    ensures
      (forall s :: s != run.scope ==> MarksOf(FileAfter(file, run), s) == MarksOf(file, s)) <==>
      run.readable || (forall s :: s != run.scope ==> MarksOf(file, s) == map[])
  {
    if !run.readable {
      forall s | s != run.scope ensures MarksOf(FileAfter(file, run), s) == map[] {
      }
    }
  }

  /** A CID that was reachable or unpinned at a committed run has no mark after it. */
  lemma MarksRestart(file: Marked, run: Run, c: Cid)
    requires run.committed && (c !in run.orphans || c in run.unpinned)
    ensures c !in MarksOf(FileAfter(file, run), run.scope)
  {
  }
}
