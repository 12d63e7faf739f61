/** The migrator: applying a sorted list of files, each in its own transaction, with crashes in between. */
module Migrations {
  /** A migration file; its text is identified with its hash. */
  datatype File = File(id: nat, name: string, hash: nat)

  datatype Entry = Entry(name: string, hash: nat)

  /** The `_migrations` table, and the files whose text has been run, in order. */
  datatype Db = Db(table: map<nat, Entry>, applied: seq<File>)

  datatype Outcome = Completed | Interrupted | HashMismatch(file: File) | DuplicateId(file: File)

  const Empty := Db(map[], [])

  /** One transaction: run the text and record it. */
  function Apply(db: Db, f: File): Db {
    Db(db.table[f.id := Entry(f.name, f.hash)], db.applied + [f])
  }

  /** The loop over files, given what was recorded when the run began; it is cut off after `steps` files. */
  function Loop(db: Db, known: map<nat, Entry>, files: seq<File>, steps: nat): (Db, Outcome)
    decreases |files|
  {
    if files == [] then (db, Completed)
    else if steps == 0 then (db, Interrupted)
    else
      var f := files[0];
      if f.id in known then
        if known[f.id].hash != f.hash then (db, HashMismatch(f)) else Loop(db, known, files[1..], steps - 1)
      else if f.id in db.table then (db, DuplicateId(f)) // the primary key refuses the record, the transaction rolls back
      else Loop(Apply(db, f), known, files[1..], steps - 1)
  }

  function Migrate(db: Db, files: seq<File>, steps: nat): (Db, Outcome) {
    Loop(db, db.table, files, steps)
  }

  /** A series of runs, each cut off after some number of files. */
  function Attempts(db: Db, files: seq<File>, cuts: seq<nat>): Db
    decreases |cuts|
  {
    if cuts == [] then db else Attempts(Migrate(db, files, cuts[0]).0, files, cuts[1..])
  }

  ghost predicate DistinctIds(files: seq<File>) {
    forall i, j | 0 <= i < j < |files| :: files[i].id != files[j].id
  }

  /** The database after exactly the first `n` files, in order. */
  function After(files: seq<File>, n: nat): Db
    requires n <= |files|
  {
    if n == 0 then Empty else Apply(After(files, n - 1), files[n - 1])
  }

  /** After the first `n` files the table records exactly those. */
  lemma {:induction false} RecordsPrefix(files: seq<File>, n: nat, i: nat)
    requires DistinctIds(files) && n <= |files| && i < |files|
    ensures files[i].id in After(files, n).table <==> i < n
    ensures i < n ==> After(files, n).table[files[i].id] == Entry(files[i].name, files[i].hash)
    decreases n
  {
    if n > 0 {
      RecordsPrefix(files, n - 1, i);
    }
  }

  lemma {:induction false} AppliesPrefix(files: seq<File>, n: nat)
    requires n <= |files|
    ensures After(files, n).applied == files[..n]
    decreases n
  {
    if n > 0 {
      AppliesPrefix(files, n - 1);
    }
  }

  lemma LoopStep(db: Db, known: map<nat, Entry>, files: seq<File>, at: nat, steps: nat)
    requires at < |files| && steps > 0
    requires files[at].id in known ==> known[files[at].id].hash == files[at].hash
    requires files[at].id !in known ==> files[at].id !in db.table
    ensures Loop(db, known, files[at..], steps)
            == Loop(if files[at].id in known then db else Apply(db, files[at]), known, files[at + 1..], steps - 1)
  {
  }

  /** How many files are applied in the end, when the loop at `at` has `steps` steps and `known` were recorded. */
  function Reached(n: nat, known: nat, at: nat, steps: nat): nat {
    var stop := if at + steps < n then at + steps else n;
    if stop < known then known else stop
  }

  lemma ReachedStep(n: nat, known: nat, at: nat, steps: nat)
    requires steps > 0
    ensures Reached(n, known, at + 1, steps - 1) == Reached(n, known, at, steps)
  {
  }

  /** One turn of the loop applies the file unless it was recorded at the start. */
  lemma StepFromPrefix(files: seq<File>, known: nat, at: nat, done: nat, steps: nat)
    requires DistinctIds(files) && known <= |files| && at < |files| && steps > 0
    requires done == if at < known then known else at
    ensures Loop(After(files, done), After(files, known).table, files[at..], steps)
            == Loop(After(files, if at < known then done else done + 1), After(files, known).table, files[at + 1..], steps - 1)
  {
    RecordsPrefix(files, known, at);
    RecordsPrefix(files, done, at);
    LoopStep(After(files, done), After(files, known).table, files, at, steps);
  }

  /**
   The loop at position `at`, when the first `known` files were recorded at the start and the first
   `done` files are applied now.
   */
  lemma {:induction false} LoopFromPrefix(files: seq<File>, known: nat, at: nat, done: nat, steps: nat)
    requires DistinctIds(files) && known <= |files| && at <= |files|
    requires done == if at < known then known else at
    ensures Reached(|files|, known, at, steps) <= |files|
    ensures Loop(After(files, done), After(files, known).table, files[at..], steps)
            == (After(files, Reached(|files|, known, at, steps)), if at + steps < |files| then Interrupted else Completed)
    decreases |files| - at
  {
    if at < |files| && steps > 0 {
      StepFromPrefix(files, known, at, done, steps);
      ReachedStep(|files|, known, at, steps);
      LoopFromPrefix(files, known, at + 1, if at < known then done else done + 1, steps - 1);
    }
  }

  /** A run over a database that holds a prefix of the files leaves a prefix, no shorter. */
  lemma MigrateFromPrefix(files: seq<File>, done: nat, steps: nat)
    requires DistinctIds(files) && done <= |files|
    ensures var stop := if steps < |files| then steps else |files|;
            Migrate(After(files, done), files, steps)
            == (After(files, if stop < done then done else stop), if steps < |files| then Interrupted else Completed)
  {
    LoopFromPrefix(files, done, 0, done, steps);
  }

  lemma {:induction false} AttemptsLeavePrefix(files: seq<File>, done: nat, cuts: seq<nat>) returns (done': nat)
    requires DistinctIds(files) && done <= |files|
    ensures done' <= |files| && Attempts(After(files, done), files, cuts) == After(files, done')
    decreases |cuts|
  {
    if cuts == [] {
      done' := done;
    } else {
      MigrateFromPrefix(files, done, cuts[0]);
      var stop := if cuts[0] < |files| then cuts[0] else |files|;
      done' := AttemptsLeavePrefix(files, if stop < done then done else stop, cuts[1..]);
    }
  }

  /**
   However often migrating was cut short, running it once more ends with the table and the order of
   one uninterrupted run from an empty database, and running it yet again applies nothing.
   */
  lemma ResumeEqualsUninterrupted(files: seq<File>, cuts: seq<nat>)
    requires DistinctIds(files)
    ensures var once := Migrate(Empty, files, |files|);
            var resumed := Migrate(Attempts(Empty, files, cuts), files, |files|);
            && resumed == once && once.1 == Completed && once.0.applied == files
            && Migrate(resumed.0, files, |files|) == resumed
  {
    var done := AttemptsLeavePrefix(files, 0, cuts);
    MigrateFromPrefix(files, 0, |files|);
    MigrateFromPrefix(files, done, |files|);
    MigrateFromPrefix(files, |files|, |files|);
    AppliesPrefix(files, |files|);
  }

  // ---------- Edited files ----------

  ghost predicate Unedited(known: map<nat, Entry>, files: seq<File>) {
    forall i | 0 <= i < |files| && files[i].id in known :: known[files[i].id].hash == files[i].hash
  }

  lemma {:induction false} LoopCompletesIff(db: Db, known: map<nat, Entry>, files: seq<File>)
    requires DistinctIds(files)
    requires forall i | 0 <= i < |files| :: files[i].id in db.table <==> files[i].id in known
    ensures Loop(db, known, files, |files|).1 == Completed <==> Unedited(known, files)
    ensures !Unedited(known, files) ==> Loop(db, known, files, |files|).1.HashMismatch?
    decreases |files|
  {
    if files != [] {
      var rest := files[1..];
      if files[0].id in known {
        if known[files[0].id].hash == files[0].hash {
          LoopCompletesIff(db, known, rest);
        }
      } else {
        LoopCompletesIff(Apply(db, files[0]), known, rest);
      }
    }
  }

  /** From any recorded table, a run completes exactly when no recorded file has been edited since. */
  lemma MigrateCompletesIff(db: Db, files: seq<File>)
    requires DistinctIds(files)
    ensures Migrate(db, files, |files|).1 == Completed <==> Unedited(db.table, files)
    ensures !Unedited(db.table, files) ==> Migrate(db, files, |files|).1.HashMismatch?
  {
    LoopCompletesIff(db, db.table, files);
  }

  // ---------- Files with the same id ----------

  /** A run never changes what is recorded, only adds to it, and it runs the text of exactly the files it records. */
  lemma {:induction false} LoopOnlyAdds(db: Db, known: map<nat, Entry>, files: seq<File>, steps: nat, id: nat)
    ensures var db' := Loop(db, known, files, steps).0;
            && (id in db.table ==> id in db'.table && db'.table[id] == db.table[id])
            && db.applied <= db'.applied
            && (id in db'.table && id !in db.table ==>
                  exists k :: |db.applied| <= k < |db'.applied| && db'.applied[k].id == id
                              && db'.table[id] == Entry(db'.applied[k].name, db'.applied[k].hash))
    decreases |files|
  {
    if files != [] && steps > 0 {
      var f := files[0];
      if f.id in known {
        if known[f.id].hash == f.hash { LoopOnlyAdds(db, known, files[1..], steps - 1, id); }
      } else if f.id !in db.table {
        LoopOnlyAdds(Apply(db, f), known, files[1..], steps - 1, id);
        var db' := Loop(Apply(db, f), known, files[1..], steps - 1).0;
        assert db'.applied[|db.applied|] == f;
      }
    }
  }

  ghost predicate NoneRecorded(table: map<nat, Entry>, files: seq<File>) {
    forall i | 0 <= i < |files| :: files[i].id !in table
  }

  /** A first run gets through a list of files if and only if no two share an id; otherwise the second of the two stops it. */
  lemma {:induction false} FreshLoopIff(db: Db, files: seq<File>)
    ensures Loop(db, map[], files, |files|).1 == Completed <==> NoneRecorded(db.table, files) && DistinctIds(files)
    ensures Loop(db, map[], files, |files|).1 == Completed || Loop(db, map[], files, |files|).1.DuplicateId?
    decreases |files|
  {
    if files != [] {
      var f, rest := files[0], files[1..];
      if f.id !in db.table {
        FreshLoopIff(Apply(db, f), rest);
        if NoneRecorded(Apply(db, f).table, rest) && DistinctIds(rest) {
          forall i, j | 0 <= i < j < |files| ensures files[i].id != files[j].id {
            assert files[j] == rest[j - 1];
            if i > 0 { assert files[i] == rest[i - 1]; }
          }
          forall i | 0 <= i < |files| ensures files[i].id !in db.table { if i > 0 { assert files[i] == rest[i - 1]; } }
        }
        if NoneRecorded(db.table, files) && DistinctIds(files) {
          forall i | 0 <= i < |rest| ensures rest[i].id !in Apply(db, f).table { assert rest[i] == files[i + 1]; }
        }
      }
    }
  }

  lemma FirstRunCompletesIff(files: seq<File>)
    ensures Migrate(Empty, files, |files|).1 == Completed <==> DistinctIds(files)
  {
    FreshLoopIff(Empty, files);
  }

  // ---------- The migrator as an object ----------

  class Migrator {
    var db: Db

    constructor ()
      ensures db == Empty
    {
      db := Empty;
    }

    /** One run; `steps` is how many files it gets through before it is cut off. */
    method Run(files: seq<File>, steps: nat) returns (o: Outcome)
      modifies this
      ensures (db, o) == Migrate(old(db), files, steps)
    {
      var known := db.table;
      var i := 0;
      while i < |files|
        invariant 0 <= i <= |files| && i <= steps
        invariant Loop(db, known, files[i..], steps - i) == Migrate(old(db), files, steps)
      {
        assert files[i..][0] == files[i] && files[i..][1..] == files[i + 1..];
        if i == steps { return Interrupted; }
        var f := files[i];
        i := i + 1;
        if f.id in known {
          if known[f.id].hash != f.hash { return HashMismatch(f); }
          continue;
        }
        if f.id in db.table { return DuplicateId(f); }
        db := Db(db.table[f.id := Entry(f.name, f.hash)], db.applied + [f]);
      }
      o := Completed;
    }
  }
}
