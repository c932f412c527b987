/** The migration runner of `internal/migrate/migrate.go`, with statements that may fail before
    or after taking effect, over any number of runs. */
module Migrations {
  import opened Collections
  import opened Text

  datatype File = File(name: string, content: string)

  /** A statement works, fails without effect, or takes effect and is then reported as failed
      (or is the last thing the process does). */
  datatype Fault = Fine | Lost | Blind

  /** The versions in schema_migrations in the order they were inserted, and the log of the
      files executed. */
  datatype Db = Db(recorded: seq<string>, executed: seq<string>)

  datatype Outcome = Outcome(db: Db, ok: bool)

  function ToSet(names: seq<string>): set<string> {
    set v | v in names
  }

  lemma ToSetGrows(a: seq<string>, b: seq<string>)
    requires a <= b
    ensures ToSet(a) <= ToSet(b)
  {
    assert forall v :: v in a ==> v in b;
  }

  predicate Skipped(f: File, applied: set<string>) {
    f.name in applied || TrimSpace(f.content) == ""
  }

  /** Executes one file and records its version, which is the primary key of schema_migrations, so
      that recording one twice fails. */
  function RunOne(db: Db, name: string, exec: Fault, insert: Fault): Outcome {
    if exec.Lost? then Outcome(db, false)
    else
      var ran := db.(executed := db.executed + [name]);
      if exec.Blind? || insert.Lost? || name in db.recorded then Outcome(ran, false)
      else Outcome(ran.(recorded := ran.recorded + [name]), insert.Fine?)
  }

  /** The loop over the sorted files; k numbers the statements sent so far. */
  function Apply(db: Db, files: seq<File>, applied: set<string>, faults: nat -> Fault, k: nat): Outcome
    decreases |files|
  {
    if files == [] then Outcome(db, true)
    else if Skipped(files[0], applied) then Apply(db, files[1..], applied, faults, k)
    else
      var o := RunOne(db, files[0].name, faults(k), faults(k + 1));
      if o.ok then Apply(o.db, files[1..], applied, faults, k + 2) else o
  }

  /** One run: create the tracking table, load the versions, then the loop.  The code does not ask
      whether the rows ended or broke off, so it may go on with any part of the recorded versions:
      those in seen. */
  function UpSpec(db: Db, files: seq<File>, seen: set<string>, faults: nat -> Fault): Outcome {
    if !faults(0).Fine? || !faults(1).Fine? then Outcome(db, false)
    else Apply(db, files, ToSet(db.recorded) * seen, faults, 2)
  }

  class Database {
    var state: Db

    constructor ()
      ensures state == Db([], [])
    {
      state := Db([], []);
    }

    /** Executes a file. */
    method Execute(name: string, fault: Fault) returns (ok: bool)
      modifies this
      ensures state == if fault.Lost? then old(state) else Db(old(state).recorded, old(state).executed + [name])
      ensures ok <==> fault.Fine?
    {
      if !fault.Lost? {
        state := state.(executed := state.executed + [name]);
      }
      return fault.Fine?;
    }

    /** Inserts a version, under its primary key. */
    method Record(name: string, fault: Fault) returns (ok: bool)
      modifies this
      ensures state == if fault.Lost? || name in old(state).recorded then old(state)
                       else Db(old(state).recorded + [name], old(state).executed)
      ensures ok <==> fault.Fine? && name !in old(state).recorded
    {
      if fault.Lost? || name in state.recorded {
        return false;
      }
      state := state.(recorded := state.recorded + [name]);
      return fault.Fine?;
    }

    /** `Up`. */
    method Up(files: seq<File>, seen: set<string>, faults: nat -> Fault) returns (ok: bool)
      modifies this
      ensures Outcome(state, ok) == UpSpec(old(state), files, seen, faults)
    {
      if !faults(0).Fine? {
        return false;
      }
      if !faults(1).Fine? {
        return false;
      }
      var applied := ToSet(state.recorded) * seen;
      var k := 2;
      for i := 0 to |files|
        invariant Apply(state, files[i..], applied, faults, k) == UpSpec(old(state), files, seen, faults)
      {
        var name := files[i].name;
        assert files[i..][1..] == files[i + 1..];
        if name in applied {
          continue;
        }
        var sql := TrimSpace(files[i].content);
        if sql == "" {
          continue;
        }
        ok := Execute(name, faults(k));
        if !ok {
          return;
        }
        ok := Record(name, faults(k + 1));
        if !ok {
          return;
        }
        k := k + 2;
      }
      return true;
    }
  }

  // ---- Any number of runs ----

  /** The names of the files that hold SQL, in order. */
  function Pending(files: seq<File>): seq<string> {
    if files == [] then []
    else (if TrimSpace(files[0].content) == "" then [] else [files[0].name]) + Pending(files[1..])
  }

  lemma {:induction false} PendingConcat(a: seq<File>, b: seq<File>)
    ensures Pending(a + b) == Pending(a) + Pending(b)
  {
    if a == [] {
      assert a + b == b;
    } else {
      assert (a + b)[1..] == a[1..] + b;
      PendingConcat(a[1..], b);
    }
  }

  /** Of the files p that hold SQL, a prefix is recorded; every recorded file has been executed;
      the only other file that can have been is the next one. */
  predicate Good(db: Db, p: seq<string>) {
    && db.recorded <= p
    && (forall i :: 0 <= i < |db.recorded| ==> p[i] in db.executed)
    && (forall i :: 0 <= i < |db.executed| ==> InReach(db.executed[i], |db.recorded|, p))
  }

  /** One of the first n files, or the one after them. */
  predicate InReach(name: string, n: nat, p: seq<string>) {
    exists j :: 0 <= j < |p| && j <= n && p[j] == name
  }

  /** From db to an outcome: the state stays good, records and log only grow, nothing that was
      seen as applied is executed, and if all went well everything is recorded. */
  ghost predicate Progress(db: Db, o: Outcome, p: seq<string>, applied: set<string>) {
    && Good(o.db, p)
    && db.recorded <= o.db.recorded && db.executed <= o.db.executed
    && (forall i :: |db.executed| <= i < |o.db.executed| ==> o.db.executed[i] !in applied)
    && (o.ok ==> o.db.recorded == p)
  }

  lemma ExecutedIsGood(db: Db, p: seq<string>, n: nat)
    requires Good(db, p) && n < |p| && n <= |db.recorded|
    ensures Good(Db(db.recorded, db.executed + [p[n]]), p)
  {
    var next := Db(db.recorded, db.executed + [p[n]]);
    forall i | 0 <= i < |next.executed| ensures InReach(next.executed[i], |next.recorded|, p) {
      if i < |db.executed| {
        assert InReach(db.executed[i], |db.recorded|, p);
      }
    }
  }

  lemma RecordedIsGood(db: Db, p: seq<string>)
    requires Good(db, p) && |db.recorded| < |p|
    ensures Good(Db(db.recorded + [p[|db.recorded|]], db.executed + [p[|db.recorded|]]), p)
  {
    var n := |db.recorded|;
    ExecutedIsGood(db, p, n);
    var ran, next := Db(db.recorded, db.executed + [p[n]]), Db(db.recorded + [p[n]], db.executed + [p[n]]);
    forall i | 0 <= i < |next.executed| ensures InReach(next.executed[i], |next.recorded|, p) {
      assert InReach(ran.executed[i], |ran.recorded|, p);
    }
    assert next.executed[|next.executed| - 1] == p[n];
  }

  /** A file that is run is one of the recorded ones, or the first that is not. */
  lemma NextFile(db: Db, done: seq<File>, rest: seq<File>)
    requires rest != [] && TrimSpace(rest[0].content) != ""
    requires Distinct(Pending(done + rest)) && db.recorded <= Pending(done + rest)
    requires |Pending(done)| <= |db.recorded|
    ensures var p, n := Pending(done + rest), |Pending(done)|;
            && n < |p| && p[n] == rest[0].name
            && (rest[0].name in db.recorded <==> n < |db.recorded|)
            && Pending(done + [rest[0]]) == Pending(done) + [rest[0].name]
  {
    PendingConcat(done, rest);
    PendingConcat(done, [rest[0]]);
    var p, n := Pending(done + rest), |Pending(done)|;
    assert Pending(rest)[0] == rest[0].name;
    assert Pending([rest[0]]) == [rest[0].name] + Pending([rest[0]][1..]);
    assert p[n] == rest[0].name;
    if rest[0].name in db.recorded {
      var j :| 0 <= j < |db.recorded| && db.recorded[j] == rest[0].name;
      assert p[j] == p[n];
    }
  }

  lemma EmptyFile(done: seq<File>, f: File)
    requires TrimSpace(f.content) == ""
    ensures Pending(done + [f]) == Pending(done)
  {
    PendingConcat(done, [f]);
    assert Pending([f]) == Pending([f][1..]) == [];
  }

  /** The loop, from the file after done. */
  lemma {:induction false} ApplyKeeps(db: Db, done: seq<File>, rest: seq<File>, applied: set<string>,
                                      faults: nat -> Fault, k: nat)
    requires Distinct(Pending(done + rest)) && Good(db, Pending(done + rest))
    requires |Pending(done)| <= |db.recorded| && applied <= ToSet(db.recorded)
    ensures Progress(db, Apply(db, rest, applied, faults, k), Pending(done + rest), applied)
    decreases |rest|
  {
    if rest == [] {
      assert done + rest == done;
    } else {
      var f := rest[0];
      assert (done + [f]) + rest[1..] == done + rest;
      if Skipped(f, applied) {
        if TrimSpace(f.content) == "" {
          EmptyFile(done, f);
        } else {
          NextFile(db, done, rest);
        }
        ApplyKeeps(db, done + [f], rest[1..], applied, faults, k);
      } else {
        RunFileKeeps(db, done, rest, applied, faults, k);
      }
    }
  }

  lemma RunOneKeeps(db: Db, name: string, exec: Fault, insert: Fault, p: seq<string>, n: nat)
    requires Good(db, p) && n < |p| && n <= |db.recorded| && p[n] == name &&
      (name in db.recorded <==> n < |db.recorded|)
    ensures var o := RunOne(db, name, exec, insert);
            && Good(o.db, p) && db.recorded <= o.db.recorded
            && (o.db.executed == db.executed || o.db.executed == db.executed + [name])
            && (o.ok ==> |o.db.recorded| == n + 1)
  {
    ExecutedIsGood(db, p, n);
    if n == |db.recorded| {
      RecordedIsGood(db, p);
    }
  }

  /** Running the next file leaves the loop where it can go on. */
  lemma NextFileKeeps(db: Db, done: seq<File>, rest: seq<File>, applied: set<string>, exec: Fault, insert: Fault)
    requires rest != [] && !Skipped(rest[0], applied)
    requires Distinct(Pending(done + rest)) && Good(db, Pending(done + rest))
    requires |Pending(done)| <= |db.recorded| && applied <= ToSet(db.recorded)
    ensures var o := RunOne(db, rest[0].name, exec, insert);
            && Good(o.db, Pending(done + rest)) && db.recorded <= o.db.recorded && applied <= ToSet(o.db.recorded)
            && (o.db.executed == db.executed || o.db.executed == db.executed + [rest[0].name])
            && (o.ok ==> |Pending(done + [rest[0]])| <= |o.db.recorded|)
  {
    NextFile(db, done, rest);
    RunOneKeeps(db, rest[0].name, exec, insert, Pending(done + rest), |Pending(done)|);
    ToSetGrows(db.recorded, RunOne(db, rest[0].name, exec, insert).db.recorded);
  }

  lemma RunFileKeeps(db: Db, done: seq<File>, rest: seq<File>, applied: set<string>, faults: nat -> Fault, k: nat)
    requires rest != [] && !Skipped(rest[0], applied)
    requires Distinct(Pending(done + rest)) && Good(db, Pending(done + rest))
    requires |Pending(done)| <= |db.recorded| && applied <= ToSet(db.recorded)
    ensures Progress(db, Apply(db, rest, applied, faults, k), Pending(done + rest), applied)
    decreases |rest|, 0
  {
    NextFileKeeps(db, done, rest, applied, faults(k), faults(k + 1));
    var o, p := RunOne(db, rest[0].name, faults(k), faults(k + 1)), Pending(done + rest);
    assert (done + [rest[0]]) + rest[1..] == done + rest;
    if o.ok {
      ApplyKeeps(o.db, done + [rest[0]], rest[1..], applied, faults, k + 2);
      ProgressAfter(db, o.db, rest[0].name, Apply(o.db, rest[1..], applied, faults, k + 2), p, applied);
    }
  }

  lemma ProgressAfter(db: Db, next: Db, name: string, o: Outcome, p: seq<string>, applied: set<string>)
    requires name !in applied && db.recorded <= next.recorded
    requires next.executed == db.executed || next.executed == db.executed + [name]
    requires Progress(next, o, p, applied)
    ensures Progress(db, o, p, applied)
  {
  }

  /** One run keeps the state good, executes nothing it saw as recorded, and has recorded every
      file that holds SQL if it returns nil. */
  lemma UpKeeps(db: Db, files: seq<File>, seen: set<string>, faults: nat -> Fault)
    requires Distinct(Pending(files)) && Good(db, Pending(files))
    ensures Progress(db, UpSpec(db, files, seen, faults), Pending(files), ToSet(db.recorded) * seen)
  {
    assert [] + files == files;
    ApplyKeeps(db, [], files, ToSet(db.recorded) * seen, faults, 2);
  }

  // ---- When a run succeeds ----

  predicate AllFine(faults: nat -> Fault, from: nat, to: nat) {
    forall i: nat :: from <= i < to ==> faults(i).Fine?
  }

  lemma TwoMore(faults: nat -> Fault, from: nat, to: nat)
    requires from + 2 <= to
    ensures AllFine(faults, from, to) <==> faults(from).Fine? && faults(from + 1).Fine? && AllFine(faults, from + 2, to)
  {
  }

  /** The loop has gone past done, and every recorded file ahead of it is known as applied. */
  ghost predicate OnCourse(db: Db, done: seq<File>, rest: seq<File>, applied: set<string>) {
    var p, n := Pending(done + rest), |Pending(done)|;
    && Distinct(p) && db.recorded <= p && n <= |db.recorded| && applied <= ToSet(db.recorded)
    && forall j :: n <= j < |db.recorded| ==> p[j] in applied
  }

  /** Everything was recorded, and exactly the files that were missing have been executed, in order. */
  predicate BroughtUp(db: Db, o: Outcome, p: seq<string>)
    requires |db.recorded| <= |p|
  {
    o.db == Db(p, db.executed + p[|db.recorded|..])
  }

  lemma SkipKeepsCourse(db: Db, done: seq<File>, rest: seq<File>, applied: set<string>)
    requires OnCourse(db, done, rest, applied) && rest != [] && Skipped(rest[0], applied)
    ensures OnCourse(db, done + [rest[0]], rest[1..], applied)
    ensures (done + [rest[0]]) + rest[1..] == done + rest
  {
    assert (done + [rest[0]]) + rest[1..] == done + rest;
    if TrimSpace(rest[0].content) == "" {
      EmptyFile(done, rest[0]);
    } else {
      NextFile(db, done, rest);
    }
  }

  lemma RunKeepsCourse(db: Db, done: seq<File>, rest: seq<File>, applied: set<string>)
    requires OnCourse(db, done, rest, applied) && rest != [] && !Skipped(rest[0], applied)
    ensures var p, n := Pending(done + rest), |db.recorded|;
            && (done + [rest[0]]) + rest[1..] == done + rest
            && n < |p| && p[n] == rest[0].name && rest[0].name !in db.recorded
            && OnCourse(Db(db.recorded + [p[n]], db.executed + [p[n]]), done + [rest[0]], rest[1..], applied)
  {
    assert (done + [rest[0]]) + rest[1..] == done + rest;
    NextFile(db, done, rest);
    ToSetGrows(db.recorded, db.recorded + [rest[0].name]);
  }

  /** From statement k on: it ended well exactly if the statements for all missing files worked. */
  predicate Succeeds(db: Db, o: Outcome, p: seq<string>, faults: nat -> Fault, k: nat)
    requires |db.recorded| <= |p|
  {
    && (o.ok <==> AllFine(faults, k, k + 2 * (|p| - |db.recorded|)))
    && (o.ok ==> BroughtUp(db, o, p))
  }

  lemma OneFileMore(db: Db, o: Outcome, p: seq<string>, faults: nat -> Fault, k: nat)
    requires |db.recorded| < |p| && faults(k).Fine? && faults(k + 1).Fine?
    requires var x := p[|db.recorded|]; Succeeds(Db(db.recorded + [x], db.executed + [x]), o, p, faults, k + 2)
    ensures Succeeds(db, o, p, faults, k)
  {
    var n := |db.recorded|;
    TwoMore(faults, k, k + 2 * (|p| - n));
    assert db.executed + [p[n]] + p[n + 1..] == db.executed + p[n..];
  }

  lemma OneFileFails(db: Db, o: Outcome, p: seq<string>, faults: nat -> Fault, k: nat)
    requires |db.recorded| < |p| && !(faults(k).Fine? && faults(k + 1).Fine?) && !o.ok
    ensures Succeeds(db, o, p, faults, k)
  {
    TwoMore(faults, k, k + 2 * (|p| - |db.recorded|));
  }

  lemma {:induction false} ApplySucceeds(db: Db, done: seq<File>, rest: seq<File>, applied: set<string>,
                                         faults: nat -> Fault, k: nat)
    requires OnCourse(db, done, rest, applied)
    ensures Succeeds(db, Apply(db, rest, applied, faults, k), Pending(done + rest), faults, k)
    decreases |rest|
  {
    var p, n := Pending(done + rest), |db.recorded|;
    if rest == [] {
      assert done + rest == done;
      assert db.executed + p[n..] == db.executed;
    } else if Skipped(rest[0], applied) {
      SkipKeepsCourse(db, done, rest, applied);
      ApplySucceeds(db, done + [rest[0]], rest[1..], applied, faults, k);
    } else {
      RunKeepsCourse(db, done, rest, applied);
      var o := RunOne(db, rest[0].name, faults(k), faults(k + 1));
      if o.ok {
        ApplySucceeds(o.db, done + [rest[0]], rest[1..], applied, faults, k + 2);
        OneFileMore(db, Apply(o.db, rest[1..], applied, faults, k + 2), p, faults, k);
      } else {
        OneFileFails(db, o, p, faults, k);
      }
    }
  }

  lemma {:induction false} PendingHolds(files: seq<File>)
    ensures forall i :: 0 <= i < |files| && TrimSpace(files[i].content) != "" ==> files[i].name in Pending(files)
  {
    if files == [] {
    } else {
      PendingHolds(files[1..]);
      forall i | 0 <= i < |files| && TrimSpace(files[i].content) != "" ensures files[i].name in Pending(files) {
        if i > 0 {
          assert files[1..][i - 1] == files[i];
        }
      }
    }
  }

  lemma LoadedRunSucceeds(db: Db, files: seq<File>, seen: set<string>, faults: nat -> Fault)
    requires Distinct(Pending(files)) && Good(db, Pending(files)) && ToSet(db.recorded) <= seen
    ensures Succeeds(db, Apply(db, files, ToSet(db.recorded) * seen, faults, 2), Pending(files), faults, 2)
  {
    assert [] + files == files;
    assert forall j :: 0 <= j < |db.recorded| ==> db.recorded[j] in ToSet(db.recorded) * seen;
    ApplySucceeds(db, [], files, ToSet(db.recorded) * seen, faults, 2);
  }

  lemma MissedRunFails(db: Db, files: seq<File>, seen: set<string>, faults: nat -> Fault)
    requires Distinct(Pending(files)) && Good(db, Pending(files)) && !(ToSet(db.recorded) <= seen)
    ensures !Apply(db, files, ToSet(db.recorded) * seen, faults, 2).ok
  {
    var applied := ToSet(db.recorded) * seen;
    assert [] + files == files;
    var j :| 0 <= j < |db.recorded| && db.recorded[j] !in seen;
    StopsAtMissed(db, [], files, applied, faults, 2, j);
  }

  /** Exactly when a run returns nil: it misses no recorded version, and the two statements before the
      loop and the two for every file still missing all work.  Then every file that holds SQL is
      recorded, and the run has executed the missing ones, each once and in order. */
  lemma UpSucceedsIff(db: Db, files: seq<File>, seen: set<string>, faults: nat -> Fault)
    requires Distinct(Pending(files)) && Good(db, Pending(files))
    ensures var p, o := Pending(files), UpSpec(db, files, seen, faults);
            && (o.ok <==> ToSet(db.recorded) <= seen && AllFine(faults, 0, 2 + 2 * (|p| - |db.recorded|)))
            && (o.ok ==> BroughtUp(db, o, p))
            && (o.ok ==> forall i :: 0 <= i < |files| && TrimSpace(files[i].content) != "" ==>
                  files[i].name in o.db.recorded)
  {
    TwoMore(faults, 0, 2 + 2 * (|Pending(files)| - |db.recorded|));
    PendingHolds(files);
    if ToSet(db.recorded) <= seen {
      LoadedRunSucceeds(db, files, seen, faults);
    } else {
      MissedRunFails(db, files, seen, faults);
    }
  }

  // ---- Running a recorded file again ----

  /** The run executed a file that was recorded before it. */
  predicate Repeats(db: Db, o: Outcome) {
    exists i :: |db.executed| <= i < |o.db.executed| && o.db.executed[i] in db.recorded
  }

  /** Nothing happens, or a recorded file is run and the run stops. */
  predicate RunsRecorded(db: Db, o: Outcome, lost: bool) {
    if lost then o == Outcome(db, false)
    else exists i :: 0 <= i < |db.recorded| && o == Outcome(Db(db.recorded, db.executed + [db.recorded[i]]), false)
  }

  lemma RecordedFileStops(db: Db, rest: seq<File>, applied: set<string>, faults: nat -> Fault, k: nat, n: nat)
    requires rest != [] && !Skipped(rest[0], applied) && n < |db.recorded| && db.recorded[n] == rest[0].name
    ensures RunsRecorded(db, Apply(db, rest, applied, faults, k), faults(k).Lost?)
  {
    assert rest[0].name in db.recorded;
  }

  /** The loop stops at the first recorded file it has not seen as applied: after running it, if
      the statement gets through. */
  lemma {:induction false} StopsAtMissed(db: Db, done: seq<File>, rest: seq<File>, applied: set<string>,
                                         faults: nat -> Fault, k: nat, j: nat)
    requires Distinct(Pending(done + rest)) && db.recorded <= Pending(done + rest)
    requires |Pending(done)| <= j < |db.recorded| && db.recorded[j] !in applied
    ensures RunsRecorded(db, Apply(db, rest, applied, faults, k), faults(k).Lost?)
    decreases |rest|
  {
    PendingConcat(done, rest);
    if rest == [] {
    } else {
      var f, n := rest[0], |Pending(done)|;
      assert (done + [f]) + rest[1..] == done + rest;
      if TrimSpace(f.content) == "" {
        EmptyFile(done, f);
        StopsAtMissed(db, done + [f], rest[1..], applied, faults, k, j);
      } else {
        NextFile(db, done, rest);
        if f.name in applied {
          StopsAtMissed(db, done + [f], rest[1..], applied, faults, k, j);
        } else {
          RecordedFileStops(db, rest, applied, faults, k, n);
        }
      }
    }
  }

  /** Exactly when a run executes a recorded file again: the versions were loaded, one of them was
      missed, and the first file statement got through. */
  lemma RepeatsIffMissed(db: Db, files: seq<File>, seen: set<string>, faults: nat -> Fault)
    requires Distinct(Pending(files)) && Good(db, Pending(files))
    ensures Repeats(db, UpSpec(db, files, seen, faults)) <==>
            faults(0).Fine? && faults(1).Fine? && !faults(2).Lost? && !(ToSet(db.recorded) <= seen)
  {
    var applied := ToSet(db.recorded) * seen;
    assert [] + files == files;
    if faults(0).Fine? && faults(1).Fine? {
      if ToSet(db.recorded) <= seen {
        UpKeeps(db, files, seen, faults);
      } else {
        var j :| 0 <= j < |db.recorded| && db.recorded[j] !in seen;
        StopsAtMissed(db, [], files, applied, faults, 2, j);
        if !faults(2).Lost? {
          assert UpSpec(db, files, seen, faults).db.executed[|db.executed|] in db.recorded;
        }
      }
    }
  }

  /** One recorded file, a load that broke off before its version, and no other fault. */
  lemma RepeatExample(file: File)
    requires TrimSpace(file.content) != ""
    ensures var db := Db([file.name], [file.name]);
            && Good(db, Pending([file]))
            && UpSpec(db, [file], {}, (k: nat) => Fine) == Outcome(Db([file.name], [file.name, file.name]), false)
            && Repeats(db, UpSpec(db, [file], {}, (k: nat) => Fine))
  {
    var db := Db([file.name], [file.name]);
    assert Pending([file]) == [file.name] + Pending([file][1..]) == [file.name];
    assert ToSet(db.recorded) * {} == {};
    assert InReach(file.name, 1, Pending([file])) by { assert Pending([file])[0] == file.name; }
    assert db.executed + [file.name] == [file.name, file.name];
    assert UpSpec(db, [file], {}, (k: nat) => Fine).db.executed[1] in db.recorded;
  }

  // ---- Over every sequence of runs ----

  datatype Attempt = Attempt(seen: set<string>, faults: nat -> Fault)

  /** The database after a sequence of runs, each with its own faults. */
  function Runs(files: seq<File>, attempts: seq<Attempt>): Db {
    if attempts == [] then Db([], [])
    else
      var last := attempts[|attempts| - 1];
      UpSpec(Runs(files, attempts[..|attempts| - 1]), files, last.seen, last.faults).db
  }

  lemma {:induction false} RunsAreGood(files: seq<File>, attempts: seq<Attempt>)
    requires Distinct(Pending(files))
    ensures Good(Runs(files, attempts), Pending(files))
  {
    if attempts == [] {
    } else {
      var last := attempts[|attempts| - 1];
      RunsAreGood(files, attempts[..|attempts| - 1]);
      UpKeeps(Runs(files, attempts[..|attempts| - 1]), files, last.seen, last.faults);
    }
  }

  /** After any runs with any faults: the records are a prefix of the files that hold SQL, every
      recorded file has been executed, and the only other file that can have been is the next. */
  lemma RecordsArePrefix(files: seq<File>, attempts: seq<Attempt>)
    requires Distinct(Pending(files))
    ensures var db, p := Runs(files, attempts), Pending(files);
            && db.recorded <= p
            && (forall i :: 0 <= i < |db.recorded| ==> p[i] in db.executed)
            && (forall e :: e in db.executed ==>
                  e in db.recorded || (|db.recorded| < |p| && e == p[|db.recorded|]))
  {
    RunsAreGood(files, attempts);
    var db, p := Runs(files, attempts), Pending(files);
    forall e | e in db.executed ensures e in db.recorded || (|db.recorded| < |p| && e == p[|db.recorded|]) {
      var i :| 0 <= i < |db.executed| && db.executed[i] == e;
      assert InReach(db.executed[i], |db.recorded|, p);
    }
  }
}
