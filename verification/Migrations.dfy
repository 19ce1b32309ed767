/** Boot-time schema migrations, each applied and recorded in one transaction. */
module Migrations {
  import opened Text

  datatype DirEntry = DirEntry(name: string, isDir: bool)

  const SUFFIX := ".up.sql"

  predicate IsMigration(e: DirEntry) {
    !e.isDir && |e.name| >= |SUFFIX| && e.name[|e.name| - |SUFFIX|..] == SUFFIX
  }

  function MigrationNames(entries: seq<DirEntry>): seq<string> {
    if entries == [] then []
    else (if IsMigration(entries[0]) then [entries[0].name] else []) + MigrationNames(entries[1..])
  }

  /** The migrations of a directory, in the order they are to run. */
  function Plan(entries: seq<DirEntry>): seq<string> { Sort(MigrationNames(entries)) }

  /** A directory lists no name twice. */
  ghost predicate IsDirectory(entries: seq<DirEntry>) {
    forall i, j | 0 <= i < j < |entries| :: entries[i].name != entries[j].name
  }

  lemma {:induction false} NamesDistinct(entries: seq<DirEntry>)
    requires IsDirectory(entries)
    ensures Distinct(MigrationNames(entries))
    ensures forall n <- MigrationNames(entries) :: exists i :: 0 <= i < |entries| && entries[i].name == n
  {
    if entries != [] {
      var rest := entries[1..];
      assert forall i | 0 <= i < |rest| :: rest[i] == entries[i + 1];
      NamesDistinct(rest);
      forall n <- MigrationNames(entries) ensures exists i :: 0 <= i < |entries| && entries[i].name == n {
        if n in MigrationNames(rest) {
          var i :| 0 <= i < |rest| && rest[i].name == n;
          assert entries[i + 1].name == n;
        } else {
          assert entries[0].name == n;
        }
      }
      forall n <- MigrationNames(rest) ensures n != entries[0].name {
        var i :| 0 <= i < |rest| && rest[i].name == n;
        assert rest[i] == entries[i + 1];
      }
      ConsDistinct(entries[0].name, MigrationNames(rest));
      assert [] + MigrationNames(rest) == MigrationNames(rest);
    }
  }

  /** The names planned are those of the files that end in ".up.sql", each once and in order. */
  lemma PlanIsMigrations(entries: seq<DirEntry>)
    requires IsDirectory(entries)
    ensures Sorted(Plan(entries)) && Distinct(Plan(entries))
    ensures forall n :: n in Plan(entries) <==> ListedMigration(entries, n)
  {
    NamesDistinct(entries);
    SortSorts(MigrationNames(entries));
    forall n ensures n in Plan(entries) <==> ListedMigration(entries, n) {
      NamesAreMigrations(entries, n);
      assert n in Plan(entries) <==> n in multiset(Plan(entries));
      assert n in MigrationNames(entries) <==> n in multiset(MigrationNames(entries));
    }
  }

  ghost predicate ListedMigration(entries: seq<DirEntry>, n: string) {
    && |n| >= 7 && n[|n| - 7..] == ".up.sql"
    && exists i :: 0 <= i < |entries| && entries[i].name == n && !entries[i].isDir
  }

  lemma {:induction false} NamesAreMigrations(entries: seq<DirEntry>, n: string)
    ensures n in MigrationNames(entries) <==> ListedMigration(entries, n)
  {
    if entries != [] {
      var rest := entries[1..];
      NamesAreMigrations(rest, n);
      assert forall i | 0 <= i < |rest| :: rest[i] == entries[i + 1];
      if ListedMigration(rest, n) {
        var i :| 0 <= i < |rest| && rest[i].name == n && !rest[i].isDir;
        assert entries[i + 1].name == n;
      }
    }
  }

  /** What has run is a first stretch of the plan, in order, and exactly what has run is on record. */
  ghost predicate UpToDateSoFar(plan: seq<string>, applied: seq<string>, recorded: set<string>) {
    && applied <= plan
    && forall n :: n in recorded <==> n in applied
  }

  class Database {
    var recorded: set<string>
    ghost var applied: seq<string>
    ghost var faults: nat

    constructor ()
      ensures recorded == {} && applied == [] && faults == 0
    {
      recorded, applied, faults := {}, [], 0;
    }

    /** One migration in its transaction. Reporting a failed commit says nothing about whether it took. */
    method ApplyOne(name: string) returns (ok: bool)
      modifies this
      ensures (recorded == old(recorded) && applied == old(applied) && !ok)
           || (recorded == old(recorded) + {name} && applied == old(applied) + [name])
      ensures faults == old(faults) + if ok then 0 else 1
    {
      var read: bool, begun: bool, executed: bool, inserted: bool := *, *, *, *;
      ok := false;
      if read && begun && executed && inserted {
        var committed: bool := *;
        ok := *;
        if committed || ok {
          recorded, applied := recorded + {name}, applied + [name];
        }
      }
      if !ok { faults := faults + 1; }
    }

    /** One boot. It may fail, or be cut short, at any query. */
    method Migrate(entries: seq<DirEntry>) returns (ok: bool)
      requires IsDirectory(entries)
      requires UpToDateSoFar(Plan(entries), applied, recorded)
      modifies this
      ensures UpToDateSoFar(Plan(entries), applied, recorded)
      ensures old(applied) <= applied && old(recorded) <= recorded
      ensures ok ==> applied == Plan(entries) && faults == old(faults)
      ensures forall n <- recorded :: ListedMigration(entries, n)
      ensures ok ==> forall n | ListedMigration(entries, n) :: n in recorded
      ensures !ok ==> faults == old(faults) + 1
    {
      var names := Plan(entries);
      PlanIsMigrations(entries);
      for i := 0 to |names|
        invariant UpToDateSoFar(names, applied, recorded)
        invariant old(applied) <= applied && old(recorded) <= recorded
        invariant i <= |applied| && faults == old(faults)
      {
        var checked: bool := *;
        if !checked { faults := faults + 1; return false; }
        if i < |applied| { assert applied[i] == names[i]; }
        if names[i] !in recorded {
          ok := ApplyOne(names[i]);
          if !ok { return false; }
        }
      }
      ok := true;
    }

    /** Any number of boots of the same build, whatever becomes of each. */
    method Boot(entries: seq<DirEntry>, times: nat)
      requires IsDirectory(entries) && recorded == {} && applied == []
      modifies this
      ensures UpToDateSoFar(Plan(entries), applied, recorded)
    {
      for n := 0 to times
        invariant UpToDateSoFar(Plan(entries), applied, recorded)
      {
        var _ := Migrate(entries);
      }
    }
  }

  /** Each migration runs once, after all that sort before it. */
  lemma RunOnceInOrder(entries: seq<DirEntry>, applied: seq<string>, recorded: set<string>, i: nat, j: nat)
    requires IsDirectory(entries) && UpToDateSoFar(Plan(entries), applied, recorded)
    requires i < j < |applied|
    ensures applied[i] != applied[j] && AtMost(applied[i], applied[j])
    ensures forall n | ListedMigration(entries, n) :: AtMost(n, applied[i]) ==> n in recorded
  {
    PlanIsMigrations(entries);
    var names, plan := MigrationNames(entries), Plan(entries);
    NamesDistinct(entries);
    SortSorts(names);
    StrictlyIncreasing(plan);
    forall n | ListedMigration(entries, n) && AtMost(n, applied[i]) ensures n in recorded {
      assert n in plan;
      var k :| 0 <= k < |plan| && plan[k] == n;
      assert applied[i] == plan[i];
      assert applied[k] == n;
    }
  }
}
