/** Migration of a database schema, one script at a time, from the version it has to the version asked for. */
module Migration {
  import opened Common

  datatype Version = Version(major: nat, minor: nat, patch: nat)

  const V0 := Version(0, 0, 0)
  const V4 := Version(4, 0, 0)

  predicate LessThan(v: Version, w: Version) {
    || v.major < w.major
    || (v.major == w.major && (v.minor < w.minor || (v.minor == w.minor && v.patch < w.patch)))
  }

  datatype MigrationStep = MigrationStep(version: Version, upToFile: string, downFromFile: string)

  // ----- the table of steps -----

  /** A file whose name matches the pattern of migration steps. */
  datatype MigrationFile = MigrationFile(up: bool, version: Version, name: string)

  ghost predicate Ascending(versions: seq<Version>) {
    forall i, j :: 0 <= i < j < |versions| ==> LessThan(versions[i], versions[j])
  }

  ghost predicate Sorted(steps: seq<MigrationStep>) {
    forall i, j :: 0 <= i < j < |steps| ==> LessThan(steps[i].version, steps[j].version)
  }

  /** The name of the last of the first `n` files that goes up to, or down from, this version. */
  function FileFor(files: seq<MigrationFile>, n: nat, version: Version, up: bool): string
    requires n <= |files|
  {
    if n == 0 then ""
    else if files[n - 1].version == version && files[n - 1].up == up then files[n - 1].name
    else FileFor(files, n - 1, version, up)
  }

  function StepFor(files: seq<MigrationFile>, n: nat, version: Version): MigrationStep
    requires n <= |files|
  {
    MigrationStep(version, FileFor(files, n, version, true), FileFor(files, n, version, false))
  }

  /** The last of the first `n` files that goes up to, or down from, this version. */
  ghost predicate IsLastFile(files: seq<MigrationFile>, n: nat, i: int, version: Version, up: bool)
    requires n <= |files|
  {
    && 0 <= i < n && files[i].version == version && files[i].up == up
    && forall j :: i < j < n ==> files[j].version != version || files[j].up != up
  }

  lemma {:induction false} FileForExactly(files: seq<MigrationFile>, n: nat, version: Version, up: bool)
    requires n <= |files|
    ensures forall i :: IsLastFile(files, n, i, version, up) ==> FileFor(files, n, version, up) == files[i].name
    ensures (forall i :: !IsLastFile(files, n, i, version, up)) ==> FileFor(files, n, version, up) == ""
  {
    if n > 0 {
      FileForExactly(files, n - 1, version, up);
      assert IsLastFile(files, n, n - 1, version, up) <==> files[n - 1].version == version && files[n - 1].up == up;
      if !IsLastFile(files, n, n - 1, version, up) {
        var before := n - 1;
        if i :| IsLastFile(files, before, i, version, up) {
          assert IsLastFile(files, n, i, version, up);
        }
      }
    }
  }

  /** A line of the table has the name of the last file up to its version and of the last one down from it, or none. */
  lemma LineHasLastFiles(files: seq<MigrationFile>, version: Version, i: int, up: bool)
    ensures var line := StepFor(files, |files|, version);
            var name := if up then line.upToFile else line.downFromFile;
            && line.version == version
            && (IsLastFile(files, |files|, i, version, up) ==> name == files[i].name)
            && ((forall k :: !IsLastFile(files, |files|, k, version, up)) ==> name == "")
  {
    FileForExactly(files, |files|, version, up);
    hide IsLastFile, FileFor;
  }

  method EnumerateMigrationSteps(files: seq<MigrationFile>) returns (result: seq<MigrationStep>)
    ensures result != [] && result[0] == MigrationStep(V0, "", "") && Sorted(result[1..])
    ensures forall s :: s in result[1..] <==>
              (exists f :: f in files && f.version == s.version) && s == StepFor(files, |files|, s.version)
  {
    var steps: map<Version, MigrationStep> := map[];
    for i := 0 to |files|
      invariant forall v :: v in steps <==> exists f :: f in files[..i] && f.version == v
      invariant forall v :: v in steps ==> steps[v] == StepFor(files, i, v)
      invariant forall v :: v !in steps ==> StepFor(files, i, v) == MigrationStep(v, "", "")
    {
      var f := files[i];
      assert files[..i + 1] == files[..i] + [f];
      var step := if f.version in steps then steps[f.version] else MigrationStep(f.version, "", "");
      step := if f.up then step.(upToFile := f.name) else step.(downFromFile := f.name);
      steps := steps[f.version := step];
    }
    assert files[..|files|] == files;
    var versions := SortVersions(steps.Keys);
    result := RenderSteps(steps, versions);
    forall s ensures s in result[1..] <==>
                       (exists f :: f in files && f.version == s.version) && s == StepFor(files, |files|, s.version) {
      assert s in result[1..] <==> s.version in steps && s == steps[s.version];
    }
  }

  method RenderSteps(steps: map<Version, MigrationStep>, versions: seq<Version>) returns (result: seq<MigrationStep>)
    requires Ascending(versions) && forall v :: v in versions <==> v in steps
    requires forall v :: v in steps ==> steps[v].version == v
    ensures result != [] && result[0] == MigrationStep(V0, "", "") && Sorted(result[1..])
    ensures forall s :: s in result[1..] <==> s.version in steps && s == steps[s.version]
  {
    result := [MigrationStep(V0, "", "")];
    for i := 0 to |versions|
      invariant |result| == i + 1 && result[0] == MigrationStep(V0, "", "")
      invariant forall k :: 0 <= k < i ==> versions[k] in steps && result[k + 1] == steps[versions[k]]
    {
      assert versions[i] in versions;
      result := result + [steps[versions[i]]];
    }
    assert forall k :: 0 <= k < |versions| ==> result[1..][k] == steps[versions[k]];
    forall v | v in steps ensures steps[v] in result[1..] {
      var k :| 0 <= k < |versions| && versions[k] == v;
      assert result[1..][k] == steps[v];
    }
  }

  method SortVersions(versions: set<Version>) returns (sorted: seq<Version>)
    ensures Ascending(sorted) && forall v :: v in sorted <==> v in versions
  {
    sorted := [];
    var list := Enumerate(versions);
    for i := 0 to |list|
      invariant Ascending(sorted) && forall v :: v in sorted <==> v in list[..i]
    {
      assert list[i] !in list[..i] && list[..i + 1] == list[..i] + [list[i]];
      sorted := Insert(sorted, list[i]);
    }
    assert list[..|list|] == list;
  }

  method Insert(sorted: seq<Version>, v: Version) returns (longer: seq<Version>)
    requires Ascending(sorted) && v !in sorted
    ensures Ascending(longer) && forall w :: w in longer <==> w in sorted || w == v
  {
    var k := |sorted|;
    while k > 0 && LessThan(v, sorted[k - 1])
      invariant 0 <= k <= |sorted|
      invariant forall j :: k <= j < |sorted| ==> LessThan(v, sorted[j])
    {
      k := k - 1;
    }
    assert k > 0 ==> sorted[k - 1] in sorted && LessThan(sorted[k - 1], v);
    Inserted(sorted, k, v);
    longer := sorted[..k] + [v] + sorted[k..];
  }

  lemma Inserted(sorted: seq<Version>, k: nat, v: Version)
    requires Ascending(sorted) && k <= |sorted|
    requires k > 0 ==> LessThan(sorted[k - 1], v)
    requires forall j :: k <= j < |sorted| ==> LessThan(v, sorted[j])
    ensures var longer := sorted[..k] + [v] + sorted[k..];
            Ascending(longer) && forall w :: w in longer <==> w in sorted || w == v
  {
    var longer := sorted[..k] + [v] + sorted[k..];
    assert sorted == sorted[..k] + sorted[k..];
    forall j | 0 <= j < k ensures LessThan(sorted[j], v) {
      assert j == k - 1 || LessThan(sorted[j], sorted[k - 1]);
    }
    InsertedAscends(sorted, k, v, longer);
  }

  lemma InsertedAscends(sorted: seq<Version>, k: nat, v: Version, longer: seq<Version>)
    requires Ascending(sorted) && k <= |sorted| && longer == sorted[..k] + [v] + sorted[k..]
    requires forall j :: 0 <= j < k ==> LessThan(sorted[j], v)
    requires forall j :: k <= j < |sorted| ==> LessThan(v, sorted[j])
    ensures Ascending(longer)
  {
    hide LessThan;
    forall i, j | 0 <= i < j < |longer| ensures LessThan(longer[i], longer[j]) {
      PlaceOf(sorted, k, v, i);
      PlaceOf(sorted, k, v, j);
    }
  }

  lemma PlaceOf(sorted: seq<Version>, k: nat, v: Version, i: nat)
    requires k <= |sorted| && i <= |sorted|
    ensures (sorted[..k] + [v] + sorted[k..])[i] == if i < k then sorted[i] else if i == k then v else sorted[i - 1]
  {
  }

  /** The table is sorted from its first line on exactly when no file migrates to or from version 0.0.0. */
  lemma TableIsSorted(steps: seq<MigrationStep>)
    requires steps != [] && steps[0].version == V0 && Sorted(steps[1..])
    ensures Sorted(steps) <==> forall s :: s in steps[1..] ==> s.version != V0
  {
    forall k | 0 < k < |steps| ensures steps[k] == steps[1..][k - 1] {
    }
    if Sorted(steps) {
      forall s | s in steps[1..] ensures s.version != V0 {
        var k :| 0 <= k < |steps| - 1 && steps[1..][k] == s;
        assert LessThan(steps[0].version, steps[k + 1].version);
      }
    } else {
      var i, j :| 0 <= i < j < |steps| && !LessThan(steps[i].version, steps[j].version);
      assert i == 0 && steps[j] in steps[1..];
    }
  }

  // ----- the migration loop -----

  /** `ran` lists the scripts executed, each with the name of the database that it was executed in. */
  datatype State = State(current: Version, index: int, dbName: string, ran: seq<(string, string)>)

  datatype Outcome = Running(state: State) | Done(state: State) | Panic(state: State)

  /** The index of the version to go to next, if there is such a line in the table, and the script that leads there. */
  function Choice(steps: seq<MigrationStep>, target: Version, s: State): Option<(int, string)> {
    if LessThan(s.current, target) then
      if 0 <= s.index + 1 < |steps| then Some((s.index + 1, steps[s.index + 1].upToFile)) else None
    else
      if 1 <= s.index < |steps| then Some((s.index - 1, steps[s.index].downFromFile)) else None
  }

  /** The RID database has another name from version 4.0.0 on. */
  function Renamed(dbName: string, current: Version, next: Version, up: bool): string {
    if dbName == "defaultdb" && next == V4 && up then "rid"
    else if dbName == "rid" && current == V4 && !up then "defaultdb"
    else dbName
  }

  /** One turn of the loop. `reached` is the version that the database has after the script, none on an error. */
  function Next(steps: seq<MigrationStep>, target: Version, s: State, reached: Option<Version>): Outcome {
    if s.current == target then Done(s) else
    var choice := Choice(steps, target, s);
    if choice.None? || choice.value.1 == "" then Panic(s) else
    var (i, file) := choice.value;
    var ran := s.(ran := s.ran + [(s.dbName, file)],
                  dbName := Renamed(s.dbName, s.current, steps[i].version, i > s.index));
    if reached != Some(steps[i].version) then Panic(ran) else Running(ran.(current := steps[i].version, index := i))
  }

  /** The state after `n` turns, when the script of turn `k` ends in version `reached(k)`. */
  function Run(
    steps: seq<MigrationStep>, target: Version, s: State, reached: nat -> Option<Version>, n: nat): Outcome
  {
    if n == 0 then Running(s) else
    var before := Run(steps, target, s, reached, n - 1);
    if before.Running? then Next(steps, target, before.state, reached(n - 1)) else before
  }

  /** The state is at its line of the table. */
  ghost predicate AtLine(steps: seq<MigrationStep>, s: State) {
    0 <= s.index < |steps| && steps[s.index].version == s.current
  }

  class Migrator {
    const steps: seq<MigrationStep>
    var current: Version
    var index: int
    var dbName: string
    var ran: seq<(string, string)>

    constructor (steps: seq<MigrationStep>, current: Version, dbName: string)
      ensures this.steps == steps
      ensures this.current == current && this.dbName == dbName && ran == []
      ensures if exists k :: 0 <= k < |steps| && steps[k].version == current
              then 0 <= index < |steps| && steps[index].version == current
              else index == -1
    {
      this.steps, this.current, this.dbName, ran := steps, current, dbName, [];
      var last := -1;
      for i := 0 to |steps|
        invariant if exists k :: 0 <= k < i && steps[k].version == current
                  then 0 <= last < i && steps[last].version == current
                  else last == -1
      {
        if steps[i].version == current {
          last := i;
        }
      }
      index := last;
    }

    function Value(): State
      reads this
    {
      State(current, index, dbName, ran)
    }

    /** Runs to the end when the target is in the table: in as many scripts as lie between, unless one fails. For a
        target above all versions `goal` is the last line, and the access beyond it panics. */
    method Migrate(target: Version, reached: nat -> Option<Version>, ghost goal: nat) returns (ok: bool)
      requires Sorted(steps) && AtLine(steps, Value()) && goal < |steps|
      requires steps[goal].version == target || (goal == |steps| - 1 && LessThan(steps[goal].version, target))
      modifies this
      ensures Run(steps, target, old(Value()), reached, Distance(old(index), goal) + 1) ==
              if ok then Done(Value()) else Panic(Value())
    {
      hide Sorted, Next;
      var turn: nat := 0;
      ghost var distance := Distance(index, goal);
      while current != target
        invariant AtLine(steps, Value())
        invariant turn + Distance(index, goal) == distance
        invariant Run(steps, target, old(Value()), reached, turn) == Running(Value())
        decreases distance - turn
      {
        TargetIsAhead(steps, target, Value(), goal);
        if LessThan(current, target) && index + 1 == |steps| {
          NoLineAhead(steps, target, Value(), reached(turn));
          return false;
        }
        ok := RunScript(target, reached(turn));
        turn := turn + 1;
        if !ok {
          StaysFinal(steps, target, old(Value()), reached, turn, distance + 1);
          return;
        }
      }
      TargetIsReached(steps, target, Value(), goal, reached(turn));
      return true;
    }

    /** The first turns of the loop, for any target and from any version; it may have no end. */
    method FirstTurns(target: Version, reached: nat -> Option<Version>, turns: nat) returns (outcome: Outcome)
      modifies this
      ensures outcome == Run(steps, target, old(Value()), reached, turns) && outcome.state == Value()
    {
      hide Next;
      for turn := 0 to turns
        invariant Run(steps, target, old(Value()), reached, turn) == Running(Value())
      {
        var ok := false;
        if current == target || !IsLineAhead(target) {
          NoTurn(steps, target, Value(), reached(turn));
          outcome := if current == target then Done(Value()) else Panic(Value());
        } else {
          ok := RunScript(target, reached(turn));
          outcome := Panic(Value());
        }
        if !ok {
          StaysFinal(steps, target, old(Value()), reached, turn + 1, turns);
          return;
        }
      }
      outcome := Running(Value());
    }

    /** Whether the indices that the body uses are in the table. */
    predicate IsLineAhead(target: Version)
      reads this
    {
      if LessThan(current, target) then 0 <= index + 1 < |steps| else 1 <= index < |steps|
    }

    /** The body of the loop, when no index is out of range. */
    method RunScript(target: Version, actualVersion: Option<Version>) returns (ok: bool)
      requires current != target && IsLineAhead(target)
      modifies this
      ensures Next(steps, target, old(Value()), actualVersion) == if ok then Running(Value()) else Panic(Value())
      ensures ok ==> AtLine(steps, Value())
      ensures ok ==> index == old(index) + if LessThan(old(current), target) then 1 else -1
    {
      var newIndex, sqlFile;
      if LessThan(current, target) {
        newIndex, sqlFile := index + 1, steps[index + 1].upToFile;
      } else {
        newIndex, sqlFile := index - 1, steps[index].downFromFile;
      }
      var newVersion := steps[newIndex].version;
      if sqlFile == "" {
        return false;
      }
      ran := ran + [(dbName, sqlFile)];
      if dbName == "defaultdb" && newVersion == V4 && newIndex > index {
        dbName := "rid";
      }
      if dbName == "rid" && current == V4 && newIndex < index {
        dbName := "defaultdb";
      }
      if actualVersion.None? || actualVersion.value != newVersion {
        return false;
      }
      current, index := actualVersion.value, newIndex;
      return true;
    }
  }

  function Distance(i: int, j: int): nat {
    if i < j then j - i else i - j
  }

  lemma TargetIsAhead(steps: seq<MigrationStep>, target: Version, s: State, goal: nat)
    requires Sorted(steps) && AtLine(steps, s) && goal < |steps| && s.current != target
    requires steps[goal].version == target || (goal == |steps| - 1 && LessThan(steps[goal].version, target))
    ensures if LessThan(s.current, target) then s.index < goal || s.index + 1 == |steps| == goal + 1 else goal < s.index
  {
  }

  lemma NoTurn(steps: seq<MigrationStep>, target: Version, s: State, reached: Option<Version>)
    requires s.current == target || Choice(steps, target, s).None?
    ensures Next(steps, target, s, reached) == if s.current == target then Done(s) else Panic(s)
  {
  }

  lemma NoLineAhead(steps: seq<MigrationStep>, target: Version, s: State, reached: Option<Version>)
    requires AtLine(steps, s) && LessThan(s.current, target) && s.index + 1 == |steps| && s.current != target
    ensures Next(steps, target, s, reached) == Panic(s)
  {
  }

  lemma TargetIsReached(steps: seq<MigrationStep>, target: Version, s: State, goal: nat, reached: Option<Version>)
    requires Sorted(steps) && AtLine(steps, s) && goal < |steps| && s.current == target
    requires steps[goal].version == target || (goal == |steps| - 1 && LessThan(steps[goal].version, target))
    ensures s.index == goal && Next(steps, target, s, reached) == Done(s)
  {
  }

  lemma {:induction false} StaysFinal(
    steps: seq<MigrationStep>, target: Version, s: State, reached: nat -> Option<Version>, n: nat, m: nat)
    requires n <= m && !Run(steps, target, s, reached, n).Running?
    ensures Run(steps, target, s, reached, m) == Run(steps, target, s, reached, n)
  {
    if n < m {
      StaysFinal(steps, target, s, reached, n, m - 1);
    }
  }

  // ----- what the loop does when every script exists and reaches its version -----

  ghost predicate Complete(steps: seq<MigrationStep>) {
    forall k :: 0 < k < |steps| ==> steps[k].upToFile != "" && steps[k].downFromFile != ""
  }

  ghost predicate Works(steps: seq<MigrationStep>, target: Version, s: State, reached: nat -> Option<Version>) {
    forall n: nat :: Reaches(steps, target, Run(steps, target, s, reached, n), reached(n))
  }

  ghost predicate Reaches(steps: seq<MigrationStep>, target: Version, before: Outcome, reached: Option<Version>) {
    before.Running? && Choice(steps, target, before.state).Some? ==>
      reached == Some(steps[Choice(steps, target, before.state).value.0].version)
  }

  /** A turn that has somewhere to go. */
  lemma GoodTurn(steps: seq<MigrationStep>, target: Version, s: State, reached: nat -> Option<Version>, n: nat)
    requires Complete(steps) && Works(steps, target, s, reached)
    requires Run(steps, target, s, reached, n).Running?
    ensures var before, after := Run(steps, target, s, reached, n).state, Run(steps, target, s, reached, n + 1);
            AtLine(steps, before) && before.current != target && Choice(steps, target, before).Some? ==>
              var (i, file) := Choice(steps, target, before).value;
              && after.Running? && AtLine(steps, after.state) && after.state.index == i
              && after.state.ran == before.ran + [(before.dbName, file)]
  {
    var before := Run(steps, target, s, reached, n);
    assert Reaches(steps, target, before, reached(n));
    hide Run;
    assert Run(steps, target, s, reached, n + 1) == Next(steps, target, before.state, reached(n)) by {
      OneTurn(steps, target, s, reached, n);
    }
  }

  lemma OneTurn(steps: seq<MigrationStep>, target: Version, s: State, reached: nat -> Option<Version>, n: nat)
    requires Run(steps, target, s, reached, n).Running?
    ensures Run(steps, target, s, reached, n + 1) ==
            Next(steps, target, Run(steps, target, s, reached, n).state, reached(n))
  {
  }

  /** The script of turn `k` on the way from line `i` to line `goal`. */
  function ScriptFile(steps: seq<MigrationStep>, i: nat, goal: nat, k: nat): string
    requires i < |steps| && goal < |steps| && k < Distance(i, goal)
  {
    if i < goal then steps[i + k + 1].upToFile else steps[i - k].downFromFile
  }

  /** `n` scripts of the way from the line of `s` to line `goal` have been run, each once and in order. */
  ghost predicate OnTheWay(steps: seq<MigrationStep>, s: State, goal: nat, n: nat, now: State)
    requires AtLine(steps, s) && goal < |steps| && n <= Distance(s.index, goal)
  {
    && AtLine(steps, now)
    && now.index == (if s.index < goal then s.index + n else s.index - n)
    && |now.ran| == |s.ran| + n && s.ran <= now.ran
    && forall k :: 0 <= k < n ==> now.ran[|s.ran| + k].1 == ScriptFile(steps, s.index, goal, k)
  }

  /** To a target in the table the loop takes the shortest way: it runs the scripts between, each once and in order,
      and ends when it is there. */
  lemma {:induction false} MigratesExactly(
    steps: seq<MigrationStep>, target: Version, s: State, reached: nat -> Option<Version>, goal: nat, n: nat)
    requires Sorted(steps) && Complete(steps) && AtLine(steps, s) && Works(steps, target, s, reached)
    requires goal < |steps| && steps[goal].version == target && n <= Distance(s.index, goal)
    ensures var r := Run(steps, target, s, reached, n); r.Running? && OnTheWay(steps, s, goal, n, r.state)
    ensures n == Distance(s.index, goal) ==>
              var final := Run(steps, target, s, reached, n + 1);
              final.Done? && final.state.current == target && final.state.index == goal
  {
    hide Works, Complete, Next;
    if n > 0 {
      MigratesExactly(steps, target, s, reached, goal, n - 1);
      GoodTurn(steps, target, s, reached, n - 1);
      var before := Run(steps, target, s, reached, n - 1).state;
      assert before.current != target;
      TargetIsAhead(steps, target, before, goal);
      hide Run;
    }
    if n == Distance(s.index, goal) {
      TargetIsReached(steps, target, Run(steps, target, s, reached, n).state, goal, reached(n));
      OneTurn(steps, target, s, reached, n);
    }
  }

  // ----- other targets -----

  /** From line `i` towards the gap above line `lower`, and then across it and back for ever. */
  function ZigZag(i: nat, lower: nat, n: nat): int {
    var d := if i <= lower then lower - i else i - (lower + 1);
    if n <= d then if i <= lower then i + n else i - n
    else if ((n - d) % 2 == 0) == (i <= lower) then lower else lower + 1
  }

  /** A target between two versions of the table is never reached: the loop runs up and down between them for ever. */
  lemma {:induction false} AlternatesForever(
    steps: seq<MigrationStep>, target: Version, s: State, reached: nat -> Option<Version>, lower: nat, n: nat)
    requires Sorted(steps) && Complete(steps) && AtLine(steps, s) && Works(steps, target, s, reached)
    requires lower + 1 < |steps|
    requires LessThan(steps[lower].version, target) && LessThan(target, steps[lower + 1].version)
    ensures var r := Run(steps, target, s, reached, n);
            && r.Running? && AtLine(steps, r.state) && r.state.current != target
            && r.state.index == ZigZag(s.index, lower, n)
  {
    hide Works, Complete, Next, Sorted;
    if n > 0 {
      AlternatesForever(steps, target, s, reached, lower, n - 1);
      GoodTurn(steps, target, s, reached, n - 1);
      GapAhead(steps, target, Run(steps, target, s, reached, n - 1).state, lower);
    }
    if Run(steps, target, s, reached, n).Running? && AtLine(steps, Run(steps, target, s, reached, n).state) {
      GapAhead(steps, target, Run(steps, target, s, reached, n).state, lower);
    }
  }

  lemma GapAhead(steps: seq<MigrationStep>, target: Version, s: State, lower: nat)
    requires Sorted(steps) && AtLine(steps, s) && lower + 1 < |steps|
    requires LessThan(steps[lower].version, target) && LessThan(target, steps[lower + 1].version)
    ensures s.current != target && (LessThan(s.current, target) <==> s.index <= lower)
  {
  }

  /** A target above all versions of the table: the loop runs up to the last line, and then indexes out of range. */
  lemma {:induction false} PanicsPastTheEnd(
    steps: seq<MigrationStep>, target: Version, s: State, reached: nat -> Option<Version>, n: nat)
    requires Sorted(steps) && Complete(steps) && AtLine(steps, s) && Works(steps, target, s, reached)
    requires LessThan(steps[|steps| - 1].version, target)
    ensures var r := Run(steps, target, s, reached, n);
            if s.index + n < |steps| then r.Running? && AtLine(steps, r.state) && r.state.index == s.index + n
            else r.Panic? && AtLine(steps, r.state) && r.state.index == |steps| - 1
  {
    hide Works, Complete, Sorted;
    if n > 0 {
      PanicsPastTheEnd(steps, target, s, reached, n - 1);
      if s.index + n - 1 < |steps| {
        GoodTurn(steps, target, s, reached, n - 1);
        TargetIsAbove(steps, target, Run(steps, target, s, reached, n - 1).state);
      }
    }
  }

  lemma TargetIsAbove(steps: seq<MigrationStep>, target: Version, s: State)
    requires Sorted(steps) && AtLine(steps, s) && LessThan(steps[|steps| - 1].version, target)
    ensures LessThan(s.current, target) && s.current != target
  {
  }

  lemma {:induction false} GapAround(steps: seq<MigrationStep>, target: Version, k: nat) returns (lower: nat)
    requires Sorted(steps) && k < |steps| && LessThan(steps[0].version, target) && LessThan(target, steps[k].version)
    requires forall i :: 0 <= i < |steps| ==> steps[i].version != target
    ensures lower + 1 < |steps|
    ensures LessThan(steps[lower].version, target) && LessThan(target, steps[lower + 1].version)
  {
    if LessThan(steps[k - 1].version, target) {
      lower := k - 1;
    } else {
      lower := GapAround(steps, target, k - 1);
    }
  }

  /** When all scripts exist and work, the loop comes to an end at the target if and only if that is in the table. */
  lemma ReachesTarget(steps: seq<MigrationStep>, target: Version, s: State, reached: nat -> Option<Version>)
    requires Sorted(steps) && Complete(steps) && AtLine(steps, s) && Works(steps, target, s, reached)
    requires steps[0].version == V0
    ensures (exists n :: Run(steps, target, s, reached, n).Done?) <==>
            (exists k :: 0 <= k < |steps| && steps[k].version == target)
  {
    hide Works, Complete, Run;
    if k :| 0 <= k < |steps| && steps[k].version == target {
      var d := Distance(s.index, k);
      MigratesExactly(steps, target, s, reached, k, d);
      assert Run(steps, target, s, reached, d + 1).Done?;
    } else {
      forall n: nat ensures !Run(steps, target, s, reached, n).Done? {
        NeverReached(steps, target, s, reached, n);
      }
    }
  }

  lemma NeverReached(steps: seq<MigrationStep>, target: Version, s: State, reached: nat -> Option<Version>, n: nat)
    requires Sorted(steps) && Complete(steps) && AtLine(steps, s) && Works(steps, target, s, reached)
    requires steps[0].version == V0 && forall k :: 0 <= k < |steps| ==> steps[k].version != target
    ensures !Run(steps, target, s, reached, n).Done?
  {
    hide Works, Complete, Run;
    var last := |steps| - 1;
    assert steps[0].version != target && steps[last].version != target;
    if LessThan(steps[last].version, target) {
      PanicsPastTheEnd(steps, target, s, reached, n);
    } else {
      var lower := GapAround(steps, target, last);
      AlternatesForever(steps, target, s, reached, lower, n);
    }
  }

  // ----- scripts that work -----

  /** The version that the next script should reach. */
  function Declared(steps: seq<MigrationStep>, target: Version, s: State): Option<Version> {
    var choice := Choice(steps, target, s);
    if choice.None? then None else Some(steps[choice.value.0].version)
  }

  function WorkingRun(steps: seq<MigrationStep>, target: Version, s: State, n: nat): Outcome {
    if n == 0 then Running(s) else
    var before := WorkingRun(steps, target, s, n - 1);
    if before.Running? then Next(steps, target, before.state, Declared(steps, target, before.state)) else before
  }

  function WorkingScripts(steps: seq<MigrationStep>, target: Version, s: State): nat -> Option<Version> {
    (n: nat) => Declared(steps, target, WorkingRun(steps, target, s, n).state)
  }

  lemma {:induction false} WorkingRunIsRun(steps: seq<MigrationStep>, target: Version, s: State, n: nat)
    ensures Run(steps, target, s, WorkingScripts(steps, target, s), n) == WorkingRun(steps, target, s, n)
  {
    hide Next, Declared;
    if n > 0 { WorkingRunIsRun(steps, target, s, n - 1); }
  }

  /** For every table, target and state there are scripts that work. */
  lemma ScriptsCanWork(steps: seq<MigrationStep>, target: Version, s: State)
    ensures Works(steps, target, s, WorkingScripts(steps, target, s))
  {
    var reached := WorkingScripts(steps, target, s);
    forall n: nat ensures Reaches(steps, target, Run(steps, target, s, reached, n), reached(n)) {
      WorkingRunIsRun(steps, target, s, n);
    }
  }

  /** The schema of strategic coordination. */
  const SCD_STEPS: seq<MigrationStep> := [
    MigrationStep(V0, "", ""),
    MigrationStep(Version(1, 0, 0),
                  "upto-v1.0.0-create_initial_version.sql",
                  "downfrom-v1.0.0-remove_initial_version.sql"),
    MigrationStep(Version(2, 0, 0),
                  "upto-v2.0.0-support_api_1_0_0.sql",
                  "downfrom-v2.0.0-remove_api_1_0_0_support.sql"),
    MigrationStep(Version(3, 0, 0),
                  "upto-v3.0.0-add_inverted_indices.sql",
                  "downfrom-v3.0.0-remove_inverted_indices.sql"),
    MigrationStep(Version(3, 1, 0),
                  "upto-v3.1.0-create_uss_availability.sql",
                  "downfrom-v3.1.0-remove_uss_availability.sql")]

  /** On its way from 2.0.0 to 2.5.0 it goes up and down between 2.0.0 and 3.0.0, and to 4.0.0 it panics after 3.1.0. */
  lemma ScdTargets(n: nat)
    ensures Sorted(SCD_STEPS) && Complete(SCD_STEPS)
    ensures var s, target := State(Version(2, 0, 0), 2, "scd", []), Version(2, 5, 0);
            var r := Run(SCD_STEPS, target, s, WorkingScripts(SCD_STEPS, target, s), n);
            AtLine(SCD_STEPS, s) && r.Running? && r.state.index == if n % 2 == 0 then 2 else 3
    ensures var s, target := State(Version(2, 0, 0), 2, "scd", []), Version(4, 0, 0);
            var r := Run(SCD_STEPS, target, s, WorkingScripts(SCD_STEPS, target, s), n);
            if n < 3 then r.Running? && r.state.index == 2 + n else r.Panic? && r.state.index == 4
  {
    var s := State(Version(2, 0, 0), 2, "scd", []);
    hide Run, Works;
    ScriptsCanWork(SCD_STEPS, Version(2, 5, 0), s);
    AlternatesForever(SCD_STEPS, Version(2, 5, 0), s, WorkingScripts(SCD_STEPS, Version(2, 5, 0), s), 2, n);
    ScriptsCanWork(SCD_STEPS, V4, s);
    PanicsPastTheEnd(SCD_STEPS, V4, s, WorkingScripts(SCD_STEPS, V4, s), n);
  }

  /** A database at a version that is not in the table is not touched: there is no script to start with. */
  lemma UnknownVersionPanics(steps: seq<MigrationStep>, target: Version, s: State, reached: Option<Version>)
    requires steps != [] && steps[0] == MigrationStep(V0, "", "") && s.index == -1 && s.current != target
    ensures Next(steps, target, s, reached) == Panic(s)
  {
  }

  // ----- the name of the RID database -----

  /** The database is called `rid` exactly from version 4.0.0 on. */
  predicate WellNamed(s: State) {
    && (s.dbName == "rid" || s.dbName == "defaultdb")
    && (s.dbName == "rid" <==> !LessThan(s.current, V4))
  }

  /** A turn between two neighbouring lines keeps this exactly when it does not cross 4.0.0, or the higher line is
      4.0.0 itself. */
  lemma TurnKeepsName(steps: seq<MigrationStep>, target: Version, s: State, reached: Option<Version>)
    requires Sorted(steps) && AtLine(steps, s) && WellNamed(s)
    requires Next(steps, target, s, reached).Running?
    ensures var next := Next(steps, target, s, reached).state;
            var lower := if next.index < s.index then next.index else s.index;
            WellNamed(next) <==>
              (LessThan(steps[lower].version, V4) && !LessThan(steps[lower + 1].version, V4) ==>
                 steps[lower + 1].version == V4)
  {
    var next := Next(steps, target, s, reached).state;
    var lower := if next.index < s.index then next.index else s.index;
    assert LessThan(steps[lower].version, steps[lower + 1].version);
  }

  /** A turn that fails after its script has the name right for the version that this should have reached. */
  lemma FailureNamesNext(steps: seq<MigrationStep>, target: Version, s: State, reached: Option<Version>, m: nat)
    requires Sorted(steps) && AtLine(steps, s) && WellNamed(s) && m < |steps| && steps[m].version == V4
    requires Next(steps, target, s, reached).Panic? && Next(steps, target, s, reached).state.ran != s.ran
    ensures Declared(steps, target, s).Some?
    ensures WellNamed(Next(steps, target, s, reached).state.(current := Declared(steps, target, s).value))
  {
    var next := Declared(steps, target, s);
    TurnIsWellNamed(steps, target, s, next, m);
    assert Next(steps, target, s, next).Running?;
  }

  /** So with 4.0.0 in the table, the name is right whenever the loop runs, whether or not a script fails later. */
  lemma {:induction false} NameFollowsVersion(
    steps: seq<MigrationStep>, target: Version, s: State, reached: nat -> Option<Version>, m: nat, n: nat)
    requires Sorted(steps) && AtLine(steps, s) && WellNamed(s) && m < |steps| && steps[m].version == V4
    ensures var r := Run(steps, target, s, reached, n); r.Running? ==> AtLine(steps, r.state) && WellNamed(r.state)
  {
    hide WellNamed, Next, Sorted;
    if n > 0 {
      NameFollowsVersion(steps, target, s, reached, m, n - 1);
      if Run(steps, target, s, reached, n - 1).Running? {
        OneTurn(steps, target, s, reached, n - 1);
        TurnIsWellNamed(steps, target, Run(steps, target, s, reached, n - 1).state, reached(n - 1), m);
      }
    }
  }

  lemma TurnIsWellNamed(steps: seq<MigrationStep>, target: Version, s: State, reached: Option<Version>, m: nat)
    requires Sorted(steps) && AtLine(steps, s) && WellNamed(s) && m < |steps| && steps[m].version == V4
    ensures var r := Next(steps, target, s, reached); r.Running? ==> AtLine(steps, r.state) && WellNamed(r.state)
  {
    var r := Next(steps, target, s, reached);
    if r.Running? {
      TurnKeepsName(steps, target, s, reached);
      var lower := if r.state.index < s.index then r.state.index else s.index;
      hide WellNamed;
      if LessThan(steps[lower].version, V4) && !LessThan(steps[lower + 1].version, V4) {
        NothingBetween(steps, lower, m);
      }
    }
  }

  lemma NothingBetween(steps: seq<MigrationStep>, lower: nat, m: nat)
    requires Sorted(steps) && lower + 1 < |steps| && m < |steps| && steps[m].version == V4
    requires LessThan(steps[lower].version, V4) && !LessThan(steps[lower + 1].version, V4)
    ensures steps[lower + 1].version == V4
  {
  }
}
