/** A run that ends with a false record: a crash between the promotion intent and its link, then a
    foreign file at the path that older controllers used, then an import and a recovery. */
module MovedStorage {
  import opened Prelude
  import opened Database
  import opened FileSystem
  import opened Promotion
  import opened PromotionTheorems
  import opened PromotionRecords

  const U := "u"
  const Decoded := "a b"
  const Legacy := "a%20b"
  const Mine: Bytes := [1]
  const Theirs: Bytes := [2]
  const Runs: map<string, set<Url>> := map["run" := {"u"}]

  function NewItem(): Row {
    NewRow(Decoded, Decoded, None, None)
  }

  function Intent(h: Hash): Row {
    NewItem().(status := Promoting, attempts := 1, generation := Some(1), sha256 := Some(h(Mine)), bytes := Some(1),
               target := Some(Decoded))
  }

  // Serving, with the item selected.
  function Selecting(): State {
    State(Disk(Files(map[], map[], {}), map[U := NewItem()], Runs, []), 1, Serving("run"), map[], {})
  }

  // The intent is committed, nothing is linked yet.
  function Intending(h: Hash): State {
    State(Disk(Files(map[Staging(U) := 0], map[0 := Mine], {}), map[U := Intent(h)], Runs, []), 1, Serving("run"),
          map[U := Intended(h(Mine))], {h(Mine)})
  }

  // The next start, after the crash and the foreign file.
  function Restarting(h: Hash): State {
    State(Disk(Files(map[Staging(U) := 0, Final(Legacy) := 1], map[0 := Mine, 1 := Theirs], {}), map[U := Intent(h)], Runs, []),
          2, Starting("run"), map[], {h(Mine)})
  }

  // The recovery has linked the target; the row names the other path.
  function Relinked(h: Hash): State {
    var s := Restarting(h);
    s.(disk := s.disk.(files := s.disk.files.(names := s.disk.files.names[Final(Decoded) := 0]),
                       rows := map[U := Intent(h).(stored := Legacy)]))
  }

  lemma {:induction false} Grow(h: Hash, trace: seq<State>, steps: seq<Step>, step: Step)
    returns (trace': seq<State>, steps': seq<Step>)
    requires RunFromFresh(h, trace, steps)
    requires trace[|trace| - 1].disk.files.Valid() && Enabled(h, trace[|trace| - 1], step)
    ensures RunFromFresh(h, trace', steps') && steps' == steps + [step]
    ensures trace' == trace + [Apply(h, trace[|trace| - 1], step)]
  {
    hide Enabled, Apply;
    trace', steps' := trace + [Apply(h, trace[|trace| - 1], step)], steps + [step];
    forall k | 0 <= k < |steps'|
      ensures trace'[k].disk.files.Valid() && Enabled(h, trace'[k], steps'[k]) && trace'[k + 1] == Apply(h, trace'[k], steps'[k])
    {
      if k < |steps| {
        assert trace'[k] == trace[k] && trace'[k + 1] == trace[k + 1] && steps'[k] == steps[k];
      }
    }
  }

  ghost predicate Ends(h: Hash, trace: seq<State>, steps: seq<Step>, s: State) {
    RunFromFresh(h, trace, steps) && |trace| == |steps| + 1 && trace[|trace| - 1] == s
  }

  lemma {:induction false} Go(h: Hash, trace: seq<State>, steps: seq<Step>, s: State, step: Step, s': State)
    returns (trace': seq<State>, steps': seq<Step>)
    requires Ends(h, trace, steps, s) && s.disk.files.Valid() && Enabled(h, s, step) && s' == Apply(h, s, step)
    ensures Ends(h, trace', steps', s') && steps' == steps + [step] && trace' == trace + [s']
  {
    hide Enabled, Apply;
    trace', steps' := Grow(h, trace, steps, step);
  }

  lemma {:induction false} Selects(h: Hash) returns (trace: seq<State>, steps: seq<Step>)
    ensures Ends(h, trace, steps, Selecting())
  {
    hide Ends, Run;
    trace, steps := [Fresh], [];
    assert Ends(h, trace, steps, Fresh) by {
      Beginning(h);
    }
    var s := Fresh;
    var s1 := s.(phase := Starting("run"), session := 1);
    trace, steps := Go(h, trace, steps, s, Start("run"), s1);
    var s2 := s1.(disk := s1.disk.(rows := map[U := NewItem()]));
    trace, steps := Go(h, trace, steps, s1, Import(U, NewItem()), s2);
    var s3 := s2.(disk := s2.disk.(runs := Runs));
    trace, steps := Go(h, trace, steps, s2, Scope({U}), s3);
    trace, steps := Go(h, trace, steps, s3, Open, Selecting());
  }

  lemma {:induction false} Beginning(h: Hash)
    ensures Ends(h, [Fresh], [], Fresh)
  {
  }

  function At(row: Row, files: Files, pc: Pc): State {
    State(Disk(files, map[U := row], Runs, []), 1, Serving("run"), map[U := pc], {})
  }

  lemma {:induction false} Admits(h: Hash, trace: seq<State>, steps: seq<Step>) returns (trace': seq<State>, steps': seq<Step>, s: State)
    requires Ends(h, trace, steps, Selecting())
    ensures Ends(h, trace', steps', s)
    ensures s == At(NewItem().(status := Active, attempts := 1, generation := Some(1)), Files(map[], map[], {}), Downloading(0))
  {
    hide Ends, Run;
    var empty := Files(map[], map[], {});
    var s0, s1 := Selecting(), At(NewItem(), empty, Chosen(0));
    trace', steps' := Go(h, trace, steps, s0, Task(U, Admission(Choose)), s1);
    var s2 := At(NewItem().(status := Admitted), empty, Waiting(0));
    trace', steps' := Go(h, trace', steps', s1, Task(U, Admission(Admit)), s2);
    var s3 := At(NewItem().(status := Admitted), empty, Ready(0));
    trace', steps' := Go(h, trace', steps', s2, Task(U, Admission(Reserve)), s3);
    s := At(NewItem().(status := Active, attempts := 1, generation := Some(1)), empty, Downloading(0));
    trace', steps' := Go(h, trace', steps', s3, Task(U, Admission(Activate(None))), s);
  }

  lemma {:induction false} Downloads(h: Hash, trace: seq<State>, steps: seq<Step>, s: State)
    returns (trace': seq<State>, steps': seq<Step>)
    requires Ends(h, trace, steps, s)
    requires s == At(NewItem().(status := Active, attempts := 1, generation := Some(1)), Files(map[], map[], {}), Downloading(0))
    ensures Ends(h, trace', steps', Finished())
  {
    hide Ends, Run;
    var s1 := Finished().(tasks := map[U := Downloading(0)]);
    trace', steps' := Go(h, trace, steps, s, Task(U, Engine(EngineCreate(0, Mine))), s1);
    trace', steps' := Go(h, trace', steps', s1, Task(U, Engine(EngineExit(true, Note("")))), Finished());
  }

  // The engine has ended.
  function Finished(): State {
    At(NewItem().(status := Active, attempts := 1, generation := Some(1)), Files(map[Staging(U) := 0], map[0 := Mine], {}),
       Exited(0, true, Note("")))
  }

  lemma {:induction false} Intends(h: Hash, trace: seq<State>, steps: seq<Step>)
    returns (trace': seq<State>, steps': seq<Step>)
    requires Ends(h, trace, steps, Finished())
    ensures Ends(h, trace', steps', Intending(h))
  {
    hide Ends, Run;
    var s1 := Finished().(tasks := map[U := Hashed(h(Mine))]);
    trace', steps' := Go(h, trace, steps, Finished(), Task(U, Judge(HashStaging)), s1);
    trace', steps' := Go(h, trace', steps', s1, Task(U, Judge(Intend(None))), Intending(h));
  }

  lemma {:induction false} Restarts(h: Hash, trace: seq<State>, steps: seq<Step>)
    returns (trace': seq<State>, steps': seq<Step>)
    requires Ends(h, trace, steps, Intending(h))
    ensures Ends(h, trace', steps', Restarting(h))
  {
    hide Ends, Run;
    var s := Intending(h);
    var s1 := s.(phase := Down, tasks := map[]);
    trace', steps' := Go(h, trace, steps, s, Crash, s1);
    var s2 := s1.(disk := Restarting(h).disk);
    trace', steps' := Go(h, trace', steps', s1, Foreign(Legacy, 1, Theirs), s2);
    trace', steps' := Go(h, trace', steps', s2, Step.Start("run"), Restarting(h));
  }

  lemma {:induction false} Recovers(h: Hash, trace: seq<State>, steps: seq<Step>)
    returns (trace': seq<State>, steps': seq<Step>, a: nat)
    requires Ends(h, trace, steps, Restarting(h))
    ensures Ends(h, trace', steps', Relinked(h)) && a < |steps'| && trace'[a] == Restarting(h)
    ensures steps'[a] == Import(U, Intent(h).(stored := Legacy))
  {
    hide Run;
    var s, row := Restarting(h), Intent(h).(stored := Legacy);
    a := |steps|;
    var s1 := s.(disk := s.disk.(rows := map[U := row]));
    trace', steps' := Go(h, trace, steps, s, Import(U, row), s1);
    trace', steps' := Go(h, trace', steps', s1, Recover(U, Relink), Relinked(h));
  }

  // Every step of the run is one that the machine may take, and the import takes the path that
  // resolved_storage_target returns. The recovered promotion is recorded at the older path, whose
  // file has another digest.
  lemma {:induction false} MovedStorageExample(h: Hash) returns (trace: seq<State>, steps: seq<Step>, a: nat)
    requires h(Mine) != h(Theirs)
    ensures RunFromFresh(h, trace, steps) && a < |steps| && trace[a].disk.files.Valid() && steps[a].Import?
    ensures steps[a].row.stored == ResolvedStorage(trace[a].disk.files, Decoded, Some(Legacy))
    ensures MovesStorage(trace[a], steps[a]) && |trace| >= 2 && Misrecords(h, trace[|trace| - 2], steps[|steps| - 1])
    ensures var disk := trace[|trace| - 1].disk;
            disk.records == [Finalized(2, U, Legacy, h(Mine), 1)] && !RecordsOk(h, disk)
  {
    hide Run, Apply, Enabled;
    trace, steps := Selects(h);
    var s;
    trace, steps, s := Admits(h, trace, steps);
    trace, steps := Downloads(h, trace, steps, s);
    trace, steps := Intends(h, trace, steps);
    trace, steps := Restarts(h, trace, steps);
    trace, steps, a := Recovers(h, trace, steps);
    var moved := Relinked(h);
    RecordsFalsely(h);
    trace, steps := Go(h, trace, steps, moved, Recover(U, RecordPromotion), Recorded(h));
  }

  function Recorded(h: Hash): State {
    Relinked(h).(disk := Relinked(h).disk.(records := [Finalized(2, U, Legacy, h(Mine), 1)]))
  }

  lemma {:induction false} RecordsFalsely(h: Hash)
    requires h(Mine) != h(Theirs)
    ensures Relinked(h).disk.files.Valid() && Enabled(h, Relinked(h), Recover(U, RecordPromotion))
    ensures Apply(h, Relinked(h), Recover(U, RecordPromotion)) == Recorded(h)
    ensures Misrecords(h, Relinked(h), Recover(U, RecordPromotion)) && !RecordsOk(h, Recorded(h).disk)
  {
    var disk := Recorded(h).disk;
    assert !RecordOk(h, disk, disk.records[0]);
  }
}
