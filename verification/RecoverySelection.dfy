/** A crash inside the selection of a run. The selection is not one transaction: a commit for an
    existing final also commits the run items so far, and the next start keeps them. */
module RecoverySelection {
  import opened Prelude
  import opened Database
  import opened FileSystem
  import opened Promotion
  import opened RecoverySpec
  import opened RecoveryTheorems
  import opened RecoveryRepeat

  // ------------------------------------------------------------ the selection reads files only

  // An imported entry without a final.
  predicate Missing(d: Disk, i: Url) {
    i in d.rows && Final(d.rows[i].stored) !in d.files.names
  }

  // What a commit of the selection leaves alone.
  predicate Alike(d: Disk, e: Disk) {
    && e.files == d.files && e.rows.Keys == d.rows.Keys
    && forall i | i in d.rows :: e.rows[i].stored == d.rows[i].stored && (e.rows[i].status.Promoting? ==> d.rows[i].status.Promoting?)
  }

  // The missing entries among the first `n`, as many as the run takes.
  function Taken(cfg: Config, d: Disk, n: nat): (taken: seq<Url>)
    requires n <= |cfg.queue|
    ensures |taken| <= n && forall i | i in taken :: i in cfg.queue[..n] && Missing(d, i)
  {
    if n == 0 then []
    else
      var front, i := Taken(cfg, d, n - 1), cfg.queue[n - 1];
      if Missing(d, i) && !Full(cfg, front) then front + [i] else front
  }

  lemma {:induction false} AlikeTaken(cfg: Config, again: Config, d: Disk, e: Disk, n: nat)
    requires Alike(d, e) && again.queue == cfg.queue && again.maxFiles == cfg.maxFiles && n <= |cfg.queue|
    ensures Taken(again, e, n) == Taken(cfg, d, n)
  {
    if n > 0 {
      AlikeTaken(cfg, again, d, e, n - 1);
    }
  }

  lemma {:induction false} ExistingIsAlike(h: Hash, cfg: Config, d: Disk, chosen: seq<Url>, i: Url, k: nat)
    requires d.files.Valid() && i in d.rows && Final(d.rows[i].stored) in d.files.names
    requires k < |ExistingItem(h, cfg, d, i, chosen)|
    ensures var e := ExistingItem(h, cfg, d, i, chosen)[k];
            Alike(d, e) && (Scoped(cfg, e) == Scoped(cfg, d) || Scoped(cfg, e) == Members(chosen))
    ensures Scoped(cfg, End(d, ExistingItem(h, cfg, d, i, chosen))) == Members(chosen)
  {
    hide Members;
  }

  lemma {:induction false} EntryIsAlike(h: Hash, cfg: Config, d: Disk, chosen: seq<Url>, i: Url, k: nat)
    requires d.files.Valid() && k < |NewDisks(h, cfg, d, chosen, i)|
    ensures var e := NewDisks(h, cfg, d, chosen, i)[k];
            Alike(d, e) && (Scoped(cfg, e) == Scoped(cfg, d) || Scoped(cfg, e) == Members(chosen))
    ensures Scoped(cfg, End(d, NewDisks(h, cfg, d, chosen, i))) == Members(chosen)
  {
    hide ExistingItem, Alike, Scoped;
    ExistingIsAlike(h, cfg, d, chosen, i, k);
  }

  lemma {:induction false} AlikeChains(d: Disk, e: Disk, f: Disk)
    requires Alike(d, e) && Alike(e, f)
    ensures Alike(d, f)
  {
  }

  // The chosen items are the taken ones, and every disk on the way commits a prefix of them.
  lemma {:induction false} ChoosesTaken(h: Hash, cfg: Config, d: Disk, n: nat)
    requires d.files.Valid() && n <= |cfg.queue|
    ensures ChooseItems(h, cfg, d, n).chosen == Taken(cfg, d, n)
    ensures Alike(d, End(d, ChooseItems(h, cfg, d, n).disks))
  {
    hide Alike, ChooseItems, NewDisks;
    if n == 0 {
      FirstChoice(h, cfg, d);
    } else {
      ChoosesTaken(h, cfg, d, n - 1);
      var before, e := NextChoice(h, cfg, d, n);
      AlikeMisses(d, e, cfg.queue[n - 1]);
      var new_ := NewDisks(h, cfg, e, before.chosen, cfg.queue[n - 1]);
      if new_ != [] {
        EntryIsAlike(h, cfg, e, before.chosen, cfg.queue[n - 1], |new_| - 1);
        AlikeChains(d, e, new_[|new_| - 1]);
      }
    }
  }

  lemma {:induction false} FirstChoice(h: Hash, cfg: Config, d: Disk)
    requires d.files.Valid()
    ensures ChooseItems(h, cfg, d, 0) == Selection([], []) && Alike(d, d)
  {
  }

  lemma {:induction false} AlikeMisses(d: Disk, e: Disk, i: Url)
    requires Alike(d, e)
    ensures Missing(e, i) <==> Missing(d, i)
  {
  }

  lemma {:induction false} NextChoice(h: Hash, cfg: Config, d: Disk, n: nat) returns (before: Selection, e: Disk)
    requires d.files.Valid() && 0 < n <= |cfg.queue|
    ensures before == ChooseItems(h, cfg, d, n - 1) && e == End(d, before.disks) && e.files.Valid()
    ensures ChooseItems(h, cfg, d, n)
            == Selection(before.disks + NewDisks(h, cfg, e, before.chosen, cfg.queue[n - 1]),
                         before.chosen + NewItems(cfg, e, before.chosen, cfg.queue[n - 1]))
    ensures End(d, ChooseItems(h, cfg, d, n).disks) == End(e, NewDisks(h, cfg, e, before.chosen, cfg.queue[n - 1]))
  {
    hide NewDisks, NewItems;
    before := ChooseItems(h, cfg, d, n - 1);
    e := End(d, before.disks);
  }

  lemma {:induction false} CommittedIsTaken(h: Hash, cfg: Config, d: Disk, n: nat, k: nat) returns (m: nat)
    requires d.files.Valid() && Scoped(cfg, d) == {} && n <= |cfg.queue| && k < |ChooseItems(h, cfg, d, n).disks|
    ensures var e := ChooseItems(h, cfg, d, n).disks[k];
            m <= n && Scoped(cfg, e) == Members(Taken(cfg, d, m)) && Alike(d, e)
  {
    hide Alike, ChooseItems, NewDisks, Taken, Scoped;
    if n == 0 {
      FirstChoice(h, cfg, d);
    } else {
      var before, e := NextChoice(h, cfg, d, n);
      ChoosesTaken(h, cfg, d, n - 1);
      if k < |before.disks| {
        m := CommittedIsTaken(h, cfg, d, n - 1, k);
      } else {
        EntryIsAlike(h, cfg, e, before.chosen, cfg.queue[n - 1], k - |before.disks|);
        var f := ChooseItems(h, cfg, d, n).disks[k];
        AlikeChains(d, e, f);
        if Scoped(cfg, f) == Members(before.chosen) {
          m := n - 1;
        } else if before.disks == [] {
          m := 0;
          NothingTaken(cfg, d);
        } else {
          m := CommittedIsTaken(h, cfg, d, n - 1, |before.disks| - 1);
        }
      }
    }
  }

  lemma {:induction false} NothingTaken(cfg: Config, d: Disk)
    ensures Taken(cfg, d, 0) == [] && Members([]) == {}
  {
  }

  // ------------------------------------------------------------ prefixes of the taken entries

  lemma {:induction false} TakenGrows(cfg: Config, d: Disk, m: nat, n: nat)
    requires m <= n <= |cfg.queue|
    ensures Taken(cfg, d, m) <= Taken(cfg, d, n)
    ensures Full(cfg, Taken(cfg, d, m)) ==> Taken(cfg, d, n) == Taken(cfg, d, m)
    decreases n
  {
    hide Missing, Full, Taken;
    if m < n {
      TakenGrows(cfg, d, m, n - 1);
      TakenSteps(cfg, d, n);
    }
  }

  // Below the limit no missing entry is left out.
  lemma {:induction false} TakenCovers(cfg: Config, d: Disk, n: nat)
    requires n <= |cfg.queue| && !Full(cfg, Taken(cfg, d, n))
    ensures forall j | 0 <= j < n && Missing(d, cfg.queue[j]) :: cfg.queue[j] in Taken(cfg, d, n)
  {
    hide Missing, Taken;
    if n > 0 {
      TakenSteps(cfg, d, n);
      TakenCovers(cfg, d, n - 1);
    }
  }

  lemma {:induction false} TakenSteps(cfg: Config, d: Disk, n: nat)
    requires 0 < n <= |cfg.queue|
    ensures var front, i := Taken(cfg, d, n - 1), cfg.queue[n - 1];
            Taken(cfg, d, n) == if Missing(d, i) && !Full(cfg, front) then front + [i] else front
  {
  }

  // A queue entry is not among the entries taken before it.
  lemma {:induction false} TakenBefore(cfg: Config, d: Disk, n: nat)
    requires Distinct(cfg.queue) && n < |cfg.queue|
    ensures cfg.queue[n] !in Taken(cfg, d, n)
  {
    hide Missing, Full, Taken;
    assert forall k | 0 <= k < n :: cfg.queue[..n][k] == cfg.queue[k];
  }

  lemma {:induction false} DistinctGrows(front: seq<Url>, i: Url)
    requires Distinct(front) && i !in front
    ensures Distinct(front + [i])
  {
  }

  lemma {:induction false} MembersGrow(front: seq<Url>, i: Url)
    requires i !in front
    ensures |Members(front + [i])| == |Members(front)| + 1
  {
    assert Members(front + [i]) == Members(front) + {i};
  }

  lemma {:induction false} TakenIsDistinct(cfg: Config, d: Disk, n: nat)
    requires Distinct(cfg.queue) && n <= |cfg.queue|
    ensures Distinct(Taken(cfg, d, n)) && |Members(Taken(cfg, d, n))| == |Taken(cfg, d, n)|
  {
    hide Missing, Full, Taken, Distinct, Members;
    if n == 0 {
      NothingTaken(cfg, d);
      EmptyIsDistinct();
    } else {
      TakenIsDistinct(cfg, d, n - 1);
      TakenSteps(cfg, d, n);
      TakenBefore(cfg, d, n - 1);
      DistinctGrows(Taken(cfg, d, n - 1), cfg.queue[n - 1]);
      MembersGrow(Taken(cfg, d, n - 1), cfg.queue[n - 1]);
    }
  }

  lemma {:induction false} EmptyIsDistinct()
    ensures Distinct<Url>([])
  {
  }

  // The limit of the run is reached, or no missing entry is left out.
  predicate Exhausted(cfg: Config, d: Disk, selected: set<Url>) {
    (cfg.maxFiles > 0 && |selected| >= cfg.maxFiles) || forall i | i in cfg.queue && Missing(d, i) :: i in selected
  }

  lemma {:induction false} PrefixIsAllIff(cfg: Config, d: Disk, m: nat)
    requires Distinct(cfg.queue) && m <= |cfg.queue|
    ensures Members(Taken(cfg, d, m)) == Members(Taken(cfg, d, |cfg.queue|)) <==> Exhausted(cfg, d, Members(Taken(cfg, d, m)))
  {
    hide Missing;
    var n := |cfg.queue|;
    var some, all := Taken(cfg, d, m), Taken(cfg, d, n);
    TakenGrows(cfg, d, m, n);
    if !Full(cfg, all) {
      TakenCovers(cfg, d, n);
    }
    TakenIsDistinct(cfg, d, m);
    TakenIsDistinct(cfg, d, n);
    assert Members(some) <= Members(all);
    if Members(some) == Members(all) && !Full(cfg, some) {
      forall i | i in cfg.queue && Missing(d, i) ensures i in Members(some) {
        var j :| 0 <= j < n && cfg.queue[j] == i;
        assert cfg.queue[j] in all;
      }
    }
  }

  // ------------------------------------------------------------ the next start

  lemma {:induction false} NothingToReconcile(h: Hash, cfg: Config, d: Disk, items: seq<Url>)
    requires d.files.Valid() && NothingPromoting(d)
    ensures Sweep(h, cfg, d, Reconciling, items) == []
  {
    if items != [] {
      NothingToReconcile(h, cfg, d, items[..|items| - 1]);
    }
  }

  lemma {:induction false} SelectsAfresh(h: Hash, cfg: Config, d: Disk)
    requires d.files.Valid() && NothingPromoting(d) && Scoped(cfg, d) == {}
    ensures Scoped(cfg, AfterScope(h, cfg, d)) == Members(Taken(cfg, d, |cfg.queue|))
  {
    hide ChooseItems, Taken;
    NothingToReconcile(h, cfg, d, cfg.order);
    ChoosesTaken(h, cfg, d, |cfg.queue|);
  }

  lemma {:induction false} SelectionStays(h: Hash, cfg: Config, d: Disk)
    requires d.files.Valid() && Scoped(cfg, d) != {}
    ensures Scoped(cfg, AfterScope(h, cfg, d)) == Scoped(cfg, d)
  {
    assert AfterReconcile(h, cfg, d).runs == d.runs;
  }

  // The crash falls after any effect of the selection. The next start of the run selects what an
  // undisturbed selection would have, if and only if no run item was committed yet, or the run items
  // reach the limit, or every imported queue entry without a final is among them.
  lemma {:induction false} CrashedSelectionIff(h: Hash, cfg: Config, again: Config, d: Disk, k: nat)
    requires d.files.Valid() && NothingPromoting(d) && Scoped(cfg, d) == {} && Distinct(cfg.queue)
    requires again.run == cfg.run && again.queue == cfg.queue && again.maxFiles == cfg.maxFiles
    requires k < |ScopeDisks(h, cfg, d)|
    ensures ScopeDisks(h, cfg, d)[k].files.Valid()
    ensures var e := ScopeDisks(h, cfg, d)[k];
            Scoped(again, AfterScope(h, again, e)) == Scoped(cfg, End(d, ScopeDisks(h, cfg, d)))
            <==> Scoped(cfg, e) == {} || Exhausted(cfg, e, Scoped(cfg, e))
  {
    hide ChooseItems, Taken, AfterScope, Exhausted;
    var e, n := ScopeDisks(h, cfg, d)[k], |cfg.queue|;
    assert e in ScopeDisks(h, cfg, d);
    ChoosesTaken(h, cfg, d, n);
    var m := CrashedIsTaken(h, cfg, d, k);
    PrefixIsAllIff(cfg, d, m);
    AlikeExhausted(cfg, d, e, Scoped(cfg, e));
    if Scoped(cfg, e) == {} {
      AlikeTaken(cfg, again, d, e, n);
      SelectsAfresh(h, again, e);
    } else {
      SelectionStays(h, again, e);
    }
  }

  lemma {:induction false} CrashedIsTaken(h: Hash, cfg: Config, d: Disk, k: nat) returns (m: nat)
    requires d.files.Valid() && Scoped(cfg, d) == {} && k < |ScopeDisks(h, cfg, d)|
    ensures var e := ScopeDisks(h, cfg, d)[k];
            m <= |cfg.queue| && Scoped(cfg, e) == Members(Taken(cfg, d, m)) && Alike(d, e)
  {
    hide ChooseItems, Taken;
    var n := |cfg.queue|;
    ChoosesTaken(h, cfg, d, n);
    if k < |ChooseItems(h, cfg, d, n).disks| {
      m := CommittedIsTaken(h, cfg, d, n, k);
    } else {
      m := n;
    }
  }

  lemma {:induction false} AlikeExhausted(cfg: Config, d: Disk, e: Disk, selected: set<Url>)
    requires Alike(d, e)
    ensures Exhausted(cfg, e, selected) <==> Exhausted(cfg, d, selected)
  {
    hide Missing, Alike;
    forall i ensures Missing(e, i) <==> Missing(d, i) {
      AlikeMisses(d, e, i);
    }
  }

  // After the commit for the existing final of queue entry `n`: the selections agree if and only if
  // nothing was taken before it, or no later entry is missing.
  lemma {:induction false} CrashAfterEntryIff(h: Hash, cfg: Config, again: Config, d: Disk, n: nat)
    requires d.files.Valid() && NothingPromoting(d) && Scoped(cfg, d) == {} && Distinct(cfg.queue)
    requires again.run == cfg.run && again.queue == cfg.queue && again.maxFiles == cfg.maxFiles
    requires 0 < n <= |cfg.queue| && |ChooseItems(h, cfg, d, n).disks| > |ChooseItems(h, cfg, d, n - 1).disks|
    ensures var e := End(d, ChooseItems(h, cfg, d, n).disks);
            e.files.Valid()
            && (Scoped(again, AfterScope(h, again, e)) == Scoped(cfg, End(d, ScopeDisks(h, cfg, d)))
                <==> ChooseItems(h, cfg, d, n).chosen == [] || forall j | n <= j < |cfg.queue| :: !Missing(d, cfg.queue[j]))
  {
    hide ChooseItems, NewDisks, NewItems, Taken, AfterScope, Exhausted, Missing, Alike, Scoped, ScopeDisks;
    var before, e := NextChoice(h, cfg, d, n);
    var new_, k := NewDisks(h, cfg, e, before.chosen, cfg.queue[n - 1]), |ChooseItems(h, cfg, d, n).disks| - 1;
    EntryIsAlike(h, cfg, e, before.chosen, cfg.queue[n - 1], |new_| - 1);
    EntryTakesNothing(h, cfg, e, before.chosen, cfg.queue[n - 1]);
    ChoosesTaken(h, cfg, d, n - 1);
    ChoosesTaken(h, cfg, d, n);
    DiskOfScope(h, cfg, d, n, k);
    CrashedSelectionIff(h, cfg, again, d, k);
    var f, scoped := End(d, ChooseItems(h, cfg, d, n).disks), ScopeDisks(h, cfg, d);
    AlikeExhausted(cfg, d, f, Members(before.chosen));
    LaterAreMissingIff(cfg, d, n);
    EmptySelection(before.chosen);
    assert f == scoped[k] && Scoped(cfg, f) == Members(before.chosen) && Taken(cfg, d, n) == before.chosen;
  }

  // A commit for an existing final takes no item, and is made only below the limit.
  lemma {:induction false} EntryTakesNothing(h: Hash, cfg: Config, e: Disk, chosen: seq<Url>, i: Url)
    requires e.files.Valid() && NewDisks(h, cfg, e, chosen, i) != []
    ensures NewItems(cfg, e, chosen, i) == [] && !Full(cfg, chosen)
  {
  }

  lemma {:induction false} DiskOfScope(h: Hash, cfg: Config, d: Disk, n: nat, k: nat)
    requires d.files.Valid() && Scoped(cfg, d) == {} && n <= |cfg.queue| && k < |ChooseItems(h, cfg, d, n).disks|
    ensures k < |ScopeDisks(h, cfg, d)| && ScopeDisks(h, cfg, d)[k] == ChooseItems(h, cfg, d, n).disks[k]
  {
    hide ChooseItems;
    DisksGrow(h, cfg, d, n, |cfg.queue|);
  }

  lemma {:induction false} DisksGrow(h: Hash, cfg: Config, d: Disk, m: nat, n: nat)
    requires d.files.Valid() && m <= n <= |cfg.queue|
    ensures ChooseItems(h, cfg, d, m).disks <= ChooseItems(h, cfg, d, n).disks
    decreases n
  {
    hide ChooseItems, NewDisks, NewItems;
    if m < n {
      DisksGrow(h, cfg, d, m, n - 1);
      var before, e := NextChoice(h, cfg, d, n);
    }
  }

  lemma {:induction false} LaterAreMissingIff(cfg: Config, d: Disk, n: nat)
    requires Distinct(cfg.queue) && n <= |cfg.queue| && !Full(cfg, Taken(cfg, d, n))
    ensures Exhausted(cfg, d, Members(Taken(cfg, d, n))) <==> forall j | n <= j < |cfg.queue| :: !Missing(d, cfg.queue[j])
  {
    hide Missing, Taken;
    TakenCovers(cfg, d, n);
    TakenIsDistinct(cfg, d, n);
    var taken := Taken(cfg, d, n);
    forall j | n <= j < |cfg.queue| ensures cfg.queue[j] !in taken {
      assert forall k | 0 <= k < n :: cfg.queue[..n][k] == cfg.queue[k];
    }
    if forall j | n <= j < |cfg.queue| :: !Missing(d, cfg.queue[j]) {
      forall i | i in cfg.queue && Missing(d, i) ensures i in taken {
        var j :| 0 <= j < |cfg.queue| && cfg.queue[j] == i;
        assert j < n;
      }
    }
  }

  // Two missing files around an unverified one: the crash drops the second of them for good.
  function TruncationConfig(): Config {
    Config("run", 1, ["a", "b", "c"], 0, ["a", "b", "c"], _ => None, Faults(map[], map[], {}, map[]))
  }

  function TruncationDisk(): Disk {
    Disk(Files(map[Final("b") := 0], map[0 := []], {}),
         map["a" := NewRow("a", "a", None, None), "b" := NewRow("b", "b", None, None), "c" := NewRow("c", "c", None, None)],
         map[], [])
  }

  lemma {:induction false} TruncatedSelectionExample(h: Hash)
    ensures TruncationDisk().files.Valid()
    ensures var cfg, disks := TruncationConfig(), ScopeDisks(h, TruncationConfig(), TruncationDisk());
            && |disks| == 2 && Scoped(cfg, disks[0]) == {"a"} && Scoped(cfg, disks[1]) == {"a", "c"}
  {
    var cfg, d := TruncationConfig(), TruncationDisk();
    assert ChooseItems(h, cfg, d, 0) == Selection([], []);
    assert ChooseItems(h, cfg, d, 1) == Selection([], ["a"]);
    var e := WithItems(cfg, d, "b", d.rows["b"].(status := ExistingUnverified, bytes := Some(0)), ["a"]);
    assert ChooseItems(h, cfg, d, 2) == Selection([e], ["a"]);
    assert ChooseItems(h, cfg, d, 3) == Selection([e], ["a", "c"]);
    assert Members(["a"]) == {"a"};
    assert Members(["a", "c"]) == {"a", "c"};
  }
}
