/** Every disk of a start is reached by steps of the promotion protocol, so whatever holds in all
    its runs holds at every effect of a start. */
module RecoveryRefinement {
  import opened Prelude
  import opened Database
  import opened FileSystem
  import opened Promotion
  import opened PromotionSafety
  import opened PromotionSteps
  import opened PromotionTheorems
  import opened RecoverySpec
  import opened RecoveryTheorems

  // ------------------------------------------------------------ one effect

  ghost predicate Reaches(h: Hash, s: State, d: Disk, step: Step) {
    s.disk.files.Valid() && Enabled(h, s, step) && Apply(h, s, step) == s.(disk := d)
  }

  // One effect is no step, one step, or the commit of the selection with a row.
  ghost predicate Near(h: Hash, s: State, d: Disk) {
    || s.disk == d
    || (exists step :: Reaches(h, s, d, step))
    || (exists mid: Disk, a, b :: Reaches(h, s, mid, a) && Reaches(h, At(s, mid), d, b))
  }

  // The state of a starting controller with disk `d`.
  function At(s: State, d: Disk): State {
    s.(disk := d)
  }

  ghost function Nearness(h: Hash, s: State): (Disk, Disk) -> bool {
    (d, e) => Near(h, At(s, d), e)
  }

  // Every effect in turn.
  ghost predicate Chained(near: (Disk, Disk) -> bool, d: Disk, disks: seq<Disk>) {
    forall k {:trigger disks[k]} | 0 <= k < |disks| :: near(End(d, disks[..k]), disks[k])
  }

  ghost predicate Follows(h: Hash, s: State, disks: seq<Disk>) {
    Chained(Nearness(h, s), s.disk, disks)
  }

  ghost predicate Steady(h: Hash, cfg: Config, s: State) {
    && s.disk.files.Valid() && Inv(h, s) && s.phase == Starting(cfg.run) && s.session == cfg.session
    && forall j | j in s.disk.rows :: Settled(s.disk, s.session, j)
  }

  lemma {:induction false} EffectReaches(h: Hash, s: State, i: Url, r: RecoveryStep)
    requires Inv(h, s) && s.phase.Starting? && RecoveryEnabled(h, s.disk, s.session, i, r)
    ensures var d := RecoveryApply(h, s.disk, s.session, i, r);
            Reaches(h, s, d, Recover(i, r)) && Near(h, s, d) && Inv(h, At(s, d)) && d.files.Valid()
  {
    var d := RecoveryApply(h, s.disk, s.session, i, r);
    RecoveryKeeps(h, s, i, r);
    assert Reaches(h, s, d, Recover(i, r));
  }

  // A commit that leaves the records alone, and no record without a completed row.
  lemma {:induction false} CommitSettles(d: Disk, e: Disk, session: nat, i: Url)
    requires forall j | j in d.rows :: Settled(d, session, j)
    requires e.records == d.records && i in d.rows && i in e.rows && e.rows == d.rows[i := e.rows[i]]
    requires d.rows[i].status.Complete? ==> e.rows[i].status.Complete?
    ensures forall j | j in e.rows :: Settled(e, session, j)
  {
    forall j | j in e.rows ensures Settled(e, session, j) {
      assert Settled(d, session, j);
      assert HasRecord(e, session, j) ==> HasRecord(d, session, j);
    }
  }

  // A completed record: only its item has gained one.
  lemma {:induction false} RecordSettles(d: Disk, e: Disk, session: nat, i: Url, record: Record)
    requires forall j | j in d.rows :: Settled(d, session, j)
    requires e.records == d.records + [record] && record.Finalized? && record.item == i
    requires i in d.rows && i in e.rows && e.rows == d.rows[i := e.rows[i]] && e.rows[i].status.Complete?
    ensures forall j | j in e.rows :: Settled(e, session, j)
  {
    forall j | j in e.rows && HasRecord(e, session, j) ensures e.rows[j].status.Complete? {
      var k :| 0 <= k < |e.records| && Names(e.records[k], session, j);
      if j != i {
        assert Names(d.records[k], session, j);
        assert Settled(d, session, j);
      }
    }
  }

  lemma {:induction false} ChainsJoin(near: (Disk, Disk) -> bool, d: Disk, a: seq<Disk>, b: seq<Disk>)
    requires Chained(near, d, a) && Chained(near, End(d, a), b)
    ensures Chained(near, d, a + b) && End(d, a + b) == End(End(d, a), b)
  {
    var ab := a + b;
    forall k | 0 <= k < |ab| ensures near(End(d, ab[..k]), ab[k]) {
      if k < |a| {
        assert ab[..k] == a[..k];
      } else {
        assert ab[..k] == a + b[..k - |a|];
        assert b[k - |a|] == ab[k];
      }
    }
  }

  lemma {:induction false} NearnessIgnoresDisk(h: Hash, s: State, d: Disk, e: Disk, disks: seq<Disk>)
    requires Chained(Nearness(h, At(s, d)), e, disks)
    ensures Chained(Nearness(h, s), e, disks)
  {
    hide Near;
    forall k | 0 <= k < |disks| ensures Nearness(h, s)(End(e, disks[..k]), disks[k]) {
      assert Nearness(h, At(s, d))(End(e, disks[..k]), disks[k]);
      assert At(At(s, d), End(e, disks[..k])) == At(s, End(e, disks[..k]));
    }
  }

  lemma {:induction false} FollowsJoins(h: Hash, s: State, a: seq<Disk>, b: seq<Disk>)
    requires Follows(h, s, a) && Follows(h, At(s, End(s.disk, a)), b)
    ensures Follows(h, s, a + b) && End(s.disk, a + b) == End(End(s.disk, a), b)
  {
    hide Near, Chained;
    NearnessIgnoresDisk(h, s, End(s.disk, a), End(s.disk, a), b);
    ChainsJoin(Nearness(h, s), s.disk, a, b);
  }

  lemma {:induction false} FollowsNothing(h: Hash, s: State)
    ensures Follows(h, s, []) && At(s, s.disk) == s
  {
  }

  lemma {:induction false} FollowsOne(h: Hash, s: State, d: Disk)
    requires Near(h, s, d)
    ensures Follows(h, s, [d]) && End(s.disk, [d]) == d
  {
    hide Near;
    assert [d][..0] == [] && At(s, s.disk) == s;
  }

  // ------------------------------------------------------------ one item

  lemma {:induction false} PromotionRecordFollows(h: Hash, cfg: Config, s: State, i: Url, recorded: Disk)
    requires Steady(h, cfg, s) && i in s.disk.rows && s.disk.rows[i].status.Promoting?
    requires s.disk.rows[i].target.Some? && s.disk.rows[i].sha256.Some?
    requires FinalMatches(h, s.disk, s.disk.rows[i].target.value, s.disk.rows[i].sha256.value)
    requires recorded == RecoveryApply(h, s.disk, s.session, i, RecordPromotion)
    ensures Near(h, s, recorded) && Inv(h, At(s, recorded)) && recorded.files.Valid()
    ensures forall remediated :: RecoveryEnabled(h, recorded, s.session, i, CompletePromotion(remediated))
  {
    var row := s.disk.rows[i];
    EffectReaches(h, s, i, RecordPromotion);
    assert Announces(recorded.records[|s.disk.records|], s.session, i, row.stored, row.sha256.value);
  }

  lemma {:induction false} RecordFollows(h: Hash, cfg: Config, s: State, i: Url, target: Path, remediated: bool)
    requires Steady(h, cfg, s) && i in s.disk.rows && s.disk.rows[i].status.Promoting?
    requires s.disk.rows[i].target == Some(target) && s.disk.rows[i].sha256.Some?
    requires FinalMatches(h, s.disk, target, s.disk.rows[i].sha256.value)
    ensures var disks := Finish(cfg, s.disk, i, target, remediated);
            && Near(h, s, disks[0]) && Near(h, At(s, disks[0]), disks[1])
            && Steady(h, cfg, At(s, disks[1])) && disks[1].files == s.disk.files
            && i in disks[1].rows && disks[1].rows[i].status.Complete?
  {
    hide Inv, Near, RecoveryEnabled;
    var d, disks := s.disk, Finish(cfg, s.disk, i, target, remediated);
    PromotionRecordFollows(h, cfg, s, i, disks[0]);
    EffectReaches(h, At(s, disks[0]), i, CompletePromotion(remediated));
    RecordSettles(d, disks[1], s.session, i, disks[0].records[|d.records|]);
  }

  lemma {:induction false} RemovalFollows(h: Hash, cfg: Config, s: State, i: Url)
    requires Steady(h, cfg, s) && i in s.disk.rows && s.disk.rows[i].status.Complete?
    requires Staging(i) in s.disk.files.names
    ensures var gone := s.disk.(files := s.disk.files.Unlink(Staging(i)));
            var cleaned := WithRow(gone, i, s.disk.rows[i].(cleaned := true));
            && Near(h, s, gone) && Near(h, At(s, gone), cleaned) && Steady(h, cfg, At(s, cleaned))
  {
    hide Inv, Near;
    var d := s.disk;
    var gone := d.(files := d.files.Unlink(Staging(i)));
    var cleaned := WithRow(gone, i, d.rows[i].(cleaned := true));
    EffectReaches(h, s, i, RemoveStaging);
    assert gone == RecoveryApply(h, d, s.session, i, RemoveStaging);
    assert d.rows[i := d.rows[i]] == d.rows;
    CommitSettles(d, gone, s.session, i);
    EffectReaches(h, At(s, gone), i, RecordCleanup);
    assert cleaned == RecoveryApply(h, gone, s.session, i, RecordCleanup);
    CommitSettles(gone, cleaned, s.session, i);
  }

  lemma {:induction false} FollowsTwo(h: Hash, s: State, a: Disk, b: Disk)
    requires Near(h, s, a) && Near(h, At(s, a), b)
    ensures Follows(h, s, [a, b]) && End(s.disk, [a, b]) == b
  {
    hide Near;
    FollowsOne(h, s, a);
    FollowsOne(h, At(s, a), b);
    FollowsJoins(h, s, [a], [b]);
    assert [a, b] == [a] + [b];
  }

  lemma {:induction false} FinishFollows(h: Hash, cfg: Config, s: State, i: Url, target: Path, remediated: bool)
    requires Steady(h, cfg, s) && i in s.disk.rows && s.disk.rows[i].status.Promoting?
    requires s.disk.rows[i].target == Some(target) && s.disk.rows[i].sha256.Some?
    requires FinalMatches(h, s.disk, target, s.disk.rows[i].sha256.value)
    ensures Follows(h, s, Finish(cfg, s.disk, i, target, remediated))
    ensures Steady(h, cfg, At(s, End(s.disk, Finish(cfg, s.disk, i, target, remediated))))
  {
    hide Inv, Near, Chained;
    var disks := Finish(cfg, s.disk, i, target, remediated);
    RecordFollows(h, cfg, s, i, target, remediated);
    FollowsTwo(h, s, disks[0], disks[1]);
    if Staging(i) in s.disk.files.names {
      RemovalFollows(h, cfg, At(s, disks[1]), i);
      FollowsTwo(h, At(s, disks[1]), disks[2], disks[3]);
      FollowsJoins(h, s, [disks[0], disks[1]], [disks[2], disks[3]]);
    }
    FinishIs(cfg, s.disk, i, target, remediated);
  }

  lemma {:induction false} FinishIs(cfg: Config, d: Disk, i: Url, target: Path, remediated: bool)
    requires d.files.Valid() && i in d.rows && Final(target) in d.files.names && d.rows[i].sha256.Some?
    ensures var disks := Finish(cfg, d, i, target, remediated);
            if Staging(i) in d.files.names then
              |disks| == 4 && disks == [disks[0], disks[1]] + [disks[2], disks[3]]
            else disks == [disks[0], disks[1]]
  {
  }

  // A commit of one row.
  lemma {:induction false} RevisionFollows(h: Hash, cfg: Config, s: State, i: Url, r: RecoveryStep, d: Disk)
    requires Steady(h, cfg, s) && RecoveryEnabled(h, s.disk, s.session, i, r)
    requires d == RecoveryApply(h, s.disk, s.session, i, r)
    requires d.records == s.disk.records && i in d.rows && d.rows == s.disk.rows[i := d.rows[i]]
    requires s.disk.rows[i].status.Complete? ==> d.rows[i].status.Complete?
    ensures Follows(h, s, [d]) && Steady(h, cfg, At(s, d))
  {
    hide Inv, Near;
    EffectReaches(h, s, i, r);
    CommitSettles(s.disk, d, s.session, i);
    FollowsOne(h, s, d);
  }

  lemma {:induction false} ReviewFollows(h: Hash, cfg: Config, s: State, i: Url, code: Option<ReviewCode>, failure: Failure, remediated: bool)
    requires Steady(h, cfg, s) && i in s.disk.rows && s.disk.rows[i].status.Promoting?
    requires code.Some? ==> code.value.NoCode? || code.value.NameTooLong?
    ensures Follows(h, s, [Reviewed(s.disk, i, code, failure, remediated)])
    ensures Steady(h, cfg, At(s, Reviewed(s.disk, i, code, failure, remediated)))
  {
    hide Near, Inv;
    RevisionFollows(h, cfg, s, i, ReviewPromotion(code, failure, remediated),
                    Reviewed(s.disk, i, code, failure, remediated));
  }

  lemma {:induction false} RelinkFollows(h: Hash, cfg: Config, s: State, i: Url, target: Path, linked: Disk)
    requires Steady(h, cfg, s) && i in s.disk.rows && s.disk.rows[i].status.Promoting?
    requires s.disk.rows[i].target == Some(target) && s.disk.rows[i].sha256.Some?
    requires Final(target) !in s.disk.files.names && Staging(i) in s.disk.files.names
    requires linked == s.disk.(files := s.disk.files.Link(Staging(i), Final(target)))
    ensures Follows(h, s, [linked]) && Steady(h, cfg, At(s, linked))
    ensures FinalMatches(h, linked, target, s.disk.rows[i].sha256.value)
  {
    assert IntentOk(h, s.disk, i);
    assert s.disk.rows == s.disk.rows[i := s.disk.rows[i]];
    RevisionFollows(h, cfg, s, i, Relink, linked);
  }

  lemma {:induction false} ReconcileFollows(h: Hash, cfg: Config, s: State, i: Url)
    requires Steady(h, cfg, s) && i in s.disk.rows && s.disk.rows[i].status.Promoting?
    ensures Follows(h, s, ReconcileItem(h, cfg, s.disk, i))
    ensures Steady(h, cfg, At(s, End(s.disk, ReconcileItem(h, cfg, s.disk, i))))
  {
    hide Inv, Near, Chained;
    var d, row, faults := s.disk, s.disk.rows[i], cfg.faults;
    if HasTarget(d, row) && i in faults.unreadable {
      ReviewFollows(h, cfg, s, i, Some(ErrorCode(faults.unreadable[i])), faults.unreadable[i], false);
    } else if HasTarget(d, row) && h(d.files.Content(Final(row.target.value))) == row.sha256.value {
      FinishFollows(h, cfg, s, i, row.target.value, false);
    } else if CanRelink(d, i, row) {
      if i in faults.unlinkable {
        ReviewFollows(h, cfg, s, i, Some(ErrorCode(faults.unlinkable[i])), faults.unlinkable[i], false);
      } else {
        var linked := d.(files := d.files.Link(Staging(i), Final(row.target.value)));
        RelinkFollows(h, cfg, s, i, row.target.value, linked);
        FinishFollows(h, cfg, At(s, linked), i, row.target.value, false);
        FollowsJoins(h, s, [linked], Finish(cfg, linked, i, row.target.value, false));
      }
    } else {
      ReviewFollows(h, cfg, s, i, None, Note("promotion reconciliation requires review"), false);
    }
  }

  lemma {:induction false} CleanFollows(h: Hash, cfg: Config, s: State, i: Url)
    requires Steady(h, cfg, s) && i in s.disk.rows && s.disk.rows[i].status.Complete?
    ensures Follows(h, s, CleanItem(cfg, s.disk, i))
    ensures Steady(h, cfg, At(s, End(s.disk, CleanItem(cfg, s.disk, i))))
  {
    hide Near, Inv, Chained;
    FollowsNothing(h, s);
    var d := s.disk;
    var cleaned := WithRow(d, i, d.rows[i].(cleaned := true));
    if Staging(i) !in d.files.names {
      RevisionFollows(h, cfg, s, i, RecordCleanup, cleaned);
    } else if i !in cfg.faults.stuck {
      var gone := d.(files := d.files.Unlink(Staging(i)));
      RemovalFollows(h, cfg, s, i);
      FollowsTwo(h, s, gone, WithRow(gone, i, d.rows[i].(cleaned := true)));
    }
  }

  lemma {:induction false} RemediateFollows(h: Hash, cfg: Config, s: State, i: Url)
    requires Steady(h, cfg, s) && i in s.disk.rows && s.disk.rows[i].status.ReviewRequired?
    requires !s.disk.rows[i].remediated && NameTooLongReview(s.disk.rows[i])
    ensures Follows(h, s, RemediateItem(h, cfg, s.disk, i))
    ensures Steady(h, cfg, At(s, End(s.disk, RemediateItem(h, cfg, s.disk, i))))
  {
    hide Inv, Near, Chained;
    var d, row, faults := s.disk, s.disk.rows[i], cfg.faults;
    if !Remediable(h, cfg, d, i, row) {
      var failure := if i in faults.refused then faults.refused[i] else Note("staging cannot be promoted");
      RevisionFollows(h, cfg, s, i, GiveUpRemediation(failure),
                      WithRow(d, i, row.(lastError := Some(failure), remediated := true)));
    } else {
      var mapped := cfg.mapping(row.logical).value;
      var intended := Intended(d, i, mapped);
      RevisionFollows(h, cfg, s, i, IntendRemediation(mapped), intended);
      IntendedFollows(h, cfg, At(s, intended), i, mapped);
      FollowsJoins(h, s, [intended], IntendedDisks(h, cfg, intended, i, mapped));
      RemediateIs(h, cfg, d, i, mapped);
    }
  }

  function Intended(d: Disk, i: Url, mapped: Path): Disk
    requires i in d.rows
  {
    WithRow(d, i, d.rows[i].(status := Promoting, stored := mapped, target := Some(mapped), code := NameTooLong))
  }

  lemma {:induction false} RemediateIs(h: Hash, cfg: Config, d: Disk, i: Url, mapped: Path)
    requires d.files.Valid() && i in d.rows && Remediable(h, cfg, d, i, d.rows[i])
    requires cfg.mapping(d.rows[i].logical) == Some(mapped)
    ensures var intended := Intended(d, i, mapped);
            RemediateItem(h, cfg, d, i) == [intended] + IntendedDisks(h, cfg, intended, i, mapped)
  {
  }

  // What follows the remediation intent.
  function IntendedDisks(h: Hash, cfg: Config, d: Disk, i: Url, mapped: Path): seq<Disk>
    requires d.files.Valid() && i in d.rows && d.rows[i].sha256.Some? && Staging(i) in d.files.names
  {
    if Final(mapped) in d.files.names then
      [Reviewed(d, i, None, Note("mapped destination already exists"), true)]
    else if i in cfg.faults.unlinkable then
      [Reviewed(d, i, None, cfg.faults.unlinkable[i], true)]
    else
      var linked := d.(files := d.files.Link(Staging(i), Final(mapped)));
      [linked] + Finish(cfg, linked, i, mapped, true)
  }

  lemma {:induction false} IntendedFollows(h: Hash, cfg: Config, s: State, i: Url, mapped: Path)
    requires Steady(h, cfg, s) && i in s.disk.rows && s.disk.rows[i].status.Promoting?
    requires s.disk.rows[i].target == Some(mapped) && s.disk.rows[i].sha256.Some? && Staging(i) in s.disk.files.names
    ensures Follows(h, s, IntendedDisks(h, cfg, s.disk, i, mapped))
    ensures Steady(h, cfg, At(s, End(s.disk, IntendedDisks(h, cfg, s.disk, i, mapped))))
  {
    hide Inv, Near, Chained;
    if Final(mapped) in s.disk.files.names {
      ReviewFollows(h, cfg, s, i, None, Note("mapped destination already exists"), true);
    } else if i in cfg.faults.unlinkable {
      ReviewFollows(h, cfg, s, i, None, cfg.faults.unlinkable[i], true);
    } else {
      var linked := s.disk.(files := s.disk.files.Link(Staging(i), Final(mapped)));
      RelinkFollows(h, cfg, s, i, mapped, linked);
      FinishFollows(h, cfg, At(s, linked), i, mapped, true);
      FollowsJoins(h, s, [linked], Finish(cfg, linked, i, mapped, true));
    }
  }

  lemma {:induction false} ItemFollows(h: Hash, cfg: Config, s: State, pass: Pass, i: Url)
    requires Steady(h, cfg, s)
    ensures Follows(h, s, ItemDisks(h, cfg, s.disk, pass, i))
    ensures Steady(h, cfg, At(s, End(s.disk, ItemDisks(h, cfg, s.disk, pass, i))))
  {
    hide Inv, Near, Chained;
    FollowsNothing(h, s);
    if i in s.disk.rows && Wanted(cfg, s.disk, pass, i, s.disk.rows[i]) {
      match pass
      case Reconciling => ReconcileFollows(h, cfg, s, i);
      case Cleaning => CleanFollows(h, cfg, s, i);
      case Remediating => RemediateFollows(h, cfg, s, i);
    }
  }

  lemma {:induction false} SweepFollows(h: Hash, cfg: Config, s: State, pass: Pass, items: seq<Url>)
    requires Steady(h, cfg, s)
    ensures Follows(h, s, Sweep(h, cfg, s.disk, pass, items))
    ensures Steady(h, cfg, At(s, End(s.disk, Sweep(h, cfg, s.disk, pass, items))))
  {
    hide Inv, Near, Chained, ItemDisks;
    FollowsNothing(h, s);
    if items != [] {
      var front, last := items[..|items| - 1], items[|items| - 1];
      SweepFollows(h, cfg, s, pass, front);
      var a := Sweep(h, cfg, s.disk, pass, front);
      var b := ItemDisks(h, cfg, End(s.disk, a), pass, last);
      ItemFollows(h, cfg, At(s, End(s.disk, a)), pass, last);
      FollowsJoins(h, s, a, b);
    }
  }

  // ------------------------------------------------------------ the selection

  // The row and the run items inserted so far are one commit.
  lemma {:induction false} CommitFollows(h: Hash, cfg: Config, s: State, i: Url, r: RecoveryStep, row: Row, chosen: seq<Url>)
    requires s.disk.files.Valid() && Inv(h, s) && s.phase == Starting(cfg.run) && s.session == cfg.session
    requires RecoveryEnabled(h, s.disk, s.session, i, r)
    requires RecoveryApply(h, s.disk, s.session, i, r) == WithRow(s.disk, i, row)
    requires Scoped(cfg, s.disk) <= Members(chosen) <= s.disk.rows.Keys
    ensures Near(h, s, WithItems(cfg, s.disk, i, row, chosen)) && Inv(h, At(s, WithItems(cfg, s.disk, i, row, chosen)))
  {
    hide Inv, RecoveryEnabled;
    var mid := WithRow(s.disk, i, row);
    EffectReaches(h, s, i, r);
    var d := WithItems(cfg, s.disk, i, row, chosen);
    StepKeeps(h, At(s, mid), Promotion.Step.Scope(Members(chosen)));
    assert Reaches(h, s, mid, Recover(i, r));
    assert Reaches(h, At(s, mid), d, Promotion.Step.Scope(Members(chosen)));
  }

  // The states in which the selection works.
  ghost predicate Choosing(h: Hash, cfg: Config, s: State, chosen: seq<Url>) {
    && Steady(h, cfg, s) && NothingPromoting(s.disk)
    && Scoped(cfg, s.disk) <= Members(chosen) <= s.disk.rows.Keys
  }

  lemma {:induction false} PlainExistingFollows(h: Hash, cfg: Config, s: State, i: Url, r: RecoveryStep, row: Row, chosen: seq<Url>)
    requires Choosing(h, cfg, s, chosen) && RecoveryEnabled(h, s.disk, s.session, i, r)
    requires RecoveryApply(h, s.disk, s.session, i, r) == WithRow(s.disk, i, row)
    requires !row.status.Promoting? && !s.disk.rows[i].status.Complete?
    ensures Near(h, s, WithItems(cfg, s.disk, i, row, chosen))
    ensures Choosing(h, cfg, At(s, WithItems(cfg, s.disk, i, row, chosen)), chosen)
  {
    hide Inv, Near;
    CommitFollows(h, cfg, s, i, r, row, chosen);
    CommitSettles(s.disk, WithItems(cfg, s.disk, i, row, chosen), s.session, i);
  }

  lemma {:induction false} VerifiedRecordFollows(h: Hash, cfg: Config, s: State, i: Url, recorded: Disk)
    requires Steady(h, cfg, s) && i in s.disk.rows && !Tracked(s.disk.rows[i].status)
    requires !s.disk.rows[i].status.Promoting? && s.disk.rows[i].expected.Some?
    requires FinalMatches(h, s.disk, s.disk.rows[i].stored, s.disk.rows[i].expected.value)
    requires recorded == RecoveryApply(h, s.disk, s.session, i, RecordExisting)
    ensures Near(h, s, recorded) && Inv(h, At(s, recorded)) && recorded.files.Valid()
    ensures RecoveryEnabled(h, recorded, s.session, i, CompleteExisting)
  {
    var row := s.disk.rows[i];
    EffectReaches(h, s, i, RecordExisting);
    assert Announces(recorded.records[|s.disk.records|], s.session, i, row.stored, row.expected.value);
  }

  lemma {:induction false} VerifiedExistingFollows(h: Hash, cfg: Config, s: State, i: Url, chosen: seq<Url>)
    requires Choosing(h, cfg, s, chosen) && i in s.disk.rows && !Tracked(s.disk.rows[i].status)
    requires s.disk.rows[i].expected.Some?
    requires FinalMatches(h, s.disk, s.disk.rows[i].stored, s.disk.rows[i].expected.value)
    requires i !in cfg.faults.unreadable
    ensures var disks := ExistingItem(h, cfg, s.disk, i, chosen);
            && |disks| == 2 && Near(h, s, disks[0]) && Near(h, At(s, disks[0]), disks[1])
            && Choosing(h, cfg, At(s, disks[1]), chosen)
  {
    hide Near, Inv, RecoveryEnabled;
    var d, row := s.disk, s.disk.rows[i];
    var disks := ExistingItem(h, cfg, d, i, chosen);
    VerifiedRecordFollows(h, cfg, s, i, disks[0]);
    var done := row.(status := Complete, sha256 := row.expected, bytes := Some(|d.files.Content(Final(row.stored))|));
    CommitFollows(h, cfg, At(s, disks[0]), i, CompleteExisting, done, chosen);
    RecordSettles(d, disks[1], s.session, i, disks[0].records[|d.records|]);
  }

  lemma {:induction false} ExistingFollows(h: Hash, cfg: Config, s: State, i: Url, chosen: seq<Url>)
    requires Choosing(h, cfg, s, chosen) && i in s.disk.rows && !Tracked(s.disk.rows[i].status)
    requires Final(s.disk.rows[i].stored) in s.disk.files.names
    ensures Follows(h, s, ExistingItem(h, cfg, s.disk, i, chosen))
    ensures Choosing(h, cfg, At(s, End(s.disk, ExistingItem(h, cfg, s.disk, i, chosen))), chosen)
  {
    hide Inv, Near, Chained;
    var d, row, faults := s.disk, s.disk.rows[i], cfg.faults;
    var disks := ExistingItem(h, cfg, d, i, chosen);
    if row.expected.Some? && i !in faults.unreadable && FinalMatches(h, d, row.stored, row.expected.value) {
      VerifiedExistingFollows(h, cfg, s, i, chosen);
      FollowsTwo(h, s, disks[0], disks[1]);
      assert disks == [disks[0], disks[1]];
    } else {
      var r := if row.expected.None? then AcceptUnverified
               else if i in faults.unreadable then ReviewUnreadable(faults.unreadable[i]) else ReviewMismatch;
      PlainExistingFollows(h, cfg, s, i, r, disks[0].rows[i], chosen);
      FollowsOne(h, s, disks[0]);
      assert disks == [disks[0]];
    }
  }

  lemma {:induction false} EntryFollows(h: Hash, cfg: Config, s: State, chosen: seq<Url>, i: Url)
    requires Choosing(h, cfg, s, chosen)
    ensures var disks, items := NewDisks(h, cfg, s.disk, chosen, i), NewItems(cfg, s.disk, chosen, i);
            Follows(h, s, disks) && Choosing(h, cfg, At(s, End(s.disk, disks)), chosen + items)
  {
    hide Near, Inv;
    if NewDisks(h, cfg, s.disk, chosen, i) != [] {
      ExistingFollows(h, cfg, s, i, chosen);
    }
  }

  lemma {:induction false} EntryJoins(h: Hash, cfg: Config, s: State, n: nat) returns (a: seq<Disk>, b: seq<Disk>)
    requires 0 < n <= |cfg.queue| && s.disk.files.Valid()
    requires var before := ChooseItems(h, cfg, s.disk, n - 1); Choosing(h, cfg, At(s, End(s.disk, before.disks)), before.chosen)
    ensures a == ChooseItems(h, cfg, s.disk, n - 1).disks && ChooseItems(h, cfg, s.disk, n).disks == a + b
    ensures Follows(h, At(s, End(s.disk, a)), b)
    ensures Choosing(h, cfg, At(s, End(End(s.disk, a), b)), ChooseItems(h, cfg, s.disk, n).chosen)
  {
    hide Near, Inv, Chained;
    var before, i := ChooseItems(h, cfg, s.disk, n - 1), cfg.queue[n - 1];
    a := before.disks;
    var e := End(s.disk, a);
    b := NewDisks(h, cfg, e, before.chosen, i);
    EntryFollows(h, cfg, At(s, e), before.chosen, i);
  }

  ghost predicate Selects(h: Hash, cfg: Config, s: State, selection: Selection) {
    Follows(h, s, selection.disks) && Choosing(h, cfg, At(s, End(s.disk, selection.disks)), selection.chosen)
  }

  lemma {:induction false} EntrySelects(h: Hash, cfg: Config, s: State, n: nat)
    requires 0 < n <= |cfg.queue| && s.disk.files.Valid() && Selects(h, cfg, s, ChooseItems(h, cfg, s.disk, n - 1))
    ensures Selects(h, cfg, s, ChooseItems(h, cfg, s.disk, n))
  {
    hide Near, Inv, Chained;
    var a, b := EntryJoins(h, cfg, s, n);
    FollowsJoins(h, s, a, b);
  }

  ghost predicate SelectsFirst(h: Hash, cfg: Config, s: State, k: nat) {
    s.disk.files.Valid() && k <= |cfg.queue| && Selects(h, cfg, s, ChooseItems(h, cfg, s.disk, k))
  }

  lemma {:induction false} NothingSelects(h: Hash, cfg: Config, s: State)
    requires Choosing(h, cfg, s, [])
    ensures SelectsFirst(h, cfg, s, 0)
  {
    hide Near, Inv;
    assert ChooseItems(h, cfg, s.disk, 0) == Selection([], []);
  }

  lemma {:induction false} NextSelects(h: Hash, cfg: Config, s: State, k: nat)
    requires k < |cfg.queue| && SelectsFirst(h, cfg, s, k)
    ensures SelectsFirst(h, cfg, s, k + 1)
  {
    EntrySelects(h, cfg, s, k + 1);
  }

  lemma {:induction false} Induction(p: nat -> bool, n: nat)
    requires p(0) && forall k: nat | k < n && p(k) :: p(k + 1)
    ensures p(n)
  {
    if n > 0 {
      Induction(p, n - 1);
    }
  }

  lemma {:induction false} ChooseFollows(h: Hash, cfg: Config, s: State)
    requires Choosing(h, cfg, s, [])
    ensures SelectsFirst(h, cfg, s, |cfg.queue|)
  {
    hide Near, Inv, SelectsFirst;
    var p := (k: nat) => k <= |cfg.queue| ==> SelectsFirst(h, cfg, s, k);
    NothingSelects(h, cfg, s);
    forall k: nat | k < |cfg.queue| && p(k) ensures p(k + 1) {
      NextSelects(h, cfg, s, k);
    }
    Induction(p, |cfg.queue|);
  }

  lemma {:induction false} SelectionFollows(h: Hash, cfg: Config, s: State, chosen: seq<Url>)
    requires Choosing(h, cfg, s, chosen)
    ensures var d := s.disk.(runs := s.disk.runs[cfg.run := Members(chosen)]);
            Near(h, s, d) && Steady(h, cfg, At(s, d))
  {
    var d := s.disk.(runs := s.disk.runs[cfg.run := Members(chosen)]);
    StepKeeps(h, s, Promotion.Step.Scope(Members(chosen)));
    assert Reaches(h, s, d, Promotion.Step.Scope(Members(chosen)));
    SettledKeeps(s.disk, d, s.session);
  }

  lemma {:induction false} SettledKeeps(d: Disk, e: Disk, session: nat)
    requires forall j | j in d.rows :: Settled(d, session, j)
    requires e.records == d.records && e.rows.Keys == d.rows.Keys
    requires forall j | j in d.rows && d.rows[j].status.Complete? :: e.rows[j].status.Complete?
    ensures forall j | j in e.rows :: Settled(e, session, j)
  {
    forall j | j in e.rows ensures Settled(e, session, j) {
      assert Settled(d, session, j);
      assert HasRecord(e, session, j) ==> HasRecord(d, session, j);
    }
  }

  lemma {:induction false} ScopeFollows(h: Hash, cfg: Config, s: State)
    requires Steady(h, cfg, s) && NothingPromoting(s.disk)
    ensures Follows(h, s, ScopeDisks(h, cfg, s.disk))
    ensures Steady(h, cfg, At(s, End(s.disk, ScopeDisks(h, cfg, s.disk))))
  {
    hide Near, Inv, Chained;
    FollowsNothing(h, s);
    if Scoped(cfg, s.disk) == {} {
      var selection := ChooseItems(h, cfg, s.disk, |cfg.queue|);
      var e := End(s.disk, selection.disks);
      ChooseFollows(h, cfg, s);
      SelectionFollows(h, cfg, At(s, e), selection.chosen);
      var f := e.(runs := e.runs[cfg.run := Members(selection.chosen)]);
      FollowsOne(h, At(s, e), f);
      FollowsJoins(h, s, selection.disks, [f]);
    }
  }

  // ------------------------------------------------------------ the whole start

  lemma {:induction false} RequeueFollows(h: Hash, cfg: Config, s: State)
    requires Steady(h, cfg, s)
    ensures Near(h, s, Requeued(cfg, s.disk)) && Steady(h, cfg, At(s, Requeued(cfg, s.disk)))
  {
    StepKeeps(h, s, Requeue);
    assert Reaches(h, s, Requeued(cfg, s.disk), Requeue);
    SettledKeeps(s.disk, Requeued(cfg, s.disk), s.session);
  }

  lemma {:induction false} RepairFollows(h: Hash, cfg: Config, s: State)
    requires Steady(h, cfg, s)
    ensures Follows(h, s, RepairDisks(h, cfg, s.disk))
    ensures Steady(h, cfg, At(s, End(s.disk, RepairDisks(h, cfg, s.disk))))
  {
    hide Near, Inv, Chained;
    var a := Sweep(h, cfg, s.disk, Cleaning, cfg.order);
    var e := End(s.disk, a);
    SweepFollows(h, cfg, s, Cleaning, cfg.order);
    SweepFollows(h, cfg, At(s, e), Remediating, cfg.order);
    FollowsJoins(h, s, a, Sweep(h, cfg, e, Remediating, cfg.order));
    RepairIs(h, cfg, s.disk, a, e, Sweep(h, cfg, e, Remediating, cfg.order));
  }

  lemma {:induction false} StartIs(h: Hash, cfg: Config, d: Disk, a: seq<Disk>, b: seq<Disk>, c: seq<Disk>, e: Disk, f: Disk, g: Disk)
    requires d.files.Valid() && a == ReconcileDisks(h, cfg, d) && e == End(d, a)
    requires b == ScopeDisks(h, cfg, e) && f == End(e, b)
    requires f.files.Valid() && c == RepairDisks(h, cfg, f) && g == End(f, c)
    ensures StartDisks(h, cfg, d) == a + b + c + [Requeued(cfg, g)]
  {
  }

  // A whole start, whatever fails on the way, is a run of the promotion protocol.
  lemma {:induction false} StartFollows(h: Hash, cfg: Config, s: State)
    requires Steady(h, cfg, s) && Members(cfg.order) == s.disk.rows.Keys
    ensures Follows(h, s, StartDisks(h, cfg, s.disk))
    ensures Steady(h, cfg, At(s, AfterStart(h, cfg, s.disk)))
  {
    hide Near, Inv, Chained;
    var d := s.disk;
    var a := ReconcileDisks(h, cfg, d);
    var e := End(d, a);
    SweepFollows(h, cfg, s, Reconciling, cfg.order);
    SweepSettles(h, cfg, d, Reconciling, cfg.order);
    var b := ScopeDisks(h, cfg, e);
    var f := End(e, b);
    ScopeFollows(h, cfg, At(s, e));
    FollowsJoins(h, s, a, b);
    var c := RepairDisks(h, cfg, f);
    var g := End(f, c);
    RepairFollows(h, cfg, At(s, f));
    FollowsJoins(h, s, a + b, c);
    RequeueFollows(h, cfg, At(s, g));
    FollowsOne(h, At(s, g), Requeued(cfg, g));
    FollowsJoins(h, s, a + b + c, [Requeued(cfg, g)]);
    StartIs(h, cfg, d, a, b, c, e, f, g);
  }

  lemma {:induction false} ReachKeepsInv(h: Hash, s: State, d: Disk, step: Step)
    requires Inv(h, s) && Reaches(h, s, d, step)
    ensures Inv(h, At(s, d))
  {
    StepKeeps(h, s, step);
  }

  lemma {:induction false} NearKeepsInv(h: Hash, s: State, d: Disk)
    requires Inv(h, s) && Near(h, s, d)
    ensures Inv(h, At(s, d))
  {
    hide Inv, Enabled, Apply;
    if step :| Reaches(h, s, d, step) {
      ReachKeepsInv(h, s, d, step);
    } else if s.disk == d {
      assert At(s, d) == s;
    } else {
      var mid: Disk, a, b :| Reaches(h, s, mid, a) && Reaches(h, At(s, mid), d, b);
      ReachKeepsInv(h, s, mid, a);
      ReachKeepsInv(h, At(s, mid), d, b);
    }
  }

  lemma {:induction false} FollowsKeepsInv(h: Hash, s: State, disks: seq<Disk>, k: nat)
    requires Inv(h, s) && Follows(h, s, disks) && k <= |disks|
    ensures Inv(h, At(s, End(s.disk, disks[..k])))
  {
    hide Near, Inv, Chained;
    if k == 0 {
      assert At(s, s.disk) == s;
    } else {
      FollowsKeepsInv(h, s, disks, k - 1);
      LastIsNear(h, s, disks, k);
      NearKeepsInv(h, At(s, End(s.disk, disks[..k - 1])), disks[k - 1]);
    }
  }

  lemma {:induction false} LastIsNear(h: Hash, s: State, disks: seq<Disk>, k: nat)
    requires Follows(h, s, disks) && 0 < k <= |disks|
    ensures Near(h, At(s, End(s.disk, disks[..k - 1])), disks[k - 1])
    ensures End(s.disk, disks[..k]) == disks[k - 1]
  {
    hide Near;
    assert Nearness(h, s)(End(s.disk, disks[..k - 1]), disks[k - 1]);
  }

  // A crash at any effect of a start leaves the invariant of the protocol, and with it one
  // finalized record at most for an item in a session.
  lemma {:induction false} CrashedStartIsSafe(h: Hash, cfg: Config, s: State, k: nat)
    requires Steady(h, cfg, s) && Members(cfg.order) == s.disk.rows.Keys
    requires k <= |StartDisks(h, cfg, s.disk)|
    ensures var d := End(s.disk, StartDisks(h, cfg, s.disk)[..k]);
            Inv(h, At(s, d)) && OnceEach(At(s, d))
  {
    hide Near, StartDisks, Chained;
    StartFollows(h, cfg, s);
    FollowsKeepsInv(h, s, StartDisks(h, cfg, s.disk), k);
  }

  // ------------------------------------------------------------ what a crash leaves

  // A recorded cleanup is the last thing that happens to an item.
  predicate CleanedOk(s: State, i: Url)
    requires i in s.disk.rows
  {
    s.disk.rows[i].cleaned ==> s.disk.rows[i].status.Complete? && Staging(i) !in s.disk.files.names && i !in s.tasks
  }

  lemma {:induction false} TaskKeepsCleaned(h: Hash, s: State, i: Url, t: TaskStep)
    requires ItemInv(h, s, i) && TaskEnabled(s, i, t) && CleanedOk(s, i)
    ensures i in TaskApply(h, s, i, t).disk.rows && CleanedOk(TaskApply(h, s, i, t), i)
  {
    match t
    case Admission(a) => assert i in s.disk.rows;
    case Engine(e) => assert i in s.disk.rows;
    case Judge(k) => assert i in s.disk.rows;
    case Promote(p) => assert i in s.disk.rows;
    case Move(m) => assert i in s.disk.rows;
    case Recheck(r) => assert i in s.disk.rows;
  }

  lemma {:induction false} TaskSparesOther(h: Hash, s: State, i: Url, t: TaskStep, j: Url)
    requires ItemInv(h, s, i) && TaskEnabled(s, i, t) && j in s.disk.rows && j != i
    ensures var s' := TaskApply(h, s, i, t);
            j in s'.disk.rows && s'.disk.rows[j] == s.disk.rows[j] && (j in s'.tasks <==> j in s.tasks)
  {
    match t
    case Admission(a) => assert j in s.disk.rows;
    case Engine(e) => assert j in s.disk.rows;
    case Judge(k) => assert j in s.disk.rows;
    case Promote(p) => assert j in s.disk.rows;
    case Move(m) => assert j in s.disk.rows;
    case Recheck(r) => assert j in s.disk.rows;
  }

  lemma {:induction false} TaskSparesOtherStaging(h: Hash, s: State, i: Url, t: TaskStep, j: Url)
    requires ItemInv(h, s, i) && TaskEnabled(s, i, t) && j != i
    ensures Staging(j) in TaskApply(h, s, i, t).disk.files.names <==> Staging(j) in s.disk.files.names
  {
    match t
    case Admission(a) => assert j != i;
    case Engine(e) => assert j != i;
    case Judge(k) => assert j != i;
    case Promote(p) => assert j != i;
    case Move(m) => assert j != i;
    case Recheck(r) => assert j != i;
  }

  lemma {:induction false} RecoveryKeepsCleaned(h: Hash, s: State, i: Url, r: RecoveryStep, j: Url)
    requires s.disk.files.Valid() && RecoveryEnabled(h, s.disk, s.session, i, r) && s.tasks == map[]
    requires i in s.disk.rows && CleanedOk(s, i) && j in s.disk.rows && CleanedOk(s, j)
    ensures var s' := At(s, RecoveryApply(h, s.disk, s.session, i, r)); j in s'.disk.rows && CleanedOk(s', j)
  {
  }

  lemma {:induction false} RevisionKeepsCleaned(action: ItemAction, row: Row)
    requires row.cleaned ==> row.status.Complete?
    ensures Eligible(action, row) ==> !Revise(action, row).cleaned
  {
  }

  lemma {:induction false} StepKeepsCleaned(h: Hash, s: State, step: Step)
    requires Inv(h, s) && Enabled(h, s, step) && forall i | i in s.disk.rows :: CleanedOk(s, i)
    ensures forall i | i in Apply(h, s, step).disk.rows :: CleanedOk(Apply(h, s, step), i)
  {
    var s' := Apply(h, s, step);
    forall j | j in s'.disk.rows ensures CleanedOk(s', j) {
      match step
      case Task(i, t) =>
        assert ItemInv(h, s, i);
        TaskKeepsCleaned(h, s, i, t);
        if j in s.disk.rows && j != i {
          TaskSparesOther(h, s, i, t, j);
          TaskSparesOtherStaging(h, s, i, t, j);
        }
      case Recover(i, r) => RecoveryKeepsCleaned(h, s, i, r, if j in s.disk.rows then j else i);
      case Operate(action, items) => RevisionKeepsCleaned(action, s.disk.rows[j]);
      case _ =>
    }
  }

  ghost predicate AllCleanedOk(s: State) {
    forall i | i in s.disk.rows :: CleanedOk(s, i)
  }

  lemma {:induction false} RunKeepsCleaned(h: Hash, trace: seq<State>, steps: seq<Step>, k: nat)
    requires RunFromFresh(h, trace, steps) && k < |steps| && AllCleanedOk(trace[k])
    ensures AllCleanedOk(trace[k + 1])
  {
    hide Enabled, Apply, Inv;
    RunStep(h, trace, steps, k);
    StepKeepsCleaned(h, trace[k], steps[k]);
  }

  lemma {:induction false} ReachableCleaned(h: Hash, trace: seq<State>, steps: seq<Step>, k: nat)
    requires RunFromFresh(h, trace, steps) && k < |trace|
    ensures AllCleanedOk(trace[k])
  {
    hide Enabled, Apply, Inv;
    if k > 0 {
      ReachableCleaned(h, trace, steps, k - 1);
      RunKeepsCleaned(h, trace, steps, k - 1);
    }
  }

  // In every run, a promotion intent whose staged file is still there and whose target is free
  // is promotable.
  lemma {:induction false} IntentIsPromotable(h: Hash, trace: seq<State>, steps: seq<Step>, k: nat, i: Url, p: Path)
    requires RunFromFresh(h, trace, steps) && k < |trace|
    requires i in trace[k].disk.rows && trace[k].disk.rows[i].target == Some(p)
    requires trace[k].disk.rows[i].status.Promoting?
    requires Staging(i) in trace[k].disk.files.names && Final(p) !in trace[k].disk.files.names
    ensures trace[k].disk.rows[i].sha256.Some?
    ensures Promotable(h, trace[k].disk, i, p, trace[k].disk.rows[i].sha256.value)
  {
    hide Enabled, Apply, Inv;
    ReachableInv(h, trace, steps, k);
    ReachableCleaned(h, trace, steps, k);
    IntentPromotes(h, trace[k], i, p);
  }

  lemma {:induction false} IntentPromotes(h: Hash, s: State, i: Url, p: Path)
    requires Inv(h, s) && AllCleanedOk(s) && i in s.disk.rows && s.disk.rows[i].target == Some(p)
    requires s.disk.rows[i].status.Promoting?
    requires Staging(i) in s.disk.files.names && Final(p) !in s.disk.files.names
    ensures s.disk.rows[i].sha256.Some?
    ensures Promotable(h, s.disk, i, p, s.disk.rows[i].sha256.value)
  {
    assert IntentOk(h, s.disk, i) && CleanedOk(s, i);
  }
}
