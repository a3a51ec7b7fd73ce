/** Admission: which item may start next, and how often an item starts. */
module Scheduler {
  import opened Prelude
  import opened Database
  import opened FileSystem
  import opened Promotion
  import opened PromotionSafety
  import opened PromotionSteps
  import opened PromotionTheorems
  import Strings
  import Urls

  // ------------------------------------------------------------ LIKE with an escape character

  function Fold(c: char): char {
    Urls.Lower(c)
  }

  // SQLite's LIKE ... ESCAPE '\': `%` is any text, `_` any character, letters match up to ASCII case.
  predicate Like(pattern: string, text: string)
    decreases |pattern| + |text|
  {
    if pattern == "" then text == ""
    else if pattern[0] == '\\' then
      |pattern| > 1 && text != "" && Fold(pattern[1]) == Fold(text[0]) && Like(pattern[2..], text[1..])
    else if pattern[0] == '%' then
      Like(pattern[1..], text) || (text != "" && Like(pattern, text[1..]))
    else text != "" && (pattern[0] == '_' || Fold(pattern[0]) == Fold(text[0])) && Like(pattern[1..], text[1..])
  }

  // The three replacements, in their order.
  function Escaped(prefix: string): string {
    if prefix == "" then ""
    else (if prefix[0] in "\\%_" then ['\\', prefix[0]] else [prefix[0]]) + Escaped(prefix[1..])
  }

  predicate StartsWithFolded(text: string, prefix: string) {
    |prefix| <= |text| && forall k | 0 <= k < |prefix| :: Fold(text[k]) == Fold(prefix[k])
  }

  lemma {:induction false} PercentMatchesAll(text: string)
    ensures Like("%", text)
    decreases |text|
  {
    if text != "" {
      PercentMatchesAll(text[1..]);
    }
  }

  // The escaped pattern matches exactly the URLs with the prefix, up to ASCII case.
  lemma {:induction false} LikeIsPrefix(prefix: string, text: string)
    ensures Like(Escaped(prefix) + "%", text) <==> StartsWithFolded(text, prefix)
    decreases |prefix|
  {
    if prefix == "" {
      PercentMatchesAll(text);
      assert "" + "%" == "%";
    } else {
      hide Like, Escaped, StartsWithFolded;
      EscapedStep(prefix, text);
      if text == "" {
        EmptyHasNoPrefix(prefix);
      } else {
        LikeIsPrefix(prefix[1..], text[1..]);
        FoldedTail(text, prefix);
      }
    }
  }

  lemma {:induction false} LikeEscape(pattern: string, text: string)
    requires |pattern| > 1 && pattern[0] == '\\'
    ensures Like(pattern, text) <==> text != "" && Fold(pattern[1]) == Fold(text[0]) && Like(pattern[2..], text[1..])
  {
    hide Fold;
  }

  lemma {:induction false} LikeLetter(pattern: string, text: string)
    requires pattern != "" && pattern[0] !in "\\%_"
    ensures Like(pattern, text) <==> text != "" && Fold(pattern[0]) == Fold(text[0]) && Like(pattern[1..], text[1..])
  {
    hide Fold;
    assert pattern[0] != '\\' && pattern[0] != '%' && pattern[0] != '_' by {
      assert "\\%_"[0] == '\\' && "\\%_"[1] == '%' && "\\%_"[2] == '_';
    }
  }

  // One escaped character matches that character, in either case.
  lemma {:induction false} EscapedStep(prefix: string, text: string)
    requires prefix != ""
    ensures Like(Escaped(prefix) + "%", text)
            <==> text != "" && Fold(text[0]) == Fold(prefix[0]) && Like(Escaped(prefix[1..]) + "%", text[1..])
  {
    hide Like, Fold;
    var pattern := Escaped(prefix) + "%";
    if prefix[0] in "\\%_" {
      assert pattern[2..] == Escaped(prefix[1..]) + "%";
      LikeEscape(pattern, text);
    } else {
      assert pattern[1..] == Escaped(prefix[1..]) + "%";
      LikeLetter(pattern, text);
    }
  }

  lemma {:induction false} EmptyHasNoPrefix(prefix: string)
    requires prefix != ""
    ensures !StartsWithFolded("", prefix)
  {
  }

  lemma {:induction false} FoldedTail(text: string, prefix: string)
    requires text != "" && prefix != ""
    ensures StartsWithFolded(text, prefix) <==> Fold(text[0]) == Fold(prefix[0]) && StartsWithFolded(text[1..], prefix[1..])
  {
    if Fold(text[0]) == Fold(prefix[0]) && StartsWithFolded(text[1..], prefix[1..]) {
      forall k | 0 <= k < |prefix| ensures Fold(text[k]) == Fold(prefix[k]) {
        if k > 0 {
          assert text[1..][k - 1] == text[k] && prefix[1..][k - 1] == prefix[k];
        }
      }
    }
    if StartsWithFolded(text, prefix) {
      forall k | 0 <= k < |prefix[1..]| ensures Fold(text[1..][k]) == Fold(prefix[1..][k]) {
        assert text[1..][k] == text[k + 1] && prefix[1..][k] == prefix[k + 1];
      }
    }
  }

  // ------------------------------------------------------------ next_pending

  function Origin(url: Url): string {
    var parts := Urls.UrlSplit(url);
    parts.scheme + "://" + parts.netloc + "/"
  }

  predicate Denies(row: Row) {
    row.status.ReviewRequired? && row.code.AccessDenied?
  }

  // The scope clause drops every URL below the origin of a denied item.
  predicate InScope(rows: map<Url, Row>, selected: seq<Url>, url: Url) {
    forall j | j in selected && j in rows && Denies(rows[j]) :: !Like(Escaped(Origin(j)) + "%", url)
  }

  predicate Startable(rows: map<Url, Row>, selected: seq<Url>, maxAttempts: nat, now: real, i: Url) {
    && i in rows && Pending(rows[i].status) && (maxAttempts == 0 || rows[i].attempts < maxAttempts)
    && rows[i].nextRetryAt <= now && InScope(rows, selected, i)
  }

  // The first startable item in rank order.
  function NextPending(rows: map<Url, Row>, selected: seq<Url>, maxAttempts: nat, now: real, from: nat): (next: Option<Url>)
    requires from <= |selected|
    decreases |selected| - from
  {
    if from == |selected| then None
    else if Startable(rows, selected, maxAttempts, now, selected[from]) then Some(selected[from])
    else NextPending(rows, selected, maxAttempts, now, from + 1)
  }

  // What is admitted is selected, pending, due, below the ceiling, and not below a denied origin,
  // and no item before it in the queue was startable.
  lemma {:induction false} NextPendingIs(rows: map<Url, Row>, selected: seq<Url>, maxAttempts: nat, now: real, from: nat)
    requires from <= |selected|
    ensures var next := NextPending(rows, selected, maxAttempts, now, from);
            if next.None? then forall k | from <= k < |selected| :: !Startable(rows, selected, maxAttempts, now, selected[k])
            else exists k :: from <= k < |selected| && selected[k] == next.value
                             && Startable(rows, selected, maxAttempts, now, selected[k])
                             && forall n | from <= n < k :: !Startable(rows, selected, maxAttempts, now, selected[n])
    decreases |selected| - from
  {
    hide Startable;
    if from < |selected| && !Startable(rows, selected, maxAttempts, now, selected[from]) {
      NextPendingIs(rows, selected, maxAttempts, now, from + 1);
    }
  }

  lemma {:induction false} AdmittedOriginIsNotDenied(rows: map<Url, Row>, selected: seq<Url>, maxAttempts: nat, now: real, j: Url)
    requires NextPending(rows, selected, maxAttempts, now, 0).Some?
    requires j in selected && j in rows && Denies(rows[j])
    ensures !StartsWithFolded(NextPending(rows, selected, maxAttempts, now, 0).value, Origin(j))
  {
    hide Like, Escaped, Origin;
    NextPendingIs(rows, selected, maxAttempts, now, 0);
    LikeIsPrefix(Origin(j), NextPending(rows, selected, maxAttempts, now, 0).value);
  }

  // ------------------------------------------------------------ the query, column by column

  // Equal up to the case of ASCII letters.
  predicate SameLetter(a: char, b: char) {
    a == b || ('A' <= a <= 'Z' && b as int == a as int + 32) || ('A' <= b <= 'Z' && a as int == b as int + 32)
  }

  predicate Begins(text: string, prefix: string) {
    |prefix| <= |text| && forall k | 0 <= k < |prefix| :: SameLetter(text[k], prefix[k])
  }

  // A selected row waits for the operator after a denial, and its scheme and authority begin the URL.
  ghost predicate Blocked(rows: map<Url, Row>, selected: seq<Url>, url: Url) {
    exists j :: j in selected && j in rows && rows[j].status.ReviewRequired? && rows[j].code.AccessDenied?
                && var parts := Urls.UrlSplit(j); Begins(url, parts.scheme + "://" + parts.netloc + "/")
  }

  ghost predicate MayStart(rows: map<Url, Row>, selected: seq<Url>, maxAttempts: nat, now: real, i: Url) {
    && i in rows && (rows[i].status.Queued? || rows[i].status.RetryWait? || rows[i].status.Failed?)
    && (maxAttempts == 0 || rows[i].attempts < maxAttempts) && rows[i].nextRetryAt <= now
    && !Blocked(rows, selected, i)
  }

  lemma {:induction false} FoldIsSameLetter(a: char, b: char)
    ensures Fold(a) == Fold(b) <==> SameLetter(a, b)
  {
  }

  lemma {:induction false} FoldedBegins(text: string, prefix: string)
    ensures StartsWithFolded(text, prefix) <==> Begins(text, prefix)
  {
    hide Fold, SameLetter;
    forall k | 0 <= k < |prefix| && |prefix| <= |text| ensures Fold(text[k]) == Fold(prefix[k]) <==> SameLetter(text[k], prefix[k]) {
      FoldIsSameLetter(text[k], prefix[k]);
    }
  }

  lemma {:induction false} StartableIs(rows: map<Url, Row>, selected: seq<Url>, maxAttempts: nat, now: real, i: Url)
    ensures Startable(rows, selected, maxAttempts, now, i) <==> MayStart(rows, selected, maxAttempts, now, i)
  {
    hide Like, Escaped, Begins, StartsWithFolded;
    forall j | j in selected && j in rows && Denies(rows[j])
      ensures Like(Escaped(Origin(j)) + "%", i) <==> Begins(i, Origin(j))
    {
      LikeIsPrefix(Origin(j), i);
      FoldedBegins(i, Origin(j));
    }
  }

  // next_pending: the first selected row that is queued or waits for a retry, is below the ceiling,
  // due and not blocked; none exactly when there is no such row.
  lemma {:induction false} NextPendingAnswers(rows: map<Url, Row>, selected: seq<Url>, maxAttempts: nat, now: real)
    ensures var next := NextPending(rows, selected, maxAttempts, now, 0);
            && (next.None? <==> forall k | 0 <= k < |selected| :: !MayStart(rows, selected, maxAttempts, now, selected[k]))
            && (next.Some? ==> IsFirst(rows, selected, maxAttempts, now, next.value))
  {
    hide MayStart, Startable, NextPending;
    NextPendingIs(rows, selected, maxAttempts, now, 0);
    forall k | 0 <= k < |selected|
      ensures Startable(rows, selected, maxAttempts, now, selected[k]) <==> MayStart(rows, selected, maxAttempts, now, selected[k])
    {
      StartableIs(rows, selected, maxAttempts, now, selected[k]);
    }
  }

  ghost predicate IsFirst(rows: map<Url, Row>, selected: seq<Url>, maxAttempts: nat, now: real, i: Url) {
    exists r :: 0 <= r < |selected| && selected[r] == i && MayStart(rows, selected, maxAttempts, now, i)
                && forall n | 0 <= n < r :: !MayStart(rows, selected, maxAttempts, now, selected[n])
  }

  // The scheme and the authority of a URL: what stands before and behind the colon and two slashes,
  // up to the first slash, question mark or number sign.
  lemma {:induction false} OriginIs(scheme: string, authority: string, tail: string)
    requires |scheme| > 0 && forall k | 0 <= k < |scheme| :: 'a' <= scheme[k] <= 'z'
    requires forall x | x in authority :: x != '/' && x != '?' && x != '#'
    requires tail == "" || tail[0] == '/' || tail[0] == '?' || tail[0] == '#'
    ensures var parts := Urls.UrlSplit(scheme + "://" + authority + tail); parts.scheme == scheme && parts.netloc == authority
  {
    hide Urls.SchemeLength, Urls.SplitTail, Strings.Find;
    var rest := "//" + (authority + tail);
    assert scheme + "://" + authority + tail == scheme + ":" + rest;
    Urls.SchemeLengthIs(scheme, rest);
    var url := scheme + ":" + rest;
    assert url[..|scheme|] == scheme && url[|scheme| + 1..] == rest;
    assert Urls.LowerAll(scheme) == scheme;
    assert rest[2..] == authority + tail;
    Strings.FindIs(authority, tail, "/?#");
    assert (authority + tail)[..|authority|] == authority;
    TailIs(scheme, authority, (authority + tail)[|authority|..]);
  }

  lemma {:induction false} TailIs(scheme: string, netloc: string, rest: string)
    ensures Urls.SplitTail(scheme, netloc, rest).scheme == scheme && Urls.SplitTail(scheme, netloc, rest).netloc == netloc
  {
  }

  // ------------------------------------------------------------ attempts over a run

  // Only this step starts an engine, and only this one gives a start back.
  predicate Starts(step: Step, i: Url) {
    step.Task? && step.item == i && step.task.Admission? && step.task.admission.Activate?
  }

  predicate Restores(s: State, step: Step, i: Url) {
    step.Task? && step.item == i && step.task.Judge? && step.task.judge.Fail? && i in s.tasks && s.tasks[i].Exited?
    && s.tasks[i].failure.diskFull
  }

  // What the program counter remembers of the attempts.
  predicate Remembers(row: Row, pc: Pc) {
    match pc
    case Chosen(before) => row.attempts == before
    case Waiting(before) => row.attempts == before
    case Ready(before) => row.attempts == before
    case Downloading(before) => row.attempts == before + 1
    case Exited(before, _, _) => row.attempts == before + 1
    case _ => true
  }

  // An item on its way to an engine still has an attempt left.
  predicate HasAttempt(pc: Pc, maxAttempts: nat) {
    match pc
    case Chosen(before) => maxAttempts == 0 || before < maxAttempts
    case Waiting(before) => maxAttempts == 0 || before < maxAttempts
    case Ready(before) => maxAttempts == 0 || before < maxAttempts
    case _ => true
  }

  predicate ItemAttemptsOk(s: State, i: Url, maxAttempts: nat) {
    && i in s.disk.rows && (maxAttempts > 0 ==> s.disk.rows[i].attempts <= maxAttempts)
    && (i in s.tasks ==> Remembers(s.disk.rows[i], s.tasks[i]) && HasAttempt(s.tasks[i], maxAttempts))
  }

  ghost predicate AttemptsOk(s: State, maxAttempts: nat) {
    forall i | i in s.disk.rows :: ItemAttemptsOk(s, i, maxAttempts)
  }

  datatype Admission = Admission(maxAttempts: nat, workers: nat)

  // `order` lists the selection of the serving run by queue rank.
  ghost predicate Ranks(s: State, order: seq<Url>) {
    Distinct(order) && forall i :: i in order <==> i in Selected(s)
  }

  ghost predicate Returns(a: Admission, s: State, order: seq<Url>, now: real, i: Url) {
    Ranks(s, order) && NextPending(s.disk.rows, order, a.maxAttempts, now, 0) == Some(i)
  }

  // The steps that read the clock read it at `now`.
  predicate ReadsClock(step: Step, now: real) {
    && (step.Task? && step.task.Judge? && step.task.judge.Fail? ==> step.task.judge.now == now)
    && (step.Task? && step.task.Recheck? && step.task.recheck.ClaimRecheck? ==> step.task.recheck.now == now)
  }

  // The admission loop takes what next_pending returns, and only while a worker is free.
  ghost predicate Admits(a: Admission, s: State, step: Step, now: real) {
    && ReadsClock(step, now)
    && (step.Task? && step.task == TaskStep.Admission(Choose) ==>
          |s.tasks.Keys| < a.workers && exists order :: Returns(a, s, order, now, step.item))
    && (step.Task? && step.task.Recheck? && step.task.recheck.ClaimRecheck? ==> |s.tasks.Keys| < a.workers)
  }

  function Delta(b: bool): int {
    if b then 1 else 0
  }

  lemma {:induction false} AdmissionAttempts(h: Hash, s: State, i: Url, t: TaskStep, maxAttempts: nat)
    requires ItemInv(h, s, i) && Enabled(h, s, Task(i, t)) && ItemAttemptsOk(s, i, maxAttempts)
    requires t.Admission?
    requires t == TaskStep.Admission(Choose) && maxAttempts > 0 ==> s.disk.rows[i].attempts < maxAttempts
    ensures ItemAttemptsOk(TaskApply(h, s, i, t), i, maxAttempts)
    ensures TaskApply(h, s, i, t).disk.rows[i].attempts
            == s.disk.rows[i].attempts + Delta(Starts(Task(i, t), i)) - Delta(Restores(s, Task(i, t), i))
  {
    hide TaskOk, CodeOk, IntentOk, EvidenceOk, ServingOk;
  }

  lemma {:induction false} JudgeAttempts(h: Hash, s: State, i: Url, t: TaskStep, maxAttempts: nat)
    requires ItemInv(h, s, i) && Enabled(h, s, Task(i, t)) && ItemAttemptsOk(s, i, maxAttempts)
    requires t.Judge?
    ensures ItemAttemptsOk(TaskApply(h, s, i, t), i, maxAttempts)
    ensures TaskApply(h, s, i, t).disk.rows[i].attempts
            == s.disk.rows[i].attempts + Delta(Starts(Task(i, t), i)) - Delta(Restores(s, Task(i, t), i))
  {
    hide TaskOk, CodeOk, IntentOk, EvidenceOk, ServingOk;
  }

  lemma {:induction false} RestAttempts(h: Hash, s: State, i: Url, t: TaskStep, maxAttempts: nat)
    requires ItemInv(h, s, i) && Enabled(h, s, Task(i, t)) && ItemAttemptsOk(s, i, maxAttempts)
    requires !t.Admission? && !t.Judge?
    ensures ItemAttemptsOk(TaskApply(h, s, i, t), i, maxAttempts)
    ensures TaskApply(h, s, i, t).disk.rows[i].attempts
            == s.disk.rows[i].attempts + Delta(Starts(Task(i, t), i)) - Delta(Restores(s, Task(i, t), i))
  {
    hide TaskOk, CodeOk, IntentOk, EvidenceOk, ServingOk;
    match t
    case Engine(e) => assert i in s.disk.rows;
    case Promote(p) => assert i in s.disk.rows;
    case Move(m) => assert i in s.disk.rows;
    case Recheck(r) => assert i in s.disk.rows;
  }

  lemma {:induction false} TaskAttempts(h: Hash, s: State, i: Url, t: TaskStep, maxAttempts: nat)
    requires ItemInv(h, s, i) && Enabled(h, s, Task(i, t)) && ItemAttemptsOk(s, i, maxAttempts)
    requires t == TaskStep.Admission(Choose) && maxAttempts > 0 ==> s.disk.rows[i].attempts < maxAttempts
    ensures ItemAttemptsOk(TaskApply(h, s, i, t), i, maxAttempts)
    ensures TaskApply(h, s, i, t).disk.rows[i].attempts
            == s.disk.rows[i].attempts + Delta(Starts(Task(i, t), i)) - Delta(Restores(s, Task(i, t), i))
  {
    hide TaskApply, ItemInv, Enabled, ItemAttemptsOk, Starts, Restores;
    if t.Admission? {
      AdmissionAttempts(h, s, i, t, maxAttempts);
    } else if t.Judge? {
      JudgeAttempts(h, s, i, t, maxAttempts);
    } else {
      RestAttempts(h, s, i, t, maxAttempts);
    }
  }

  lemma {:induction false} OtherTaskStays(h: Hash, s: State, i: Url, t: TaskStep, j: Url)
    requires s.disk.files.Valid() && Enabled(h, s, Task(i, t)) && j != i
    ensures var s' := TaskApply(h, s, i, t);
            (j in s'.tasks <==> j in s.tasks) && (j in s.tasks ==> s'.tasks[j] == s.tasks[j])
  {
    match t
    case Admission(a) => assert j != i;
    case Engine(e) => assert j != i;
    case Judge(k) => assert j != i;
    case Promote(p) => assert j != i;
    case Move(m) => assert j != i;
    case Recheck(r) => assert j != i;
  }

  lemma {:induction false} OthersKeepAttempts(h: Hash, s: State, i: Url, t: TaskStep, j: Url)
    requires ItemInv(h, s, i) && Enabled(h, s, Task(i, t)) && j in s.disk.rows && j != i
    ensures var s' := TaskApply(h, s, i, t);
            j in s'.disk.rows && s'.disk.rows[j] == s.disk.rows[j] && (j in s'.tasks <==> j in s.tasks)
            && (j in s.tasks ==> s'.tasks[j] == s.tasks[j])
  {
    hide TaskApply, TaskEnabled, CodeOk, IntentOk, EvidenceOk, ServingOk;
    OtherTaskStays(h, s, i, t, j);
    var row := TaskRow(h, s, i, t);
  }

  lemma {:induction false} RecoveryKeepsAttempts(h: Hash, disk: Disk, session: nat, i: Url, r: RecoveryStep, j: Url)
    requires disk.files.Valid() && RecoveryEnabled(h, disk, session, i, r)
    ensures var rows' := RecoveryApply(h, disk, session, i, r).rows;
            rows'.Keys == disk.rows.Keys && (j in rows' ==> rows'[j].attempts == disk.rows[j].attempts)
  {
  }

  // Operator, import and recovery never touch the attempts.
  lemma {:induction false} OtherStepsKeepAttempts(h: Hash, s: State, step: Step, j: Url)
    requires s.disk.files.Valid() && Enabled(h, s, step) && !step.Task? && j in Apply(h, s, step).disk.rows
    ensures j in s.disk.rows ==> Apply(h, s, step).disk.rows[j].attempts == s.disk.rows[j].attempts
    ensures j !in s.disk.rows ==> Apply(h, s, step).disk.rows[j].attempts == 0
    ensures Apply(h, s, step).tasks == s.tasks || Apply(h, s, step).tasks == map[]
  {
    hide RecoveryApply, RecoveryEnabled;
    match step
    case Recover(i, r) => RecoveryKeepsAttempts(h, s.disk, s.session, i, r, j);
    case Operate(action, items) => assert j in s.disk.rows;
    case _ =>
  }

  lemma {:induction false} ChosenHasAttempt(a: Admission, s: State, now: real, i: Url)
    requires Admits(a, s, Task(i, TaskStep.Admission(Choose)), now) && a.maxAttempts > 0
    ensures i in s.disk.rows && s.disk.rows[i].attempts < a.maxAttempts
  {
    hide InScope, Ranks;
    var order :| Returns(a, s, order, now, i);
    NextPendingIs(s.disk.rows, order, a.maxAttempts, now, 0);
  }

  lemma {:induction false} StepAttempts(h: Hash, a: Admission, s: State, now: real, step: Step, j: Url)
    requires Inv(h, s) && Enabled(h, s, step) && Admits(a, s, step, now) && AttemptsOk(s, a.maxAttempts)
    requires j in Apply(h, s, step).disk.rows
    ensures ItemAttemptsOk(Apply(h, s, step), j, a.maxAttempts)
    ensures Apply(h, s, step).disk.rows[j].attempts
            == (if j in s.disk.rows then s.disk.rows[j].attempts else 0) + Delta(Starts(step, j)) - Delta(Restores(s, step, j))
  {
    hide Admits, ItemAttemptsOk, Starts, Restores;
    if step.Task? {
      TaskStepAttempts(h, a, s, now, step.item, step.task, j);
    } else {
      OtherStepAttempts(h, a, s, step, j);
    }
  }

  lemma {:induction false} OtherStepAttempts(h: Hash, a: Admission, s: State, step: Step, j: Url)
    requires Inv(h, s) && Enabled(h, s, step) && !step.Task? && AttemptsOk(s, a.maxAttempts)
    requires j in Apply(h, s, step).disk.rows
    ensures ItemAttemptsOk(Apply(h, s, step), j, a.maxAttempts)
    ensures Apply(h, s, step).disk.rows[j].attempts
            == (if j in s.disk.rows then s.disk.rows[j].attempts else 0) + Delta(Starts(step, j)) - Delta(Restores(s, step, j))
  {
    hide Apply, Enabled, Separate, Sealed, Kept, OnceEach, TaskOk, CodeOk, IntentOk, EvidenceOk, ServingOk;
    OtherStepsKeepAttempts(h, s, step, j);
    assert j in s.tasks ==> j in s.disk.rows;
    assert j in s.disk.rows ==> ItemAttemptsOk(s, j, a.maxAttempts);
  }

  lemma {:induction false} TaskStepAttempts(h: Hash, a: Admission, s: State, now: real, i: Url, t: TaskStep, j: Url)
    requires Inv(h, s) && Enabled(h, s, Task(i, t)) && Admits(a, s, Task(i, t), now) && AttemptsOk(s, a.maxAttempts)
    requires j in Apply(h, s, Task(i, t)).disk.rows
    ensures ItemAttemptsOk(Apply(h, s, Task(i, t)), j, a.maxAttempts)
    ensures Apply(h, s, Task(i, t)).disk.rows[j].attempts
            == (if j in s.disk.rows then s.disk.rows[j].attempts else 0) + Delta(Starts(Task(i, t), j))
               - Delta(Restores(s, Task(i, t), j))
  {
    hide Separate, Sealed, Kept, OnceEach, TaskOk, CodeOk, IntentOk, EvidenceOk, ServingOk, TaskApply, Admits;
    assert ItemInv(h, s, i);
    assert ItemAttemptsOk(s, i, a.maxAttempts);
    if t == TaskStep.Admission(Choose) && a.maxAttempts > 0 {
      ChosenHasAttempt(a, s, now, i);
    }
    TaskAttempts(h, s, i, t, a.maxAttempts);
    if j != i {
      TaskAddsNoRow(h, s, i, t);
      OthersKeepAttempts(h, s, i, t, j);
      assert ItemAttemptsOk(s, j, a.maxAttempts);
    }
  }

  lemma {:induction false} TaskAddsNoRow(h: Hash, s: State, i: Url, t: TaskStep)
    requires ItemInv(h, s, i) && Enabled(h, s, Task(i, t))
    ensures TaskApply(h, s, i, t).disk.rows.Keys == s.disk.rows.Keys
  {
    var row := TaskRow(h, s, i, t);
  }

  // ------------------------------------------------------------ runs of the admission loop

  ghost predicate Admitting(h: Hash, a: Admission, trace: seq<State>, steps: seq<Step>, clock: seq<real>) {
    RunFromFresh(h, trace, steps) && |clock| == |steps| && forall k | 0 <= k < |steps| :: Admits(a, trace[k], steps[k], clock[k])
  }

  lemma {:induction false} RunStepAttempts(h: Hash, a: Admission, trace: seq<State>, steps: seq<Step>, clock: seq<real>, k: nat, j: Url)
    requires Admitting(h, a, trace, steps, clock) && k < |steps| && AttemptsOk(trace[k], a.maxAttempts)
    requires j in trace[k + 1].disk.rows
    ensures ItemAttemptsOk(trace[k + 1], j, a.maxAttempts)
    ensures trace[k + 1].disk.rows[j].attempts
            == (if j in trace[k].disk.rows then trace[k].disk.rows[j].attempts else 0)
               + Delta(Starts(steps[k], j)) - Delta(Restores(trace[k], steps[k], j))
  {
    hide Enabled, Apply, Admits, ItemAttemptsOk, Starts, Restores, AttemptsOk, Separate, Sealed, Kept, OnceEach;
    RunStep(h, trace, steps, k);
    StepAttempts(h, a, trace[k], clock[k], steps[k], j);
  }

  // With a fixed nonzero ceiling, no row ever records more attempts.
  lemma {:induction false} AttemptsNeverExceed(h: Hash, a: Admission, trace: seq<State>, steps: seq<Step>, clock: seq<real>, k: nat)
    requires Admitting(h, a, trace, steps, clock) && k < |trace|
    ensures AttemptsOk(trace[k], a.maxAttempts)
  {
    hide Admits, Inv, Enabled, Apply;
    if k > 0 {
      AttemptsNeverExceed(h, a, trace, steps, clock, k - 1);
      forall j | j in trace[k].disk.rows ensures ItemAttemptsOk(trace[k], j, a.maxAttempts) {
        RunStepAttempts(h, a, trace, steps, clock, k - 1, j);
      }
    }
  }

  function StartCount(steps: seq<Step>, n: nat, i: Url): nat
    requires n <= |steps|
  {
    if n == 0 then 0 else StartCount(steps, n - 1, i) + if Starts(steps[n - 1], i) then 1 else 0
  }

  function RestoreCount(trace: seq<State>, steps: seq<Step>, n: nat, i: Url): nat
    requires n <= |steps| && n <= |trace|
  {
    if n == 0 then 0 else RestoreCount(trace, steps, n - 1, i) + if Restores(trace[n - 1], steps[n - 1], i) then 1 else 0
  }

  lemma {:induction false} RowsStay(h: Hash, trace: seq<State>, steps: seq<Step>, k: nat, i: Url)
    requires RunFromFresh(h, trace, steps) && k < |steps|
    ensures i in trace[k].disk.rows ==> i in trace[k + 1].disk.rows
    ensures i !in trace[k].disk.rows ==> !Starts(steps[k], i) && !Restores(trace[k], steps[k], i)
  {
    hide Separate, Sealed, Kept, OnceEach;
    RunStep(h, trace, steps, k);
    StepKeepsRow(h, trace[k], steps[k], i);
  }

  lemma {:induction false} StepKeepsRow(h: Hash, s: State, step: Step, i: Url)
    requires s.disk.files.Valid() && Enabled(h, s, step)
    requires step.Task? ==> ItemInv(h, s, step.item)
    ensures i in s.disk.rows ==> i in Apply(h, s, step).disk.rows
    ensures i !in s.disk.rows ==> !Starts(step, i) && !Restores(s, step, i)
  {
    hide TaskApply, TaskOk, RecoveryApply, RecoveryEnabled;
    match step
    case Task(j, t) => TaskAddsNoRow(h, s, j, t);
    case Recover(j, r) => RecoveryKeepsAttempts(h, s.disk, s.session, j, r, i);
    case _ =>
  }

  // The engine starts of an item are its recorded attempts and the attempts that a full disk gave
  // back: the ceiling bounds the starts up to those restores.
  lemma {:induction false} StartsAreBounded(h: Hash, a: Admission, trace: seq<State>, steps: seq<Step>, clock: seq<real>, n: nat, i: Url)
    requires Admitting(h, a, trace, steps, clock) && n <= |steps|
    ensures StartCount(steps, n, i)
            == (if i in trace[n].disk.rows then trace[n].disk.rows[i].attempts else 0) + RestoreCount(trace, steps, n, i)
    ensures a.maxAttempts > 0 ==> StartCount(steps, n, i) <= a.maxAttempts + RestoreCount(trace, steps, n, i)
  {
    hide Admits, Inv, Enabled, Apply, Starts, Restores, Remembers, HasAttempt;
    AttemptsNeverExceed(h, a, trace, steps, clock, n);
    if n > 0 {
      StartsAreBounded(h, a, trace, steps, clock, n - 1, i);
      AttemptsNeverExceed(h, a, trace, steps, clock, n - 1);
      RowsStay(h, trace, steps, n - 1, i);
      if i in trace[n].disk.rows {
        RunStepAttempts(h, a, trace, steps, clock, n - 1, i);
        assert ItemAttemptsOk(trace[n], i, a.maxAttempts);
      }
    }
  }

  // ------------------------------------------------------------ every start was admitted

  // An item on its way to its engine.
  predicate Approaching(s: State, i: Url) {
    i in s.tasks && (s.tasks[i].Chosen? || s.tasks[i].Waiting? || s.tasks[i].Ready?)
  }

  lemma {:induction false} TaskApproaches(h: Hash, s: State, i: Url, t: TaskStep)
    requires s.disk.files.Valid() && Enabled(h, s, Task(i, t)) && Approaching(TaskApply(h, s, i, t), i)
    ensures t == TaskStep.Admission(Choose) || Approaching(s, i)
  {
    match t
    case Admission(a) => assert i in s.disk.rows;
    case _ =>
  }

  lemma {:induction false} StepApproaches(h: Hash, s: State, step: Step, i: Url)
    requires s.disk.files.Valid() && Enabled(h, s, step) && Approaching(Apply(h, s, step), i)
    ensures step == Task(i, TaskStep.Admission(Choose)) || Approaching(s, i)
  {
    hide TaskApply;
    if step.Task? {
      if step.item == i {
        TaskApproaches(h, s, i, step.task);
      } else {
        OtherTaskStays(h, s, step.item, step.task, i);
      }
    } else {
      OtherStepTasks(h, s, step);
    }
  }

  lemma {:induction false} RunApproaches(h: Hash, trace: seq<State>, steps: seq<Step>, k: nat, i: Url)
    requires RunFromFresh(h, trace, steps) && k < |steps| && Approaching(trace[k + 1], i)
    ensures steps[k] == Task(i, TaskStep.Admission(Choose)) || Approaching(trace[k], i)
  {
    hide Approaching, Separate, Sealed, Kept, OnceEach, Enabled, Apply;
    RunStep(h, trace, steps, k);
    StepApproaches(h, trace[k], steps[k], i);
  }

  lemma {:induction false} FreshHasNoTask(h: Hash, trace: seq<State>, steps: seq<Step>, i: Url)
    requires RunFromFresh(h, trace, steps)
    ensures !Approaching(trace[0], i)
  {
    hide Separate, Sealed, Kept, OnceEach, Enabled, Apply;
  }

  // The selection of the item that is on its way at `k`, with nothing but the way in between.
  lemma {:induction false} WasChosen(h: Hash, trace: seq<State>, steps: seq<Step>, k: nat, i: Url) returns (c: nat)
    requires RunFromFresh(h, trace, steps) && k < |trace| && Approaching(trace[k], i)
    ensures c < k && steps[c] == Task(i, TaskStep.Admission(Choose))
    ensures forall l | c < l <= k :: Approaching(trace[l], i)
  {
    hide Approaching, Separate, Sealed, Kept, OnceEach, Enabled, Apply;
    if k == 0 {
      FreshHasNoTask(h, trace, steps, i);
    } else {
      RunApproaches(h, trace, steps, k - 1, i);
      if steps[k - 1] == Task(i, TaskStep.Admission(Choose)) {
        c := k - 1;
      } else {
        c := WasChosen(h, trace, steps, k - 1, i);
      }
    }
  }

  // Every engine start goes back to one admission of its item, at which the item was selected,
  // pending, due and below the ceiling, no denied item of the run shared its origin, and nothing
  // before it in rank order could have been taken.
  lemma {:induction false} StartsWereAdmitted(h: Hash, a: Admission, trace: seq<State>, steps: seq<Step>, clock: seq<real>, k: nat, i: Url)
    returns (c: nat, order: seq<Url>)
    requires Admitting(h, a, trace, steps, clock) && k < |steps| && Starts(steps[k], i)
    ensures c < k && steps[c] == Task(i, TaskStep.Admission(Choose)) && forall l | c < l <= k :: Approaching(trace[l], i)
    ensures Ranks(trace[c], order) && i in Selected(trace[c])
    ensures IsFirst(trace[c].disk.rows, order, a.maxAttempts, clock[c], i)
  {
    hide Returns, NextPending, IsFirst, Ranks, Enabled, Apply;
    StartIsApproach(h, trace, steps, k, i);
    c := WasChosen(h, trace, steps, k, i);
    assert Admits(a, trace[c], steps[c], clock[c]);
    order :| Returns(a, trace[c], order, clock[c], i);
    ReturnedIsFirst(a, trace[c], order, clock[c], i);
  }

  lemma {:induction false} ReturnedIsFirst(a: Admission, s: State, order: seq<Url>, now: real, i: Url)
    requires Returns(a, s, order, now, i)
    ensures Ranks(s, order) && i in Selected(s) && IsFirst(s.disk.rows, order, a.maxAttempts, now, i)
  {
    hide NextPending, MayStart;
    NextPendingAnswers(s.disk.rows, order, a.maxAttempts, now);
  }

  lemma {:induction false} StartIsApproach(h: Hash, trace: seq<State>, steps: seq<Step>, k: nat, i: Url)
    requires RunFromFresh(h, trace, steps) && k < |steps| && Starts(steps[k], i)
    ensures Approaching(trace[k], i)
  {
    hide Inv, Apply;
    RunStep(h, trace, steps, k);
  }

  // ------------------------------------------------------------ workers

  lemma {:induction false} TaskAddsAtMostOne(h: Hash, s: State, i: Url, t: TaskStep)
    requires s.disk.files.Valid() && Enabled(h, s, Task(i, t))
    ensures TaskApply(h, s, i, t).tasks.Keys <= s.tasks.Keys + {i}
    ensures t != TaskStep.Admission(Choose) && !(t.Recheck? && t.recheck.ClaimRecheck?) ==> TaskApply(h, s, i, t).tasks.Keys <= s.tasks.Keys
  {
    match t
    case Admission(a) => assert i in s.disk.rows;
    case Engine(e) => assert i in s.disk.rows;
    case Judge(j) => assert i in s.disk.rows;
    case Promote(p) => assert i in s.disk.rows;
    case Move(m) => assert i in s.disk.rows;
    case Recheck(r) => assert i in s.disk.rows;
  }

  lemma {:induction false} StepKeepsWorkers(h: Hash, a: Admission, s: State, now: real, step: Step)
    requires s.disk.files.Valid() && Enabled(h, s, step) && Admits(a, s, step, now) && |s.tasks.Keys| <= a.workers
    ensures |Apply(h, s, step).tasks.Keys| <= a.workers
  {
    hide TaskApply, NextPending;
    if step.Task? {
      TaskAddsAtMostOne(h, s, step.item, step.task);
      SubsetSize(TaskApply(h, s, step.item, step.task).tasks.Keys, s.tasks.Keys + {step.item});
      if TaskApply(h, s, step.item, step.task).tasks.Keys <= s.tasks.Keys {
        SubsetSize(TaskApply(h, s, step.item, step.task).tasks.Keys, s.tasks.Keys);
      }
    } else {
      OtherStepTasks(h, s, step);
    }
  }

  lemma {:induction false} OtherStepTasks(h: Hash, s: State, step: Step)
    requires s.disk.files.Valid() && Enabled(h, s, step) && !step.Task?
    ensures Apply(h, s, step).tasks == s.tasks || Apply(h, s, step).tasks == map[]
  {
    hide RecoveryApply, RecoveryEnabled;
  }

  lemma {:induction false} RunKeepsWorkers(h: Hash, a: Admission, trace: seq<State>, steps: seq<Step>, clock: seq<real>, k: nat)
    requires Admitting(h, a, trace, steps, clock) && k < |steps| && |trace[k].tasks.Keys| <= a.workers
    ensures |trace[k + 1].tasks.Keys| <= a.workers
  {
    hide Enabled, Apply, Admits, Separate, Sealed, Kept, OnceEach;
    RunStep(h, trace, steps, k);
    StepKeepsWorkers(h, a, trace[k], clock[k], steps[k]);
  }

  // At most `workers` transfers and rechecks are in work, and never two for one item.
  lemma {:induction false} WorkersAreBounded(h: Hash, a: Admission, trace: seq<State>, steps: seq<Step>, clock: seq<real>, k: nat)
    requires Admitting(h, a, trace, steps, clock) && k < |trace|
    ensures |trace[k].tasks.Keys| <= a.workers
  {
    hide Admits, Inv, Enabled, Apply;
    if k > 0 {
      WorkersAreBounded(h, a, trace, steps, clock, k - 1);
      RunKeepsWorkers(h, a, trace, steps, clock, k - 1);
    }
  }
}
