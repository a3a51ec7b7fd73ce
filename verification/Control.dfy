/** The confirmed-command protocol: prepare, confirm, replay, expiry and controller restart, in
    front of the durable request guard. */
module Control {
  import opened Prelude
  import opened Database
  import opened RunLedger

  datatype Action =
    | RetryNowAction | Exclude | ResumeGeneration | RetryDenied | SetPriority | SetCooldown
    | RenewCircuits | PauseAdmission | ResumeAdmission | DrainAndStop | CheckpointStop

  const CONFIRMATION_S := 60.0
  const PRIORITY_MIN := -5
  const PRIORITY_MAX := 5
  const COOLDOWN_MAX := 3600

  // A JSON parameter: absent, of the wrong type, or given.
  datatype Field<T> = Absent | Malformed | Given(value: T)

  datatype Parameters = Parameters(itemIds: Field<seq<Url>>, priority: Field<int>, cooldown: Field<int>)

  predicate ItemIdsOk(ids: Field<seq<Url>>) {
    ids.Given? && |ids.value| > 0 && forall k | 0 <= k < |ids.value| :: ids.value[k] != ""
  }

  predicate OnItems(action: Action) {
    action.Exclude? || action.ResumeGeneration? || action.RetryDenied? || action.SetPriority? || action.SetCooldown?
  }

  predicate PriorityOk(p: Field<int>) {
    p.Given? && PRIORITY_MIN <= p.value <= PRIORITY_MAX
  }

  predicate CooldownOk(c: Field<int>) {
    c.Given? && 0 <= c.value <= COOLDOWN_MAX
  }

  // What a confirmation has fixed.
  datatype Prepared = Prepared(action: Action, deadline: real, itemIds: Option<seq<Url>>, priority: Option<int>,
                               cooldown: Option<int>)

  // One call of the controller's action handler.
  datatype Call = Call(nonce: string, requestId: string, action: Action, parameters: Parameters, at: real)

  datatype Response = Completed(reply: Reply) | Rejected

  datatype ControlError = BadParameters | InvalidOrExpired

  predicate PrepareOk(action: Action, p: Parameters) {
    && (OnItems(action) || (action.RetryNowAction? && !p.itemIds.Absent?) ==> ItemIdsOk(p.itemIds))
    && (action.SetPriority? ==> PriorityOk(p.priority)) && (action.SetCooldown? ==> CooldownOk(p.cooldown))
  }

  function Fixed(action: Action, p: Parameters, now: real): Prepared
    requires PrepareOk(action, p)
  {
    Prepared(action, now + CONFIRMATION_S,
             if OnItems(action) || (action.RetryNowAction? && !p.itemIds.Absent?) then Some(p.itemIds.value) else None,
             if action.SetPriority? then Some(p.priority.value) else None,
             if action.SetCooldown? then Some(p.cooldown.value) else None)
  }

  // The prepared values replace those of the confirmation request.
  function Carried(prepared: Prepared, p: Parameters): Parameters {
    Parameters(if prepared.itemIds.Some? then Given(prepared.itemIds.value) else p.itemIds,
               if prepared.priority.Some? then Given(prepared.priority.value) else p.priority,
               if prepared.cooldown.Some? then Given(prepared.cooldown.value) else p.cooldown)
  }

  // ------------------------------------------------------------ the durable handlers

  function ItemActionOf(c: Call): Option<ItemAction> {
    match c.action
    case RetryNowAction => Some(RetryNow)
    case Exclude => Some(ExcludeItem)
    case ResumeGeneration => Some(ResumeNewGeneration)
    case RetryDenied => Some(RetryAccessDenied)
    case SetPriority => if PriorityOk(c.parameters.priority) then Some(SetItemPriority(c.parameters.priority.value)) else None
    case SetCooldown =>
      if CooldownOk(c.parameters.cooldown) then Some(SetRetryCooldown(c.at + c.parameters.cooldown.value as real)) else None
    case _ => None
  }

  // The commit of a call; None is a rejection.
  function CommitOf(c: Call): Option<Commit> {
    if !OnItems(c.action) && !c.action.RetryNowAction? then Some(Audit(c.requestId))
    else if ItemActionOf(c).None? then None
    else if c.action.RetryNowAction? && c.parameters.itemIds.Absent? then
      Some(Commit.Control(c.requestId, ItemActionOf(c).value, None))
    else if !ItemIdsOk(c.parameters.itemIds) then None
    else Some(Commit.Control(c.requestId, ItemActionOf(c).value, Some(c.parameters.itemIds.value)))
  }

  lemma {:induction false} CommitIsAllowed(l: Ledger, c: Call)
    ensures CommitOf(c).Some? ==> Allowed(l, CommitOf(c).value) && CommitOf(c).value.id == c.requestId
  {
  }

  // ------------------------------------------------------------ what a call does

  // The call names what its action needs: items, a priority from -5 to 5, a cooldown of an hour at most.
  predicate Accepted(c: Call) {
    var ids, priority, cooldown := c.parameters.itemIds, c.parameters.priority, c.parameters.cooldown;
    && (c.action.Exclude? || c.action.ResumeGeneration? || c.action.RetryDenied? || c.action.SetPriority? || c.action.SetCooldown?
        || (c.action.RetryNowAction? && !ids.Absent?) ==>
          ids.Given? && |ids.value| > 0 && "" !in ids.value)
    && (c.action.SetPriority? ==> priority.Given? && -5 <= priority.value <= 5)
    && (c.action.SetCooldown? ==> cooldown.Given? && 0 <= cooldown.value <= 3600)
  }

  // The rows that an action may change.
  predicate Hits(action: Action, row: Row) {
    var s, waiting := row.status, row.status.RetryWait? || row.status.Failed?;
    var open := waiting || s.Queued? || s.Active? || s.Admitted? || s.ReviewRequired? || s.Unavailable?;
    match action
    case RetryNowAction => waiting || s.Queued?
    case Exclude => open
    case ResumeGeneration => s.ReviewRequired? && (row.code.ChangedRepresentation? || row.code.NoVersionProtection?)
    case RetryDenied => s.ReviewRequired? && row.code.AccessDenied?
    case SetPriority => open
    case SetCooldown => waiting
    case _ => false
  }

  // The columns that it sets.
  function Changed(c: Call, row: Row): Row {
    match c.action
    case RetryNowAction => row.(nextRetryAt := 0.0)
    case Exclude => row.(status := Excluded)
    case ResumeGeneration =>
      row.(status := Queued, code := NoCode, lastError := None, etag := None, lastModified := None, nextRetryAt := 0.0,
           generation := if row.generation.Some? then Some(row.generation.value + 1) else None)
    case RetryDenied => row.(status := Queued, code := NoCode, lastError := None, nextRetryAt := 0.0)
    case SetPriority => if c.parameters.priority.Given? then row.(priority := c.parameters.priority.value) else row
    case SetCooldown =>
      if c.parameters.cooldown.Given? then row.(nextRetryAt := c.at + c.parameters.cooldown.value as real) else row
    case _ => row
  }

  // A selected item that the call names, or any selected item of an unscoped "retry now".
  predicate Concerns(l: Ledger, c: Call, i: Url) {
    && i in l.selected && i in l.rows && Hits(c.action, l.rows[i])
    && (c.parameters.itemIds.Given? ==> i in c.parameters.itemIds.value)
  }

  // The positions of a request at which it names a row that changes.
  function Mentions(l: Ledger, c: Call): set<nat> {
    if c.parameters.itemIds.Given? then
      set k: nat | k < |c.parameters.itemIds.value| && Concerns(l, c, c.parameters.itemIds.value[k])
    else {}
  }

  // "Retry now" counts the rows, the other actions count their mentions.
  function ChangeCount(l: Ledger, c: Call): nat {
    if c.action.RetryNowAction? then |set i | i in l.selected && Concerns(l, c, i)| else |Mentions(l, c)|
  }

  // A call that is not acceptable, or whose request is known, does nothing. Any other one changes the
  // concerned rows in the columns of its action, raises the revision and remembers its reply.
  ghost predicate Effect(l: Ledger, c: Call, l': Ledger) {
    if !Accepted(c) || c.requestId in l.requests then l' == l
    else
      && l'.selected == l.selected && l'.rows.Keys == l.rows.Keys && l'.revision == l.revision + 1
      && (forall i | i in l.rows :: l'.rows[i] == if Concerns(l, c, i) then Changed(c, l.rows[i]) else l.rows[i])
      && l'.requests == l.requests[c.requestId := Reply(ChangeCount(l, c), l.revision + 1)]
  }

  lemma {:induction false} AcceptedIs(c: Call)
    ensures Accepted(c) <==> CommitOf(c).Some?
  {
    assert "" !in (if c.parameters.itemIds.Given? then c.parameters.itemIds.value else []) <==>
           (c.parameters.itemIds.Given? ==> forall k | 0 <= k < |c.parameters.itemIds.value| :: c.parameters.itemIds.value[k] != "");
  }

  lemma {:induction false} ItemActionIs(c: Call, row: Row)
    requires ItemActionOf(c).Some?
    ensures Eligible(ItemActionOf(c).value, row) <==> Hits(c.action, row)
    ensures Eligible(ItemActionOf(c).value, row) ==> Revise(ItemActionOf(c).value, row) == Changed(c, row)
    ensures ItemActionOf(c).value.RetryNow? <==> c.action.RetryNowAction?
  {
  }

  function TouchedAt(l: Ledger, action: ItemAction, items: seq<Url>): set<nat> {
    set k: nat | k < |items| && Touches(l, action, items[k])
  }

  function Touched(l: Ledger, action: ItemAction, items: seq<Url>): set<Url> {
    set i | i in items && Touches(l, action, i)
  }

  lemma {:induction false} NothingTouched(l: Ledger, action: ItemAction)
    ensures TouchedAt(l, action, []) == {} && Touched(l, action, []) == {}
  {
  }

  lemma {:induction false} TouchedAtGrows(l: Ledger, action: ItemAction, front: seq<Url>, last: Url)
    ensures |TouchedAt(l, action, front + [last])| == |TouchedAt(l, action, front)| + if Touches(l, action, last) then 1 else 0
  {
    hide Touches;
    var few, all := TouchedAt(l, action, front), TouchedAt(l, action, front + [last]);
    assert forall k: nat | k < |front| :: (front + [last])[k] == front[k];
    assert all == if Touches(l, action, last) then few + {|front|} else few;
  }

  lemma {:induction false} TouchedGrows(l: Ledger, action: ItemAction, front: seq<Url>, last: Url)
    requires last !in front
    ensures |Touched(l, action, front + [last])| == |Touched(l, action, front)| + if Touches(l, action, last) then 1 else 0
  {
    hide Touches;
    var few, all := Touched(l, action, front), Touched(l, action, front + [last]);
    assert all == if Touches(l, action, last) then few + {last} else few;
  }

  lemma {:induction false} ChangedGrows(l: Ledger, action: ItemAction, front: seq<Url>, last: Url)
    ensures |ChangedItems(l, action, front + [last])| == |ChangedItems(l, action, front)| + if Touches(l, action, last) then 1 else 0
  {
    hide Touches;
    assert (front + [last])[..|front|] == front;
  }

  // The length of a list of changed rows is the number of its positions in the request.
  lemma {:induction false} ChangedLength(l: Ledger, action: ItemAction, items: seq<Url>)
    ensures |ChangedItems(l, action, items)| == |TouchedAt(l, action, items)|
  {
    hide Touches, TouchedAt;
    if items == [] {
      NothingTouched(l, action);
    } else {
      var front, last := items[..|items| - 1], items[|items| - 1];
      assert items == front + [last];
      ChangedLength(l, action, front);
      TouchedAtGrows(l, action, front, last);
      ChangedGrows(l, action, front, last);
    }
  }

  lemma {:induction false} ChangedSize(l: Ledger, action: ItemAction, items: seq<Url>)
    requires Distinct(items)
    ensures |ChangedItems(l, action, items)| == |Touched(l, action, items)|
  {
    hide Touches, Touched;
    if items == [] {
      NothingTouched(l, action);
    } else {
      var front, last := items[..|items| - 1], items[|items| - 1];
      assert items == front + [last];
      ChangedSize(l, action, front);
      assert last !in front by {
        assert forall k | 0 <= k < |front| :: front[k] == items[k];
      }
      TouchedGrows(l, action, front, last);
      ChangedGrows(l, action, front, last);
    }
  }

  lemma {:induction false} AmongIs(items: seq<Url>, wanted: seq<Url>, i: Url)
    ensures i in Among(items, wanted) <==> i in items && i in wanted
  {
    if items != [] {
      var front := items[..|items| - 1];
      AmongIs(front, wanted, i);
      assert items == front + [items[|items| - 1]];
    }
  }

  lemma {:induction false} RequestedIs(l: Ledger, c: Call, i: Url)
    requires CommitOf(c).Some? && CommitOf(c).value.Control?
    ensures var commit := CommitOf(c).value;
            i in Requested(l, commit) && Touches(l, commit.action, i) <==> Concerns(l, c, i)
    ensures var commit := CommitOf(c).value;
            commit.action.RetryNow? && Distinct(l.selected) ==> Distinct(Requested(l, commit))
    ensures var commit := CommitOf(c).value;
            !commit.action.RetryNow? ==> c.parameters.itemIds.Given? && Requested(l, commit) == c.parameters.itemIds.value
  {
    hide Eligible, Revise, Hits, Changed;
    if i in l.rows {
      ItemActionIs(c, l.rows[i]);
    }
    if c.parameters.itemIds.Given? {
      AmongIs(l.selected, c.parameters.itemIds.value, i);
    }
  }

  lemma {:induction false} CountIs(l: Ledger, c: Call)
    requires WellFormed(l) && CommitOf(c).Some? && CommitOf(c).value.Control?
    ensures var commit := CommitOf(c).value; |ChangedItems(l, commit.action, Requested(l, commit))| == ChangeCount(l, c)
  {
    hide Touches, Concerns, CommitOf, Requested;
    var commit := CommitOf(c).value;
    var items := Requested(l, commit);
    forall i ensures i in items && Touches(l, commit.action, i) <==> Concerns(l, c, i) {
      RequestedIs(l, c, i);
    }
    RequestedIs(l, c, "");
    CommitAction(c);
    if c.action.RetryNowAction? {
      ChangedSize(l, commit.action, items);
      ConcernedAreSelected(l, c);
      assert Touched(l, commit.action, items) == set i | i in l.selected && Concerns(l, c, i);
    } else {
      ChangedLength(l, commit.action, items);
      assert TouchedAt(l, commit.action, items) == Mentions(l, c);
    }
  }

  lemma {:induction false} CommitAction(c: Call)
    requires CommitOf(c).Some? && CommitOf(c).value.Control?
    ensures CommitOf(c).value.action.RetryNow? <==> c.action.RetryNowAction?
    ensures ItemActionOf(c) == Some(CommitOf(c).value.action)
  {
  }

  lemma {:induction false} ConcernedAreSelected(l: Ledger, c: Call)
    ensures forall i | Concerns(l, c, i) :: i in l.selected
  {
  }

  // The commit of a call has exactly the stated effect.
  lemma {:induction false} CommitMeans(l: Ledger, c: Call)
    requires WellFormed(l)
    ensures CommitOf(c).Some? ==> Allowed(l, CommitOf(c).value)
    ensures Effect(l, c, if CommitOf(c).None? then l else Committed(l, CommitOf(c).value))
    ensures Accepted(c) <==> CommitOf(c).Some?
  {
    hide Accepted, Touches, Concerns, ChangeCount, Hits, Changed, ItemActionOf, Eligible, Revise, Requested, ChangedItems;
    AcceptedIs(c);
    CommitIsAllowed(l, c);
    if CommitOf(c).Some? && c.requestId !in l.requests {
      var commit := CommitOf(c).value;
      if commit.Control? {
        CountIs(l, c);
        CommitAction(c);
        ControlMeans(l, c, commit);
      } else {
        AuditConcernsNone(l, c);
      }
    }
  }

  lemma {:induction false} ControlMeans(l: Ledger, c: Call, commit: Commit)
    requires WellFormed(l) && CommitOf(c) == Some(commit) && commit.Control? && Allowed(l, commit) && c.requestId !in l.requests
    ensures commit.id == c.requestId
    ensures forall i | i in l.rows ::
              Committed(l, commit).rows[i] == if Concerns(l, c, i) then Changed(c, l.rows[i]) else l.rows[i]
    ensures Committed(l, commit).rows.Keys == l.rows.Keys && Committed(l, commit).selected == l.selected
  {
    hide Accepted, Concerns, Hits, Changed, ItemActionOf, Eligible, Revise, Requested, ChangedItems, Touches;
    CommitAction(c);
    forall i | i in l.rows
      ensures Committed(l, commit).rows[i] == if Concerns(l, c, i) then Changed(c, l.rows[i]) else l.rows[i]
    {
      ChangedAreListed(l, commit.action, Requested(l, commit), i);
      RequestedIs(l, c, i);
      ItemActionIs(c, l.rows[i]);
      ConcernedAreHit(l, c, i);
    }
  }

  lemma {:induction false} ConcernedAreHit(l: Ledger, c: Call, i: Url)
    ensures Concerns(l, c, i) ==> i in l.rows && Hits(c.action, l.rows[i])
  {
  }

  lemma {:induction false} AuditConcernsNone(l: Ledger, c: Call)
    requires CommitOf(c).Some? && CommitOf(c).value.Audit?
    ensures forall i :: !Concerns(l, c, i)
    ensures ChangeCount(l, c) == 0
  {
    assert Mentions(l, c) == {};
  }

  // ------------------------------------------------------------ the server

  class ControlServer {
    var confirmations: map<string, Prepared>
    var completed: map<string, Response>
    var ledger: Ledger
    // every confirmation ever handed out, every handler call, and all commits, over all restarts
    ghost var issued: map<string, Prepared>
    ghost var calls: seq<Call>
    ghost var ledgers: seq<Ledger>
    ghost var commits: seq<Commit>

    ghost predicate Valid()
      reads this
    {
      && WellFormed(ledger) && History(ledgers, commits) && ledgers[|ledgers| - 1] == ledger
      && (forall n | n in confirmations :: n in issued && issued[n] == confirmations[n])
      && OnceForNonce(calls) && Faithful(issued, calls)
      && forall k | 0 <= k < |calls| :: calls[k].nonce !in confirmations
    }

    constructor (ledger: Ledger)
      requires WellFormed(ledger)
      ensures Valid() && calls == [] && this.ledger == ledger && completed == map[] && confirmations == map[]
      ensures issued == map[] && commits == []
    {
      confirmations, completed, this.ledger := map[], map[], ledger;
      issued, calls, ledgers, commits := map[], [], [ledger], [];
    }

    // The nonce is a fresh random token.
    method Prepare(action: Action, p: Parameters, nonce: string, now: real) returns (r: Result<string, ControlError>)
      requires Valid() && nonce !in issued
      modifies this
      ensures Valid() && calls == old(calls) && ledger == old(ledger) && completed == old(completed)
      ensures r.Ok? <==> PrepareOk(action, p)
      ensures r.Ok? ==> r.value == nonce && confirmations == old(confirmations)[nonce := Fixed(action, p, now)]
                        && issued == old(issued)[nonce := Fixed(action, p, now)]
      ensures r.Err? ==> confirmations == old(confirmations) && issued == old(issued)
    {
      var itemIds: Option<seq<Url>>, priority: Option<int>, cooldown: Option<int> := None, None, None;
      if OnItems(action) || (action.RetryNowAction? && !p.itemIds.Absent?) {
        if !ItemIdsOk(p.itemIds) {
          return Err(BadParameters);
        }
        itemIds := Some(p.itemIds.value);
      }
      if action.SetPriority? {
        if !PriorityOk(p.priority) {
          return Err(BadParameters);
        }
        priority := Some(p.priority.value);
      }
      if action.SetCooldown? {
        if !CooldownOk(p.cooldown) {
          return Err(BadParameters);
        }
        cooldown := Some(p.cooldown.value);
      }
      var prepared := Prepared(action, now + CONFIRMATION_S, itemIds, priority, cooldown);
      confirmations := confirmations[nonce := prepared];
      issued := issued[nonce := prepared];
      r := Ok(nonce);
    }

    // `confirmed` is the action that the request repeats as its confirmation.
    method Confirm(action: Action, requestId: string, nonce: string, confirmed: Action, p: Parameters, now: real)
      returns (r: Result<Response, ControlError>)
      requires Valid()
      modifies this
      ensures Valid() && issued == old(issued)
      ensures requestId in old(completed) ==>
                r == Ok(old(completed)[requestId]) && calls == old(calls) && ledger == old(ledger) && completed == old(completed)
                && confirmations == old(confirmations)
      ensures requestId !in old(completed) ==> confirmations == old(confirmations) - {nonce}
      ensures requestId !in old(completed) ==>
                (r.Ok? <==> nonce in old(confirmations) && old(confirmations)[nonce].action == action == confirmed
                            && now <= old(confirmations)[nonce].deadline)
      ensures requestId !in old(completed) && r.Ok? ==>
                && calls == old(calls) + [Call(nonce, requestId, action, Carried(old(confirmations)[nonce], p), now)]
                && completed == old(completed)[requestId := r.value]
                && ledger == (var c := CommitOf(calls[|calls| - 1]); if c.None? then old(ledger) else Committed(old(ledger), c.value))
                && Effect(old(ledger), calls[|calls| - 1], ledger)
      ensures r.Err? ==> calls == old(calls) && ledger == old(ledger) && completed == old(completed)
    {
      hide Committed, CommitOf, Effect, Accepted;
      if requestId in completed {
        return Ok(completed[requestId]);
      }
      if nonce !in confirmations {
        confirmations := confirmations - {nonce};
        return Err(InvalidOrExpired);
      }
      var prepared := confirmations[nonce];
      confirmations := confirmations - {nonce};
      if prepared.action != action || now > prepared.deadline || confirmed != action {
        return Err(InvalidOrExpired);
      }
      var call := Call(nonce, requestId, action, Carried(prepared, p), now);
      CallIsFaithful(issued, calls, call, p);
      calls := calls + [call];
      var response := Handle(call);
      completed := completed[requestId := response];
      r := Ok(response);
    }

    // One handler: the durable guard answers a request ID that it knows with the old reply.
    method Handle(c: Call) returns (response: Response)
      requires WellFormed(ledger) && History(ledgers, commits) && ledgers[|ledgers| - 1] == ledger
      modifies this`ledger, this`ledgers, this`commits
      ensures WellFormed(ledger) && History(ledgers, commits) && ledgers[|ledgers| - 1] == ledger
      ensures ledger == if CommitOf(c).None? then old(ledger) else Committed(old(ledger), CommitOf(c).value)
      ensures response == if CommitOf(c).None? then Rejected else Completed(ledger.requests[c.requestId])
      ensures CommitOf(c).Some? ==> c.requestId in ledger.requests
      ensures Effect(old(ledger), c, ledger)
      ensures response == if Accepted(c) then Completed(ledger.requests[c.requestId]) else Rejected
    {
      hide Committed, CommitOf, Effect, Accepted;
      CommitMeans(ledger, c);
      var commit := CommitOf(c);
      if commit.None? {
        return Rejected;
      }
      CommitIsAllowed(ledger, c);
      CommitKinds(c);
      CommitKeepsValid(ledger, commit.value);
      RequestIsRemembered(ledger, commit.value, c.requestId);
      HistoryGrows(ledgers, commits, commit.value);
      ledger := Committed(ledger, commit.value);
      ledgers, commits := ledgers + [ledger], commits + [commit.value];
      response := Completed(ledger.requests[c.requestId]);
    }

    // A commit of a worker between two requests.
    method Work(c: Commit)
      requires Valid() && Allowed(ledger, c)
      modifies this
      ensures Valid() && ledger == Committed(old(ledger), c) && calls == old(calls) && issued == old(issued)
      ensures confirmations == old(confirmations) && completed == old(completed)
    {
      hide Committed;
      CommitKeepsValid(ledger, c);
      HistoryGrows(ledgers, commits, c);
      ledger := Committed(ledger, c);
      ledgers, commits := ledgers + [ledger], commits + [c];
    }

    // A new controller session knows no confirmation and no completed request.
    method Restart()
      requires Valid()
      modifies this
      ensures Valid() && calls == old(calls) && ledger == old(ledger) && issued == old(issued)
      ensures confirmations == map[] && completed == map[]
    {
      confirmations, completed := map[], map[];
    }
  }

  lemma {:induction false} CommitKinds(c: Call)
    ensures CommitOf(c).Some? ==> CommitOf(c).value.Control? || CommitOf(c).value.Audit?
  {
  }

  lemma {:induction false} HistoryGrows(ledgers: seq<Ledger>, commits: seq<Commit>, c: Commit)
    requires History(ledgers, commits) && WellFormed(ledgers[|ledgers| - 1]) && Allowed(ledgers[|ledgers| - 1], c)
    ensures History(ledgers + [Committed(ledgers[|ledgers| - 1], c)], commits + [c])
  {
    hide Committed, WellFormed, Allowed;
  }

  // ------------------------------------------------------------ what holds over every interleaving

  // A nonce triggers one handler call at most.
  ghost predicate OnceForNonce(calls: seq<Call>) {
    forall k, n | 0 <= k < n < |calls| :: calls[k].nonce != calls[n].nonce
  }

  // Every call carries what its prepare step fixed, and comes in time.
  ghost predicate Faithful(issued: map<string, Prepared>, calls: seq<Call>) {
    forall k | 0 <= k < |calls| :: calls[k].nonce in issued && Carries(issued[calls[k].nonce], calls[k])
  }

  predicate Carries(prepared: Prepared, c: Call) {
    && c.action == prepared.action && c.at <= prepared.deadline
    && (prepared.itemIds.Some? ==> c.parameters.itemIds == Given(prepared.itemIds.value))
    && (prepared.priority.Some? ==> c.parameters.priority == Given(prepared.priority.value))
    && (prepared.cooldown.Some? ==> c.parameters.cooldown == Given(prepared.cooldown.value))
  }

  lemma {:induction false} CallIsFaithful(issued: map<string, Prepared>, calls: seq<Call>, c: Call, p: Parameters)
    requires OnceForNonce(calls) && Faithful(issued, calls)
    requires c.nonce in issued && c.action == issued[c.nonce].action && c.at <= issued[c.nonce].deadline
    requires c.parameters == Carried(issued[c.nonce], p)
    requires forall k | 0 <= k < |calls| :: calls[k].nonce != c.nonce
    ensures OnceForNonce(calls + [c]) && Faithful(issued, calls + [c])
  {
  }

  // What a preparation needs and fixes: the items, priority and cooldown of the actions that have one,
  // and a minute to confirm.
  lemma {:induction false} PreparedIs(action: Action, p: Parameters, now: real)
    ensures PrepareOk(action, p) <==>
              && (action.Exclude? || action.ResumeGeneration? || action.RetryDenied? || action.SetPriority? || action.SetCooldown?
                  || (action.RetryNowAction? && !p.itemIds.Absent?) ==>
                    p.itemIds.Given? && |p.itemIds.value| > 0 && "" !in p.itemIds.value)
              && (action.SetPriority? ==> p.priority.Given? && -5 <= p.priority.value <= 5)
              && (action.SetCooldown? ==> p.cooldown.Given? && 0 <= p.cooldown.value <= 3600)
    ensures PrepareOk(action, p) ==>
              var prepared := Fixed(action, p, now);
              && prepared.action == action && prepared.deadline == now + 60.0
              && (prepared.itemIds.Some? <==> p.itemIds.Given? && action in ItemActions)
              && (prepared.itemIds.Some? ==> prepared.itemIds.value == p.itemIds.value)
              && prepared.priority == (if action.SetPriority? then Some(p.priority.value) else None)
              && prepared.cooldown == (if action.SetCooldown? then Some(p.cooldown.value) else None)
  {
    assert p.itemIds.Given? ==> ("" !in p.itemIds.value <==> forall k | 0 <= k < |p.itemIds.value| :: p.itemIds.value[k] != "");
  }

  const ItemActions := {RetryNowAction, Exclude, ResumeGeneration, RetryDenied, SetPriority, SetCooldown}

  // A confirmation carries what was fixed, and its own values of what was not.
  lemma {:induction false} CarriedIs(prepared: Prepared, p: Parameters)
    ensures var c := Carried(prepared, p);
            && c.itemIds == (if prepared.itemIds.Some? then Given(prepared.itemIds.value) else p.itemIds)
            && c.priority == (if prepared.priority.Some? then Given(prepared.priority.value) else p.priority)
            && c.cooldown == (if prepared.cooldown.Some? then Given(prepared.cooldown.value) else p.cooldown)
  {
  }

  // The items of a call are the prepared ones, except when "retry now" was prepared for the whole
  // run: then the confirming request may still name items of its own.
  lemma {:induction false} ItemsAreFixedIff(action: Action, prepare: Parameters, confirm: Parameters, now: real)
    requires PrepareOk(action, prepare) && (OnItems(action) || action.RetryNowAction?)
    ensures Carried(Fixed(action, prepare, now), confirm).itemIds == prepare.itemIds
            <==> (prepare.itemIds.Given? || confirm.itemIds.Absent?)
  {
  }

  lemma {:induction false} RetryScopeExample()
    ensures var prepare, confirm := Parameters(Absent, Absent, Absent), Parameters(Given(["u"]), Absent, Absent);
            && PrepareOk(RetryNowAction, prepare)
            && Carried(Fixed(RetryNowAction, prepare, 0.0), confirm).itemIds == Given(["u"])
  {
  }

  datatype Event =
    | Preparing(action: Action, parameters: Parameters, nonce: string, at: real)
    | Confirming(action: Action, requestId: string, nonce: string, confirmed: Action, parameters: Parameters, at: real)
    | Working(commit: Commit)
    | Restarting

  // The events that a token generator can produce: every preparation has a nonce of its own.
  predicate FreshNonces(events: seq<Event>) {
    forall k, n | 0 <= k < n < |events| && events[k].Preparing? && events[n].Preparing? :: events[k].nonce != events[n].nonce
  }

  // Whatever requests are sent in whatever order, expired, replayed or cut by restarts: a nonce
  // triggers one call at most, every call is the prepared one and in time, and a request ID
  // changes the database once.
  method RunInterleaving(ledger: Ledger, events: seq<Event>) returns (server: ControlServer)
    requires WellFormed(ledger) && FreshNonces(events)
    ensures fresh(server) && server.Valid() && OnceForNonce(server.calls) && Faithful(server.issued, server.calls)
    ensures forall a, b | 0 <= a < b < |server.commits| && SameRequest(server.commits[a], server.commits[b]) ::
              server.ledgers[b + 1] == server.ledgers[b]
  {
    server := new ControlServer(ledger);
    for k := 0 to |events|
      invariant fresh(server) && server.Valid()
      invariant forall n | n in server.issued :: exists l :: 0 <= l < k && events[l].Preparing? && events[l].nonce == n
    {
      match events[k]
      case Preparing(action, parameters, nonce, at) =>
        var _ := server.Prepare(action, parameters, nonce, at);
      case Confirming(action, requestId, nonce, confirmed, parameters, at) =>
        var _ := server.Confirm(action, requestId, nonce, confirmed, parameters, at);
      case Working(commit) =>
        if Allowed(server.ledger, commit) {
          server.Work(commit);
        }
      case Restarting => server.Restart();
    }
    forall a, b | 0 <= a < b < |server.commits| && SameRequest(server.commits[a], server.commits[b])
      ensures server.ledgers[b + 1] == server.ledgers[b]
    {
      RequestChangesOnce(server.ledgers, server.commits, a, b);
    }
  }

  // Two commits of requests with one ID.
  predicate SameRequest(c: Commit, d: Commit) {
    (c.Control? || c.Audit?) && (d.Control? || d.Audit?) && c.id == d.id
  }
}
