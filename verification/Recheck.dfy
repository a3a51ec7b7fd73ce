/** How often one unavailable item is rechecked. */
module Recheck {
  import opened Prelude
  import opened Database
  import opened Promotion

  // What happens to one row; `Elsewhere` is any other transition: it leaves "unavailable" or stays
  // out of it, whatever else it sets, and pulls no recheck forward.
  datatype Event =
    | ImportRow(generation: Option<string>, at: real)
    | NotFound(size: nat, failure: Failure, at: real)
    | Claimed(at: real)
    | Returned(at: real)
    | Elsewhere(row: Row, at: real)

  predicate Due(row: Row, now: real) {
    row.recheckAt.None? || row.recheckAt.value <= now
  }

  // next_recheck
  predicate Claimable(row: Row, now: real) {
    row.status.Unavailable? && (row.early == 1 || Due(row, now))
  }

  predicate Differs(row: Row, generation: Option<string>) {
    Present(row.sourceGeneration) && Present(generation) && row.sourceGeneration != generation
  }

  // record_source_generation pulls the next recheck forward.
  predicate Triggers(row: Row, e: Event) {
    e.ImportRow? && row.status.Unavailable? && row.early != 1 && Differs(row, e.generation) && !Due(row, e.at)
  }

  predicate Possible(row: Row, e: Event) {
    match e
    case ImportRow(_, _) => true
    case NotFound(_, failure, _) => !failure.diskFull && !failure.denied && failure.gone
    case Claimed(at) => Claimable(row, at)
    case Returned(_) => true
    case Elsewhere(row', _) => !row'.status.Unavailable? && (row'.early == 1 ==> row.early == 1)
  }

  function Next(row: Row, e: Event): Row
    requires Possible(row, e)
  {
    match e
    case ImportRow(generation, _) => row.(early := if Triggers(row, e) then 1 else row.early, sourceGeneration := generation)
    case NotFound(size, failure, at) => FailedRow(row, 0, size, failure, at, false)
    case Claimed(at) => ClaimedRow(row, at)
    case Returned(_) => row.(status := Queued, nextRetryAt := 0.0, recheckAt := None)
    case Elsewhere(row', _) => row'
  }

  predicate AllPossible(row: Row, events: seq<Event>)
    decreases |events|
  {
    events == [] || (Possible(row, events[0]) && AllPossible(Next(row, events[0]), events[1..]))
  }

  function Claims(events: seq<Event>): nat {
    if events == [] then 0 else (if events[0].Claimed? then 1 else 0) + Claims(events[1..])
  }

  // Imports that gave the item another generation.
  function DifferingImports(row: Row, events: seq<Event>): nat
    requires AllPossible(row, events)
    decreases |events|
  {
    if events == [] then 0
    else
      (if events[0].ImportRow? && Differs(row, events[0].generation) then 1 else 0)
      + DifferingImports(Next(row, events[0]), events[1..])
  }

  predicate Within(events: seq<Event>, start: real) {
    forall k | 0 <= k < |events| :: start <= events[k].at < start + DAY
  }

  // After a claim in the window, the item is not due again before the window ends.
  predicate Spent(row: Row, start: real) {
    row.status.Unavailable? ==> row.recheckAt.Some? && row.recheckAt.value >= start + DAY
  }

  function Early(row: Row): nat {
    if row.early == 1 then 1 else 0
  }

  // Every further claim uses up one trigger.
  lemma {:induction false} ClaimsAfterOne(row: Row, events: seq<Event>, start: real)
    requires AllPossible(row, events) && Within(events, start) && Spent(row, start)
    ensures Claims(events) <= Early(row) + DifferingImports(row, events)
    decreases |events|
  {
    if events != [] {
      var e := events[0];
      var row' := Next(row, e);
      assert start <= e.at < start + DAY;
      assert Within(events[1..], start);
      ClaimsAfterOne(row', events[1..], start);
    }
  }

  // Recheck rate: in any 24 hours, whatever else happens to the item, its claims number at most
  // one plus the imports that gave it a differing generation.
  lemma {:induction false} RecheckRate(row: Row, events: seq<Event>, start: real)
    requires AllPossible(row, events) && Within(events, start)
    ensures Claims(events) <= 1 + DifferingImports(row, events)
    decreases |events|
  {
    if events != [] {
      var e := events[0];
      assert start <= e.at < start + DAY;
      assert Within(events[1..], start);
      if e.Claimed? {
        ClaimsAfterOne(Next(row, e), events[1..], start);
      } else {
        RecheckRate(Next(row, e), events[1..], start);
      }
    }
  }

  predicate Given(text: Option<string>) {
    text.Some? && |text.value| > 0
  }

  // A file that is found missing, and one whose recheck was claimed, is due again after one day.
  lemma {:induction false} DueAfterOneDay(row: Row, e: Event, now: real)
    requires Possible(row, e) && (e.NotFound? || e.Claimed?)
    ensures Claimable(Next(row, e), now) <==> now >= e.at + 86400.0
  {
  }

  // What an event leaves in the row: an import marks a recheck as pulled forward only for an unavailable
  // item that is not marked or due already; a returning item is queued at once; a claim spends the mark.
  lemma {:induction false} EventMeans(row: Row, e: Event)
    requires Possible(row, e)
    ensures var row' := Next(row, e);
            match e
            case ImportRow(generation, at) =>
              && row' == row.(early := row'.early, sourceGeneration := generation)
              && row'.early == (if row.status.Unavailable? && row.early != 1 && row.recheckAt.Some? && row.recheckAt.value > at
                                   && Given(row.sourceGeneration) && Given(generation)
                                   && row.sourceGeneration.value != generation.value then 1 else row.early)
            case NotFound(size, failure, at) =>
              row' == row.(status := Unavailable, bytes := Some(size), lastError := Some(failure), early := 0,
                           recheckAt := Some(at + 86400.0))
            case Claimed(at) =>
              row' == row.(recheckAt := Some(at + 86400.0),
                           early := if row.early == 1 && (if row.recheckAt.Some? then row.recheckAt.value else 0.0) > at then 2 else 0)
            case Returned(at) => row' == row.(status := Queued, nextRetryAt := 0.0, recheckAt := None)
            case Elsewhere(other, at) => row' == other
  {
  }

  // Before that it becomes due exactly by an import with another known generation.
  lemma {:induction false} DueByImportIff(row: Row, generation: Option<string>, now: real)
    ensures Claimable(Next(row, ImportRow(generation, now)), now)
            <==> && row.status.Unavailable?
                 && (|| row.early == 1 || row.recheckAt.None? || row.recheckAt.value <= now
                     || (&& Given(row.sourceGeneration) && Given(generation)
                         && row.sourceGeneration.value != generation.value))
    ensures Next(row, ImportRow(generation, now)).sourceGeneration == generation
  {
  }

  // One claim more than one is possible: a differing generation makes the item due at once.
  lemma {:induction false} EarlyRecheckExample()
    ensures var row := NewRow("a", "a", None, Some("g1")).(status := Unavailable);
            var events := [Claimed(0.0), ImportRow(Some("g2"), 1.0), Claimed(2.0)];
            AllPossible(row, events) && Within(events, 0.0) && Claims(events) == 2 && DifferingImports(row, events) == 1
  {
    var row := NewRow("a", "a", None, Some("g1")).(status := Unavailable);
    var one, two, three := Claimed(0.0), ImportRow(Some("g2"), 1.0), Claimed(2.0);
    var row1 := Next(row, one);
    var row2 := Next(row1, two);
    assert [one, two, three][1..] == [two, three] && [two, three][1..] == [three] && [three][1..] == [];
    assert AllPossible(row2, [three]) && AllPossible(row1, [two, three]);
    assert Claims([three]) == 1 && Claims([two, three]) == 1;
    assert DifferingImports(row2, [three]) == 0 && DifferingImports(row1, [two, three]) == 1;
  }
}
