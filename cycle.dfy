/** `check_for_new_ipos`: read the known ids, fetch, keep the unseen entries,
    save them, then alert once per entry in order. */
module Cycle {
  import opened Common
  import opened Entry
  import opened Store
  import opened Fetch
  import opened Alert

  /** `[entry for entry in latest if entry.id not in known]`. */
  function NewEntries(latest: seq<IpoEntry>, known: set<int>): (r: seq<IpoEntry>)
    ensures |r| <= |latest|
    ensures forall e :: e in r <==> e in latest && e.id !in known
  {
    if latest == [] then []
    else (if latest[0].id in known then [] else [latest[0]]) + NewEntries(latest[1..], known)
  }

  /** The filter keeps the fetched order: filtering a concatenation is
      concatenating the filtered parts. */
  lemma {:induction false} NewEntriesAppend(a: seq<IpoEntry>, b: seq<IpoEntry>, known: set<int>)
    ensures NewEntries(a + b, known) == NewEntries(a, known) + NewEntries(b, known)
    decreases |a|
  {
    if a != [] {
      assert (a + b)[1..] == a[1..] + b;
      NewEntriesAppend(a[1..], b, known);
    } else {
      assert a + b == b;
    }
  }

  /** An unseen entry is kept as often as it was fetched, a known one never. */
  lemma {:induction false} NewEntriesCount(latest: seq<IpoEntry>, known: set<int>, e: IpoEntry)
    ensures multiset(NewEntries(latest, known))[e] == if e.id in known then 0 else multiset(latest)[e]
    decreases |latest|
  {
    if latest != [] {
      NewEntriesCount(latest[1..], known, e);
      assert latest == [latest[0]] + latest[1..];
    }
  }

  /** Once every fetched id is known, nothing is new. */
  lemma NewEntriesAllKnown(latest: seq<IpoEntry>, known: set<int>)
    requires Ids(latest) <= known
    ensures NewEntries(latest, known) == []
  {
  }

  /** One step of the observable trace of a cycle. */
  datatype Event =
    | Saved(batch: seq<IpoEntry>)                              // `save_ipo_entries(new_entries)`
    | Alerted(entry: IpoEntry, result: Result<bool, Exception>) // one `send_telegram_alert` call

  /** How a cycle ends: normally, or with an exception nothing caught. */
  datatype Outcome = Completed | Aborted(error: Exception)

  /** The alert calls of one cycle and how the loop ended. */
  datatype AlertRun = AlertRun(events: seq<Event>, outcome: Outcome)

  /** The alert loop, one `send` call per entry in order: the boolean each call
      returns is ignored, an exception ends the loop. */
  function AlertAll(send: IpoEntry -> Result<bool, Exception>, es: seq<IpoEntry>): AlertRun {
    if es == [] then AlertRun([], Completed)
    else
      var sent := send(es[0]);
      if sent.Err? then AlertRun([Alerted(es[0], sent)], Aborted(sent.error))
      else
        var rest := AlertAll(send, es[1..]);
        AlertRun([Alerted(es[0], sent)] + rest.events, rest.outcome)
  }

  /** The loop alerts a prefix of the batch, in order and once each; it goes on
      after calls that return (true or false) and stops at the first that raises. */
  lemma {:induction false} AlertAllShape(send: IpoEntry -> Result<bool, Exception>, es: seq<IpoEntry>)
    ensures var run := AlertAll(send, es);
            && |run.events| <= |es|
            && (forall j :: 0 <= j < |run.events| ==> run.events[j] == Alerted(es[j], send(es[j])))
            && (forall j :: 0 <= j < |run.events| - 1 ==> send(es[j]).Ok?)
            && (run.outcome == Completed <==>
                  |run.events| == |es| && forall j :: 0 <= j < |es| ==> send(es[j]).Ok?)
            && (run.outcome.Aborted? ==>
                  |run.events| >= 1 && send(es[|run.events| - 1]) == Err(run.outcome.error))
    decreases |es|
  {
    if es != [] && send(es[0]).Ok? {
      AlertAllShape(send, es[1..]);
      assert forall j :: 1 <= j < |es| ==> es[j] == es[1..][j - 1];
    }
  }

  /** One turn of the alert loop after a call that returned. */
  lemma AlertAllStep(send: IpoEntry -> Result<bool, Exception>, es: seq<IpoEntry>)
    requires es != [] && send(es[0]).Ok?
    ensures AlertAll(send, es).events == [Alerted(es[0], send(es[0]))] + AlertAll(send, es[1..]).events
    ensures AlertAll(send, es).outcome == AlertAll(send, es[1..]).outcome
  {
  }

  /** The alert call `check_for_new_ipos` makes for each new entry. */
  function Sender(cfg: Config, post: Request -> PostResult): IpoEntry -> Result<bool, Exception> {
    e => SendTelegramAlert(cfg, e, post)
  }

  /** The effect of one cycle: its trace, how it ended and the table afterwards. */
  datatype CycleResult = CycleResult(events: seq<Event>, outcome: Outcome, table: map<int, Row>)

  /** What `check_for_new_ipos` does to a table of stored rows, given what
      `fetch_ipo_data` produced and the alert call. */
  function Cycle(table: map<int, Row>, fetched: Result<seq<IpoEntry>, Exception>,
                 send: IpoEntry -> Result<bool, Exception>): CycleResult
  {
    if fetched.Err? then CycleResult([], Aborted(fetched.error), table)
    else
      var unseen := NewEntries(fetched.value, table.Keys);
      if unseen == [] then CycleResult([], Completed, table)
      else
        var run := AlertAll(send, unseen);
        CycleResult([Saved(unseen)] + run.events, run.outcome, InsertAll(table, unseen))
  }

  /** Every fetched id is either known already or carried by a new entry.
      A corollary of the membership ensures of `NewEntries`, stated on ids. */
  lemma NewEntriesCoverFetched(latest: seq<IpoEntry>, known: set<int>)
    ensures Ids(latest) <= known + Ids(NewEntries(latest, known))
    ensures Ids(NewEntries(latest, known)) !! known
  {
  }

  /** A cycle that raises while fetching, or finds nothing new, saves nothing and
      sends no alert. */
  lemma CycleQuietWhenNothingNew(table: map<int, Row>, fetched: Result<seq<IpoEntry>, Exception>,
                                 send: IpoEntry -> Result<bool, Exception>)
    requires fetched.Err? || NewEntries(fetched.value, table.Keys) == []
    ensures Cycle(table, fetched, send).events == []
    ensures Cycle(table, fetched, send).table == table
  {
  }

  /** With new entries, the whole batch is saved first; then alert calls follow,
      one per new entry in order, until the batch is done or a call raises. */
  lemma CycleSavesThenAlerts(table: map<int, Row>, fetched: Result<seq<IpoEntry>, Exception>,
                             send: IpoEntry -> Result<bool, Exception>)
    requires fetched.Ok?
    requires NewEntries(fetched.value, table.Keys) != []
    ensures var batch := NewEntries(fetched.value, table.Keys);
            var c := Cycle(table, fetched, send);
            && 1 <= |c.events| <= |batch| + 1
            && c.events[0] == Saved(batch)
            && (forall j :: 1 <= j < |c.events| ==>
                  c.events[j] == Alerted(batch[j - 1], send(batch[j - 1])))
            && (c.outcome == Completed <==>
                  |c.events| == |batch| + 1
                  && forall j :: 0 <= j < |batch| ==> send(batch[j]).Ok?)
  {
    var batch := NewEntries(fetched.value, table.Keys);
    var run := AlertAll(send, batch);
    AlertAllShape(send, batch);
    var events := [Saved(batch)] + run.events;
    assert forall j :: 1 <= j < |events| ==> events[j] == run.events[j - 1];
  }

  /** After a cycle, stored rows keep their contents, every fetched id is known,
      and a new entry whose id is not repeated earlier in the batch is stored as is. */
  lemma {:induction false} CycleStore(table: map<int, Row>, fetched: Result<seq<IpoEntry>, Exception>,
                                      send: IpoEntry -> Result<bool, Exception>)
    ensures var t := Cycle(table, fetched, send).table;
            forall k :: k in table ==> k in t && t[k] == table[k]
    ensures fetched.Ok? ==>
              Ids(fetched.value) <= Cycle(table, fetched, send).table.Keys
    ensures fetched.Ok? ==>
              var batch := NewEntries(fetched.value, table.Keys);
              var t := Cycle(table, fetched, send).table;
              forall i :: 0 <= i < |batch| && (forall j :: 0 <= j < i ==> batch[j].id != batch[i].id) ==>
                batch[i].id in t && t[batch[i].id] == RowOf(batch[i])
  {
    if fetched.Ok? {
      var batch := NewEntries(fetched.value, table.Keys);
      NewEntriesCoverFetched(fetched.value, table.Keys);
      InsertAllShape(table, batch);
      forall i | 0 <= i < |batch| && (forall j :: 0 <= j < i ==> batch[j].id != batch[i].id)
        ensures batch[i].id in InsertAll(table, batch) && InsertAll(table, batch)[batch[i].id] == RowOf(batch[i])
      {
        assert batch[i] in batch;
        InsertAllFirstWins(table, batch, i);
      }
    }
  }

  /** Change detection is idempotent: a second cycle over the same answer finds
      nothing new, saves nothing and alerts nobody again. */
  lemma CycleRepeatIsQuiet(table: map<int, Row>, fetched: Result<seq<IpoEntry>, Exception>,
                           send: IpoEntry -> Result<bool, Exception>)
    ensures var first := Cycle(table, fetched, send);
            var second := Cycle(first.table, fetched, send);
            second.events == [] && second.table == first.table
  {
    var first := Cycle(table, fetched, send);
    if fetched.Ok? {
      CycleStore(table, fetched, send);
      NewEntriesAllKnown(fetched.value, first.table.Keys);
    }
  }

  /** The `for entry in new_entries` loop of `check_for_new_ipos`. */
  method SendAlerts(newEntries: seq<IpoEntry>, send: IpoEntry -> Result<bool, Exception>)
    returns (events: seq<Event>, outcome: Outcome)
    ensures AlertRun(events, outcome) == AlertAll(send, newEntries)
  {
    events, outcome := [], Completed;
    var i := 0;
    while i < |newEntries|
      invariant 0 <= i <= |newEntries|
      invariant events + AlertAll(send, newEntries[i..]).events == AlertAll(send, newEntries).events
      invariant AlertAll(send, newEntries[i..]).outcome == AlertAll(send, newEntries).outcome
      invariant outcome == Completed
    {
      var sent := send(newEntries[i]);
      ghost var rest := newEntries[i..];
      assert rest[0] == newEntries[i] && rest[1..] == newEntries[i + 1..];
      events := events + [Alerted(newEntries[i], sent)];
      if sent.Err? {
        outcome := Aborted(sent.error);
        return;
      }
      AlertAllStep(send, rest);
      i := i + 1;
    }
  }

  /** `check_for_new_ipos` against a store. */
  method CheckForNewIpos(store: IpoStore, response: HttpResult, html: HtmlParser,
                         cfg: Config, post: Request -> PostResult)
    returns (events: seq<Event>, outcome: Outcome)
    modifies store
    ensures CycleResult(events, outcome, store.table)
              == Cycle(old(store.table), FetchIpoData(response, html), Sender(cfg, post))
  {
    var known := store.KnownIds();
    var latest := FetchIpoData(response, html);
    if latest.Err? {
      return [], Aborted(latest.error);
    }
    var newEntries := NewEntries(latest.value, known);
    assert known == old(store.table).Keys;
    if newEntries == [] {
      return [], Completed;
    }
    store.SaveEntries(newEntries);
    var alerts;
    alerts, outcome := SendAlerts(newEntries, Sender(cfg, post));
    events := [Saved(newEntries)] + alerts;
  }
}
