/**
 * The projection worker: it reads the execution stream in batches, applies each batch to the tables together
 * with the new checkpoint in one transaction, and moves on only if the transaction commits.
 */
module Workers {
  import opened Types
  import opened Fees
  import opened Ledger
  import opened Effects
  import opened Engine
  import opened Projection
  import opened OrderRows

  const BATCH: nat := 100

  /** Stream records by position; `None` is a record without readable data. */
  type Stream = seq<Option<Event>>

  datatype Database = Database(tables: Tables, checkpoint: nat)

  /** How the transaction of a batch ends; a batch whose transaction fails leaves no trace. */
  datatype Outcome = BeginFails | CommitFails | Commits

  /** What can happen to a worker. A restart finds its checkpoint, or fails to read it and starts from 0-0. */
  datatype Happening = Appended(records: Stream) | Batch(outcome: Outcome) | Restarted(checkpointRead: bool)

  datatype State = State(stream: Stream, db: Database, lastId: nat)

  const FIRST_STATE := State([], Database(EMPTY_TABLES, 0), 0)

  function ProjectRecord(t: Tables, record: Option<Event>): Tables {
    match record
    case None => t
    case Some(event) => Project(t, event)
  }

  function ProjectRecords(t: Tables, records: Stream): Tables {
    if records == [] then t
    else ProjectRecord(ProjectRecords(t, records[..|records| - 1]), records[|records| - 1])
  }

  function BatchEnd(length: nat, lastId: nat): nat {
    if lastId + BATCH <= length then lastId + BATCH else length
  }

  predicate InStream(s: State) {
    s.lastId <= |s.stream| && s.db.checkpoint <= |s.stream|
  }

  function Next(s: State, h: Happening): (next: State)
    requires InStream(s)
    ensures InStream(next) && s.stream <= next.stream
  {
    match h
    case Appended(records) => s.(stream := s.stream + records)
    case Restarted(checkpointRead) => s.(lastId := if checkpointRead then s.db.checkpoint else 0)
    case Batch(outcome) =>
      var end := BatchEnd(|s.stream|, s.lastId);
      if outcome == Commits && s.lastId < end then
        s.(db := Database(ProjectRecords(s.db.tables, s.stream[s.lastId..end]), end), lastId := end)
      else
        s
  }

  function AfterFrom(s: State, hs: seq<Happening>): (after: State)
    requires InStream(s)
    ensures InStream(after) && s.stream <= after.stream
  {
    if hs == [] then s else Next(AfterFrom(s, hs[..|hs| - 1]), hs[|hs| - 1])
  }

  function After(hs: seq<Happening>): (s: State)
    ensures InStream(s)
  {
    AfterFrom(FIRST_STATE, hs)
  }

  // ----- Every record is applied exactly once -----

  /** The worker continues at its checkpoint, and the tables hold first these records, then all up to there. */
  predicate AppliedAfter(done: Stream, s: State) {
    && InStream(s) && s.lastId == s.db.checkpoint
    && s.db.tables == ProjectRecords(EMPTY_TABLES, done + s.stream[..s.db.checkpoint])
  }

  /** The worker continues at its checkpoint, and the tables hold exactly the records up to there, once each. */
  predicate ExactlyOnce(s: State) {
    && InStream(s) && s.lastId == s.db.checkpoint
    && s.db.tables == ProjectRecords(EMPTY_TABLES, s.stream[..s.db.checkpoint])
  }

  lemma OnceIsAfterNothing(s: State)
    ensures ExactlyOnce(s) <==> AppliedAfter([], s)
  {
    hide ProjectRecords;
    if InStream(s) {
      assert [] + s.stream[..s.db.checkpoint] == s.stream[..s.db.checkpoint];
    }
  }

  lemma {:induction false} RecordsConcat(t: Tables, xs: Stream, ys: Stream)
    ensures ProjectRecords(t, xs + ys) == ProjectRecords(ProjectRecords(t, xs), ys)
    decreases |ys|
  {
    hide ProjectRecord;
    if ys == [] {
      assert xs + ys == xs;
    } else {
      var last := |ys| - 1;
      RecordsConcat(t, xs, ys[..last]);
      assert (xs + ys)[..|xs + ys| - 1] == xs + ys[..last];
    }
  }

  lemma NextKeepsApplied(done: Stream, s: State, h: Happening)
    requires AppliedAfter(done, s) && h != Restarted(false)
    ensures AppliedAfter(done, Next(s, h))
  {
    hide ProjectRecords;
    var at := s.db.checkpoint;
    match h
    case Appended(records) => assert (s.stream + records)[..at] == s.stream[..at];
    case Restarted(_) =>
    case Batch(outcome) =>
      var end := BatchEnd(|s.stream|, s.lastId);
      RecordsConcat(EMPTY_TABLES, done + s.stream[..at], s.stream[at..end]);
      assert done + s.stream[..at] + s.stream[at..end] == done + s.stream[..end];
  }

  lemma {:induction false} HistoryKeepsApplied(done: Stream, s: State, hs: seq<Happening>)
    requires AppliedAfter(done, s) && Restarted(false) !in hs
    ensures AppliedAfter(done, AfterFrom(s, hs))
    decreases |hs|
  {
    hide AppliedAfter, Next;
    if hs != [] {
      AppliedIsInStream(done, s);
      HistoryKeepsApplied(done, s, hs[..|hs| - 1]);
      NextKeepsApplied(done, AfterFrom(s, hs[..|hs| - 1]), hs[|hs| - 1]);
    }
  }

  lemma AppliedIsInStream(done: Stream, s: State)
    requires AppliedAfter(done, s)
    ensures InStream(s)
  {
  }

  /** Whatever fails or restarts in between, as long as each restart finds its checkpoint. */
  lemma EveryRecordIsAppliedOnce(hs: seq<Happening>)
    requires Restarted(false) !in hs
    ensures ExactlyOnce(After(hs))
  {
    hide ProjectRecords, AfterFrom;
    assert ProjectRecords(EMPTY_TABLES, []) == EMPTY_TABLES by { NoRecords(EMPTY_TABLES); }
    OnceIsAfterNothing(FIRST_STATE);
    HistoryKeepsApplied([], FIRST_STATE, hs);
    OnceIsAfterNothing(After(hs));
  }

  lemma NoRecords(t: Tables)
    ensures ProjectRecords(t, []) == t
  {
  }

  // ----- Restarting -----

  /** A restart, and then the first batch that commits. */
  function Resumed(s: State, checkpointRead: bool): (r: State)
    requires InStream(s)
    ensures InStream(r)
  {
    Next(Next(s, Restarted(checkpointRead)), Batch(Commits))
  }

  /** After a fallback to 0-0 the records committed before stay in the tables, and all are applied behind them. */
  lemma FallbackAppliesAgain(s: State)
    requires ExactlyOnce(s)
    ensures AppliedAfter(s.stream[..s.db.checkpoint], Resumed(s, false))
  {
    hide ProjectRecords;
    var end := BatchEnd(|s.stream|, 0);
    RecordsConcat(EMPTY_TABLES, s.stream[..s.db.checkpoint], s.stream[..end]);
    assert s.stream[0..end] == s.stream[..end];
    NoRecords(s.db.tables);
    assert s.stream[..s.db.checkpoint] + s.stream[..0] == s.stream[..s.db.checkpoint];
  }

  function RowsOf(record: Option<Event>): seq<LedgerRow> {
    match record
    case None => []
    case Some(event) => LedgerRowsOf(event)
  }

  function RowsOfAll(records: Stream): seq<LedgerRow> {
    if records == [] then [] else RowsOfAll(records[..|records| - 1]) + RowsOf(records[|records| - 1])
  }

  lemma {:induction false} LedgerOfRecords(t: Tables, records: Stream)
    ensures ProjectRecords(t, records).ledger == t.ledger + RowsOfAll(records)
    decreases |records|
  {
    hide LedgerRowsOf, TradeRowsOf, ProjectOrder;
    if records != [] {
      LedgerOfRecords(t, records[..|records| - 1]);
    }
  }

  lemma {:induction false} RowsConcat(xs: Stream, ys: Stream)
    ensures RowsOfAll(xs + ys) == RowsOfAll(xs) + RowsOfAll(ys)
    decreases |ys|
  {
    hide RowsOf;
    if ys == [] {
      assert xs + ys == xs;
    } else {
      var last := |ys| - 1;
      RowsConcat(xs, ys[..last]);
      assert (xs + ys)[..|xs + ys| - 1] == xs + ys[..last];
    }
  }

  /** Some of these records have ledger rows. */
  predicate TouchesLedger(records: Stream) {
    exists i :: 0 <= i < |records| && RowsOf(records[i]) != []
  }

  lemma {:induction false} RowsExactlyWhenTouched(records: Stream)
    ensures RowsOfAll(records) != [] <==> TouchesLedger(records)
    decreases |records|
  {
    hide RowsOf;
    if records != [] {
      var before, last := records[..|records| - 1], records[|records| - 1];
      RowsExactlyWhenTouched(before);
      if TouchesLedger(before) {
        var i :| 0 <= i < |before| && RowsOf(before[i]) != [];
        assert RowsOf(records[i]) != [];
      }
      if TouchesLedger(records) && RowsOf(last) == [] {
        var i :| 0 <= i < |records| && RowsOf(records[i]) != [];
        assert RowsOf(before[i]) != [];
      }
    }
  }

  /** The ledger table is what the records up to the checkpoint make of an empty one. */
  predicate LedgerIsRight(s: State)
    requires InStream(s)
  {
    s.db.tables.ledger == RowsOfAll(s.stream[..s.db.checkpoint])
  }

  lemma LedgerAfter(done: Stream, s: State)
    requires AppliedAfter(done, s)
    ensures s.db.tables.ledger == RowsOfAll(done) + RowsOfAll(s.stream[..s.db.checkpoint])
    ensures LedgerIsRight(s) <==> RowsOfAll(done) == []
  {
    hide ProjectRecords, RowsOfAll;
    LedgerOfRecords(EMPTY_TABLES, done + s.stream[..s.db.checkpoint]);
    RowsConcat(done, s.stream[..s.db.checkpoint]);
  }

  lemma ResumedIsApplied(s: State, checkpointRead: bool)
    requires ExactlyOnce(s)
    ensures AppliedAfter(if checkpointRead then [] else s.stream[..s.db.checkpoint], Resumed(s, checkpointRead))
  {
    hide AppliedAfter, ExactlyOnce, Next;
    OnceIsAfterNothing(s);
    if checkpointRead {
      AppliedIsInStream([], s);
      NextKeepsApplied([], s, Restarted(true));
      NextKeepsApplied([], Next(s, Restarted(true)), Batch(Commits));
    } else {
      FallbackAppliesAgain(s);
    }
  }

  /**
   * From every healthy state: after a restart and a commit, and whatever happens next, the ledger is right at
   * every later point exactly when the checkpoint was read or none of the committed records had ledger rows.
   */
  lemma RestartIsSafeExactlyWhen(s: State, checkpointRead: bool, hs: seq<Happening>)
    requires ExactlyOnce(s) && Restarted(false) !in hs
    ensures LedgerIsRight(AfterFrom(Resumed(s, checkpointRead), hs)) <==>
            checkpointRead || !TouchesLedger(s.stream[..s.db.checkpoint])
  {
    hide AppliedAfter, LedgerIsRight, AfterFrom, Next, RowsOfAll, TouchesLedger;
    var done := if checkpointRead then [] else s.stream[..s.db.checkpoint];
    ResumedIsApplied(s, checkpointRead);
    HistoryKeepsApplied(done, Resumed(s, checkpointRead), hs);
    LedgerAfter(done, AfterFrom(Resumed(s, checkpointRead), hs));
    RowsExactlyWhenTouched(done);
    assert checkpointRead ==> !TouchesLedger(done) by { NothingTouched(); }
  }

  lemma NothingTouched()
    ensures !TouchesLedger([])
  {
  }

  // ----- A run that counts twice -----

  const FUNDING := FundingExecuted(1, Usd, 5)

  /** A run of a healthy worker: an account is funded and the record is committed. */
  const FUNDED_ONCE := [Appended([Some(FUNDING)])] + [Batch(Commits)]

  lemma OneHappeningFurther(hs: seq<Happening>, h: Happening)
    ensures After(hs + [h]) == Next(After(hs), h)
  {
    assert (hs + [h])[..|hs + [h]| - 1] == hs;
  }

  lemma AfterFunding()
    ensures var committed := State([Some(FUNDING)], Database(Tables(map[], [], LedgerRowsOf(FUNDING)), 1), 1);
            After(FUNDED_ONCE) == committed && ExactlyOnce(committed)
  {
    hide After, ProjectRecords, Project, LedgerRowsOf;
    var stream := [Some(FUNDING)];
    OneHappeningFurther([], Appended(stream));
    OneHappeningFurther([Appended(stream)], Batch(Commits));
    NothingHappened();
    assert [] + [Appended(stream)] == [Appended(stream)];
    assert [] + stream == stream && stream[..1] == stream && stream[0..1] == stream;
    ProjectOneRecord(EMPTY_TABLES, FUNDING);
    ProjectFunding(EMPTY_TABLES);
  }

  lemma NothingHappened()
    ensures After([]) == FIRST_STATE
  {
  }

  lemma ProjectFunding(t: Tables)
    ensures Project(t, FUNDING) == t.(ledger := t.ledger + LedgerRowsOf(FUNDING))
    ensures [] + LedgerRowsOf(FUNDING) == LedgerRowsOf(FUNDING)
  {
    assert t.trades + [] == t.trades;
  }

  /** If it then restarts without its checkpoint, the ledger holds twice what the engine's account holds. */
  lemma RestartingFromZeroDuplicates()
    ensures ExactlyOnce(After(FUNDED_ONCE))
    ensures var after := After(FUNDED_ONCE + [Restarted(false)] + [Batch(Commits)]);
            && after.db.tables.ledger == LedgerRowsOf(FUNDING) + LedgerRowsOf(FUNDING)
            && AccountTotal(after.db.tables.ledger, Account(1, Usd)) == 10
  {
    hide After, ProjectRecords, Project, LedgerRowsOf, ExactlyOnce;
    AfterFunding();
    var committed := After(FUNDED_ONCE);
    OneHappeningFurther(FUNDED_ONCE, Restarted(false));
    OneHappeningFurther(FUNDED_ONCE + [Restarted(false)], Batch(Commits));
    assert committed.stream[0..1] == [Some(FUNDING)];
    ProjectOneRecord(committed.db.tables, FUNDING);
    ProjectFunding(committed.db.tables);
    var rows := LedgerRowsOf(FUNDING);
    TotalsConcat(rows, rows, Account(1, Usd), Usd);
    FundingTotal();
  }

  lemma FundingTotal()
    ensures AccountTotal(LedgerRowsOf(FUNDING), Account(1, Usd)) == 5
  {
    var rows := LedgerRowsOf(FUNDING);
    TotalsOfTwo(rows[0], rows[1], Account(1, Usd), Usd);
    assert rows == [rows[0], rows[1]];
  }

  lemma ProjectOneRecord(t: Tables, event: Event)
    ensures ProjectRecords(t, [Some(event)]) == Project(t, event)
  {
    assert [Some(event)][..0] == [];
    assert ProjectRecords(t, []) == t;
  }

  // ----- The read model -----

  /** The stream the engine's events make. */
  function Published(events: seq<Event>): (stream: Stream)
    ensures |stream| == |events|
  {
    if events == [] then [] else Published(events[..|events| - 1]) + [Some(events[|events| - 1])]
  }

  lemma {:induction false} PublishedProjects(t: Tables, events: seq<Event>)
    ensures ProjectRecords(t, Published(events)) == ProjectAll(t, events)
    decreases |events|
  {
    if events != [] {
      var last := |events| - 1;
      PublishedProjects(t, events[..last]);
      assert Published(events)[..last] == Published(events[..last]);
    }
  }

  /**
   * The read model agrees with the engine once the worker has caught up, whatever batches failed and however
   * often the worker restarted on the way: ledger rows sum to balances, and order rows mirror the books.
   */
  lemma ReadModelAgrees(hs: seq<Happening>, fees: FeeSchedule, log: seq<Command>, k: Account, cur: Currency)
    requires ResetFree(log) && Restarted(false) !in hs
    ensures CaughtUp(After(hs), fees, log) ==>
              var tables := After(hs).db.tables;
              var e := Run(Initial(fees), log);
              && AccountTotal(tables.ledger, k) == Get(e.accounts, k).available + Get(e.accounts, k).locked
              && (fees.Bounded() ==> CurrencyTotal(tables.ledger, cur) == 0)
              && RowsAgree(tables.orders, e)
  {
    hide After, ProjectRecords, ProjectAll, Run, Emitted, RowsAgree, AccountTotal, CurrencyTotal,
      FeeSchedule.Bounded;
    var s := After(hs);
    if CaughtUp(s, fees, log) {
      EveryRecordIsAppliedOnce(hs);
      assert s.stream[..s.db.checkpoint] == s.stream;
      PublishedProjects(EMPTY_TABLES, Emitted(Initial(fees), log));
      LedgerAgrees(fees, log, k, cur);
      OrdersAgree(fees, log);
    }
  }

  /** Everything the engine emitted over the log is in the stream, and all of it is committed. */
  predicate CaughtUp(s: State, fees: FeeSchedule, log: seq<Command>) {
    s.stream == Published(Emitted(Initial(fees), log)) && s.db.checkpoint == |s.stream|
  }

  // ----- The read model after a fallback -----

  lemma {:induction false} PublishedAt(events: seq<Event>, i: nat)
    requires i < |events|
    ensures Published(events)[i] == Some(events[i])
    decreases |events|
  {
    if i < |events| - 1 {
      PublishedAt(events[..|events| - 1], i);
    }
  }

  /** Of a stream that an exchange published, every non-empty prefix has ledger rows. */
  lemma PublishedPrefixTouchesLedger(fees: FeeSchedule, log: seq<Command>, n: nat)
    requires ResetFree(log) && 0 < n <= |Published(Emitted(Initial(fees), log))|
    ensures TouchesLedger(Published(Emitted(Initial(fees), log))[..n])
  {
    hide Emitted, Published;
    var events := Emitted(Initial(fees), log);
    EmittedStartsWithFunding(fees, log);
    PublishedLength(events);
    PublishedAt(events, 0);
    assert RowsOf(Published(events)[..n][0]) == LedgerRowsOf(events[0]);
    assert |LedgerRowsOf(events[0])| == 2;
  }

  lemma PublishedLength(events: seq<Event>)
    ensures |Published(events)| == |events|
  {
  }

  /**
   * On an exchange's own stream, falling back to 0-0 is harmless exactly while nothing has been committed: from
   * then on the ledger is wrong at every later point, and before it all tables stay right.
   */
  lemma FallbackIsHarmlessExactlyWhen(s: State, hs: seq<Happening>, fees: FeeSchedule, log: seq<Command>)
    requires ExactlyOnce(s) && Restarted(false) !in hs && ResetFree(log)
    ensures var later := AfterFrom(Resumed(s, false), hs);
            s.stream == Published(Emitted(Initial(fees), log)) ==>
              (LedgerIsRight(later) <==> s.db.checkpoint == 0) && (ExactlyOnce(later) <==> s.db.checkpoint == 0)
  {
    hide AppliedAfter, ExactlyOnce, AfterFrom, LedgerIsRight, TouchesLedger, Emitted, Published, Next, RowsOfAll;
    InStreamOnce(s);
    RestartIsSafeExactlyWhen(s, false, hs);
    var later := AfterFrom(Resumed(s, false), hs);
    if s.stream == Published(Emitted(Initial(fees), log)) {
      if s.db.checkpoint == 0 {
        assert s.stream[..0] == [];
        NothingTouched();
        ResumedIsApplied(s, false);
        HistoryKeepsApplied([], Resumed(s, false), hs);
        OnceIsAfterNothing(later);
      } else {
        PublishedPrefixTouchesLedger(fees, log, s.db.checkpoint);
        if ExactlyOnce(later) {
          OnceIsAfterNothing(later);
          LedgerAfter([], later);
          NoRows();
        }
      }
    }
  }

  lemma InStreamOnce(s: State)
    requires ExactlyOnce(s)
    ensures InStream(s)
  {
  }

  /** When a worker that fell back catches up, each account's rows sum to its balance plus what they summed to then. */
  lemma FallbackCountsTwice(s: State, hs: seq<Happening>, fees: FeeSchedule, log: seq<Command>, k: Account)
    requires ExactlyOnce(s) && Restarted(false) !in hs && ResetFree(log)
    ensures var later := AfterFrom(Resumed(s, false), hs);
            CaughtUp(later, fees, log) ==>
              AccountTotal(later.db.tables.ledger, k) ==
              Holding(Run(Initial(fees), log).accounts, k) + AccountTotal(s.db.tables.ledger, k)
  {
    hide AfterFrom, Next, ProjectRecords, ProjectAll, RowsOfAll, Run, Emitted, Published, AccountTotal, Holding;
    var later := AfterFrom(Resumed(s, false), hs);
    if CaughtUp(later, fees, log) {
      var done := s.stream[..s.db.checkpoint];
      FallbackAppliesAgain(s);
      HistoryKeepsApplied(done, Resumed(s, false), hs);
      LedgerAfter(done, later);
      OnceIsAfterNothing(s);
      LedgerAfter([], s);
      assert RowsOfAll([]) == [] by { NoRows(); }
      assert [] + RowsOfAll(done) == RowsOfAll(done) && [] + RowsOfAll(later.stream) == RowsOfAll(later.stream);
      assert later.stream[..later.db.checkpoint] == later.stream;
      PublishedProjects(EMPTY_TABLES, Emitted(Initial(fees), log));
      LedgerOfRecords(EMPTY_TABLES, later.stream);
      LedgerAgrees(fees, log, k, Usd);
      TotalsConcat(RowsOfAll(done), RowsOfAll(later.stream), k, Usd);
    }
  }

  lemma NoRows()
    ensures RowsOfAll([]) == []
  {
  }

  // ----- The worker -----

  class Worker {
    var stream: Stream
    var db: Database
    var lastId: nat

    function Abs(): State
      reads this
    {
      State(stream, db, lastId)
    }

    /** Start on an existing database; without a readable checkpoint the worker begins at 0-0. */
    constructor (stream: Stream, db: Database, checkpointRead: bool)
      requires db.checkpoint <= |stream|
      ensures InStream(Abs()) && Abs() == Next(State(stream, db, 0), Restarted(checkpointRead))
    {
      this.stream, this.db := stream, db;
      lastId := if checkpointRead then db.checkpoint else 0;
    }

    /** Read and process one batch; nothing changes unless its transaction commits. */
    method ProcessBatch(outcome: Outcome)
      requires InStream(Abs())
      modifies this`db, this`lastId
      ensures InStream(Abs()) && Abs() == Next(old(Abs()), Batch(outcome))
    {
      hide Project;
      var batch := stream[lastId..BatchEnd(|stream|, lastId)];
      if batch == [] || outcome == BeginFails {
        return;
      }
      var orders, trades, ledger := db.tables.orders, db.tables.trades, db.tables.ledger;
      var batchLastId := lastId;
      for i := 0 to |batch|
        invariant Abs() == old(Abs()) && batchLastId == lastId + i
        invariant Tables(orders, trades, ledger) == ProjectRecords(db.tables, batch[..i])
      {
        assert batch[..i + 1][..i] == batch[..i];
        batchLastId := batchLastId + 1;
        match batch[i] {
          case None =>
          case Some(event) => orders, trades, ledger := ApplyEvent(orders, trades, ledger, event);
        }
      }
      assert batch[..|batch|] == batch;
      if outcome == Commits {
        db := Database(Tables(orders, trades, ledger), batchLastId);
        lastId := batchLastId;
      }
    }

    /** The statements that one event runs inside the transaction. */
    method ApplyEvent(orderRows: OrderTable, tradeRows: seq<TradeRow>, ledgerRows: seq<LedgerRow>, event: Event)
      returns (orders: OrderTable, trades: seq<TradeRow>, ledger: seq<LedgerRow>)
      ensures Tables(orders, trades, ledger) == Project(Tables(orderRows, tradeRows, ledgerRows), event)
    {
      orders, trades, ledger := orderRows, tradeRows, ledgerRows;
      match event {
        case OrderCreated(id, user, market, side, price, originalQty, remainingQty) =>
          if id in orders {
            orders := orders[id := orders[id].(remainingQty := remainingQty, status := Open)];
          } else {
            orders := orders[id := OrderRow(user, market, side, price, originalQty, remainingQty, Open)];
          }
        case TradeExecuted(makerId, takerId, buyer, seller, market, price, qty, quoteAmount, makerRemaining,
            buyerFee, sellerFee) =>
          trades := trades + [TradeRow(makerId, takerId, buyer, seller, market, price, qty, quoteAmount)];
          var makerStatus := if makerRemaining == 0 then Filled else PartiallyFilled;
          if makerId in orders {
            orders := orders[makerId := orders[makerId].(remainingQty := makerRemaining, status := makerStatus)];
          }
          ghost var before := ledger;
          ledger := ledger + [LedgerRow(buyer, Usd, 0 - (quoteAmount + buyerFee), Locked),
                              LedgerRow(buyer, Base(market), qty, Available)];
          ledger := ledger + [LedgerRow(seller, Usd, SaturatingSub(quoteAmount, sellerFee), Available),
                              LedgerRow(seller, Base(market), 0 - qty, Locked)];
          if buyerFee + sellerFee > 0 {
            ledger := ledger + [LedgerRow(TREASURY, Usd, buyerFee + sellerFee, Available)];
          }
          assert ledger == before + LedgerRowsOf(event);
        case OrderCancelled(id, _, remainingQty) =>
          if id in orders {
            orders := orders[id := orders[id].(remainingQty := remainingQty, status := Cancelled)];
          }
        case FundingExecuted(user, currency, amount) =>
          ledger := ledger + [LedgerRow(user, currency, amount, Available),
                              LedgerRow(TREASURY, currency, 0 - amount, Clearing)];
        case DepthUpdated(_, _, _) =>
      }
    }
  }
}
