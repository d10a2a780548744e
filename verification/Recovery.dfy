/**
 * Snapshots and replay. The engine consumes an append-only command log in batches, snapshots itself every so
 * often, may crash at any point, and recovers from the latest snapshot by replaying the rest of the log.
 */
module Recovery {
  import opened Types
  import opened Fees
  import opened Engine
  import opened Solvency
  import opened Runs
  import opened EngineStates

  const SNAPSHOT_INTERVAL: nat := 1000
  const SNAPSHOTS_KEPT: nat := 3

  /** Every command but a reset, which does not leave the log it is read from in place. */
  type LoggedCommand = c: Command | !c.Reset? witness Query

  /** A log record: lacking its fields, not understood (unknown channel, malformed data), or a command. */
  datatype Record = Incomplete | Unknown | Known(command: LoggedCommand)

  type Log = seq<Record>

  function Apply(e: Engine, r: Record): Engine {
    if r.Known? then Dispatch(e, r.command).state else e
  }

  /** The live state: every record of the log dispatched once, in order. */
  function Replayed(e: Engine, log: Log): Engine {
    if log == [] then e else Apply(Replayed(e, log[..|log| - 1]), log[|log| - 1])
  }

  lemma {:induction false} ReplayedConcat(e: Engine, xs: Log, ys: Log)
    ensures Replayed(e, xs + ys) == Replayed(Replayed(e, xs), ys)
    decreases |ys|
  {
    hide Apply;
    if ys == [] {
      assert xs + ys == xs;
    } else {
      var last := |ys| - 1;
      ReplayedConcat(e, xs, ys[..last]);
      assert (xs + ys)[..|xs + ys| - 1] == xs + ys[..last];
    }
  }

  // ----- The machine -----

  datatype Snapshot = Snapshot(lastId: nat, state: Engine)

  /** Inserting a snapshot and pruning the old ones are separate statements; either may fail. */
  datatype SaveOutcome = Saved | NotPruned | NotInserted

  datatype Process = Process(state: Engine, lastId: nat, readUpTo: nat, sinceSnapshot: nat)

  /** The output lists the log positions of the commands that were dispatched live, in the order they were. */
  datatype Machine = Machine(fees: FeeSchedule, log: Log, snapshots: seq<Snapshot>, process: Option<Process>,
                             output: seq<nat>)

  datatype Action =
    | Append(record: Record)
    | Read
    | Work(save: SaveOutcome)
    | Crash
    | Recover(loads: bool, replays: bool)

  function Latest3<T>(s: seq<T>): seq<T> {
    if |s| <= SNAPSHOTS_KEPT then s else s[|s| - SNAPSHOTS_KEPT..]
  }

  function SaveRow<T>(rows: seq<T>, row: T, save: SaveOutcome): seq<T> {
    match save
    case Saved => Latest3(rows + [row])
    case NotPruned => rows + [row]
    case NotInserted => rows
  }

  /** Dispatch one record; an incomplete one only moves the position and does not count towards a snapshot. */
  function Process1(p: Process, r: Record): Process {
    var next := p.(state := Apply(p.state, r), lastId := p.lastId + 1);
    if r.Incomplete? then next
    else next.(sinceSnapshot := if SnapshotDue(p, r) then 0 else p.sinceSnapshot + 1)
  }

  predicate SnapshotDue(p: Process, r: Record) {
    !r.Incomplete? && p.sinceSnapshot + 1 >= SNAPSHOT_INTERVAL
  }

  function Saves(p: Process, snapshots: seq<Snapshot>, r: Record, save: SaveOutcome): seq<Snapshot> {
    if SnapshotDue(p, r) then SaveRow(snapshots, Snapshot(p.lastId + 1, Apply(p.state, r)), save) else snapshots
  }

  /** Where recovery starts: at the newest snapshot, or from scratch if there is none or it cannot be loaded. */
  function Restored(fees: FeeSchedule, snapshots: seq<Snapshot>, loads: bool): Snapshot {
    if loads && snapshots != [] then snapshots[|snapshots| - 1] else Snapshot(0, Initial(fees))
  }

  /** If the log cannot be read for replay, the live loop continues from the snapshot. */
  function Recovered(m: Machine, loads: bool, replays: bool): Process {
    var from := Restored(m.fees, m.snapshots, loads);
    if replays && from.lastId <= |m.log| then
      Process(Replayed(from.state, m.log[from.lastId..]), |m.log|, |m.log|, 0)
    else
      Process(from.state, from.lastId, from.lastId, 0)
  }

  /** One action; what is not possible in a state leaves it unchanged. */
  function Step(m: Machine, a: Action): Machine {
    match a
    case Append(r) => m.(log := m.log + [r])
    case Read =>
      if m.process.Some? && m.process.value.lastId == m.process.value.readUpTo then
        m.(process := Some(m.process.value.(readUpTo := |m.log|)))
      else
        m
    case Work(save) =>
      if m.process.Some? && m.process.value.lastId < m.process.value.readUpTo <= |m.log| then
        var p := m.process.value;
        var r := m.log[p.lastId];
        m.(process := Some(Process1(p, r)), snapshots := Saves(p, m.snapshots, r, save),
           output := m.output + if r.Known? then [p.lastId] else [])
      else
        m
    case Crash => m.(process := None)
    case Recover(loads, replays) =>
      if m.process.None? then m.(process := Some(Recovered(m, loads, replays))) else m
  }

  function After(fees: FeeSchedule, actions: seq<Action>): Machine {
    if actions == [] then Machine(fees, [], [], None, [])
    else Step(After(fees, actions[..|actions| - 1]), actions[|actions| - 1])
  }

  // ----- State and snapshots are the log, folded -----

  /** The state is the fold of dispatch over the log up to its position. */
  predicate At(fees: FeeSchedule, log: Log, lastId: nat, state: Engine) {
    lastId <= |log| && state == Replayed(Initial(fees), log[..lastId])
  }

  predicate SnapshotsConsistent(fees: FeeSchedule, log: Log, snapshots: seq<Snapshot>) {
    forall i :: 0 <= i < |snapshots| ==> At(fees, log, snapshots[i].lastId, snapshots[i].state)
  }

  predicate Consistent(m: Machine) {
    && SnapshotsConsistent(m.fees, m.log, m.snapshots)
    && (m.process.Some? ==>
          At(m.fees, m.log, m.process.value.lastId, m.process.value.state) &&
          m.process.value.lastId <= m.process.value.readUpTo <= |m.log|)
  }

  lemma AppendKeepsAt(fees: FeeSchedule, log: Log, r: Record, lastId: nat, state: Engine)
    requires At(fees, log, lastId, state)
    ensures At(fees, log + [r], lastId, state)
  {
    assert (log + [r])[..lastId] == log[..lastId];
  }

  lemma AdvanceKeepsAt(fees: FeeSchedule, log: Log, lastId: nat, state: Engine)
    requires At(fees, log, lastId, state) && lastId < |log|
    ensures At(fees, log, lastId + 1, Apply(state, log[lastId]))
  {
    assert log[..lastId + 1][..lastId] == log[..lastId];
  }

  lemma ReplayReachesTheEnd(fees: FeeSchedule, log: Log, lastId: nat, state: Engine)
    requires At(fees, log, lastId, state)
    ensures At(fees, log, |log|, Replayed(state, log[lastId..]))
  {
    ReplayedConcat(Initial(fees), log[..lastId], log[lastId..]);
    assert log[..lastId] + log[lastId..] == log;
    assert log[..|log|] == log;
  }

  lemma RestoredIsAt(fees: FeeSchedule, log: Log, snapshots: seq<Snapshot>, loads: bool)
    requires SnapshotsConsistent(fees, log, snapshots)
    ensures var from := Restored(fees, snapshots, loads); At(fees, log, from.lastId, from.state)
  {
    assert log[..0] == [];
  }

  lemma AppendKeepsConsistent(m: Machine, r: Record)
    requires Consistent(m)
    ensures Consistent(Step(m, Append(r)))
  {
    hide At, Replayed;
    forall i | 0 <= i < |m.snapshots| ensures At(m.fees, m.log + [r], m.snapshots[i].lastId, m.snapshots[i].state) {
      AppendKeepsAt(m.fees, m.log, r, m.snapshots[i].lastId, m.snapshots[i].state);
    }
    if m.process.Some? {
      AppendKeepsAt(m.fees, m.log, r, m.process.value.lastId, m.process.value.state);
    }
  }

  lemma SaveKeepsConsistent(fees: FeeSchedule, log: Log, snapshots: seq<Snapshot>, row: Snapshot, save: SaveOutcome)
    requires SnapshotsConsistent(fees, log, snapshots) && At(fees, log, row.lastId, row.state)
    ensures SnapshotsConsistent(fees, log, SaveRow(snapshots, row, save))
  {
    hide At;
    var all := snapshots + [row];
    assert SnapshotsConsistent(fees, log, all);
  }

  lemma WorkKeepsConsistent(m: Machine, save: SaveOutcome)
    requires Consistent(m)
    ensures Consistent(Step(m, Work(save)))
  {
    hide At, Apply, Replayed, SnapshotsConsistent, SaveRow;
    if m.process.Some? && m.process.value.lastId < m.process.value.readUpTo <= |m.log| {
      var p := m.process.value;
      var r := m.log[p.lastId];
      AdvanceKeepsAt(m.fees, m.log, p.lastId, p.state);
      SaveKeepsConsistent(m.fees, m.log, m.snapshots, Snapshot(p.lastId + 1, Apply(p.state, r)), save);
    }
  }

  lemma RecoverKeepsConsistent(m: Machine, loads: bool, replays: bool)
    requires Consistent(m)
    ensures Consistent(Step(m, Recover(loads, replays)))
  {
    hide At, Replayed, SnapshotsConsistent;
    var from := Restored(m.fees, m.snapshots, loads);
    RestoredIsAt(m.fees, m.log, m.snapshots, loads);
    AtIsInLog(m.fees, m.log, from.lastId, from.state);
    ReplayReachesTheEnd(m.fees, m.log, from.lastId, from.state);
  }

  lemma StepKeepsConsistent(m: Machine, a: Action)
    requires Consistent(m)
    ensures Consistent(Step(m, a))
  {
    hide At, SnapshotsConsistent, Recovered, Process1, Saves;
    match a
    case Append(r) => AppendKeepsConsistent(m, r);
    case Work(save) => WorkKeepsConsistent(m, save);
    case Recover(loads, replays) => RecoverKeepsConsistent(m, loads, replays);
    case Read =>
    case Crash =>
  }

  lemma AtIsInLog(fees: FeeSchedule, log: Log, lastId: nat, state: Engine)
    requires At(fees, log, lastId, state)
    ensures lastId <= |log|
  {
  }

  /**
   * Over every interleaving of appends, batched reads, processed records, snapshots that succeed or fail,
   * crashes and recoveries: the state is the fold of the log up to its position, and so is every snapshot.
   */
  lemma {:induction false} StateIsTheFoldedLog(fees: FeeSchedule, actions: seq<Action>)
    ensures Consistent(After(fees, actions)) && After(fees, actions).fees == fees
    decreases |actions|
  {
    hide Consistent, Step;
    if actions == [] {
      NothingLogged(fees);
    } else {
      StateIsTheFoldedLog(fees, actions[..|actions| - 1]);
      StepKeepsConsistent(After(fees, actions[..|actions| - 1]), actions[|actions| - 1]);
      StepKeepsFees(After(fees, actions[..|actions| - 1]), actions[|actions| - 1]);
    }
  }

  lemma NothingLogged(fees: FeeSchedule)
    ensures Consistent(Machine(fees, [], [], None, []))
  {
  }

  lemma StepKeepsFees(m: Machine, a: Action)
    ensures Step(m, a).fees == m.fees
  {
  }

  /** A crash loses nothing: recovery that can read the log rebuilds the state of the whole log, from any snapshot. */
  lemma RecoveryRebuildsTheLiveState(fees: FeeSchedule, actions: seq<Action>, loads: bool)
    ensures var m := After(fees, actions);
            var recovered := Step(Step(m, Crash), Recover(loads, true));
            && recovered.process.Some?
            && recovered.process.value.state == Replayed(Initial(fees), m.log)
            && recovered.process.value.lastId == |m.log|
            && recovered.log == m.log && recovered.snapshots == m.snapshots
  {
    hide After, Replayed;
    StateIsTheFoldedLog(fees, actions);
    var m := After(fees, actions);
    var from := Restored(fees, m.snapshots, loads);
    RestoredIsAt(fees, m.log, m.snapshots, loads);
    ReplayReachesTheEnd(fees, m.log, from.lastId, from.state);
    assert m.log[..|m.log|] == m.log;
  }

  // ----- What holds of the engine holds across crashes -----

  /** The commands a log carries. */
  function Commands(log: Log): seq<Command> {
    if log == [] then []
    else Commands(log[..|log| - 1]) + if log[|log| - 1].Known? then [log[|log| - 1].command] else []
  }

  lemma {:induction false} ReplayedIsRun(e: Engine, log: Log)
    ensures Replayed(e, log) == Run(e, Commands(log)) && ResetFree(Commands(log))
    decreases |log|
  {
    hide Dispatch;
    if log != [] {
      var before, last := log[..|log| - 1], log[|log| - 1];
      ReplayedIsRun(e, before);
      if last.Known? {
        assert Commands(log)[..|Commands(log)| - 1] == Commands(before);
      } else {
        assert Commands(log) == Commands(before);
      }
    }
  }

  /** Whatever crashed, was lost or was reloaded, a running engine is solvent and its books are sound. */
  lemma RunningEngineIsSolvent(fees: FeeSchedule, actions: seq<Action>)
    ensures After(fees, actions).process.Some? ==> Inv(After(fees, actions).process.value.state)
    ensures var snapshots := After(fees, actions).snapshots;
            forall i :: 0 <= i < |snapshots| ==> Inv(snapshots[i].state)
  {
    hide After, Replayed, Inv, Run, Commands;
    StateIsTheFoldedLog(fees, actions);
    var m := After(fees, actions);
    if m.process.Some? {
      FoldedStateIsSolvent(fees, m.log, m.process.value.lastId, m.process.value.state);
    }
    forall i | 0 <= i < |m.snapshots| ensures Inv(m.snapshots[i].state) {
      FoldedStateIsSolvent(fees, m.log, m.snapshots[i].lastId, m.snapshots[i].state);
    }
  }

  lemma FoldedStateIsSolvent(fees: FeeSchedule, log: Log, lastId: nat, state: Engine)
    requires At(fees, log, lastId, state)
    ensures Inv(state)
  {
    hide Replayed, Inv, Run, Commands;
    ReplayedIsRun(Initial(fees), log[..lastId]);
    InitialInv(fees);
    RunKeepsInv(Initial(fees), Commands(log[..lastId]));
  }

  // ----- The engine process -----

  datatype SnapshotRow = SnapshotRow(lastId: nat, image: EngineImage)

  function Stored(rows: seq<SnapshotRow>): seq<Snapshot> {
    seq(|rows|, i requires 0 <= i < |rows| => Snapshot(rows[i].lastId, rows[i].image.Abs()))
  }

  lemma StoredSave(rows: seq<SnapshotRow>, row: SnapshotRow, save: SaveOutcome)
    ensures Stored(SaveRow(rows, row, save)) == SaveRow(Stored(rows), Snapshot(row.lastId, row.image.Abs()), save)
  {
    assert Stored(rows + [row]) == Stored(rows) + [Snapshot(row.lastId, row.image.Abs())];
  }

  /** The snapshot table; it survives crashes. */
  class SnapshotTable {
    var rows: seq<SnapshotRow>

    function Abs(): seq<Snapshot>
      reads this
    {
      Stored(rows)
    }

    ghost predicate Valid()
      reads this
    {
      forall i :: 0 <= i < |rows| ==> rows[i].image.Coherent()
    }

    constructor ()
      ensures Valid() && Abs() == []
    {
      rows := [];
    }

    /** Insert a row, then prune to the newest three. */
    method Save(lastId: nat, image: EngineImage, outcome: SaveOutcome)
      requires Valid() && image.Coherent()
      modifies this
      ensures Valid() && Abs() == SaveRow(old(Abs()), Snapshot(lastId, image.Abs()), outcome)
    {
      hide EngineImage.Coherent, EngineImage.Abs;
      StoredSave(rows, SnapshotRow(lastId, image), outcome);
      if outcome == NotInserted {
        return;
      }
      rows := rows + [SnapshotRow(lastId, image)];
      if outcome == Saved && |rows| > SNAPSHOTS_KEPT {
        rows := rows[|rows| - SNAPSHOTS_KEPT..];
      }
    }
  }

  /** What is emitted while these records are dispatched live from state e. */
  function EmittedBy(e: Engine, records: Log): seq<Event> {
    if records == [] then []
    else
      var before := records[..|records| - 1];
      var last := records[|records| - 1];
      EmittedBy(e, before) + if last.Known? then Dispatch(Replayed(e, before), last.command).events else []
  }

  datatype Worked = Worked(process: Process, snapshots: seq<Snapshot>)

  /** The process after a batch of records, the i-th record's snapshot (if one is due) ending as saves[i]. */
  function WorkAll(p: Process, snapshots: seq<Snapshot>, records: Log, saves: seq<SaveOutcome>): Worked
    requires |records| == |saves|
  {
    if records == [] then Worked(p, snapshots)
    else
      var last := |records| - 1;
      var w := WorkAll(p, snapshots, records[..last], saves[..last]);
      Worked(Process1(w.process, records[last]), Saves(w.process, w.snapshots, records[last], saves[last]))
  }

  lemma {:induction false} WorkAllReplays(p: Process, snapshots: seq<Snapshot>, records: Log, saves: seq<SaveOutcome>)
    requires |records| == |saves|
    ensures var w := WorkAll(p, snapshots, records, saves).process;
            w.state == Replayed(p.state, records) && w.lastId == p.lastId + |records| && w.readUpTo == p.readUpTo
    decreases |records|
  {
    hide Apply;
    if records != [] {
      var last := |records| - 1;
      WorkAllReplays(p, snapshots, records[..last], saves[..last]);
    }
  }

  /** The positions of the commands among n records of the log. */
  function KnownFrom(log: Log, from: nat, n: nat): seq<nat>
    requires from + n <= |log|
  {
    if n == 0 then []
    else KnownFrom(log, from, n - 1) + if log[from + n - 1].Known? then [from + n - 1] else []
  }

  function WorkSteps(m: Machine, saves: seq<SaveOutcome>): Machine {
    if saves == [] then m else Step(WorkSteps(m, saves[..|saves| - 1]), Work(saves[|saves| - 1]))
  }

  /** Processing a batch is taking its work steps one after the other. */
  lemma {:induction false} BatchIsWorkSteps(m: Machine, saves: seq<SaveOutcome>)
    requires m.process.Some? && m.process.value.lastId + |saves| <= m.process.value.readUpTo <= |m.log|
    ensures var p := m.process.value;
            var w := WorkAll(p, m.snapshots, m.log[p.lastId..][..|saves|], saves);
            WorkSteps(m, saves) == m.(process := Some(w.process), snapshots := w.snapshots,
                                      output := m.output + KnownFrom(m.log, p.lastId, |saves|))
    decreases |saves|
  {
    hide Process1, Saves, Apply, Replayed;
    if saves != [] {
      var p, last := m.process.value, |saves| - 1;
      var records := m.log[p.lastId..][..|saves|];
      BatchIsWorkSteps(m, saves[..last]);
      assert records[..last] == m.log[p.lastId..][..last];
      WorkAllReplays(p, m.snapshots, records[..last], saves[..last]);
    }
  }

  class Runner {
    const db: SnapshotTable
    var engine: EngineState
    var lastId: nat
    var eventsSinceSnapshot: nat

    function ProcessOf(readUpTo: nat): Process
      reads this, engine, engine.sol, engine.btc, engine.eth
    {
      Process(engine.Abs(), lastId, readUpTo, eventsSinceSnapshot)
    }

    ghost predicate Valid()
      reads this, db, engine, engine.sol, engine.btc, engine.eth
    {
      db.Valid() && engine.Valid()
    }

    /** Load the latest snapshot, if it can be loaded, and replay the log behind it, if it can be read. */
    constructor (db: SnapshotTable, fees: FeeSchedule, log: Log, loads: bool, replays: bool)
      requires db.Valid()
      ensures Valid() && this.db == db
      ensures fresh(engine) && fresh(engine.sol) && fresh(engine.btc) && fresh(engine.eth)
      ensures ProcessOf(lastId) == Recovered(Machine(fees, log, db.Abs(), None, []), loads, replays)
    {
      hide EngineState.Valid, EngineState.Abs, EngineImage.Coherent, EngineImage.Abs, Replayed;
      this.db := db;
      if loads && db.rows != [] {
        var row := db.rows[|db.rows| - 1];
        engine := new EngineState.FromSnapshot(row.image);
        lastId := row.lastId;
      } else {
        engine := new EngineState(fees);
        lastId := 0;
      }
      eventsSinceSnapshot := 0;
      new;
      if replays {
        ReplayEventsSince(log);
      }
    }

    /** Dispatch every record behind lastId without a publisher. */
    method ReplayEventsSince(log: Log)
      requires engine.Valid()
      modifies this`lastId, engine, engine.sol, engine.btc, engine.eth
      ensures engine.Valid()
      ensures lastId == if old(lastId) <= |log| then |log| else old(lastId)
      ensures engine.Abs() ==
                if old(lastId) <= |log| then Replayed(old(engine.Abs()), log[old(lastId)..]) else old(engine.Abs())
    {
      hide EngineState.Valid, EngineState.Abs, Dispatch;
      if lastId > |log| {
        return;
      }
      ghost var from, e := lastId, engine.Abs();
      for i := lastId to |log|
        invariant engine.Valid() && lastId == i
        invariant engine.Abs() == Replayed(e, log[from..i])
      {
        assert log[from..i + 1][..i - from] == log[from..i];
        lastId := i + 1;
        match log[i] {
          case Known(c) => var _, _ := engine.DispatchCommand(c, false);
          case _ =>
        }
      }
      assert log[from..|log|] == log[from..];
    }

    method DispatchLive(c: Command) returns (events: seq<Event>)
      requires engine.Valid()
      modifies engine, engine.sol, engine.btc, engine.eth
      ensures engine.Valid() && engine.Abs() == Dispatch(old(engine.Abs()), c).state
      ensures events == Dispatch(old(engine.Abs()), c).events
    {
      hide EngineState.Valid, EngineState.Abs, Dispatch;
      var emitted, _ := engine.DispatchCommand(c, true);
      events := emitted;
    }

    /** Dispatch one record live and snapshot the state when enough records have been dispatched. */
    method ProcessRecord(r: Record, save: SaveOutcome, ghost readUpTo: nat) returns (events: seq<Event>)
      requires Valid()
      modifies this`lastId, this`eventsSinceSnapshot, db, engine, engine.sol, engine.btc, engine.eth
      ensures Valid()
      ensures ProcessOf(readUpTo) == Process1(old(ProcessOf(readUpTo)), r)
      ensures db.Abs() == Saves(old(ProcessOf(readUpTo)), old(db.Abs()), r, save)
      ensures events == if r.Known? then Dispatch(old(engine.Abs()), r.command).events else []
    {
      hide EngineState.Valid, EngineState.Abs, EngineState.Image, EngineImage.Coherent, EngineImage.Abs,
        SnapshotTable.Valid, SnapshotTable.Abs, SaveRow, Dispatch;
      events := [];
      lastId := lastId + 1;
      if r.Incomplete? {
        return;
      }
      if r.Known? {
        events := DispatchLive(r.command);
      }
      eventsSinceSnapshot := eventsSinceSnapshot + 1;
      if eventsSinceSnapshot >= SNAPSHOT_INTERVAL {
        engine.ImageIsCoherent();
        db.Save(lastId, engine.Image(), save);
        eventsSinceSnapshot := 0;
      }
    }

    /** Process a batch of new records, as the live loop does between two reads. */
    method ProcessBatch(records: Log, saves: seq<SaveOutcome>, ghost readUpTo: nat) returns (events: seq<Event>)
      requires Valid() && |records| == |saves|
      modifies this`lastId, this`eventsSinceSnapshot, db, engine, engine.sol, engine.btc, engine.eth
      ensures Valid()
      ensures Worked(ProcessOf(readUpTo), db.Abs()) == WorkAll(old(ProcessOf(readUpTo)), old(db.Abs()), records, saves)
      ensures events == EmittedBy(old(engine.Abs()), records)
    {
      hide EngineState.Valid, EngineState.Abs, SnapshotTable.Valid, SnapshotTable.Abs, Dispatch, Replayed, Apply,
        Process1, Saves;
      events := [];
      ghost var p, stored := ProcessOf(readUpTo), db.Abs();
      for i := 0 to |records|
        invariant Valid()
        invariant Worked(ProcessOf(readUpTo), db.Abs()) == WorkAll(p, stored, records[..i], saves[..i])
        invariant events == EmittedBy(p.state, records[..i])
      {
        assert records[..i + 1][..i] == records[..i] && saves[..i + 1][..i] == saves[..i];
        WorkAllReplays(p, stored, records[..i], saves[..i]);
        var emitted := ProcessRecord(records[i], saves[i], readUpTo);
        events := events + emitted;
      }
      assert records[..|records|] == records && saves[..|records|] == saves;
    }
  }
}
