/**
 * What the engine process emits across crashes: live dispatches emit, replay does not, and a recovery that
 * cannot read the log dispatches live what was dispatched before.
 */
module Emission {
  import opened Types
  import opened Fees
  import opened Engine
  import opened Recovery

  /** What the command at a position of the log emits. */
  function EventsAt(fees: FeeSchedule, log: Log, i: nat): seq<Event>
    requires i < |log| && log[i].Known?
  {
    Dispatch(Replayed(Initial(fees), log[..i]), log[i].command).events
  }

  /** Every live dispatch emits what belongs to its position, so emitting a position again repeats its events. */
  lemma LiveDispatchEmitsItsPosition(m: Machine)
    requires Consistent(m) && m.process.Some?
    requires m.process.value.lastId < |m.log| && m.log[m.process.value.lastId].Known?
    ensures var p := m.process.value;
            Dispatch(p.state, m.log[p.lastId].command).events == EventsAt(m.fees, m.log, p.lastId)
  {
    hide Replayed, Dispatch;
    assert At(m.fees, m.log, m.process.value.lastId, m.process.value.state);
  }

  predicate Increasing(output: seq<nat>) {
    forall i, j :: 0 <= i < j < |output| ==> output[i] < output[j]
  }

  /** The position behind the last one emitted. */
  function Frontier(m: Machine): nat {
    if m.output == [] then 0 else m.output[|m.output| - 1] + 1
  }

  /** Each command was emitted at most once, in log order, and the process has not fallen behind the last of them. */
  predicate InOrder(m: Machine) {
    && Increasing(m.output)
    && Frontier(m) <= |m.log|
    && (m.output != [] ==> m.log[Frontier(m) - 1].Known?)
    && (m.process.Some? ==> Frontier(m) <= m.process.value.lastId)
  }

  /** A recovery replays, or starts behind everything that was emitted. */
  predicate KeepsOrder(m: Machine, a: Action) {
    a.Recover? && m.process.None? ==> a.replays || Frontier(m) <= Restored(m.fees, m.snapshots, a.loads).lastId
  }

  lemma AppendKeepsOrder(m: Machine, r: Record)
    requires InOrder(m)
    ensures InOrder(Recovery.Step(m, Append(r)))
  {
    hide Increasing;
  }

  lemma EmittingKeepsIncreasing(output: seq<nat>, position: nat)
    requires Increasing(output) && (output != [] ==> output[|output| - 1] < position)
    ensures Increasing(output + [position])
  {
    var longer := output + [position];
    forall i, j | 0 <= i < j < |longer| ensures longer[i] < longer[j] {
      if j == |output| {
        assert i < |output| - 1 ==> output[i] < output[|output| - 1];
      } else {
        assert output[i] < output[j];
      }
    }
  }

  /** The process works on a position that is not behind the last one emitted. */
  lemma WorkKeepsOrder(m: Machine, save: SaveOutcome)
    requires InOrder(m)
    ensures InOrder(Recovery.Step(m, Work(save)))
  {
    hide Increasing, Apply, Saves;
    if m.process.Some? && m.process.value.lastId < m.process.value.readUpTo <= |m.log| {
      OneWork(m, save);
      var position := m.process.value.lastId;
      EmittingKeepsIncreasing(m.output, position);
      var output := Recovery.Step(m, Work(save)).output;
      assert m.log[position].Known? ==> output[|output| - 1] == position;
      assert !m.log[position].Known? ==> output == m.output;
    }
  }

  lemma RecoverKeepsOrder(m: Machine, loads: bool, replays: bool)
    requires Consistent(m) && InOrder(m) && KeepsOrder(m, Recover(loads, replays))
    ensures InOrder(Recovery.Step(m, Recover(loads, replays)))
  {
    hide Increasing, At, Replayed, SnapshotsConsistent, Restored;
    RestoredIsAt(m.fees, m.log, m.snapshots, loads);
    var from := Restored(m.fees, m.snapshots, loads);
    AtIsInLog(m.fees, m.log, from.lastId, from.state);
  }

  lemma StoppingKeepsOrder(m: Machine, a: Action)
    requires InOrder(m) && (a.Read? || a.Crash?) && Consistent(m)
    ensures InOrder(Recovery.Step(m, a))
  {
    hide Increasing, SnapshotsConsistent, At;
  }

  lemma StepKeepsOrder(m: Machine, a: Action)
    requires Consistent(m) && InOrder(m) && KeepsOrder(m, a)
    ensures InOrder(Recovery.Step(m, a))
  {
    hide Consistent, InOrder, KeepsOrder, Recovery.Step;
    match a
    case Append(r) => AppendKeepsOrder(m, r);
    case Work(save) => WorkKeepsOrder(m, save);
    case Recover(loads, replays) => RecoverKeepsOrder(m, loads, replays);
    case _ => StoppingKeepsOrder(m, a);
  }

  /** Nothing is ever emitted twice, or out of order, as long as every recovery replays or starts late enough. */
  lemma {:induction false} NothingIsEmittedTwice(fees: FeeSchedule, actions: seq<Action>)
    requires forall i :: 0 <= i < |actions| ==> KeepsOrder(After(fees, actions[..i]), actions[i])
    ensures InOrder(After(fees, actions))
    decreases |actions|
  {
    hide KeepsOrder, InOrder, Consistent, Recovery.Step;
    if actions == [] {
      NothingEmitted(fees);
    } else {
      var last := |actions| - 1;
      forall i | 0 <= i < last ensures KeepsOrder(After(fees, actions[..last][..i]), actions[..last][i]) {
        assert actions[..last][..i] == actions[..i];
      }
      NothingIsEmittedTwice(fees, actions[..last]);
      StateIsTheFoldedLog(fees, actions[..last]);
      assert KeepsOrder(After(fees, actions[..last]), actions[last]);
      StepKeepsOrder(After(fees, actions[..last]), actions[last]);
    }
  }

  lemma NothingEmitted(fees: FeeSchedule)
    ensures InOrder(Machine(fees, [], [], None, []))
  {
  }

  // ----- What happens after one recovery -----

  function AfterFrom(m: Machine, actions: seq<Action>): Machine {
    if actions == [] then m else Recovery.Step(AfterFrom(m, actions[..|actions| - 1]), actions[|actions| - 1])
  }

  predicate NoRecovery(actions: seq<Action>) {
    forall i :: 0 <= i < |actions| ==> !actions[i].Recover?
  }

  lemma {:induction false} UntilTheNextRecovery(m: Machine, actions: seq<Action>)
    requires Consistent(m) && InOrder(m) && NoRecovery(actions)
    ensures Consistent(AfterFrom(m, actions)) && InOrder(AfterFrom(m, actions))
    decreases |actions|
  {
    hide Consistent, InOrder, Recovery.Step;
    if actions != [] {
      var last := |actions| - 1;
      UntilTheNextRecovery(m, actions[..last]);
      assert !actions[last].Recover?;
      StepKeepsConsistent(AfterFrom(m, actions[..last]), actions[last]);
      StepKeepsOrder(AfterFrom(m, actions[..last]), actions[last]);
    }
  }

  function Works(n: nat): seq<Action> {
    if n == 0 then [] else Works(n - 1) + [Work(Saved)]
  }

  lemma OneWork(m: Machine, save: SaveOutcome)
    requires m.process.Some? && m.process.value.lastId < m.process.value.readUpTo <= |m.log|
    ensures var p := m.process.value;
            var after := Recovery.Step(m, Work(save));
            && after.log == m.log && after.process.Some?
            && after.process.value.lastId == p.lastId + 1 && after.process.value.readUpTo == p.readUpTo
            && after.output == m.output + if m.log[p.lastId].Known? then [p.lastId] else []
  {
    hide Apply, Saves;
  }

  /** Working through records that were read emits at least what comes last among them. */
  lemma {:induction false} WorkingEmits(m: Machine, n: nat)
    requires m.process.Some? && m.process.value.lastId + n <= m.process.value.readUpTo <= |m.log|
    ensures NoRecovery(Works(n))
    ensures var after := AfterFrom(m, Works(n));
            && after.log == m.log && m.output <= after.output
            && after.process.Some? && after.process.value.lastId == m.process.value.lastId + n
            && after.process.value.readUpTo == m.process.value.readUpTo
            && (n > 0 && m.log[m.process.value.lastId + n - 1].Known? ==>
                  |m.output| < |after.output| &&
                  after.output[|after.output| - 1] == m.process.value.lastId + n - 1)
    decreases n
  {
    hide Recovery.Step;
    if n > 0 {
      WorkingEmits(m, n - 1);
      OneWork(AfterFrom(m, Works(n - 1)), Saved);
      assert Works(n)[..|Works(n)| - 1] == Works(n - 1);
    }
  }

  lemma {:induction false} AfterConcat(m: Machine, xs: seq<Action>, ys: seq<Action>)
    ensures AfterFrom(m, xs + ys) == AfterFrom(AfterFrom(m, xs), ys)
    decreases |ys|
  {
    hide Recovery.Step;
    if ys == [] {
      assert xs + ys == xs;
    } else {
      var last := |ys| - 1;
      AfterConcat(m, xs, ys[..last]);
      assert (xs + ys)[..|xs + ys| - 1] == xs + ys[..last];
    }
  }

  /** Without replay the new process stands at its snapshot, and may read everything behind it. */
  lemma RecoversBehind(m: Machine, loads: bool)
    requires m.process.None?
    ensures var from := Restored(m.fees, m.snapshots, loads);
            var read := Recovery.Step(Recovery.Step(m, Recover(loads, false)), Read);
            && read.log == m.log && read.output == m.output && read.process.Some?
            && read.process.value.lastId == from.lastId && read.process.value.readUpTo == |m.log|
  {
    hide Restored, Replayed;
  }

  lemma SameLastIsNotIncreasing(output: seq<nat>, longer: seq<nat>)
    requires output != [] && output <= longer && |output| < |longer|
    requires longer[|longer| - 1] == output[|output| - 1]
    ensures !Increasing(longer)
  {
    assert longer[|output| - 1] == output[|output| - 1];
  }

  /** The last command emitted before the crash is emitted again once the new process has caught up with it. */
  lemma CatchingUpRepeats(m: Machine, loads: bool)
    requires InOrder(m) && m.process.None?
    requires Restored(m.fees, m.snapshots, loads).lastId < Frontier(m)
    ensures var n := Frontier(m) - Restored(m.fees, m.snapshots, loads).lastId;
            var later := [Read] + Works(n);
            NoRecovery(later) && !Increasing(AfterFrom(Recovery.Step(m, Recover(loads, false)), later).output)
  {
    hide Recovery.Step, Restored, AfterFrom, Works, Increasing;
    var from := Restored(m.fees, m.snapshots, loads);
    var n := Frontier(m) - from.lastId;
    var recovered := Recovery.Step(m, Recover(loads, false));
    var read := Recovery.Step(recovered, Read);
    RecoversBehind(m, loads);
    WorkingEmits(read, n);
    AfterConcat(recovered, [Read], Works(n));
    OneAction(recovered, Read);
    SameLastIsNotIncreasing(m.output, AfterFrom(read, Works(n)).output);
  }

  lemma OneAction(m: Machine, a: Action)
    ensures AfterFrom(m, [a]) == Recovery.Step(m, a)
  {
    assert [a][..0] == [];
    assert AfterFrom(m, []) == m;
  }

  /** Whatever happens until the next recovery, nothing is emitted twice. */
  ghost predicate NeverRepeats(m: Machine) {
    forall later :: NoRecovery(later) ==> Increasing(AfterFrom(m, later).output)
  }

  /**
   * After a crash, a recovery leads to nothing being emitted twice exactly when it replays the log, or starts
   * from a snapshot that is no older than the last command emitted.
   */
  lemma RecoveryRepeatsNothingExactlyWhen(m: Machine, loads: bool, replays: bool)
    requires Consistent(m) && InOrder(m) && m.process.None?
    ensures NeverRepeats(Recovery.Step(m, Recover(loads, replays))) <==>
            replays || Frontier(m) <= Restored(m.fees, m.snapshots, loads).lastId
  {
    hide Consistent, InOrder, Recovery.Step, Increasing;
    if replays || Frontier(m) <= Restored(m.fees, m.snapshots, loads).lastId {
      StepKeepsConsistent(m, Recover(loads, replays));
      StepKeepsOrder(m, Recover(loads, replays));
      var recovered := Recovery.Step(m, Recover(loads, replays));
      forall later | NoRecovery(later) ensures Increasing(AfterFrom(recovered, later).output) {
        UntilTheNextRecovery(recovered, later);
        InOrderIncreases(AfterFrom(recovered, later));
      }
    } else {
      CatchingUpRepeats(m, loads);
    }
  }

  lemma InOrderIncreases(m: Machine)
    requires InOrder(m)
    ensures Increasing(m.output)
  {
  }
}
