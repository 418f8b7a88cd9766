/** The bookkeeping of `BaseTFModel.train`, without the framework calls.

    Training runs up to `num_epochs` epochs. In every epoch it walks the
    batches the data source yields. Each batch gets the step number
    "stored counter + 1" and fires the periodic triggers of `Triggers`.
    The epoch then ends with a checkpoint and a validation pass. Its
    validation loss is appended to the history, and the patience rule of
    `Patience` decides whether to stop.

    The framework is opaque here. The stored step counter is the model's
    `global_step` variable. The initialiser sets it to 0 and the subclass's
    training op adds 1 per batch; that increment happens outside this file,
    so it is assumed, not proved. The validation loss of each epoch is an
    input, and so is the number of batches of each epoch. */
module Training {
  import opened Patience
  import opened Triggers

  /** What the environment supplies for one epoch: how many batches its
      generator yields and the mean validation loss measured at its end. */
  datatype EpochInput = EpochInput(batches: nat, valLoss: int)

  /** How a run ends. It reports `epoch + 1` finished epochs; with
      `num_epochs <= 0` the loop variable `epoch` is never bound, so that
      report fails instead. */
  datatype Status = Finished(epochsReported: int) | EpochUnbound

  /** The events of a run, the history of epoch losses, and how it ended. */
  datatype Outcome = Outcome(trace: seq<Event>, losses: seq<int>, status: Status)

  /** The variables carried across batches and epochs: the events so far,
      `epoch_validation_losses`, the stored counter and the local `global_step`. */
  datatype State = State(trace: seq<Event>, losses: seq<int>, stored: int, step: int)

  /** The number of batches in the first `k` epochs. */
  function StepsBefore(epochs: seq<EpochInput>, k: nat): (n: nat)
    requires k <= |epochs|
    ensures k > 0 ==> n >= epochs[k - 1].batches
  {
    if k == 0 then 0 else StepsBefore(epochs, k - 1) + epochs[k - 1].batches
  }

  /** The remaining `remaining` batches of an epoch. Each takes the step after
      the stored counter, appends that batch's events and advances the counter. */
  function BatchesFrom(st: State, remaining: nat, p: Periods): (r: State)
    ensures r.losses == st.losses
    ensures r.stored == st.stored + remaining
    ensures r.step == if remaining == 0 then st.step else st.stored + remaining
    decreases remaining
  {
    if remaining == 0 then st
    else
      var step := st.stored + 1;
      BatchesFrom(st.(trace := st.trace + RunBatch(step, p), stored := st.stored + 1, step := step),
                  remaining - 1, p)
  }

  /** The run from the start of epoch `epoch` in state `st`. It reports the
      unbound loop variable only when no epoch ever started. */
  function TrainFrom(st: State, epoch: nat, numEpochs: int, epochs: seq<EpochInput>,
                     p: Periods, patience: int): (r: Outcome)
    requires numEpochs <= |epochs|
    ensures r.status == EpochUnbound <==> epoch == 0 && numEpochs <= 0
    ensures |st.losses| <= |r.losses|
    decreases numEpochs - epoch
  {
    if epoch >= numEpochs then
      Outcome(st.trace, st.losses, if epoch == 0 then EpochUnbound else Finished(epoch))
    else
      var st1 := BatchesFrom(st, epochs[epoch].batches, p);
      var st2 := st1.(trace := st1.trace + [EpochSave(epoch, st1.step), EpochValidate(epoch, st1.step)],
                      losses := st1.losses + [epochs[epoch].valLoss]);
      if ShouldStop(st2.losses, patience) then Outcome(st2.trace, st2.losses, Finished(epoch + 1))
      else TrainFrom(st2, epoch + 1, numEpochs, epochs, p, patience)
  }

  /** A whole run: no events, no losses, and both counters at 0. */
  function TrainSpec(numEpochs: int, epochs: seq<EpochInput>, p: Periods, patience: int): (r: Outcome)
    requires numEpochs <= |epochs|
    ensures r.status == EpochUnbound <==> numEpochs <= 0
  {
    TrainFrom(State([], [], 0, 0), 0, numEpochs, epochs, p, patience)
  }

  /** The training loop. `epochs[e]` is what the environment supplies for epoch `e`. */
  method Train(numEpochs: int, epochs: seq<EpochInput>, p: Periods, patience: int)
    returns (r: Outcome)
    requires numEpochs <= |epochs|
    ensures r == TrainSpec(numEpochs, epochs, p, patience)
  {
    ghost var spec := TrainSpec(numEpochs, epochs, p, patience);
    var globalStep := 0;
    var stored := 0;  // the model's step variable, as set by the initialiser
    var trace: seq<Event> := [];
    var losses: seq<int> := [];
    // The source's loop variable `epoch`: unbound until the first iteration,
    // then the number of the latest epoch begun.
    var bound, epoch := false, 0;
    var e: nat := 0;
    while e < numEpochs
      invariant bound <==> e > 0
      invariant bound ==> epoch + 1 == e
      invariant TrainFrom(State(trace, losses, stored, globalStep), e, numEpochs, epochs, p, patience) == spec
    {
      bound, epoch := true, e;
      var stop;
      trace, losses, stored, globalStep, stop :=
        TrainEpoch(trace, losses, stored, globalStep, e, numEpochs, epochs, p, patience);
      if stop {
        // The source breaks out of the loop here; the report after the loop
        // then counts `epoch + 1` epochs.
        return Outcome(trace, losses, Finished(epoch + 1));
      }
      e := e + 1;
    }
    if !bound {
      r := Outcome(trace, losses, EpochUnbound);
    } else {
      r := Outcome(trace, losses, Finished(epoch + 1));
    }
  }

  /** One iteration of the epoch loop: the batches, then the end-of-epoch
      checkpoint and validation tagged with `global_step`, the new loss and the
      stop decision. When the stop rule holds the run ends reporting
      `epoch + 1` epochs; otherwise it goes on from the next epoch in the new
      state. */
  method TrainEpoch(trace0: seq<Event>, losses0: seq<int>, stored0: int, globalStep0: int,
                    epoch: nat, numEpochs: int, epochs: seq<EpochInput>, p: Periods, patience: int)
    returns (trace: seq<Event>, losses: seq<int>, stored: int, globalStep: int, stop: bool)
    requires epoch < numEpochs <= |epochs|
    ensures losses == losses0 + [epochs[epoch].valLoss]
    ensures stored == stored0 + epochs[epoch].batches
    ensures var before := TrainFrom(State(trace0, losses0, stored0, globalStep0), epoch, numEpochs, epochs, p, patience);
      if stop then before == Outcome(trace, losses, Finished(epoch + 1))
      else before == TrainFrom(State(trace, losses, stored, globalStep), epoch + 1, numEpochs, epochs, p, patience)
  {
    trace, stored, globalStep := TrainEpochBatches(trace0, losses0, stored0, globalStep0, epochs[epoch].batches, p);
    // End of the epoch: checkpoint and validation, both tagged with `global_step`.
    trace := trace + [EpochSave(epoch, globalStep), EpochValidate(epoch, globalStep)];
    var valLoss := epochs[epoch].valLoss;
    losses := losses0 + [valLoss];
    var window := Window(losses, patience);
    var minLoss := if window != [] then Finite(MinOf(window)) else Infinity;
    assert minLoss == WindowMin(window);
    stop := AtMost(minLoss, valLoss);
  }

  /** The batch loop of one epoch over its `n` batches: the stored counter,
      the local `global_step` and the events are those `BatchesFrom` defines. */
  method TrainEpochBatches(trace0: seq<Event>, losses: seq<int>, stored0: int, globalStep0: int,
                           n: nat, p: Periods)
    returns (trace: seq<Event>, stored: int, globalStep: int)
    ensures State(trace, losses, stored, globalStep) == BatchesFrom(State(trace0, losses, stored0, globalStep0), n, p)
  {
    trace, stored, globalStep := trace0, stored0, globalStep0;
    var i := 0;
    while i < n
      invariant i <= n
      invariant BatchesFrom(State(trace, losses, stored, globalStep), n - i, p)
        == BatchesFrom(State(trace0, losses, stored0, globalStep0), n, p)
    {
      var events;
      globalStep, events, stored := TrainBatch(stored, p);
      trace := trace + events;
      i := i + 1;
    }
  }

  /** The body of the batch loop: read the stored counter plus one as the
      step, run the update (whose training op advances the stored counter),
      then the summary, validation and checkpoint tests in that order, each
      with NumPy's remainder. */
  method TrainBatch(stored0: int, p: Periods) returns (step: int, events: seq<Event>, stored: int)
    ensures step == stored0 + 1 && stored == stored0 + 1
    ensures events == RunBatch(step, p)
  {
    step := stored0 + 1;
    FiresMod(step, p.log);
    FiresMod(step, p.val);
    FiresMod(step, p.save);
    events := [Update(step)];
    stored := stored0 + 1;  // the training op's increment
    if NumpyMod(step, p.log) == 0 {
      events := events + [Log(step)];
    }
    if NumpyMod(step, p.val) == 0 {
      events := events + [Validate(step)];
    }
    if NumpyMod(step, p.save) == 0 {
      events := events + [Save(step)];
    }
  }

  /** An epoch that starts at epoch `epoch < num_epochs` runs its batches, adds
      the end-of-epoch events and a loss, then stops or goes on. */
  lemma NextEpoch(st: State, epoch: nat, numEpochs: int, epochs: seq<EpochInput>,
                  p: Periods, patience: int) returns (next: State)
    requires epoch < numEpochs <= |epochs|
    ensures var done := BatchesFrom(st, epochs[epoch].batches, p);
      next == done.(trace := done.trace + [EpochSave(epoch, done.step), EpochValidate(epoch, done.step)],
                    losses := done.losses + [epochs[epoch].valLoss])
    ensures next.losses == st.losses + [epochs[epoch].valLoss]
    ensures TrainFrom(st, epoch, numEpochs, epochs, p, patience)
      == if ShouldStop(next.losses, patience) then Outcome(next.trace, next.losses, Finished(epoch + 1))
         else TrainFrom(next, epoch + 1, numEpochs, epochs, p, patience)
  {
    var done := BatchesFrom(st, epochs[epoch].batches, p);
    next := done.(trace := done.trace + [EpochSave(epoch, done.step), EpochValidate(epoch, done.step)],
                  losses := done.losses + [epochs[epoch].valLoss]);
  }

  // ----- The loss history and the stop decision -----

  /** The stop condition, checked once the first `j` losses are recorded. */
  predicate StopsAfter(losses: seq<int>, j: nat, patience: int)
    requires 1 <= j <= |losses|
  {
    ShouldStop(losses[..j], patience)
  }

  /** The losses recorded so far are those of the first epochs, in order, and
      none of those epochs met the stop condition. */
  ghost predicate NoStopSoFar(losses: seq<int>, epochs: seq<EpochInput>, patience: int)
    requires |losses| <= |epochs|
  {
    && (forall i :: 0 <= i < |losses| ==> losses[i] == epochs[i].valLoss)
    && (forall j :: 1 <= j <= |losses| ==> !StopsAfter(losses, j, patience))
  }

  /** The losses a run records and how it ends. */
  datatype History = History(losses: seq<int>, status: Status)

  /** The losses and the ending of a run from epoch `epoch` with `losses`
      recorded, leaving the batches out: each epoch adds its loss, and the
      run ends at the first epoch that meets the stop rule or after
      `num_epochs` epochs. */
  function LossRun(losses: seq<int>, epoch: nat, numEpochs: int, epochs: seq<EpochInput>, patience: int): (h: History)
    requires numEpochs <= |epochs|
    decreases numEpochs - epoch
  {
    if epoch >= numEpochs then History(losses, if epoch == 0 then EpochUnbound else Finished(epoch))
    else
      var next := losses + [epochs[epoch].valLoss];
      if ShouldStop(next, patience) then History(next, Finished(epoch + 1))
      else LossRun(next, epoch + 1, numEpochs, epochs, patience)
  }

  /** The batches and the triggers do not affect the losses or the ending:
      a run records the losses and ends as `LossRun` says. */
  lemma {:induction false} LossesOfRun(st: State, epoch: nat, numEpochs: int, epochs: seq<EpochInput>,
                                       p: Periods, patience: int)
    requires numEpochs <= |epochs|
    ensures var r := TrainFrom(st, epoch, numEpochs, epochs, p, patience);
      History(r.losses, r.status) == LossRun(st.losses, epoch, numEpochs, epochs, patience)
    decreases numEpochs - epoch
  {
    if epoch < numEpochs {
      var next := NextEpoch(st, epoch, numEpochs, epochs, p, patience);
      if !ShouldStop(next.losses, patience) {
        LossesOfRun(next, epoch + 1, numEpochs, epochs, p, patience);
      }
    }
  }

  /** What a run that starts at epoch `epoch` ends with: the history gains
      one loss per completed epoch in epoch order; no proper prefix of it met
      the stop rule; the report counts the losses; and how the run ended. */
  ghost predicate RunHistory(h: History, epoch: nat, numEpochs: int, epochs: seq<EpochInput>, patience: int)
  {
    && epoch <= |h.losses| <= |epochs|
    && (forall i :: 0 <= i < |h.losses| ==> h.losses[i] == epochs[i].valLoss)
    && (forall j :: 1 <= j < |h.losses| ==> !StopsAfter(h.losses, j, patience))
    && (h.status == EpochUnbound <==> epoch == 0 && numEpochs <= 0)
    && (h.status.Finished? ==> 1 <= h.status.epochsReported == |h.losses| <= numEpochs)
    && (h.status.Finished? ==> |h.losses| == numEpochs || ShouldStop(h.losses, patience))
  }

  /** The loss history and the ending of a run from epoch `epoch` on. */
  lemma {:induction false} HistoryFrom(losses: seq<int>, epoch: nat, numEpochs: int, epochs: seq<EpochInput>,
                                       patience: int)
    requires numEpochs <= |epochs|
    requires |losses| == epoch && (epoch == 0 || epoch <= numEpochs)
    requires NoStopSoFar(losses, epochs, patience)
    ensures RunHistory(LossRun(losses, epoch, numEpochs, epochs, patience), epoch, numEpochs, epochs, patience)
    decreases numEpochs - epoch
  {
    if epoch < numEpochs {
      var next := losses + [epochs[epoch].valLoss];
      HistoryExtends(losses, next, epochs, patience);
      if !ShouldStop(next, patience) {
        HistoryFrom(next, epoch + 1, numEpochs, epochs, patience);
        HistoryEarlier(LossRun(next, epoch + 1, numEpochs, epochs, patience), epoch, numEpochs, epochs, patience);
      }
    }
  }

  /** What holds of a run from epoch `epoch + 1` holds of it from epoch `epoch`. */
  lemma HistoryEarlier(h: History, epoch: nat, numEpochs: int, epochs: seq<EpochInput>, patience: int)
    requires epoch < numEpochs
    requires RunHistory(h, epoch + 1, numEpochs, epochs, patience)
    ensures RunHistory(h, epoch, numEpochs, epochs, patience)
  {
  }

  /** Appending the next epoch's loss keeps the earlier prefixes, so it keeps
      `NoStopSoFar` unless the new history meets the stop condition. */
  lemma HistoryExtends(losses: seq<int>, next: seq<int>, epochs: seq<EpochInput>, patience: int)
    requires |losses| < |epochs| && NoStopSoFar(losses, epochs, patience)
    requires next == losses + [epochs[|losses|].valLoss]
    ensures forall i :: 0 <= i < |next| ==> next[i] == epochs[i].valLoss
    ensures forall j :: 1 <= j < |next| ==> !StopsAfter(next, j, patience)
    ensures !ShouldStop(next, patience) ==> NoStopSoFar(next, epochs, patience)
  {
    forall j | 1 <= j < |next| ensures !StopsAfter(next, j, patience) {
      assert !StopsAfter(losses, j, patience);
      assert next[..j] == losses[..j];
    }
    assert next[..|next|] == next;
  }

  /** At most `num_epochs` epochs run, and the report says how many did. With
      `num_epochs <= 0` no epoch runs and the report fails on the unbound loop
      variable; otherwise the run always finishes. */
  lemma EpochCount(numEpochs: int, epochs: seq<EpochInput>, p: Periods, patience: int)
    requires numEpochs <= |epochs|
    ensures var r := TrainSpec(numEpochs, epochs, p, patience);
      && (r.status == EpochUnbound <==> numEpochs <= 0)
      && (r.status == EpochUnbound ==> r.trace == [] && r.losses == [])
      && (r.status.Finished? ==> 1 <= r.status.epochsReported == |r.losses| <= numEpochs)
  {
    LossesOfRun(State([], [], 0, 0), 0, numEpochs, epochs, p, patience);
    HistoryFrom([], 0, numEpochs, epochs, patience);
  }

  /** The history holds one loss per completed epoch, in epoch order, and the
      loop ends at the first epoch whose stop condition holds: no shorter
      history met it, and a run that finished early met it on its last epoch. */
  lemma StopsAtFirstStoppingEpoch(numEpochs: int, epochs: seq<EpochInput>, p: Periods, patience: int)
    requires numEpochs <= |epochs|
    ensures var r := TrainSpec(numEpochs, epochs, p, patience);
      && |r.losses| <= |epochs|
      && (forall i :: 0 <= i < |r.losses| ==> r.losses[i] == epochs[i].valLoss)
      && (forall j :: 1 <= j < |r.losses| ==> !ShouldStop(r.losses[..j], patience))
      && (r.status.Finished? ==> |r.losses| > 0)
      && (r.status.Finished? && |r.losses| < numEpochs ==> ShouldStop(r.losses, patience))
  {
    var r := TrainSpec(numEpochs, epochs, p, patience);
    LossesOfRun(State([], [], 0, 0), 0, numEpochs, epochs, p, patience);
    HistoryFrom([], 0, numEpochs, epochs, patience);
    forall j | 1 <= j < |r.losses| ensures !ShouldStop(r.losses[..j], patience) {
      assert !StopsAfter(r.losses, j, patience);
    }
  }

  // ----- The trace of a run -----

  /** The events of the `n` batches after step `from`, batch by batch. */
  function StepEvents(from: int, n: nat, p: Periods): (ev: seq<Event>)
    ensures n > 0 ==> |ev| > 0 && ev[0] == Update(from + 1)
    decreases n
  {
    if n == 0 then [] else RunBatch(from + 1, p) + StepEvents(from + 1, n - 1, p)
  }

  /** The trace of the first `ended` epochs: for each epoch, the events of
      its batches, then its checkpoint and validation tagged with the number
      of batches so far. */
  function RunTrace(ended: nat, epochs: seq<EpochInput>, p: Periods): (t: seq<Event>)
    requires ended <= |epochs|
    ensures ended > 0 ==> |t| >= 2 && t[|t| - 2] == EpochSave(ended - 1, StepsBefore(epochs, ended))
                                    && t[|t| - 1] == EpochValidate(ended - 1, StepsBefore(epochs, ended))
  {
    if ended == 0 then []
    else
      var e := ended - 1;
      RunTrace(e, epochs, p) + StepEvents(StepsBefore(epochs, e), epochs[e].batches, p)
      + [EpochSave(e, StepsBefore(epochs, ended)), EpochValidate(e, StepsBefore(epochs, ended))]
  }

  /** The batches of an epoch append the events of their steps, in order. */
  lemma {:induction false} BatchesTrace(st: State, n: nat, p: Periods)
    ensures BatchesFrom(st, n, p).trace == st.trace + StepEvents(st.stored, n, p)
    decreases n
  {
    if n > 0 {
      var next := st.(trace := st.trace + RunBatch(st.stored + 1, p), stored := st.stored + 1, step := st.stored + 1);
      var ev := RunBatch(st.stored + 1, p);
      var rest := StepEvents(st.stored + 1, n - 1, p);
      BatchesTrace(next, n - 1, p);
      assert st.trace + ev + rest == st.trace + (ev + rest);
    }
  }

  /** An epoch started with the counters on the batches so far and the trace
      of the earlier epochs ends with the counters on the batches up to and
      including it and the trace of one more epoch. */
  lemma EpochTrace(st: State, epoch: nat, numEpochs: int, epochs: seq<EpochInput>, p: Periods, patience: int)
    returns (next: State)
    requires epoch < numEpochs <= |epochs|
    requires st.stored == st.step == StepsBefore(epochs, epoch) && st.trace == RunTrace(epoch, epochs, p)
    ensures next.stored == next.step == StepsBefore(epochs, epoch + 1)
    ensures next.trace == RunTrace(epoch + 1, epochs, p) && next.losses == st.losses + [epochs[epoch].valLoss]
    ensures TrainFrom(st, epoch, numEpochs, epochs, p, patience)
      == if ShouldStop(next.losses, patience) then Outcome(next.trace, next.losses, Finished(epoch + 1))
         else TrainFrom(next, epoch + 1, numEpochs, epochs, p, patience)
  {
    next := NextEpoch(st, epoch, numEpochs, epochs, p, patience);
    BatchesTrace(st, epochs[epoch].batches, p);
  }

  /** From an epoch reached with the trace of the earlier epochs, the run's
      trace is the trace of all the epochs it completes. */
  lemma {:induction false} TraceFrom(st: State, epoch: nat, numEpochs: int, epochs: seq<EpochInput>,
                                     p: Periods, patience: int)
    requires numEpochs <= |epochs| && epoch <= |epochs| && |st.losses| == epoch
    requires st.stored == st.step == StepsBefore(epochs, epoch) && st.trace == RunTrace(epoch, epochs, p)
    ensures var r := TrainFrom(st, epoch, numEpochs, epochs, p, patience);
      |r.losses| <= |epochs| && r.trace == RunTrace(|r.losses|, epochs, p)
    decreases numEpochs - epoch
  {
    if epoch < numEpochs {
      var next := EpochTrace(st, epoch, numEpochs, epochs, p, patience);
      if !ShouldStop(next.losses, patience) {
        TraceFrom(next, epoch + 1, numEpochs, epochs, p, patience);
      }
    }
  }

  /** The trace of a whole run is, epoch after completed epoch, the events of
      that epoch's batches with steps numbered on from the previous epoch,
      followed by its end-of-epoch checkpoint and validation tagged with the
      number of batches so far. */
  lemma RunTraceOfTrain(numEpochs: int, epochs: seq<EpochInput>, p: Periods, patience: int)
    requires numEpochs <= |epochs|
    ensures var r := TrainSpec(numEpochs, epochs, p, patience);
      |r.losses| <= |epochs| && r.trace == RunTrace(|r.losses|, epochs, p)
  {
    TraceFrom(State([], [], 0, 0), 0, numEpochs, epochs, p, patience);
  }

  // ----- The schedule of events, kind by kind -----

  /** The events of in-batch kind `k` over steps 1 to `n`, in step order. */
  function Periodic(k: Kind, n: nat, p: Periods): (ev: seq<Event>)
    ensures |ev| <= n
  {
    if n == 0 then [] else Periodic(k, n - 1, p) + FiredAt(k, n, p)
  }

  /** The end-of-epoch event of kind `k` for epoch `e`, tagged with step `s`. */
  function EpochEvent(k: Kind, e: nat, s: int): (ev: Event)
    requires !InBatch(k)
    ensures KindOf(ev) == k
  {
    if k == EpochSaveKind then EpochSave(e, s) else EpochValidate(e, s)
  }

  /** The end-of-epoch events of kind `k` of the first `ended` epochs, in
      epoch order, each tagged with the number of batches up to its epoch. */
  function EpochEnds(k: Kind, ended: nat, epochs: seq<EpochInput>): (ev: seq<Event>)
    requires !InBatch(k) && ended <= |epochs|
  {
    if ended == 0 then []
    else EpochEnds(k, ended - 1, epochs) + [EpochEvent(k, ended - 1, StepsBefore(epochs, ended))]
  }

  /** The events of kind `k` expected after `n` batches and `ended` completed epochs. */
  function Scheduled(k: Kind, n: nat, ended: nat, epochs: seq<EpochInput>, p: Periods): (ev: seq<Event>)
    requires ended <= |epochs|
  {
    if InBatch(k) then Periodic(k, n, p) else EpochEnds(k, ended, epochs)
  }

  /** The trace after `n` batches and `ended` completed epochs holds, kind by
      kind and in order, exactly the events the schedule expects. */
  ghost predicate Schedule(trace: seq<Event>, n: nat, ended: nat, epochs: seq<EpochInput>, p: Periods)
    requires ended <= |epochs|
  {
    forall k :: Filter(trace, k) == Scheduled(k, n, ended, epochs, p)
  }

  /** The updates of steps 1 to `n` are those steps in order. */
  lemma {:induction false} PeriodicUpdates(n: nat, p: Periods)
    ensures |Periodic(UpdateKind, n, p)| == n
    ensures forall i :: 0 <= i < n ==> Periodic(UpdateKind, n, p)[i] == Update(i + 1)
  {
    if n > 0 {
      PeriodicUpdates(n - 1, p);
    }
  }

  /** Over steps 1 to `n`, each trigger fired at exactly the steps its test
      fires for, which is every step when its period is zero. */
  lemma {:induction false} PeriodicFires(n: nat, p: Periods, s: int)
    ensures Log(s) in Periodic(LogKind, n, p) <==> 1 <= s <= n && Fires(s, p.log)
    ensures Validate(s) in Periodic(ValidateKind, n, p) <==> 1 <= s <= n && Fires(s, p.val)
    ensures Save(s) in Periodic(SaveKind, n, p) <==> 1 <= s <= n && Fires(s, p.save)
  {
    if n > 0 {
      PeriodicFires(n - 1, p, s);
    }
  }

  /** One end-of-epoch event per completed epoch, in epoch order, each tagged
      with the number of batches up to and including its epoch. */
  lemma {:induction false} EpochEndsTags(k: Kind, ended: nat, epochs: seq<EpochInput>)
    requires !InBatch(k) && ended <= |epochs|
    ensures |EpochEnds(k, ended, epochs)| == ended
    ensures forall e :: 0 <= e < ended ==> EpochEnds(k, ended, epochs)[e] == EpochEvent(k, e, StepsBefore(epochs, e + 1))
  {
    if ended > 0 {
      EpochEndsTags(k, ended - 1, epochs);
    }
  }

  /** What a trace that follows the schedule contains: the updates are steps
      1 to `n` in order; a summary, validation or checkpoint event exists for
      exactly the steps up to `n` whose test fires; and an end-of-epoch
      checkpoint and validation exist for exactly the completed epochs, tagged
      with the number of batches up to and including that epoch. */
  lemma ScheduleMeaning(trace: seq<Event>, n: nat, ended: nat, epochs: seq<EpochInput>, p: Periods)
    requires ended <= |epochs| && Schedule(trace, n, ended, epochs, p)
    ensures |Filter(trace, UpdateKind)| == n
    ensures forall i :: 0 <= i < n ==> Filter(trace, UpdateKind)[i] == Update(i + 1)
    ensures forall s :: Log(s) in trace <==> 1 <= s <= n && Fires(s, p.log)
    ensures forall s :: Validate(s) in trace <==> 1 <= s <= n && Fires(s, p.val)
    ensures forall s :: Save(s) in trace <==> 1 <= s <= n && Fires(s, p.save)
    ensures forall e: nat, s :: EpochSave(e, s) in trace <==> e < ended && s == StepsBefore(epochs, e + 1)
    ensures forall e: nat, s :: EpochValidate(e, s) in trace <==> e < ended && s == StepsBefore(epochs, e + 1)
  {
    assert Filter(trace, UpdateKind) == Periodic(UpdateKind, n, p);
    PeriodicUpdates(n, p);
    assert Filter(trace, LogKind) == Periodic(LogKind, n, p);
    assert Filter(trace, ValidateKind) == Periodic(ValidateKind, n, p);
    assert Filter(trace, SaveKind) == Periodic(SaveKind, n, p);
    forall s
      ensures Log(s) in trace <==> 1 <= s <= n && Fires(s, p.log)
      ensures Validate(s) in trace <==> 1 <= s <= n && Fires(s, p.val)
      ensures Save(s) in trace <==> 1 <= s <= n && Fires(s, p.save)
    {
      StepMeaning(trace, n, p, s);
    }
    assert Filter(trace, EpochSaveKind) == EpochEnds(EpochSaveKind, ended, epochs);
    assert Filter(trace, EpochValidateKind) == EpochEnds(EpochValidateKind, ended, epochs);
    EpochMeaning(trace, ended, epochs, EpochSaveKind);
    EpochMeaning(trace, ended, epochs, EpochValidateKind);
    forall e: nat, s ensures EpochSave(e, s) in trace <==> e < ended && s == StepsBefore(epochs, e + 1) {
      assert EpochEvent(EpochSaveKind, e, s) == EpochSave(e, s);
    }
    forall e: nat, s ensures EpochValidate(e, s) in trace <==> e < ended && s == StepsBefore(epochs, e + 1) {
      assert EpochEvent(EpochValidateKind, e, s) == EpochValidate(e, s);
    }
  }

  /** The periodic events of step `s` in a trace whose periodic events follow the schedule. */
  lemma StepMeaning(trace: seq<Event>, n: nat, p: Periods, s: int)
    requires Filter(trace, LogKind) == Periodic(LogKind, n, p)
    requires Filter(trace, ValidateKind) == Periodic(ValidateKind, n, p)
    requires Filter(trace, SaveKind) == Periodic(SaveKind, n, p)
    ensures Log(s) in trace <==> 1 <= s <= n && Fires(s, p.log)
    ensures Validate(s) in trace <==> 1 <= s <= n && Fires(s, p.val)
    ensures Save(s) in trace <==> 1 <= s <= n && Fires(s, p.save)
  {
    PeriodicFires(n, p, s);
    FilterMembership(trace, Log(s));
    FilterMembership(trace, Validate(s));
    FilterMembership(trace, Save(s));
  }

  /** The end-of-epoch events of one kind in a trace that follows the schedule. */
  lemma EpochMeaning(trace: seq<Event>, ended: nat, epochs: seq<EpochInput>, k: Kind)
    requires !InBatch(k) && ended <= |epochs| && Filter(trace, k) == EpochEnds(k, ended, epochs)
    ensures forall e: nat, s :: EpochEvent(k, e, s) in trace <==> e < ended && s == StepsBefore(epochs, e + 1)
  {
    EpochEndsTags(k, ended, epochs);
    forall e: nat, s ensures EpochEvent(k, e, s) in trace <==> e < ended && s == StepsBefore(epochs, e + 1) {
      FilterMembership(trace, EpochEvent(k, e, s));
      if EpochEvent(k, e, s) in EpochEnds(k, ended, epochs) {
        var i :| 0 <= i < ended && EpochEnds(k, ended, epochs)[i] == EpochEvent(k, e, s);
      }
      if e < ended && s == StepsBefore(epochs, e + 1) {
        assert EpochEnds(k, ended, epochs)[e] == EpochEvent(k, e, s);
      }
    }
  }

  /** One more step adds that step's events of each kind to the schedule:
      the in-batch ones it fires, and no end-of-epoch event. */
  lemma ScheduledStep(k: Kind, n: nat, ended: nat, epochs: seq<EpochInput>, p: Periods)
    requires ended <= |epochs|
    ensures Scheduled(k, n + 1, ended, epochs, p)
      == Scheduled(k, n, ended, epochs, p) + FiredAt(k, n + 1, p)
  {
    if !InBatch(k) {
      assert Scheduled(k, n, ended, epochs, p) + [] == Scheduled(k, n, ended, epochs, p);
    }
  }

  /** The next batch, numbered `n + 1`, extends the schedule by one step. */
  lemma BatchExtends(trace: seq<Event>, n: nat, ended: nat, epochs: seq<EpochInput>, p: Periods)
    requires ended <= |epochs| && Schedule(trace, n, ended, epochs, p)
    ensures Schedule(trace + RunBatch(n + 1, p), n + 1, ended, epochs, p)
  {
    var ev := RunBatch(n + 1, p);
    forall k ensures Filter(trace + ev, k) == Scheduled(k, n + 1, ended, epochs, p) {
      FilterAppend(trace, ev, k);
      BatchFilter(n + 1, p, k);
      ScheduledStep(k, n, ended, epochs, p);
      assert Filter(trace, k) == Scheduled(k, n, ended, epochs, p);
    }
  }

  /** The batches after step `from` extend the schedule by as many steps. */
  lemma {:induction false} StepsExtend(trace: seq<Event>, from: nat, n: nat, to: nat, ended: nat,
                                       epochs: seq<EpochInput>, p: Periods)
    requires to == from + n
    requires ended <= |epochs| && Schedule(trace, from, ended, epochs, p)
    ensures Schedule(trace + StepEvents(from, n, p), to, ended, epochs, p)
    decreases n
  {
    if n == 0 {
      assert trace + StepEvents(from, n, p) == trace;
    } else {
      var ev := RunBatch(from + 1, p);
      var rest := StepEvents(from + 1, n - 1, p);
      BatchExtends(trace, from, ended, epochs, p);
      StepsExtend(trace + ev, from + 1, n - 1, to, ended, epochs, p);
      assert StepEvents(from, n, p) == ev + rest;
      assert trace + ev + rest == trace + StepEvents(from, n, p);
    }
  }

  /** The end of epoch `ended`, tagged with the batches so far, adds its two
      events and nothing else. */
  lemma EpochEndExtends(trace: seq<Event>, n: nat, ended: nat, epochs: seq<EpochInput>, p: Periods)
    requires ended < |epochs| && n == StepsBefore(epochs, ended + 1)
    requires Schedule(trace, n, ended, epochs, p)
    ensures Schedule(trace + [EpochSave(ended, n), EpochValidate(ended, n)], n, ended + 1, epochs, p)
  {
    var tail := [EpochSave(ended, n), EpochValidate(ended, n)];
    forall k ensures Filter(trace + tail, k) == Scheduled(k, n, ended + 1, epochs, p) {
      FilterAppend(trace, tail, k);
      EpochEndFilter(ended, n, k);
      assert Filter(trace, k) == Scheduled(k, n, ended, epochs, p);
    }
  }

  /** The end of an epoch holds one event of each end-of-epoch kind. */
  lemma EpochEndFilter(epoch: nat, n: int, k: Kind)
    ensures Filter([EpochSave(epoch, n), EpochValidate(epoch, n)], k)
      == if InBatch(k) then [] else [EpochEvent(k, epoch, n)]
  {
    FilterAppend([EpochSave(epoch, n)], [EpochValidate(epoch, n)], k);
    assert [EpochSave(epoch, n), EpochValidate(epoch, n)] == [EpochSave(epoch, n)] + [EpochValidate(epoch, n)];
    FilterOne(EpochSave(epoch, n), k);
    FilterOne(EpochValidate(epoch, n), k);
  }

  /** The trace of the first `ended` epochs follows the schedule for the
      batches of those epochs. */
  lemma {:induction false} RunTraceSchedule(ended: nat, epochs: seq<EpochInput>, p: Periods)
    requires ended <= |epochs|
    ensures Schedule(RunTrace(ended, epochs, p), StepsBefore(epochs, ended), ended, epochs, p)
  {
    if ended == 0 {
      forall k ensures Filter([], k) == Scheduled(k, 0, 0, epochs, p) {
        if !InBatch(k) {
          assert EpochEnds(k, 0, epochs) == [];
        }
      }
    } else {
      var e := ended - 1;
      var n := StepsBefore(epochs, ended);
      var before := RunTrace(e, epochs, p);
      var ev := StepEvents(StepsBefore(epochs, e), epochs[e].batches, p);
      assert RunTrace(ended, epochs, p) == before + ev + [EpochSave(e, n), EpochValidate(e, n)];
      RunTraceSchedule(e, epochs, p);
      EpochScheduled(before, e, epochs, p);
    }
  }

  /** One more completed epoch extends the schedule of the earlier epochs'
      trace by that epoch's batches and its end-of-epoch events. */
  lemma EpochScheduled(before: seq<Event>, e: nat, epochs: seq<EpochInput>, p: Periods)
    requires e < |epochs|
    requires Schedule(before, StepsBefore(epochs, e), e, epochs, p)
    ensures var n := StepsBefore(epochs, e + 1);
      Schedule(before + StepEvents(StepsBefore(epochs, e), epochs[e].batches, p)
                 + [EpochSave(e, n), EpochValidate(e, n)], n, e + 1, epochs, p)
  {
    var n := StepsBefore(epochs, e + 1);
    var batches := before + StepEvents(StepsBefore(epochs, e), epochs[e].batches, p);
    StepsExtend(before, StepsBefore(epochs, e), epochs[e].batches, n, e, epochs, p);
    EpochEndExtends(batches, n, e, epochs, p);
  }

  /** For any periods, zero included, a run's trace is the batches' and
      epoch ends' events in order (`RunTraceOfTrain`), and kind by kind it
      holds exactly the updates of steps 1, 2, 3, ... across epochs, the
      summaries, validation passes and checkpoints of exactly the steps whose
      test fires, and one end-of-epoch checkpoint and validation per completed
      epoch tagged with the number of batches so far (`ScheduleMeaning`). */
  lemma TriggerSchedule(numEpochs: int, epochs: seq<EpochInput>, p: Periods, patience: int)
    requires numEpochs <= |epochs|
    ensures var r := TrainSpec(numEpochs, epochs, p, patience);
      && |r.losses| <= |epochs|
      && Schedule(r.trace, StepsBefore(epochs, |r.losses|), |r.losses|, epochs, p)
  {
    var r := TrainSpec(numEpochs, epochs, p, patience);
    RunTraceOfTrain(numEpochs, epochs, p, patience);
    RunTraceSchedule(|r.losses|, epochs, p);
  }

  /** A zero period makes its trigger fire at every step of the run, as
      NumPy's remainder by zero is 0. */
  lemma ZeroPeriodFiresEveryStep(numEpochs: int, epochs: seq<EpochInput>, p: Periods, patience: int, s: int)
    requires numEpochs <= |epochs|
    ensures var r := TrainSpec(numEpochs, epochs, p, patience);
      |r.losses| <= |epochs| &&
      (1 <= s <= StepsBefore(epochs, |r.losses|) ==>
        && (p.log == 0 ==> Log(s) in r.trace)
        && (p.val == 0 ==> Validate(s) in r.trace)
        && (p.save == 0 ==> Save(s) in r.trace))
  {
    var r := TrainSpec(numEpochs, epochs, p, patience);
    TriggerSchedule(numEpochs, epochs, p, patience);
    StepMeaning(r.trace, StepsBefore(epochs, |r.losses|), p, s);
  }
}
