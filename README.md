# Training-loop bookkeeping of `BaseTFModel`

`BaseTFModel` is the base class of the repository's TensorFlow models for
duplicate-question detection. This project models the parts of it that do not
depend on TensorFlow.

- **`train`** keeps a step counter and runs three periodic triggers per batch:
  a training summary, a validation pass and a checkpoint. It ends every epoch
  with a checkpoint and a validation pass. It stops early by a patience rule on
  the history of epoch validation losses.
- **`predict`** concatenates per-batch outputs.

The framework itself is opaque here:
- Session runs, summary writers and the checkpoint saver become events in a
  trace.
- The batches of each epoch and its validation loss are inputs.

## Files

- **`patience.dfy`** (module `Patience`): the stop rule.
  - It takes the window `history[:-(patience + 1)]` with Python's slice
    semantics, takes its minimum or the `inf` sentinel, and compares that with
    `<=` to the newest loss.
  - Losses are integers, because only `min` and `<=` are applied to them.
- **`triggers.dfy`** (module `Triggers`): one training batch as a list of
  events.
  - The step is `sess.run(self.global_step) + 1`, a NumPy integer scalar, so
    each test `global_step % period == 0` uses NumPy's remainder. `NumpyMod`
    models it: it takes the sign of the divisor, and a zero divisor gives 0
    with a warning instead of an error. So a zero period makes its trigger
    fire at every step, and no batch fails.
  - The model states each test as `Fires`: the period is 0, or `|period|`
    divides `|step|`, defined by repeated subtraction. `FiresMod` proves that
    `Fires` holds exactly when `NumpyMod(step, period) == 0`, for every sign
    and for period 0.
  - `Filter` keeps the events of one kind. The schedule of a whole run is
    therefore an exact list per kind, not just a set of membership facts.
- **`training.dfy`** (module `Training`): the training loop.
  - `TrainSpec` defines a whole run recursively. `Train` is the nested
    epoch/batch loop, and it is proved to return exactly `TrainSpec`'s
    outcome.
  - The lemmas state what a run does:
    - how many epochs run and what the report says;
    - the loss history and the first epoch that stops;
    - the trace in closed form: per completed epoch, the events of its batches
      with steps numbered on from the previous epoch, then its two
      end-of-epoch events;
    - kind by kind, the trigger schedule.
- **`prediction.dfy`** (module `Prediction`): the `predict` loop and its
  concatenation of blocks, including the two ways it can fail.

Assumptions, as the source leaves them to the framework:
- The stored `global_step` variable starts at 0, because `train` runs the
  variable initialiser first.
- The subclass's training op, run at base_tf_model.py:196-204, is assumed to
  add 1 to the stored counter. It runs after the step is read and before the
  validation and checkpoint tests, and `TrainBatch` performs the increment at
  that point. The op is not in this file, so the increment is assumed, not
  proved.
- Periodic validation passes compute a loss that `train` never reads. Only the
  end-of-epoch validation loss enters the history, so only that loss is an
  input.

## Model

| member | source | states |
|---|---|---|
| `Patience.Window` | duplicate_questions/models/base_tf_model.py:236 | the patience window is a prefix of the loss history |
| `Patience.WindowShape` | duplicate_questions/models/base_tf_model.py:236 | with patience >= 0 the window drops exactly the last `patience + 1` losses (empty when fewer remain), so it never holds the newest loss; patience -1 gives an empty window and patience <= -2 keeps the first `-(patience + 1)` losses |
| `Patience.MinOf` | duplicate_questions/models/base_tf_model.py:238 | the minimum of a non-empty list is one of its elements and at most every element |
| `Patience.WindowMin` | duplicate_questions/models/base_tf_model.py:237-240 | the window bound is finite exactly when the window is non-empty, and it is then an element of the window at most all others; otherwise it is the `inf` sentinel |
| `Patience.ShouldStop` | duplicate_questions/models/base_tf_model.py:236-241 | training can stop only when the window is non-empty, because `inf <= loss` is false |
| `Patience.StopIff` | duplicate_questions/models/base_tf_model.py:236-249 | with patience >= 0, training stops exactly when some loss older than the last `patience + 1` epochs is `<=` the newest loss (both directions) |
| `Patience.ShortHistoryNeverStops` | duplicate_questions/models/base_tf_model.py:236-241 | with fewer than `patience + 2` recorded losses the window is empty and training does not stop |
| `Patience.TieStops` | duplicate_questions/models/base_tf_model.py:241-249 | an older loss in the window equal to the newest one stops training |
| `Patience.ZeroPatience` | duplicate_questions/models/base_tf_model.py:236-249 | with patience 0, training continues exactly when the newest loss is strictly lower than every earlier loss |
| `Patience.MorePatienceStopsNoSooner` | duplicate_questions/models/base_tf_model.py:236-241 | a history that stops training with patience `p + 1` also stops it with patience `p` |
| `Patience.NegativePatience` | duplicate_questions/models/base_tf_model.py:236-241 | patience -1 never stops; patience <= -2 stops whenever the history is no longer than `-(patience + 1)`, because the window then holds the newest loss |
| `Triggers.NumpyMod` | duplicate_questions/models/base_tf_model.py:194 | NumPy's remainder on an integer scalar is 0 for a zero divisor, lies in `[0, b)` for a positive divisor and in `(b, 0]` for a negative one, and for a non-zero divisor differs from `a` by a multiple of it |
| `Triggers.FiresMod` | duplicate_questions/models/base_tf_model.py:194 | the trigger predicate holds exactly when NumPy's `step % period` is 0, for every sign of step and period and for period 0 |
| `Triggers.RunBatch` | duplicate_questions/models/base_tf_model.py:187-216 | every batch produces at least one event, and its first is the update of its own step |
| `Triggers.FilterAppend` | duplicate_questions/models/base_tf_model.py:194-216 | the events of one kind in two traces joined are those of the first followed by those of the second |
| `Triggers.FilterMembership` | duplicate_questions/models/base_tf_model.py:194-216 | an event occurs among the events of its own kind exactly when it occurs in the trace |
| `Triggers.BatchFilter` | duplicate_questions/models/base_tf_model.py:187-216 | for every kind, the events of that kind in batch `step` are exactly the events `FiredAt` assigns that step and kind: one update; a summary, a validation pass and a checkpoint exactly when their own test fires; no end-of-epoch event |
| `Triggers.BatchTriggers` | duplicate_questions/models/base_tf_model.py:187-216 | a batch starts with its update; it holds a summary, a validation pass and a checkpoint exactly when NumPy's remainder of the step by that period is 0, each independently of the others (so a zero period fires at every step); every event carries the batch's step and none is an end-of-epoch event |
| `Triggers.AnySubsetCanFire` | duplicate_questions/models/base_tf_model.py:194-216 | for every positive step and every choice of triggers there are non-zero periods that fire exactly that choice at that step |
| `Training.BatchesFrom` | duplicate_questions/models/base_tf_model.py:183-216 | an epoch's batches leave the loss history unchanged and add 1 per batch to the stored counter; `global_step` ends on the last batch's step, or keeps its previous value when the epoch has no batches |
| `Training.TrainFrom` | duplicate_questions/models/base_tf_model.py:178-252 | a run from epoch `e` never loses recorded losses, and it reports the unbound loop variable exactly when `e == 0` and `num_epochs <= 0` |
| `Training.TrainSpec` | duplicate_questions/models/base_tf_model.py:161-252 | a whole run reports the unbound loop variable exactly when `num_epochs <= 0` |
| `Training.TrainBatch` | duplicate_questions/models/base_tf_model.py:187-216 | the batch body, with the stored counter's increment at the training op and NumPy's remainder in the three tests, takes step `stored + 1`, advances the counter by one and produces exactly the events `RunBatch` specifies |
| `Training.TrainEpochBatches` | duplicate_questions/models/base_tf_model.py:183-216 | the batch loop of one epoch yields exactly the counters and events that `BatchesFrom` defines |
| `Training.TrainEpoch` | duplicate_questions/models/base_tf_model.py:178-249 | one epoch-loop iteration appends the epoch's loss and adds its batch count to the stored counter; a met stop rule ends the run reporting `epoch + 1`, and otherwise the run goes on from the next epoch in the new state |
| `Training.Train` | duplicate_questions/models/base_tf_model.py:161-252 | the nested epoch/batch loop with its counters, loss list and early stop returns exactly the outcome `TrainSpec` defines |
| `Training.LossesOfRun` | duplicate_questions/models/base_tf_model.py:178-252 | the losses a run records and how it ends depend only on the epochs' losses and the stop rule, not on the batches or the trigger periods (they equal the batch-free reference `LossRun`) |
| `Training.HistoryFrom` | duplicate_questions/models/base_tf_model.py:176-252 | from any epoch onward, the history gains one loss per completed epoch, in epoch order; no shorter history met the stop rule; the report equals the number of losses and is at most `num_epochs`; a run that stopped before `num_epochs` met the stop rule on its last epoch; the unbound-variable report happens exactly for `num_epochs <= 0` |
| `Training.HistoryExtends` | duplicate_questions/models/base_tf_model.py:230-241 | appending the next epoch's loss leaves every earlier prefix unchanged, so epochs that did not stop before still did not stop |
| `Training.EpochCount` | duplicate_questions/models/base_tf_model.py:178-252 | a run reports the unbound `epoch` exactly when `num_epochs <= 0`, and then has no events and no losses; otherwise it reports between 1 and `num_epochs` epochs, one per recorded loss |
| `Training.StopsAtFirstStoppingEpoch` | duplicate_questions/models/base_tf_model.py:228-249 | the loss list holds the epochs' losses in epoch order, no proper prefix met the stop rule, and a run that finished before `num_epochs` met it on its last loss |
| `Training.StepEvents` | duplicate_questions/models/base_tf_model.py:183-216 | a non-empty run of batches starts with the update of the step after the stored counter |
| `Training.RunTrace` | duplicate_questions/models/base_tf_model.py:178-226 | the trace of the first `ended > 0` epochs ends with the last epoch's checkpoint and validation, tagged with the number of batches so far |
| `Training.BatchesTrace` | duplicate_questions/models/base_tf_model.py:183-216 | an epoch's batches append, in order, the events of steps `stored + 1`, `stored + 2`, ..., one batch after another |
| `Training.EpochTrace` | duplicate_questions/models/base_tf_model.py:178-249 | an epoch started with the counters on the batches so far and the trace of the earlier epochs ends with the counters on the batches through this epoch and the trace of one more epoch |
| `Training.TraceFrom` | duplicate_questions/models/base_tf_model.py:178-249 | a run from any epoch reached in that state has, as its trace, the closed-form trace of all the epochs it completes |
| `Training.RunTraceOfTrain` | duplicate_questions/models/base_tf_model.py:161-252 | the trace of a whole run is, epoch after completed epoch, the events of its batches (steps numbered on from the previous epoch, each batch's update followed by its fired triggers) and then its end-of-epoch checkpoint and validation; every end-of-epoch event thus follows its epoch's last batch and precedes the next epoch's first update |
| `Training.PeriodicUpdates` | duplicate_questions/models/base_tf_model.py:187 | the updates of steps 1 to `n` are exactly `n` updates numbered 1 to `n` in order |
| `Training.PeriodicFires` | duplicate_questions/models/base_tf_model.py:194-216 | over steps 1 to `n`, a summary, validation or checkpoint event for step `s` is scheduled exactly when `1 <= s <= n` and its test fires for `s` |
| `Training.EpochEndsTags` | duplicate_questions/models/base_tf_model.py:218-226 | after `ended` epochs there is one end-of-epoch event of each kind per epoch, in epoch order, and epoch `e`'s event is tagged with the number of batches in epochs 0..e |
| `Training.ScheduleMeaning` | duplicate_questions/models/base_tf_model.py:187-226 | a trace that follows the schedule has its updates numbered 1 to `n` in order; it holds a summary, validation or checkpoint event for step `s` exactly when `1 <= s <= n` and the test fires; and it holds an end-of-epoch checkpoint and validation `(e, s)` exactly when `e` is a completed epoch and `s` is the number of batches in epochs 0..e (all both directions) |
| `Training.StepMeaning` | duplicate_questions/models/base_tf_model.py:194-216 | in a trace whose periodic events follow the schedule, step `s` has a summary, validation or checkpoint exactly when `1 <= s <= n` and its test fires |
| `Training.EpochMeaning` | duplicate_questions/models/base_tf_model.py:218-226 | in a trace whose end-of-epoch events follow the schedule, `(e, s)` occurs exactly for completed epochs `e` with `s` the number of batches in epochs 0..e |
| `Training.BatchExtends` | duplicate_questions/models/base_tf_model.py:187-216 | the next batch, numbered `n + 1`, extends a trace that follows the schedule up to step `n` to one that follows it up to step `n + 1` |
| `Training.StepsExtend` | duplicate_questions/models/base_tf_model.py:183-216 | the events of `n` further batches extend a trace that follows the schedule up to step `from` to one that follows it up to step `from + n` |
| `Training.EpochEndExtends` | duplicate_questions/models/base_tf_model.py:218-226 | the end-of-epoch checkpoint and validation, tagged with the batches so far, extend the schedule by one completed epoch and add no in-batch event |
| `Training.EpochEndFilter` | duplicate_questions/models/base_tf_model.py:220-226 | the end of an epoch adds one end-of-epoch checkpoint and one validation, both tagged with the same step, and no in-batch event |
| `Training.EpochScheduled` | duplicate_questions/models/base_tf_model.py:183-226 | one more completed epoch, its batches and then its two end-of-epoch events, extends the schedule by its batches and by one completed epoch |
| `Training.RunTraceSchedule` | duplicate_questions/models/base_tf_model.py:178-226 | the closed-form trace of the first `ended` epochs follows the schedule for the batches of those epochs and those completed epochs |
| `Training.TriggerSchedule` | duplicate_questions/models/base_tf_model.py:161-226 | for any periods, zero included, the events of each kind in a whole run's trace are exactly, and in order, those the schedule lists: updates for steps 1, 2, 3, ... across epochs, each trigger at exactly the steps its test fires for, and one end-of-epoch checkpoint and validation per completed epoch tagged with the number of batches so far (see `ScheduleMeaning`) |
| `Training.ZeroPeriodFiresEveryStep` | duplicate_questions/models/base_tf_model.py:194-216 | a zero period makes its summary, validation pass or checkpoint happen at every step of the run, because NumPy's remainder by zero is 0 |
| `Prediction.Concat` | duplicate_questions/models/base_tf_model.py:308-309 | concatenating blocks along the rows keeps every row: the result has as many rows as the blocks hold together |
| `Prediction.SideBySide` | duplicate_questions/models/base_tf_model.py:307 | joining the two encodings along the columns gives one row per instance, which starts with the sentence-one row and goes on with the sentence-two row |
| `Prediction.Predict` | duplicate_questions/models/base_tf_model.py:298-310 | the result fails with "nothing to concatenate" exactly when there are no batches, and with a row-count mismatch at the first batch whose two encodings differ in rows; otherwise it is the predictions and the joined encodings of all batches, concatenated in batch order |
| `Prediction.ConcatLayout` | duplicate_questions/models/base_tf_model.py:308-309 | concatenation keeps order: row `j` of block `i` sits right after all rows of the blocks before it |
| `Prediction.EncodingLayout` | duplicate_questions/models/base_tf_model.py:307-309 | every encoding row of the result is the sentence-one encoding followed by the sentence-two encoding of one instance, in batch order, and there are as many rows as instances in all batches |
| `Prediction.PredictionLayout` | duplicate_questions/models/base_tf_model.py:306-308 | prediction rows appear in batch order, and the result has as many rows as all batches together |

## Left out

- TensorFlow session, graph and variable handling (`tf.get_variable`, `build_graph`, `sess.run`, `init_op`, GPU options): these are framework calls. The stored step counter's reset to 0 and its increment by the subclass's training op are assumed, not proved.
- The 32-bit width of `global_step`: the variable is `int32` (base_tf_model.py:25-29), so the counter and the NumPy step would wrap after 2^31 - 1 batches. The model's counters are unbounded integers; no wrap-around is modelled.
- The `RuntimeWarning` NumPy emits for a remainder by zero: it is I/O on the warnings channel. Only its result, 0, is modelled.
- The default arguments of `train` (`val_period=250`, `log_period=10`, `save_period=250`, `max_ckpts_to_keep=10`, `patience=0`): every lemma holds for all values, so the model has no defaults. `ZeroPatience` is the case of the default patience.
- The abstract hooks `_create_placeholders`, `_build_forward` and `_get_*_feed_dict`: in this class they only raise `NotImplementedError`.
- Checkpoint retention (`max_ckpts_to_keep`), `Saver.save`/`restore` and `latest_checkpoint`: their semantics live in the framework. A checkpoint is only an event with its step tag.
- Summary writers, `tf.Summary`, progress bars and logging: these are I/O. A summary write is only a `Log` event.
- `_evaluate_on_validation`: the unweighted `np.mean` of per-batch floats is floating-point arithmetic. Each end-of-epoch validation loss is an input integer. Periodic validation passes carry no loss, because `train` never reads theirs.
- NaN and infinite losses: an empty validation generator makes `np.mean` return NaN, and NaN compares false with `<=`. Losses here are finite integers.
- `DataManager.get_batch_generator`: it is not part of this model. Each epoch's batch count is an input, and so is each test batch's output.
- Training.Train: it requires the inputs to cover `num_epochs` epochs (`numEpochs <= |epochs|`). This describes the data the environment supplies, not a check in the source.
- Prediction.Predict: it checks only that each batch's two encodings have the same number of rows. It does not model the column-shape agreement that `np.concatenate` also needs, which the fixed graph guarantees.
- `num_test_steps` in `predict` only sizes a progress bar and is not modelled.
