/** What one training batch does, as a sequence of observable events.

    A batch gets a step number. Three independent modulo tests on that step
    decide whether a training summary is written, whether a validation pass
    runs and whether a checkpoint is saved. The step is read back from the
    framework as a NumPy integer scalar, so the tests use NumPy's remainder:
    a zero period gives remainder 0 (with a warning) and fires at every step. */
module Triggers {

  /** The events of a training run. Updates, summaries, periodic validations
      and periodic checkpoints happen inside a batch. The end of every epoch
      adds one checkpoint and one validation pass, both tagged with the step
      of the last batch so far. */
  datatype Event =
    | Update(step: int)
    | Log(step: int)
    | Validate(step: int)
    | Save(step: int)
    | EpochSave(epoch: nat, step: int)
    | EpochValidate(epoch: nat, step: int)

  /** `log_period`, `val_period` and `save_period`. */
  datatype Periods = Periods(log: int, val: int, save: int)

  predicate NonZero(p: Periods) {
    p.log != 0 && p.val != 0 && p.save != 0
  }

  // ----- Remainders and divisibility -----

  function Abs(x: int): (r: nat)
    ensures r == x || r == -x
  {
    if x < 0 then -x else x
  }

  /** NumPy's `a % b` on integer scalars: the result takes the sign of the
      divisor, as Python's does, and a zero divisor gives 0 instead of an error. */
  function NumpyMod(a: int, b: int): (r: int)
    ensures b == 0 ==> r == 0
    ensures b > 0 ==> 0 <= r < b
    ensures b < 0 ==> b < r <= 0
    ensures b != 0 ==> (a - r) % b == 0
  {
    if b == 0 then 0
    else if b < 0 && a % b != 0 then
      assert a - (a % b + b) == b * (a / b - 1);
      ModOfMultiple(a - (a % b + b), b, a / b - 1);
      a % b + b
    else
      ModOfMultiple(a - a % b, b, a / b);
      a % b
  }

  /** `n` is a multiple of `d`: taking `d` away repeatedly reaches 0. */
  predicate Divides(d: nat, n: nat)
    requires d > 0
    decreases n
  {
    if n < d then n == 0 else Divides(d, n - d)
  }

  /** The trigger test `step % period == 0`: a zero period always fires, and
      otherwise `|period|` divides `|step|` (`FiresMod`). */
  predicate Fires(step: int, period: int) {
    period == 0 || Divides(Abs(period), Abs(step))
  }

  /** `|a * b| == |a| * |b|`. */
  lemma MulAbs(a: int, b: int)
    ensures Abs(a * b) == Abs(a) * Abs(b)
  {
    if a < 0 && b < 0 { assert a * b == (-a) * (-b); }
    else if a < 0 { assert -(a * b) == (-a) * b; }
    else if b < 0 { assert -(a * b) == a * (-b); }
  }

  lemma MulAtLeast(d: nat, k: nat)
    requires k > 0
    ensures d * k >= d
  {
    assert d * k == d + d * (k - 1);
  }

  /** A multiple of a non-zero `d` leaves remainder zero. */
  lemma ModOfMultiple(n: int, d: int, q: int)
    requires d != 0 && n == d * q
    ensures n % d == 0
  {
    var r := n % d;
    var k := q - n / d;
    assert n == d * (n / d) + r;
    assert r == d * k;
    if k != 0 {
      MulAbs(d, k);
      MulAtLeast(Abs(d), Abs(k));
    }
  }

  /** Repeated subtraction agrees with the remainder. */
  lemma {:induction false} DividesMod(d: nat, n: nat)
    requires d > 0
    ensures Divides(d, n) <==> n % d == 0
    decreases n
  {
    if n >= d {
      DividesMod(d, n - d);
      var q := (n - d) / d;
      if (n - d) % d == 0 { ModOfMultiple(n, d, q + 1); }
      if n % d == 0 { ModOfMultiple(n - d, d, n / d - 1); }
    }
  }

  /** A multiple of `p` is a multiple of `|p|` and back, whatever the signs. */
  lemma SignMod(s: int, p: int)
    requires p != 0
    ensures s % p == 0 <==> Abs(s) % Abs(p) == 0
  {
    if s % p == 0 {
      var q := s / p;
      assert s == p * q + s % p;
      MulAbs(p, q);
      ModOfMultiple(Abs(s), Abs(p), Abs(q));
    }
    if Abs(s) % Abs(p) == 0 {
      var k := Abs(s) / Abs(p);
      assert Abs(s) == Abs(p) * k + Abs(s) % Abs(p);
      SignedMultiple(s, p, k);
    }
  }

  /** `|s| == |p| * k` makes `s` a multiple of `p`. */
  lemma SignedMultiple(s: int, p: int, k: int)
    requires p != 0 && Abs(s) == Abs(p) * k
    ensures s % p == 0
  {
    if s < 0 && p < 0 {
      assert s == p * k;
      ModOfMultiple(s, p, k);
    } else if s < 0 {
      assert s == p * (-k);
      ModOfMultiple(s, p, -k);
    } else if p < 0 {
      assert s == p * (-k);
      ModOfMultiple(s, p, -k);
    } else {
      ModOfMultiple(s, p, k);
    }
  }

  /** The trigger fires exactly when the loop's test `step % period == 0`
      holds under NumPy's remainder, for every period, zero included. */
  lemma FiresMod(step: int, period: int)
    ensures Fires(step, period) <==> NumpyMod(step, period) == 0
  {
    if period != 0 {
      DividesMod(Abs(period), Abs(step));
      SignMod(step, period);
    }
  }

  // ----- One batch -----

  /** An event that is there or not. */
  function Opt(b: bool, e: Event): (r: seq<Event>)
  {
    if b then [e] else []
  }

  /** The events of batch `step`, in the loop body's order: the update, then
      the summary, the validation pass and the checkpoint when their tests
      fire. All carry the batch's step. */
  function RunBatch(step: int, p: Periods): (ev: seq<Event>)
    ensures |ev| >= 1 && ev[0] == Update(step)
  {
    [Update(step)] + Opt(Fires(step, p.log), Log(step)) + Opt(Fires(step, p.val), Validate(step))
    + Opt(Fires(step, p.save), Save(step))
  }

  // ----- Events by kind -----

  datatype Kind = UpdateKind | LogKind | ValidateKind | SaveKind | EpochSaveKind | EpochValidateKind

  function KindOf(e: Event): (k: Kind) {
    match e
    case Update(_) => UpdateKind
    case Log(_) => LogKind
    case Validate(_) => ValidateKind
    case Save(_) => SaveKind
    case EpochSave(_, _) => EpochSaveKind
    case EpochValidate(_, _) => EpochValidateKind
  }

  /** The kinds of event a batch can produce; the others come from the end of an epoch. */
  predicate InBatch(k: Kind) {
    k != EpochSaveKind && k != EpochValidateKind
  }

  /** The events of kind `k` that step `s` produces: always one update, a
      summary, a validation pass or a checkpoint when its own test fires, and
      never an end-of-epoch event. */
  function FiredAt(k: Kind, s: int, p: Periods): (ev: seq<Event>)
    ensures |ev| <= 1
  {
    match k
    case UpdateKind => [Update(s)]
    case LogKind => Opt(Fires(s, p.log), Log(s))
    case ValidateKind => Opt(Fires(s, p.val), Validate(s))
    case SaveKind => Opt(Fires(s, p.save), Save(s))
    case EpochSaveKind => []
    case EpochValidateKind => []
  }

  /** The events of kind `k` in a trace, in trace order. */
  function Filter(trace: seq<Event>, k: Kind): (r: seq<Event>)
  {
    if trace == [] then []
    else
      var last := trace[|trace| - 1];
      Filter(trace[..|trace| - 1], k) + (if KindOf(last) == k then [last] else [])
  }

  lemma {:induction false} FilterAppend(a: seq<Event>, b: seq<Event>, k: Kind)
    ensures Filter(a + b, k) == Filter(a, k) + Filter(b, k)
    decreases |b|
  {
    if b == [] {
      assert a + b == a;
    } else {
      assert (a + b)[..|a + b| - 1] == a + b[..|b| - 1];
      FilterAppend(a, b[..|b| - 1], k);
    }
  }

  lemma FilterOne(e: Event, k: Kind)
    ensures Filter([e], k) == if KindOf(e) == k then [e] else []
  {
    assert [e][..0] == [];
  }

  /** An event is among the events of its own kind exactly when it is in the trace. */
  lemma {:induction false} FilterMembership(trace: seq<Event>, e: Event)
    ensures e in Filter(trace, KindOf(e)) <==> e in trace
    decreases |trace|
  {
    if trace != [] {
      var init := trace[..|trace| - 1];
      FilterMembership(init, e);
      assert trace == init + [trace[|trace| - 1]];
    }
  }

  lemma FilterOpt(b: bool, e: Event, k: Kind)
    ensures Filter(Opt(b, e), k) == if b && KindOf(e) == k then [e] else []
  {
    if b {
      FilterOne(e, k);
    }
  }

  lemma FilterPieces(u: seq<Event>, l: seq<Event>, v: seq<Event>, c: seq<Event>, k: Kind)
    ensures Filter(u + l + v + c, k) == Filter(u, k) + Filter(l, k) + Filter(v, k) + Filter(c, k)
  {
    FilterAppend(u + l + v, c, k);
    FilterAppend(u + l, v, k);
    FilterAppend(u, l, k);
  }

  /** The events of each kind among an update and three optional events. */
  lemma FilterBatchPieces(step: int, fl: bool, fv: bool, fc: bool, k: Kind)
    ensures Filter([Update(step)] + Opt(fl, Log(step)) + Opt(fv, Validate(step)) + Opt(fc, Save(step)), k)
      == match k
         case UpdateKind => [Update(step)]
         case LogKind => Opt(fl, Log(step))
         case ValidateKind => Opt(fv, Validate(step))
         case SaveKind => Opt(fc, Save(step))
         case EpochSaveKind => []
         case EpochValidateKind => []
  {
    var u, l, v, c := [Update(step)], Opt(fl, Log(step)), Opt(fv, Validate(step)), Opt(fc, Save(step));
    FilterPieces(u, l, v, c, k);
    FilterOne(Update(step), k);
    FilterOpt(fl, Log(step), k);
    FilterOpt(fv, Validate(step), k);
    FilterOpt(fc, Save(step), k);
    match k
    case UpdateKind =>
      assert Filter(u, k) == u && Filter(l, k) == [] && Filter(v, k) == [] && Filter(c, k) == [];
    case LogKind =>
      assert Filter(u, k) == [] && Filter(l, k) == l && Filter(v, k) == [] && Filter(c, k) == [];
    case ValidateKind =>
      assert Filter(u, k) == [] && Filter(l, k) == [] && Filter(v, k) == v && Filter(c, k) == [];
    case SaveKind =>
      assert Filter(u, k) == [] && Filter(l, k) == [] && Filter(v, k) == [] && Filter(c, k) == c;
    case EpochSaveKind =>
    case EpochValidateKind =>
  }

  /** The events of kind `k` in one batch: exactly one update, and at most
      one summary, validation pass and checkpoint, each there exactly when its
      own test fires; no end-of-epoch event. */
  lemma BatchFilter(step: int, p: Periods, k: Kind)
    ensures Filter(RunBatch(step, p), k) == FiredAt(k, step, p)
  {
    FilterBatchPieces(step, Fires(step, p.log), Fires(step, p.val), Fires(step, p.save), k);
  }

  /** What a batch does: the update comes first; a summary, a validation pass
      and a checkpoint occur exactly when their own test fires, each
      independently of the others, so a zero period fires at every step; all
      events carry the batch's step. */
  lemma BatchTriggers(step: int, p: Periods)
    ensures var ev := RunBatch(step, p);
      && ev[0] == Update(step)
      && (Log(step) in ev <==> NumpyMod(step, p.log) == 0)
      && (Validate(step) in ev <==> NumpyMod(step, p.val) == 0)
      && (Save(step) in ev <==> NumpyMod(step, p.save) == 0)
      && (forall e :: e in ev ==> e.step == step && InBatch(KindOf(e)))
  {
    var ev := RunBatch(step, p);
    FiresMod(step, p.log);
    FiresMod(step, p.val);
    FiresMod(step, p.save);
    forall e | e in ev ensures InBatch(KindOf(e)) {
      FilterMembership(ev, e);
      BatchFilter(step, p, KindOf(e));
    }
  }

  /** Period 1 divides every step; period `step + 1` divides no positive step. */
  lemma AlwaysAndNever(step: int)
    requires step >= 1
    ensures Fires(step, 1) && !Fires(step, step + 1)
  {
    FiresMod(step, 1);
  }

  /** The three triggers are independent: for any step and any choice of which
      of them should fire, some non-zero periods make exactly those fire. */
  lemma AnySubsetCanFire(step: int, log: bool, val: bool, save: bool)
    requires step >= 1
    ensures exists p :: NonZero(p) && (
              var ev := RunBatch(step, p);
              && (Log(step) in ev <==> log)
              && (Validate(step) in ev <==> val)
              && (Save(step) in ev <==> save))
  {
    var never := step + 1;
    AlwaysAndNever(step);
    var p := Periods(if log then 1 else never, if val then 1 else never, if save then 1 else never);
    assert Fires(step, p.log) == log && Fires(step, p.val) == val && Fires(step, p.save) == save;
    assert NonZero(p);
  }
}
