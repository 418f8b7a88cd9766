/** How `BaseTFModel.predict` assembles its result, without the framework calls.

    Each test batch yields a block of predictions and two blocks of sentence
    encodings. The loop collects the prediction blocks and, per batch, the
    encodings of sentence one and sentence two joined row by row. At the end
    both lists are concatenated along the rows. The numeric values are opaque
    here, so rows are sequences of an arbitrary element type. */
module Prediction {

  /** What the model computes for one test batch: one prediction row per
      instance, and one encoding row per instance for each sentence. */
  datatype BatchOutput<P, E> = BatchOutput(preds: seq<P>, encodedOne: seq<seq<E>>, encodedTwo: seq<seq<E>>)

  /** Joining the two encodings side by side needs as many rows in each, and
      concatenating needs at least one block. */
  datatype PredictError = RowCountMismatch(batch: nat) | NothingToConcatenate

  datatype Result<T> = Ok(value: T) | Err(error: PredictError)

  /** The two arrays `predict` returns. */
  datatype Predictions<P, E> = Predictions(preds: seq<P>, encodings: seq<seq<E>>)

  /** Concatenation along the rows: the rows of every block, block by block.
      It keeps every row, so the result has as many rows as the blocks
      together. */
  function Concat<T>(blocks: seq<seq<T>>): (r: seq<T>)
    ensures |r| == TotalRows(blocks)
  {
    if blocks == [] then [] else Concat(blocks[..|blocks| - 1]) + blocks[|blocks| - 1]
  }

  /** The total number of rows in a list of blocks. */
  function TotalRows<T>(blocks: seq<seq<T>>): (n: nat) {
    if blocks == [] then 0 else TotalRows(blocks[..|blocks| - 1]) + |blocks[|blocks| - 1]|
  }

  predicate Aligned<P, E>(b: BatchOutput<P, E>) {
    |b.encodedOne| == |b.encodedTwo|
  }

  /** Concatenation along the columns: one row per row of `one`, and row `i`
      starts with row `i` of `one` and goes on with row `i` of `two`. */
  function SideBySide<E>(one: seq<seq<E>>, two: seq<seq<E>>): (r: seq<seq<E>>)
    requires |one| == |two|
    ensures |r| == |one|
    ensures forall i :: 0 <= i < |r| ==>
      |r[i]| == |one[i]| + |two[i]| && r[i][..|one[i]|] == one[i] && r[i][|one[i]|..] == two[i]
  {
    seq(|one|, i requires 0 <= i < |one| => one[i] + two[i])
  }

  /** The prediction block of every batch, in batch order. */
  function PredBlocks<P, E>(batches: seq<BatchOutput<P, E>>): (r: seq<seq<P>>) {
    seq(|batches|, k requires 0 <= k < |batches| => batches[k].preds)
  }

  /** The joined encoding block of every batch, in batch order. */
  function EncodingBlocks<P, E>(batches: seq<BatchOutput<P, E>>): (r: seq<seq<seq<E>>>)
    requires forall k :: 0 <= k < |batches| ==> Aligned(batches[k])
  {
    seq(|batches|, k requires 0 <= k < |batches| && Aligned(batches[k]) => SideBySide(batches[k].encodedOne, batches[k].encodedTwo))
  }

  /** The inference loop over the batches the test generator yields. It fails
      at the first batch whose two encodings differ in row count, and at the
      end when there was no batch at all. Otherwise it returns the predictions
      and the joined encodings of all batches, concatenated in batch order. */
  method Predict<P, E>(batches: seq<BatchOutput<P, E>>) returns (r: Result<Predictions<P, E>>)
    ensures r == Err(NothingToConcatenate) <==> batches == []
    ensures forall k: nat :: r == Err(RowCountMismatch(k)) <==>
      k < |batches| && !Aligned(batches[k]) && forall j :: 0 <= j < k ==> Aligned(batches[j])
    ensures r.Ok? <==> batches != [] && forall k :: 0 <= k < |batches| ==> Aligned(batches[k])
    ensures r.Ok? ==> r.value.preds == Concat(PredBlocks(batches))
    ensures r.Ok? ==> r.value.encodings == Concat(EncodingBlocks(batches))
  {
    var predBlocks: seq<seq<P>> := [];
    var encodingBlocks: seq<seq<seq<E>>> := [];
    for k := 0 to |batches|
      invariant forall j :: 0 <= j < k ==> Aligned(batches[j])
      invariant predBlocks == PredBlocks(batches[..k])
      invariant encodingBlocks == EncodingBlocks(batches[..k])
    {
      var b := batches[k];
      predBlocks := predBlocks + [b.preds];
      if |b.encodedOne| != |b.encodedTwo| {
        return Err(RowCountMismatch(k));
      }
      encodingBlocks := encodingBlocks + [SideBySide(b.encodedOne, b.encodedTwo)];
      assert predBlocks == PredBlocks(batches[..k + 1]);
      assert encodingBlocks == EncodingBlocks(batches[..k + 1]);
    }
    assert batches[..|batches|] == batches;
    if predBlocks == [] {
      return Err(NothingToConcatenate);
    }
    r := Ok(Predictions(Concat(predBlocks), Concat(encodingBlocks)));
  }

  /** Concatenation keeps the order: row `j` of block `i` sits after all the
      rows of the blocks before it. */
  lemma {:induction false} ConcatLayout<T>(blocks: seq<seq<T>>, i: nat, j: nat)
    requires i < |blocks| && j < |blocks[i]|
    ensures TotalRows(blocks[..i]) + j < |Concat(blocks)|
    ensures Concat(blocks)[TotalRows(blocks[..i]) + j] == blocks[i][j]
    decreases |blocks|
  {
    var init := blocks[..|blocks| - 1];
    if i == |blocks| - 1 {
      assert blocks[..i] == init;
    } else {
      assert init[..i] == blocks[..i];
      ConcatLayout(init, i, j);
    }
  }

  /** Each encoding row of the result is the sentence-one encoding followed by
      the sentence-two encoding of one instance, and the rows come in batch
      order; there are as many as the instances of all batches. */
  lemma EncodingLayout<P, E>(batches: seq<BatchOutput<P, E>>, k: nat, j: nat)
    requires forall b :: 0 <= b < |batches| ==> Aligned(batches[b])
    requires k < |batches| && j < |batches[k].encodedOne|
    ensures var rows := Concat(EncodingBlocks(batches));
      && |rows| == TotalRows(EncodingBlocks(batches))
      && TotalRows(EncodingBlocks(batches)[..k]) + j < |rows|
      && rows[TotalRows(EncodingBlocks(batches)[..k]) + j]
           == batches[k].encodedOne[j] + batches[k].encodedTwo[j]
  {
    ConcatLayout(EncodingBlocks(batches), k, j);
  }

  /** Prediction row `j` of batch `k` sits after the rows of the batches before it. */
  lemma PredictionLayout<P, E>(batches: seq<BatchOutput<P, E>>, k: nat, j: nat)
    requires k < |batches| && j < |batches[k].preds|
    ensures var rows := Concat(PredBlocks(batches));
      && |rows| == TotalRows(PredBlocks(batches))
      && TotalRows(PredBlocks(batches)[..k]) + j < |rows|
      && rows[TotalRows(PredBlocks(batches)[..k]) + j] == batches[k].preds[j]
  {
    ConcatLayout(PredBlocks(batches), k, j);
  }
}
