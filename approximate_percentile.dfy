/** The approximate-percentile aggregation over DOUBLE values: an accumulator holding a
    quantile digest and the requested percentile, with the aggregation-function
    protocol initialize / addInput / addIntermediate / evaluateIntermediate /
    evaluateFinal.

    Doubles are represented by their raw IEEE-754 bit patterns (the value of
    Double.doubleToRawLongBits), so no floating-point arithmetic is involved. The
    digest is abstracted to the multiset of sortable longs inserted into it, with the
    configured maximum relative error; the digest's quantile estimate is a function
    parameter. */
module ApproximatePercentile {
  import opened Common
  import opened SortableBits

  /** -1.0, the "percentile not yet supplied" sentinel. No other bit pattern is
      numerically equal to -1.0, so `percentile != -1` is a test on the pattern. */
  const MinusOne: Double := 0xbff0_0000_0000_0000

  /** Maximum error the digest is created with. */
  const DigestMaxError: real := 0.01

  // ---------------------------------------------------------------------------
  // Digest and accumulator state
  // ---------------------------------------------------------------------------

  /** A quantile digest, abstracted to the sortable longs added to it. */
  datatype Digest = Digest(maxError: real, values: multiset<bv64>)

  function Count(d: Digest): nat
  {
    |d.values|
  }

  /** The accumulator's value: the digest and the percentile requested so far. */
  datatype Accumulator = Accumulator(digest: Digest, percentile: Double)

  /** The intermediate blob: a serialized digest followed by the percentile. */
  datatype Intermediate = Intermediate(digest: Digest, percentile: Double)

  /** A block of tuples; a tuple's fields are nullable doubles. */
  type Tuple = seq<Option<Double>>
  type Block = seq<Tuple>

  /** Every tuple of the block has the field. */
  predicate HasField(block: Block, field: nat)
  {
    forall i :: 0 <= i < |block| ==> field < |block[i]|
  }

  /** The sortable encodings of the non-null values of a field, over a block. */
  function SortableValues(block: Block, field: nat): multiset<bv64>
    requires HasField(block, field)
  {
    if block == [] then multiset{}
    else
      var last := block[|block| - 1][field];
      SortableValues(block[..|block| - 1], field)
        + if last.Some? then multiset{DoubleToSortableLong(last.value)} else multiset{}
  }

  /** Splitting a block into two pages changes nothing about the values collected. */
  lemma {:induction false} SortableValuesAppend(a: Block, b: Block, field: nat)
    requires HasField(a, field) && HasField(b, field)
    ensures HasField(a + b, field)
    ensures SortableValues(a + b, field) == SortableValues(a, field) + SortableValues(b, field)
  {
    assert HasField(a + b, field) by {
      forall i | 0 <= i < |a + b| ensures field < |(a + b)[i]| {
        if i < |a| { assert (a + b)[i] == a[i]; } else { assert (a + b)[i] == b[i - |a|]; }
      }
    }
    if b == [] {
      assert a + b == a;
    } else {
      var b' := b[..|b| - 1];
      assert HasField(b', field);
      assert (a + b)[..|a + b| - 1] == a + b';
      assert (a + b)[|a + b| - 1] == b[|b| - 1];
      SortableValuesAppend(a, b', field);
    }
  }

  /** The percentile a percentile block supplies: its first position, when non-null. */
  function FirstPercentile(block: Block, field: nat, current: Double): (p: Double)
    requires |block| > 0 ==> field < |block[0]|
    ensures |block| > 0 && block[0][field].Some? ==> p == block[0][field].value
    ensures |block| == 0 || block[0][field].None? ==> p == current
  {
    if |block| > 0 && block[0][field].Some? then block[0][field].value else current
  }

  /** The state initialize() creates. */
  function Initial(): (a: Accumulator)
    ensures Count(a.digest) == 0 && a.percentile == MinusOne
  {
    Accumulator(Digest(DigestMaxError, multiset{}), MinusOne)
  }

  /** Block-form addInput on accumulator values. */
  function BlockInput(a: Accumulator, values: Block, valueField: nat, percentiles: Block, percentileField: nat)
    : (r: Accumulator)
    requires HasField(values, valueField)
    requires |percentiles| > 0 ==> percentileField < |percentiles[0]|
    ensures r.digest.maxError == a.digest.maxError
    ensures r.digest.values == a.digest.values + SortableValues(values, valueField)
    ensures r.percentile == FirstPercentile(percentiles, percentileField, a.percentile)
  {
    Accumulator(a.digest.(values := a.digest.values + SortableValues(values, valueField)),
                FirstPercentile(percentiles, percentileField, a.percentile))
  }

  /** Cursor-form addInput on accumulator values: one value and one percentile. */
  function CursorInput(a: Accumulator, value: Option<Double>, percentile: Option<Double>): (r: Accumulator)
    ensures value.None? ==> r.digest == a.digest
    ensures value.Some? ==> r.digest == a.digest.(values := a.digest.values + multiset{DoubleToSortableLong(value.value)})
    ensures r.percentile == if percentile.Some? then percentile.value else a.percentile
  {
    var digest := if value.Some? then a.digest.(values := a.digest.values + multiset{DoubleToSortableLong(value.value)})
                  else a.digest;
    Accumulator(digest, if percentile.Some? then percentile.value else a.percentile)
  }

  /** evaluateIntermediate on accumulator values: null for an empty digest, otherwise
      the digest followed by the percentile. */
  function Serialize(a: Accumulator): (r: Option<Intermediate>)
    ensures r.None? <==> Count(a.digest) == 0
    ensures r.Some? ==> r.value.digest == a.digest && r.value.percentile == a.percentile
  {
    if Count(a.digest) == 0 then None else Some(Intermediate(a.digest, a.percentile))
  }

  /** addIntermediate on accumulator values: a null blob is a no-op; otherwise the
      blob's digest is merged in and its trailing percentile replaces the current one. */
  function Combine(a: Accumulator, blob: Option<Intermediate>): (r: Accumulator)
    ensures blob.None? ==> r == a
    ensures blob.Some? ==>
              && r.digest.maxError == a.digest.maxError
              && r.digest.values == a.digest.values + blob.value.digest.values
              && r.percentile == blob.value.percentile
  {
    match blob
    case None => a
    case Some(b) => Accumulator(a.digest.(values := a.digest.values + b.digest.values), b.percentile)
  }

  /** evaluateFinal on accumulator values. */
  function Final(a: Accumulator, quantile: (Digest, Double) -> bv64): (r: Result<Option<Double>>)
    ensures r == Ok(None) <==> Count(a.digest) == 0
    ensures r.Err? <==> Count(a.digest) != 0 && a.percentile == MinusOne
    ensures r.Err? ==> r.error == IllegalState("Percentile is missing")
    ensures r.Ok? && r.value.Some? ==> DoubleToSortableLong(r.value.value) == quantile(a.digest, a.percentile)
  {
    if Count(a.digest) == 0 then Ok(None)
    else if a.percentile == MinusOne then Err(IllegalState("Percentile is missing"))
    else
      var q := quantile(a.digest, a.percentile);
      SortableRoundTrip(q);
      Ok(Some(LongToDouble(q)))
  }

  // ---------------------------------------------------------------------------
  // Properties of the protocol
  // ---------------------------------------------------------------------------

  /** Serializing a non-empty state and merging the blob into a fresh state restores
      the same digest contents and percentile; an empty state serializes to null, which
      leaves the fresh state as it is. */
  lemma IntermediateRoundTrip(a: Accumulator)
    ensures Count(a.digest) > 0 ==>
              Combine(Initial(), Serialize(a)) == Accumulator(Digest(DigestMaxError, a.digest.values), a.percentile)
    ensures Count(a.digest) == 0 ==> Combine(Initial(), Serialize(a)) == Initial()
  {
    assert multiset{} + a.digest.values == a.digest.values;
  }

  /** Feeding the values of one block split into two pages gives the digest of the whole
      block, whatever the page boundary. */
  lemma PageSplitDigest(a: Accumulator, first: Block, second: Block, field: nat, percentiles: Block, pField: nat)
    requires HasField(first, field) && HasField(second, field)
    requires |percentiles| > 0 ==> pField < |percentiles[0]|
    ensures HasField(first + second, field)
    ensures BlockInput(BlockInput(a, first, field, percentiles, pField), second, field, percentiles, pField)
            == BlockInput(a, first + second, field, percentiles, pField)
  {
    SortableValuesAppend(first, second, field);
  }

  /** Where a partial aggregation of each of two batches is serialized and both blobs
      are merged into a fresh state, the merged digest is that of a single pass over both
      batches, whatever percentiles the batches supply. */
  lemma PartialThenMergeDigest(first: Block, second: Block, field: nat, p1: Block, p2: Block, pField: nat)
    requires HasField(first, field) && HasField(second, field)
    requires |p1| > 0 ==> pField < |p1[0]|
    requires |p2| > 0 ==> pField < |p2[0]|
    ensures var single := BlockInput(BlockInput(Initial(), first, field, p1, pField), second, field, p2, pField);
            var merged := Combine(Combine(Initial(), Serialize(BlockInput(Initial(), first, field, p1, pField))),
                                  Serialize(BlockInput(Initial(), second, field, p2, pField)));
            merged.digest == single.digest
  {
    var partial1 := BlockInput(Initial(), first, field, p1, pField);
    var partial2 := BlockInput(Initial(), second, field, p2, pField);
    assert partial1.digest.values == SortableValues(first, field);
    assert partial2.digest.values == SortableValues(second, field);
  }

  /** When each batch supplies the same percentile, the merged partial aggregations also
      give the single-pass final result. */
  lemma PartialThenMergeMatchesSinglePass(
    first: Block, second: Block, field: nat, p1: Block, p2: Block, pField: nat, p: Double,
    quantile: (Digest, Double) -> bv64)
    requires HasField(first, field) && HasField(second, field)
    requires |p1| > 0 && pField < |p1[0]| && p1[0][pField] == Some(p)
    requires |p2| > 0 && pField < |p2[0]| && p2[0][pField] == Some(p)
    ensures var single := BlockInput(BlockInput(Initial(), first, field, p1, pField), second, field, p2, pField);
            var partial1 := BlockInput(Initial(), first, field, p1, pField);
            var partial2 := BlockInput(Initial(), second, field, p2, pField);
            var merged := Combine(Combine(Initial(), Serialize(partial1)), Serialize(partial2));
            Final(merged, quantile) == Final(single, quantile)
  {
    PartialThenMergeDigest(first, second, field, p1, p2, pField);
  }

  /** The trailer of a blob replaces the percentile even when it is the -1 sentinel: a
      non-empty partial that never saw a percentile, merged last, makes evaluateFinal fail,
      while the other merge order succeeds. */
  lemma SentinelTrailerOverwrites(x: Intermediate, y: Intermediate, quantile: (Digest, Double) -> bv64)
    requires x.percentile != MinusOne && y.percentile == MinusOne
    requires |y.digest.values| > 0
    ensures Final(Combine(Combine(Initial(), Some(x)), Some(y)), quantile) == Err(IllegalState("Percentile is missing"))
    ensures Final(Combine(Combine(Initial(), Some(y)), Some(x)), quantile).Ok?
  {
    assert |Combine(Combine(Initial(), Some(x)), Some(y)).digest.values| > 0;
    assert |Combine(Combine(Initial(), Some(y)), Some(x)).digest.values| > 0;
  }

  /** A value field that is null at every position contributes no value. */
  lemma {:induction false} AllNullNoValues(block: Block, field: nat)
    requires forall i :: 0 <= i < |block| ==> field < |block[i]| && block[i][field].None?
    ensures HasField(block, field)
    ensures SortableValues(block, field) == multiset{}
  {
    if block != [] {
      var front := block[..|block| - 1];
      assert forall i :: 0 <= i < |front| ==> front[i] == block[i];
      AllNullNoValues(front, field);
    }
  }

  /** A group whose value column is entirely null evaluates to null. */
  lemma AllNullFinalIsNull(block: Block, field: nat, percentiles: Block, percentileField: nat,
                           quantile: (Digest, Double) -> bv64)
    requires forall i :: 0 <= i < |block| ==> field < |block[i]| && block[i][field].None?
    requires |percentiles| > 0 ==> percentileField < |percentiles[0]|
    ensures HasField(block, field)
    ensures Final(BlockInput(Initial(), block, field, percentiles, percentileField), quantile) == Ok(None)
  {
    AllNullNoValues(block, field);
  }

  /** Merging blobs is insensitive to their order, as far as the digest goes. */
  lemma MergeOrderIrrelevant(a: Accumulator, x: Intermediate, y: Intermediate)
    ensures Combine(Combine(a, Some(x)), Some(y)).digest == Combine(Combine(a, Some(y)), Some(x)).digest
  {
    assert a.digest.values + x.digest.values + y.digest.values == a.digest.values + y.digest.values + x.digest.values;
  }

  /** The intermediate value is a binary blob, the final one a double. */
  function IntermediateTupleInfo(): TupleInfo { SingleVarbinary }
  function FinalTupleInfo(): TupleInfo { SingleDouble }

  lemma TupleInfosDiffer()
    ensures IntermediateTupleInfo() != FinalTupleInfo()
  {
  }

  // ---------------------------------------------------------------------------
  // The accumulator object and the aggregation function's methods
  // ---------------------------------------------------------------------------

  /** DigestAndPercentile: the per-group accumulator that the methods update in place. */
  class DigestAndPercentile {
    var digest: Digest
    var percentile: Double

    constructor (digest: Digest)
      ensures this.digest == digest && percentile == MinusOne
    {
      this.digest := digest;
      percentile := MinusOne;
    }

    function Value(): Accumulator
      reads this
    {
      Accumulator(digest, percentile)
    }
  }

  method Initialize() returns (s: DigestAndPercentile)
    ensures fresh(s) && s.Value() == Initial()
  {
    s := new DigestAndPercentile(Digest(DigestMaxError, multiset{}));
  }

  /** Block-form addInput: adds every non-null value of the value block, then takes the
      percentile from the first position of the percentile block when it is non-null. */
  method AddInputBlock(values: Block, valueField: nat, percentiles: Block, percentileField: nat,
                       current: DigestAndPercentile)
    returns (r: DigestAndPercentile)
    requires HasField(values, valueField)
    requires |percentiles| > 0 ==> percentileField < |percentiles[0]|
    modifies current
    ensures r == current
    ensures current.Value() == BlockInput(old(current.Value()), values, valueField, percentiles, percentileField)
  {
    var i := 0;
    while i < |values|
      invariant 0 <= i <= |values|
      invariant HasField(values[..i], valueField)
      invariant current.percentile == old(current.percentile)
      invariant current.digest.maxError == old(current.digest.maxError)
      invariant current.digest.values == old(current.digest.values) + SortableValues(values[..i], valueField)
    {
      var cell := values[i][valueField];
      assert values[..i + 1][..i] == values[..i];
      if cell.Some? {
        current.digest := current.digest.(values := current.digest.values + multiset{DoubleToSortableLong(cell.value)});
      }
      i := i + 1;
    }
    assert values[..i] == values;
    if |percentiles| > 0 {
      var cell := percentiles[0][percentileField];
      if cell.Some? {
        current.percentile := cell.value;
      }
    }
    r := current;
  }

  /** Cursor-form addInput: the value and the percentile at the cursors' position. */
  method AddInputCursor(value: Option<Double>, percentile: Option<Double>, current: DigestAndPercentile)
    returns (r: DigestAndPercentile)
    modifies current
    ensures r == current
    ensures current.Value() == CursorInput(old(current.Value()), value, percentile)
  {
    if value.Some? {
      current.digest := current.digest.(values := current.digest.values + multiset{DoubleToSortableLong(value.value)});
    }
    if percentile.Some? {
      current.percentile := percentile.value;
    }
    r := current;
  }

  method AddIntermediate(blob: Option<Intermediate>, current: DigestAndPercentile)
    returns (r: DigestAndPercentile)
    modifies current
    ensures r == current
    ensures current.Value() == Combine(old(current.Value()), blob)
  {
    if blob.Some? {
      current.digest := current.digest.(values := current.digest.values + blob.value.digest.values);
      current.percentile := blob.value.percentile;
    }
    r := current;
  }

  /** The value evaluateIntermediate appends to the output builder. */
  method EvaluateIntermediate(current: DigestAndPercentile) returns (appended: Option<Intermediate>)
    ensures appended == Serialize(current.Value())
  {
    if Count(current.digest) == 0 {
      appended := None;
    } else {
      appended := Some(Intermediate(current.digest, current.percentile));
    }
  }

  /** The value evaluateFinal appends to the output builder, or its failure. */
  method EvaluateFinal(current: DigestAndPercentile, quantile: (Digest, Double) -> bv64)
    returns (appended: Result<Option<Double>>)
    ensures appended == Final(current.Value(), quantile)
  {
    if Count(current.digest) == 0 {
      appended := Ok(None);
    } else if current.percentile == MinusOne {
      appended := Err(IllegalState("Percentile is missing"));
    } else {
      appended := Ok(Some(LongToDouble(quantile(current.digest, current.percentile))));
    }
  }
}
