/** Shared vocabulary of the execution core: nullable references, the outcome of an
    operation that may throw, the error kinds the operators raise, and the static
    tuple descriptors operators declare for their output. */
module Common {

  /** A Java reference that may be null. */
  datatype Option<+T> = None | Some(value: T)

  /** The result of a call that either returns a value or throws. */
  datatype Result<+T> = Ok(value: T) | Err(error: Error)

  /** The outcome of a void call that may throw. */
  datatype Outcome = Pass | Fail(error: Error)

  /** The exceptions the modelled operators raise. */
  datatype Error =
    | NullPointer(message: string)        // checkNotNull, or dereferencing an unset reference
    | IllegalState(message: string)       // checkState: the caller broke the protocol
    | ExceededMemoryLimit(maxBytes: nat)  // the task's memory ceiling was reached

  /** Static column descriptors (TupleInfo) of single-field tuples. */
  datatype TupleInfo = SingleLong | SingleDouble | SingleVarbinary

  /** Decimal rendering of a natural number, most significant digit first. */
  function DecimalText(n: nat): (s: string)
    ensures |s| >= 1
    ensures forall i :: 0 <= i < |s| ==> '0' <= s[i] <= '9'
    ensures n < 10 <==> |s| == 1
  {
    var digit := ['0' + (n % 10) as char];
    if n < 10 then digit else DecimalText(n / 10) + digit
  }

  /** The number a string of decimal digits denotes, most significant digit first. */
  function DigitsValue(s: string): nat
  {
    if s == [] then 0
    else
      var d := s[|s| - 1] as int - '0' as int;
      DigitsValue(s[..|s| - 1]) * 10 + (if 0 <= d then d else 0)
  }

  /** The decimal rendering denotes the number rendered. */
  lemma {:induction false} DecimalTextValue(n: nat)
    ensures DigitsValue(DecimalText(n)) == n
  {
    var s := DecimalText(n);
    var digit := ['0' + (n % 10) as char];
    if n >= 10 {
      DecimalTextValue(n / 10);
      assert s == DecimalText(n / 10) + digit;
      assert s[..|s| - 1] == DecimalText(n / 10);
    }
  }

  /** Distinct numbers render differently. */
  lemma DecimalTextInjective(m: nat, n: nat)
    requires DecimalText(m) == DecimalText(n)
    ensures m == n
  {
    DecimalTextValue(m);
    DecimalTextValue(n);
  }

  /** A byte count rendered as a data size in bytes, the way "10B" is written. */
  function BytesText(bytes: nat): string
  {
    DecimalText(bytes) + "B"
  }

  /** The message an error carries. */
  function Message(e: Error): string
  {
    match e
    case NullPointer(m) => m
    case IllegalState(m) => m
    case ExceededMemoryLimit(maxBytes) => "Task exceeded max memory size of " + BytesText(maxBytes)
  }
}
