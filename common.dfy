/** Value types shared by every part of the model: bytes, optional values,
    results, and the conditions under which an operation of the core stops. */
module Common {

  /** One byte of a read file. */
  type byte = b: int | 0 <= b < 256

  datatype Option<+T> = None | Some(value: T)

  datatype Result<+R, +E> = Success(value: R) | Failure(error: E)

  datatype Outcome<+E> = Pass | Fail(error: E)

  /** Each case is a `sys.exit` or an uncaught exception of the source. */
  datatype Error =
    | NoData             // move_data: no sample is known, even after a re-scan
    | DestinationExists  // move_data: the output directory is already there
    | AmbiguousMode      // cat_fastqgz: R2 files met in unpaired mode
    | MarkerMissing      // get_existing_info_sheet: no line holds the marker (StopIteration)
    | NotAProject        // from_metadata: the project directory is missing

  /** The concatenation of a sequence of sequences, in order. */
  function Flatten<T>(ss: seq<seq<T>>): seq<T>
    decreases |ss|
  {
    if ss == [] then [] else ss[0] + Flatten(ss[1..])
  }

  lemma {:induction false} FlattenAppend<T>(a: seq<seq<T>>, b: seq<seq<T>>)
    ensures Flatten(a + b) == Flatten(a) + Flatten(b)
    decreases |a|
  {
    if a == [] {
      assert a + b == b;
    } else {
      assert (a + b)[1..] == a[1..] + b;
      FlattenAppend(a[1..], b);
    }
  }
}
