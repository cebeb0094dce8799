/** Shared result and error types for the timing engine and the config modifier.

    Every failure that the program signals, either with an explicit
    `raise RuntimeError(...)` or implicitly through a Python runtime exception
    (an out-of-range index, a missing dictionary key, a division by zero, a
    failed `int()`/`float()` conversion, a failed `assert`), becomes one
    constructor of `Error`. */
module Base {

  datatype Option<+T> = None | Some(value: T)

  datatype Error =
    // sanity checks on the whole label file
    | TooFewLines | FirstNotAtZero | LastNotEnd
    // process_labels
    | InvalidEntry | MismatchedTimestamps | ZeroDifference
    // split_label_content
    | InvalidFirstLabel | MissingBracket | TooManyColons | InvalidIndex
    | IndexOutOfRange | InvalidSlice | EmptySlice | InvalidIndexSlice
    // build_groups_from_labels and instruction decoding
    | NoInstructions
    | InvalidRepeat | InvalidInstruction
    // allocation
    | ZeroFiles | CountMismatch | SliceIndexMismatch
    // config modifier
    | GroupNotInConfig | NoGroupsFound | GroupAlreadyInConfig | NoGroupsGiven
    | NoColorAction | UnknownOption | UnknownInstruction
    // Python runtime exceptions raised implicitly by the source
    | IndexError | KeyError | ZeroDivisionError | ValueError | AssertionError | NameError

  /** A value or the error that aborts the run. */
  datatype Result<+T> = Ok(value: T) | Err(error: Error) {
    predicate IsFailure() { Err? }
    function PropagateFailure<U>(): Result<U>
      requires Err?
    {
      Err(error)
    }
    function Extract(): T
      requires Ok?
    {
      value
    }
  }

  /** The values of a list of results in order, or the error of the first
      one that failed: a loop that stops at its first failing step. */
  function Collect<T>(rs: seq<Result<T>>): Result<seq<T>>
    decreases |rs|
  {
    if rs == [] then Ok([])
    else
      var init :- Collect(rs[..|rs| - 1]);
      var last :- rs[|rs| - 1];
      Ok(init + [last])
  }

  /** `Collect` succeeds exactly when every result does, and then yields
      their values; otherwise it reports the first failure. */
  lemma {:induction false} CollectMeaning<T>(rs: seq<Result<T>>)
    ensures Collect(rs).Ok? <==> forall k :: 0 <= k < |rs| ==> rs[k].Ok?
    ensures Collect(rs).Ok? ==>
              |Collect(rs).value| == |rs| && forall k :: 0 <= k < |rs| ==> Collect(rs).value[k] == rs[k].value
    ensures Collect(rs).Err? ==>
              exists k :: 0 <= k < |rs| && rs[k] == Err(Collect(rs).error) && forall j :: 0 <= j < k ==> rs[j].Ok?
    decreases |rs|
  {
    if rs != [] {
      var n := |rs| - 1;
      var init := rs[..n];
      CollectMeaning(init);
      assert forall k :: 0 <= k < n ==> init[k] == rs[k];
      var head := Collect(init);
      if head.Err? {
        var k :| 0 <= k < n && init[k] == Err(head.error) && forall j :: 0 <= j < k ==> init[j].Ok?;
        assert rs[k] == Err(Collect(rs).error);
      } else if rs[n].Ok? {
        var vs := head.value + [rs[n].value];
        assert Collect(rs) == Ok(vs);
        forall k | 0 <= k < |rs|
          ensures vs[k] == rs[k].value
        {
          if k < n {
            assert vs[k] == head.value[k];
          }
        }
      }
    }
  }

  /** A failure among the first `k` results is the failure of them all. */
  lemma {:induction false} CollectStops<T>(rs: seq<Result<T>>, k: nat)
    requires k <= |rs| && Collect(rs[..k]).Err?
    ensures Collect(rs) == Collect(rs[..k])
    decreases |rs| - k
  {
    if k < |rs| {
      assert rs[..k + 1][..k] == rs[..k];
      CollectStops(rs, k + 1);
    } else {
      assert rs[..k] == rs;
    }
  }

  /** `Collect` as the loop that appends each value and stops at the first
      failure. */
  method CollectLoop<T>(rs: seq<Result<T>>) returns (r: Result<seq<T>>)
    ensures r == Collect(rs)
  {
    var values: seq<T> := [];
    var k := 0;
    while k < |rs|
      invariant 0 <= k <= |rs|
      invariant Collect(rs[..k]) == Ok(values)
    {
      assert rs[..k + 1][..k] == rs[..k];
      if rs[k].Err? {
        CollectStops(rs, k + 1);
        return Err(rs[k].error);
      }
      values := values + [rs[k].value];
      k := k + 1;
    }
    assert rs[..k] == rs;
    return Ok(values);
  }

  /** The two copies of the engine: the packaged `prelapse/parser.py` and the
      older standalone script `lapse-parse.py`. */
  datatype Variant = Packaged | Standalone
}
