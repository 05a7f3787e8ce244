/** Failure values shared by every decoder of the model.
    Each constructor of `Error` stands for one exception that RADS/parsers.py
    lets escape from a parse or an extraction; `zlib.error` from inflating a
    payload and `OSError` from writing the destination are not among them. */
module Failures {

  datatype Option<+T> = None | Some(value: T)

  datatype Error =
    | BadMagic          // ParseException: the 4-byte magic tag does not match
    | Truncated         // struct.error: struct.unpack was handed a short read
    | IndexOutOfRange   // IndexError: a table index past the end of its list
    | NotAscii          // UnicodeDecodeError: bytes.decode('ascii') met a byte >= 0x80
    | HashMismatch      // ParseException: stored path hash differs from hash_path(path)
    | NotFound          // StopIteration: next(...) found no entry with the requested path
    | NoSuchFile        // OSError: open() of a file that is not there
    | HeaderMismatch    // ParseException: text manifest header line
    | VersionMismatch   // ParseException: text manifest version line
    | LocaleMismatch    // ParseException: configuration manifest locale line
    | BadNumber         // ParseException: a count/priority/flags line that is empty or not all digits
    | EmptyField        // ParseException: a name/version/item line that is empty after strip()

  /** The outcome of a decode: a value, or the exception that aborted it.
      There is no partial result: an `Err` carries no value at all. */
  datatype Result<+T> = Ok(value: T) | Err(error: Error)

  /** Runs a sequence of steps in order and keeps their values; the first
      step that fails aborts the whole run with its error. This is what a
      Python loop does when any iteration may raise. */
  function Collect<T>(rs: seq<Result<T>>): (r: Result<seq<T>>)
    ensures r.Ok? ==> |r.value| == |rs| && forall i :: 0 <= i < |rs| ==> rs[i].Ok? && r.value[i] == rs[i].value
  {
    if rs == [] then Ok([])
    else
      match Collect(rs[..|rs| - 1])
      case Err(e) => Err(e)
      case Ok(values) =>
        match rs[|rs| - 1]
        case Err(e) => Err(e)
        case Ok(v) => Ok(values + [v])
  }

  /** A run succeeds exactly when every step does. */
  lemma {:induction false} CollectSucceeds<T>(rs: seq<Result<T>>)
    ensures Collect(rs).Ok? <==> forall i :: 0 <= i < |rs| ==> rs[i].Ok?
  {
    if rs != [] {
      var init := rs[..|rs| - 1];
      CollectSucceeds(init);
      assert forall j :: 0 <= j < |init| ==> rs[j] == init[j];
    }
  }

  /** A failed run reports the error of its first failing step. */
  lemma {:induction false} CollectFirstError<T>(rs: seq<Result<T>>)
    requires Collect(rs).Err?
    ensures exists i :: 0 <= i < |rs| && rs[i].Err? && Collect(rs).error == rs[i].error &&
                        forall j :: 0 <= j < i ==> rs[j].Ok?
  {
    var init := rs[..|rs| - 1];
    CollectSucceeds(rs);
    if Collect(init).Err? {
      CollectFirstError(init);
      var i :| 0 <= i < |init| && init[i].Err? && Collect(init).error == init[i].error &&
               forall j :: 0 <= j < i ==> init[j].Ok?;
      assert rs[i] == init[i];
      assert forall j :: 0 <= j < i ==> rs[j] == init[j];
    } else {
      assert forall j :: 0 <= j < |rs| - 1 ==> rs[j] == init[j];
    }
  }

  /** Once a prefix of the steps has failed, the steps after it change
      nothing. */
  lemma {:induction false} CollectKeepsError<T>(rs: seq<Result<T>>, n: nat)
    requires n <= |rs| && Collect(rs[..n]).Err?
    ensures Collect(rs) == Collect(rs[..n])
  {
    if n < |rs| {
      var init := rs[..|rs| - 1];
      assert init[..n] == rs[..n];
      CollectKeepsError(init, n);
    } else {
      assert rs[..n] == rs;
    }
  }

  /** One more successful step appends its value. */
  lemma CollectSnoc<T>(rs: seq<Result<T>>, n: nat, values: seq<T>)
    requires n < |rs| && Collect(rs[..n]) == Ok(values) && rs[n].Ok?
    ensures Collect(rs[..n + 1]) == Ok(values + [rs[n].value])
  {
    assert rs[..n + 1][..n] == rs[..n];
  }

  /** One failing step fails the run with its error. */
  lemma CollectFails<T>(rs: seq<Result<T>>, n: nat, values: seq<T>)
    requires n < |rs| && Collect(rs[..n]) == Ok(values) && rs[n].Err?
    ensures Collect(rs) == Err(rs[n].error)
  {
    assert rs[..n + 1][..n] == rs[..n];
    CollectKeepsError(rs, n + 1);
  }
}
