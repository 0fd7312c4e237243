/** Option and Result types, and the Python exception kinds the modelled code can raise. */
module Wrappers {

  datatype Option<T> = None | Some(value: T) {
    function GetOr(default: T): T {
      match this
      case Some(v) => v
      case None => default
    }
  }

  /** The exception classes the modelled Python code raises (or lets escape). */
  datatype Error =
    | KeyError
    | IndexError
    | TypeError
    | AttributeError
    | AssertionError
    | ValueError(what: string)
    | UnboundLocalError
    | RecursionError
      /** Python behaviour that this model does not reproduce (see the README). */
    | NotModelled

  /** A value, or the exception that escaped instead. Failure-compatible, so `:-` propagates errors. */
  datatype Result<T> = Ok(value: T) | Err(error: Error) {
    predicate IsFailure() {
      Err?
    }

    function PropagateFailure<U>(): Result<U>
      requires Err?
    {
      Err(error)
    }

    function Extract(): T
      requires Ok?
    {
      value
    }
  }

  /** Success without a value, or the exception that escaped. */
  datatype Outcome = Pass | Fail(error: Error) {
    predicate IsFailure() {
      Fail?
    }

    function PropagateFailure(): Outcome
      requires Fail?
    {
      this
    }
  }

  /** The outcome of a statement and the result of the function that specifies it fail alike. */
  predicate Agrees<T>(o: Outcome, r: Result<T>) {
    && (o.Pass? <==> r.Ok?)
    && (o.Fail? ==> o.error == r.error)
  }

  /** `r` with `done` in front of its list, for loops that build a list one item at a time. */
  function Prepend<T>(done: seq<T>, r: Result<seq<T>>): Result<seq<T>> {
    if r.Ok? then Ok(done + r.value) else r
  }

  lemma PrependTwice<T>(a: seq<T>, b: seq<T>, r: Result<seq<T>>)
    ensures Prepend(a, Prepend(b, r)) == Prepend(a + b, r)
  {
    if r.Ok? {
      assert a + (b + r.value) == (a + b) + r.value;
    }
  }

  /** One turn of a list-building loop: what is left either fails, or yields `first` before `rest`. */
  lemma PrependStep<T>(done: seq<T>, whole: Result<seq<T>>, first: Result<seq<T>>, rest: Result<seq<T>>)
    requires whole == if first.Err? then Err(first.error) else Prepend(first.value, rest)
    ensures Prepend(done, whole) == if first.Err? then Err(first.error) else Prepend(done + first.value, rest)
  {
    if first.Ok? {
      PrependTwice(done, first.value, rest);
    }
  }
}
