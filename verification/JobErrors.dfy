/** Error values, and how the runner classifies what a job body did. */
module JobErrors {
  import opened Wrappers

  /** An error value: one that does not unwrap, one that wraps another (`%w`), one that wraps
      several (`errors.Join`), and `*FatalError`, whose inner error may be nil. */
  datatype Error =
    | Leaf(text: string)
    | Wrap(text: string, inner: Error)
    | Join(errs: seq<Error>)
    | FatalError(err: Option<Error>)

  /** `Fatal(err)` in api/scheduler/job.go. */
  function Fatal(err: Option<Error>): Error { FatalError(err) }

  /** The errors one unwrapping step away. */
  function Unwrap(e: Error): (es: seq<Error>)
    ensures forall i :: 0 <= i < |es| ==> es[i] < e
  {
    match e
    case Leaf(_) => []
    case Wrap(_, inner) => [inner]
    case Join(errs) => errs
    case FatalError(err) => if err.Some? then [err.value] else []
  }

  /** `errors.As(e, &fatal)`: the first `FatalError` met, an error before what it wraps. */
  function AsFatal(e: Error): (found: Option<Error>)
    decreases e, 1, 0
  {
    if e.FatalError? then Some(e) else AsFatalAmong(e, Unwrap(e))
  }

  function AsFatalAmong(ghost e: Error, es: seq<Error>): (found: Option<Error>)
    requires forall i :: 0 <= i < |es| ==> es[i] < e
    decreases e, 0, |es|
  {
    if es == [] then None
    else
      var head := AsFatal(es[0]);
      if head.Some? then head else AsFatalAmong(e, es[1..])
  }

  // ---- What the search has to find, by the shape of the error ----

  /** A `FatalError` is the error itself or is wrapped in it, at whatever depth. */
  ghost predicate HasFatal(e: Error) {
    match e
    case Leaf(_) => false
    case Wrap(_, inner) => HasFatal(inner)
    case Join(errs) => exists k :: 0 <= k < |errs| && HasFatal(errs[k])
    case FatalError(_) => true
  }

  ghost predicate Within(found: Error, e: Error) {
    || found == e
    || match e
       case Leaf(_) => false
       case Wrap(_, inner) => Within(found, inner)
       case Join(errs) => exists k :: 0 <= k < |errs| && Within(found, errs[k])
       case FatalError(err) => err.Some? && Within(found, err.value)
  }

  /** The search succeeds exactly when a `FatalError` is wrapped in the error, and finds one. */
  lemma {:induction false} AsFatalIff(e: Error)
    ensures AsFatal(e).Some? <==> HasFatal(e)
    ensures AsFatal(e).Some? ==> AsFatal(e).value.FatalError? && Within(AsFatal(e).value, e)
    decreases e, 1, 0
  {
    match e
    case Leaf(_) =>
    case Wrap(_, inner) =>
      AsFatalAmongIff(e, [inner]);
    case Join(errs) =>
      AsFatalAmongIff(e, errs);
    case FatalError(_) =>
  }

  lemma {:induction false} AsFatalAmongIff(e: Error, es: seq<Error>)
    requires forall i :: 0 <= i < |es| ==> es[i] < e
    ensures AsFatalAmong(e, es).Some? <==> exists k :: 0 <= k < |es| && HasFatal(es[k])
    ensures var found := AsFatalAmong(e, es);
            found.Some? ==> found.value.FatalError? && exists k :: 0 <= k < |es| && Within(found.value, es[k])
    decreases e, 0, |es|
  {
    if es != [] {
      AsFatalIff(es[0]);
      AsFatalAmongIff(e, es[1..]);
      assert forall k :: 0 < k < |es| ==> es[k] == es[1..][k - 1];
    }
  }

  // ---- Outcomes of a job body ----

  /** How a job body ends. A panic carries any value, here its printed form and, when the
      value was itself an error, that error. */
  datatype Outcome =
    | Returned(err: Option<Error>)
    | Panicked(shown: string, value: Option<Error>)

  /** `call`: a panic becomes an ordinary error whose text is formatted, not wrapped. */
  function Call(o: Outcome): Option<Error> {
    match o
    case Returned(err) => err
    case Panicked(shown, _) => Some(Leaf("job panicked: " + shown))
  }

  /** The error `invoke` passes to `triggerFatal`, if any. */
  function Escalation(o: Outcome): Option<Error> {
    var err := Call(o);
    if err.Some? && AsFatal(err.value).Some? then err else None
  }

  /** Escalation happens exactly for a returned error whose unwrap chain has a `FatalError`;
      a panic never escalates, whatever value it carried. */
  lemma EscalatesIff(o: Outcome)
    ensures Escalation(o).Some? <==> o.Returned? && o.err.Some? && HasFatal(o.err.value)
    ensures Escalation(o).Some? ==> Escalation(o) == o.err
  {
    if Call(o).Some? {
      AsFatalIff(Call(o).value);
    }
  }

  /** What the documentation asks for: `return Fatal(err)` escalates, with that very error. */
  lemma FatalEscalates(err: Option<Error>)
    ensures Escalation(Returned(Some(Fatal(err)))) == Some(Fatal(err))
    ensures err.Some? ==> Within(err.value, Fatal(err))
  {
    EscalatesIff(Returned(Some(Fatal(err))));
  }
}
