/** Go error values as the consumer builds and inspects them: `errors.New`,
    `errors.Wrap` from github.com/pkg/errors, and `errors.Is`. */
module GoErrors {
  import opened Wrappers

  /** A non-nil error. `Fundamental` is what `errors.New` allocates; `id` stands
      for the identity of that allocation, since Go compares such errors by
      pointer and never by their text. `Wrapped` is the value `errors.Wrap`
      builds around a cause. */
  datatype Error = Fundamental(id: nat, msg: string) | Wrapped(cause: Error, msg: string)

  /** A Go `error` variable: `None` is nil. */
  type GoError = Option<Error>

  /** `errors.Is(err, target)`: `err` or one of the causes it wraps is `target`. */
  predicate Is(err: Error, target: Error)
    ensures err == target ==> Is(err, target)
    ensures err.Fundamental? ==> (Is(err, target) <==> err == target)
  {
    err == target || (err.Wrapped? && Is(err.cause, target))
  }

  /** `errors.Wrap(err, msg)`: nil stays nil, anything else gains one layer. */
  function Wrap(err: GoError, msg: string): (r: GoError)
    ensures r.None? <==> err.None?
    ensures r.Some? ==> r.value.Wrapped? && Some(r.value.cause) == err && r.value.msg == msg
  {
    match err
    case None => None
    case Some(e) => Some(Wrapped(e, msg))
  }

  /** Wrapping never hides a sentinel, nor makes one appear: `errors.Is` sees
      through every layer `Wrap` adds. */
  lemma WrapKeepsIdentity(e: Error, msg: string, target: Error)
    requires target.Fundamental?
    ensures Is(Wrap(Some(e), msg).value, target) <==> Is(e, target)
  {
  }

  /** `errors.Is` is transitive along the chain of causes: an error wrapped any
      number of times is still recognised. */
  lemma {:induction false} IsThroughChain(e: Error, mid: Error, target: Error)
    requires Is(e, mid) && Is(mid, target)
    ensures Is(e, target)
    decreases e
  {
    if e != mid {
      IsThroughChain(e.cause, mid, target);
    }
  }
}
