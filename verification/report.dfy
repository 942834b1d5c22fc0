/**
 * Error reports of the CLI: an optional underlying error plus a message,
 * displayed as `message` or `message: error`.
 */
module Report {
  import W = Wrappers

  datatype Report<E> = Report(err: W.Option<E>, message: string)

  /** Rust's `Result<T, E>` as the CLI's functions return it. */
  datatype Outcome<T, E> = Ok(value: T) | Err(error: E)

  /** `Report::new`: an error converted with `into`, and a message. */
  function New<U, E>(err: U, message: string, into: U -> E): (r: Report<E>)
    ensures r.err == W.Some(into(err)) && r.message == message
  {
    Report(W.Some(into(err)), message)
  }

  /** `Report::message`: a report that carries no underlying error. */
  function Message<E>(message: string): (r: Report<E>)
    ensures r.err.None? && r.message == message
  {
    Report(W.None, message)
  }

  /** `Display for Report`: the message, then `": "` and the error when there is one. */
  function Display<E>(r: Report<E>, show: E -> string): (s: string)
    ensures r.err.None? ==> s == r.message
    ensures r.err.Some? ==> s == r.message + ": " + show(r.err.value)
  {
    r.message + (if r.err.Some? then ": " + show(r.err.value) else "")
  }

  /** `ReportExt::with_message`: `Ok` passes through, `Err` is wrapped with the message. */
  function WithMessage<T, U, E>(res: Outcome<T, U>, message: string, into: U -> E): (r: Outcome<T, Report<E>>)
    ensures res.Ok? <==> r.Ok?
    ensures res.Ok? ==> r.value == res.value
    ensures res.Err? ==> r.error == New(res.error, message, into)
  {
    match res
    case Ok(v) => Ok(v)
    case Err(e) => Err(New(e, message, into))
  }

  /** `DisplayError(e)` displays exactly as `e` does. */
  function DisplayError<E>(inner: E, show: E -> string): (s: string)
    ensures s == show(inner)
  {
    show(inner)
  }

  /** The displayed text always starts with the message, and equals it exactly when no error is attached. */
  lemma DisplayShowsError<E>(r: Report<E>, show: E -> string)
    ensures r.message <= Display(r, show)
    ensures Display(r, show) == r.message <==> r.err.None?
  {
    if r.err.Some? {
      assert |Display(r, show)| >= |r.message| + 2;
    }
  }

  /** Wrapping a failure and displaying it shows the new message before the original error. */
  lemma WithMessageDisplay<T, U, E>(res: Outcome<T, U>, message: string, into: U -> E, show: E -> string)
    requires res.Err?
    ensures Display(WithMessage(res, message, into).error, show) == message + ": " + show(into(res.error))
  {
  }
}
