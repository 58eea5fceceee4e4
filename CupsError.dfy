/** The typed error of the wrapper: which phase failed, with the library's status and message. */
module CupsError {
  import opened Native

  /** `CupsError::EPhase`: the six places where an operation of the wrapper can fail. */
  datatype Phase = GetDests | NoDefaultPrinter | CreateJob | StartDocument | WriteData | FinishDocument

  /** The underlying `std::uint8_t` value of a phase, which is what callers print. */
  function Ordinal(p: Phase): (n: nat)
    ensures n < 6
  {
    match p
    case GetDests => 0
    case NoDefaultPrinter => 1
    case CreateJob => 2
    case StartDocument => 3
    case WriteData => 4
    case FinishDocument => 5
  }

  /** The phase whose underlying value is `n`. */
  function FromOrdinal(n: nat): Phase
    requires n < 6
  {
    [GetDests, NoDefaultPrinter, CreateJob, StartDocument, WriteData, FinishDocument][n]
  }

  /** There are exactly six phases: `Ordinal` is a bijection between them and 0 to 5. */
  lemma SixPhases(p: Phase, n: nat)
    requires n < 6
    ensures FromOrdinal(Ordinal(p)) == p
    ensures Ordinal(FromOrdinal(n)) == n
  {
  }

  /** The fixed message of the synthetic "no default printer" error. */
  const NoDefaultMessage: string := "No default printer configured"

  /** A `CupsError`: the status, the phase and the message; the destructors are the accessors
      `status()`, `phase()` and `message()`. */
  datatype CupsError = CupsError(status: int, phase: Phase, message: string)

  /** The constructor `CupsError(PHASE)`, where `last` is the global last-error state at construction time.
      Only a native failure samples that state; "no default printer" is not one. */
  function MakeError(phase: Phase, last: LastError): (e: CupsError)
    ensures e.phase == phase
    ensures phase == NoDefaultPrinter ==> e.status == IppStatusOk && e.message == NoDefaultMessage
    ensures phase != NoDefaultPrinter ==> e.status == last.code && e.message == last.text
  {
    if phase == NoDefaultPrinter then CupsError(IppStatusOk, phase, NoDefaultMessage)
    else CupsError(last.code, phase, last.text)
  }

  /** A "no default printer" error does not depend on the last-error state at all. */
  lemma NoDefaultIgnoresLastError(a: LastError, b: LastError)
    ensures MakeError(NoDefaultPrinter, a) == MakeError(NoDefaultPrinter, b)
    ensures MakeError(NoDefaultPrinter, a).message != []
  {
  }

  /** Every other error captures the last-error state completely: it can be read back from the error. */
  lemma NativeErrorCapturesLastError(phase: Phase, last: LastError)
    requires phase != NoDefaultPrinter
    ensures LastError(MakeError(phase, last).status, MakeError(phase, last).message) == last
  {
  }
}
