/**
 * The library's exception classes: WelchTTestError at the root, with
 * InvalidDataError, InvalidColumnError and StatisticalError below it and
 * InsufficientDataError below InvalidDataError. An exception's only state is
 * the message it was built with, which is also its `str()`.
 */
module Exceptions {
  import opened Wrappers

  datatype Kind =
    | WelchTTestError
    | InvalidDataError
    | InvalidColumnError
    | InsufficientDataError
    | StatisticalError

  /** The direct base class of each class; the root has none inside the library. */
  function Parent(k: Kind): Option<Kind>
  {
    match k
    case WelchTTestError => None
    case InvalidDataError => Some(WelchTTestError)
    case InvalidColumnError => Some(WelchTTestError)
    case InsufficientDataError => Some(InvalidDataError)
    case StatisticalError => Some(WelchTTestError)
  }

  /** How many base classes lie between a class and the root. */
  function Depth(k: Kind): nat
  {
    match k
    case WelchTTestError => 0
    case InsufficientDataError => 2
    case _ => 1
  }

  /** `issubclass(k, ancestor)`: `k` is `ancestor` or derives from it. */
  predicate IsA(k: Kind, ancestor: Kind)
    decreases Depth(k)
  {
    k == ancestor || (Parent(k).Some? && IsA(Parent(k).value, ancestor))
  }

  /** The message each class's constructor uses when it is given none. */
  function DefaultMessage(k: Kind): string
  {
    match k
    case WelchTTestError => "An error occurred in Welch's t-test calculation"
    case InvalidDataError => "Invalid data provided for t-test"
    case InvalidColumnError => "Column not found in DataFrame"
    case InsufficientDataError => "Insufficient data for statistical analysis"
    case StatisticalError => "Statistical calculation error"
  }

  /** A raised exception: its class and its stored `message`. */
  datatype Error = Error(kind: Kind, message: string)

  /** `Kind(message)`, or `Kind()` when `message` is None. */
  function Construct(k: Kind, message: Option<string>): (e: Error)
    ensures e.kind == k
    ensures message.Some? ==> e.message == message.value
    ensures message.None? ==> e.message == DefaultMessage(k)
  {
    Error(k, if message.Some? then message.value else DefaultMessage(k))
  }

  /** Every class of the library is a WelchTTestError, so one `except` catches them all. */
  lemma {:induction false} EveryKindIsWelchTTestError(k: Kind)
    ensures IsA(k, WelchTTestError)
    decreases Depth(k)
  {
    if k != WelchTTestError {
      EveryKindIsWelchTTestError(Parent(k).value);
    }
  }

  /** What `except InvalidDataError` catches: that class and InsufficientDataError, nothing else. */
  lemma InvalidDataSubclasses(k: Kind)
    ensures IsA(k, InvalidDataError) <==> k == InvalidDataError || k == InsufficientDataError
  {
  }

  /** What `except InvalidColumnError` catches: that class alone. */
  lemma InvalidColumnSubclasses(k: Kind)
    ensures IsA(k, InvalidColumnError) <==> k == InvalidColumnError
  {
  }

  /** Each class has a default message of its own. */
  lemma DefaultMessagesDiffer(k1: Kind, k2: Kind)
    ensures DefaultMessage(k1) == DefaultMessage(k2) ==> k1 == k2
  {
  }
}
