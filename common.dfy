/**
 * The shared error type of the day runners, the conversions that decide which kind a
 * failure becomes, the text each kind is shown as, and the process exit codes.
 */
module Common {
  import opened Results
  import I32Text

  /**
   * The underlying `std::io::Error`. Its contents belong to the operating system and are
   * kept opaque: all the model knows of one is the text its own `Display` produces.
   */
  datatype IoCause = IoCause(rendered: string)

  /** `ErrorRepr`: a closed set of failure kinds. */
  datatype ErrorRepr =
    | IOError(cause: IoCause)
    | ParseError(dest: string)
    | Other(message: string)

  /** `Error`: a wrapper around its representation. */
  datatype Error = Error(repr: ErrorRepr)

  /** What a day runner returns: a value on success, an `Error` otherwise. */
  type RunResult<T> = Result<T, Error>

  const ParseErrorPrefix: string := "Failed to parse input list into a list of "

  /** The only target type an integer parse failure is reported against. */
  const ParseIntTarget: string := "numbers"

  const NoDayProvidedExitCode: int := 1
  const BadDayProvidedExitCode: int := 2

  /** `Display for Error`. */
  function Display(e: Error): (text: string)
    ensures e.repr.Other? ==> text == e.repr.message
    ensures e.repr.IOError? ==> text == e.repr.cause.rendered
    ensures e.repr.ParseError? ==>
      ParseErrorPrefix <= text && text[|ParseErrorPrefix|..] == e.repr.dest
  {
    match e.repr
    case IOError(cause) => cause.rendered
    case ParseError(dest) => ParseErrorPrefix + dest
    case Other(message) => message
  }

  /** `From<io::Error> for Error`: an I/O failure keeps its cause. */
  function FromIoError(cause: IoCause): (e: Error)
    ensures e.repr.IOError? && e.repr.cause == cause
    ensures Display(e) == cause.rendered
  {
    Error(IOError(cause))
  }

  /** `From<ParseIntError> for Error`: every integer parse failure becomes the same error. */
  function FromParseIntError(err: I32Text.ParseIntError): (e: Error)
    ensures e.repr.ParseError?
    ensures Display(e) == "Failed to parse input list into a list of numbers"
  {
    Error(ParseError(ParseIntTarget))
  }

  /** `From<&str> for Error`: a message becomes an `Other` error shown exactly as given. */
  function FromMessage(message: string): (e: Error)
    ensures e.repr.Other?
    ensures Display(e) == message
  {
    Error(Other(message))
  }

  /** The conversion of an integer parse failure forgets why the parse failed. */
  lemma FromParseIntErrorIgnoresCause(a: I32Text.ParseIntError, b: I32Text.ParseIntError)
    ensures FromParseIntError(a) == FromParseIntError(b)
  {
  }

  /** Two parse errors look the same to the user only when they name the same target type. */
  lemma DisplayParseErrorInjective(d1: string, d2: string)
    ensures Display(Error(ParseError(d1))) == Display(Error(ParseError(d2))) <==> d1 == d2
  {
  }

  /** Two `Other` errors look the same to the user only when they carry the same message. */
  lemma DisplayOtherInjective(m1: string, m2: string)
    ensures Display(FromMessage(m1)) == Display(FromMessage(m2)) <==> m1 == m2
  {
  }

  /** A missing day and an unknown day end the process with different non-zero codes. */
  lemma ExitCodesDistinct()
    ensures NoDayProvidedExitCode == 1 && BadDayProvidedExitCode == 2
    ensures NoDayProvidedExitCode != BadDayProvidedExitCode
    ensures NoDayProvidedExitCode != 0 && BadDayProvidedExitCode != 0
  {
  }
}
