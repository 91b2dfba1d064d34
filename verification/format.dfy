/** The part of `VError`'s printf-style formatting that decides whether
    building an error message throws: every `%s` conversion consumes one
    argument, and running out of arguments throws. */
module Format {

  /** The number of `%s` conversions in a format string. */
  function Conversions(fmt: string): nat
    decreases |fmt|
  {
    if |fmt| < 2 then 0
    else if fmt[0] == '%' && fmt[1] == 's' then 1 + Conversions(fmt[2..])
    else Conversions(fmt[1..])
  }

  /** Formatting `fmt` with `argCount` arguments throws "too few args". */
  predicate FormatThrows(fmt: string, argCount: nat) {
    Conversions(fmt) > argCount
  }
}
