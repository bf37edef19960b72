/**
 * The parts of Logback's events that the appenders, filters and layouts
 * read, as values: the formatted message, logger, level, thread, time
 * stamp, MDC map and the throwable with its cause chain.
 */
module LogbackEvents {
  import opened Wrappers
  import opened JavaStrings
  import opened NewRelicLogContexts

  /** A turbo filter's answer. */
  datatype FilterReply = Deny | Neutral | Accept

  /**
   * `IThrowableProxy`: the exception's class name, its message (null when
   * it has none), the stack frames as `getSTEAsString` prints them, and the
   * cause, a finite chain.
   */
  datatype ThrowableProxy = ThrowableProxy(
    className: string,
    message: NString,
    frames: seq<string>,
    cause: Option<ThrowableProxy>)

  /**
   * `ILoggingEvent`. `level` is `getLevel().toString()`: every event carries
   * a level. `mdc` is `getMDCPropertyMap()`, null for `None`.
   */
  datatype LoggingEvent = LoggingEvent(
    formattedMessage: NString,
    loggerName: NString,
    level: string,
    threadName: NString,
    timestamp: int,
    mdc: Option<StringMap>,
    throwable: Option<ThrowableProxy>)
}
