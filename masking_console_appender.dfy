/**
 * The console appender that prints each event with its formatted message
 * run through the legacy masking chain. Printing is Logback's own; what is
 * modelled is the event it is handed.
 */
module MaskingConsoleAppenders {
  import opened Wrappers
  import opened JavaStrings
  import opened LogbackEvents
  import opened LegacyMasking

  /**
   * `createMaskedEvent`: the event itself when masking changes nothing;
   * otherwise a new event carrying the masked text and copies of the
   * logger, level, time stamp, thread and MDC, and no throwable. A null
   * formatted message makes `equals` throw.
   */
  function MaskedEvent(event: LoggingEvent): (r: Result<LoggingEvent>)
    ensures event.formattedMessage.None? ==> r.Thrown?
    ensures event.formattedMessage.Some? ==> r.Ok? && r.value.formattedMessage == Some(LegacyMask(event.formattedMessage.value))
    ensures r.Ok? && LegacyMask(event.formattedMessage.value) == event.formattedMessage.value ==> r.value == event
    ensures r.Ok? && LegacyMask(event.formattedMessage.value) != event.formattedMessage.value ==>
              r.value.loggerName == event.loggerName && r.value.level == event.level
              && r.value.timestamp == event.timestamp && r.value.threadName == event.threadName
              && r.value.mdc == event.mdc && r.value.throwable.None?
  {
    match event.formattedMessage
    case None => Thrown("NullPointerException")
    case Some(original) =>
      var masked := LegacyMask(original);
      if original == masked then Ok(event)
      else Ok(LoggingEvent(Some(masked), event.loggerName, event.level, event.threadName,
                           event.timestamp, event.mdc, None))
  }

  /** Masking drops the throwable exactly when it changes the message. */
  lemma ThrowableKeptOnlyWhenUnchanged(event: LoggingEvent)
    requires event.formattedMessage.Some? && event.throwable.Some?
    ensures MaskedEvent(event).value.throwable.Some? <==> LegacyMask(event.formattedMessage.value) == event.formattedMessage.value
  {
  }
}
