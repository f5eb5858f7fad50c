/**
 * One reading of the wall clock, in the three forms the relay uses: seconds since the
 * epoch (`time.time()`, an integer tick here), the message timestamp
 * (`datetime.now().strftime('%Y-%m-%d %H:%M:%S')`) and the log timestamp
 * (`strftime(LOG_TIMESTAMP_FORMAT)`). The clock itself is outside the model: every
 * operation that reads it takes an `Instant` argument instead.
 */
module Clock {

  datatype Instant = Instant(ticks: int, stamp: string, logStamp: string)
}
