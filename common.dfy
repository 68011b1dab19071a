/** Values shared by the record modules: optional (nullable) columns and instants. */
module Common {

  /** A nullable column or pointer field: `None` is SQL NULL / Go nil. */
  datatype Option<+T> = None | Some(value: T)

  /** An instant as the service stores it. `ZeroTime` is Go's zero `time.Time`,
      which gorm reads as "not set"; the clock itself is not modelled, so an
      instant is an opaque tick count supplied by the caller. */
  datatype Time = ZeroTime | Instant(ticks: int)
}
