/** Failure-carrying results shared by every module of the model. */
module Results {

  datatype Option<+T> = None | Some(value: T)

  /** The exceptions the library raises, as values. */
  datatype DateTimeError =
    | InvalidValue(field: string, value: int)        // a value outside its ValueRange
    | UnsupportedTemporalType(message: string)       // a field asked of a temporal that lacks it
    | ArithmeticOverflow                             // Math::subtractExact / multiplyExact
    | DateOutOfRange                                 // a LocalDate outside the supported years
    | InvalidEra(era: int)                           // IsoEra::of on a value other than 0 or 1

  datatype Result<+T> = Ok(value: T) | Err(error: DateTimeError)
}
