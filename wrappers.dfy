/** Option and Result, and the failures the transcoding engine raises. */
module Wrappers {

  datatype Option<+T> = None | Some(value: T)

  /** Every `throw` of the engine, named after what it reports. */
  datatype Error =
    | InvalidSize(width: nat)          // a primitive built with a width its codec does not permit
    | InvalidNumeric                   // a size specifier that is neither number, object nor function
    | NegativeSize(value: int)         // a size specifier that resolved below zero
    | MissingField(key: string)        // a named aggregate's document lacks a declared key
    | InsufficientData                 // a positional aggregate's iterator ran dry
    | LengthMismatch(expected: nat)    // a byte span whose buffer does not have the resolved length
    | Overrun(budget: nat)             // a byte-bounded repeat whose last pass went past the budget
    | UnknownChoice(choice: string)    // a branch discriminant with no choice and no default
    | NoRepeatPolicy                   // a repeat given neither `count` nor `bytes`
    | OutOfRange                       // a read or write outside the data view
    | WrongShape                       // a value of the wrong shape for the operation applied to it
    | NotAStruct                       // an aggregate child that is not a Struct
    | Diverges                         // a byte-bounded repeat whose pass makes no progress

  datatype Result<+T> = Ok(value: T) | Err(error: Error)
}
