/** Failure-carrying results and the error kinds the language detector raises. */
module Wrappers {

  /** The exceptions of the Java program, one constructor per distinct cause. */
  datatype Error =
    | InvalidGram        // IllegalArgumentException from the NGram constructor
    | AlreadyFinalized   // IllegalStateException from Profile.addNGram
    | NotFinalized       // IllegalStateException from Profile.getOutOfPlaceMeasure
    | NegativeLength     // StringIndexOutOfBoundsException from substring with a negative length
    | NoTrainingData     // IllegalArgumentException from the LangDetect constructor

  datatype Option<+T> = None | Some(value: T)

  datatype Result<+T> = Success(value: T) | Failure(error: Error)

  datatype Outcome = Pass | Fail(error: Error)
}
