/** Optional values, results and the exceptions the library throws. */
module Errors {

  datatype Option<T> = None | Some(value: T)

  /** One constructor per exception the core throws (the message is the
      constructor's name). */
  datatype Error =
    | EntropyNotReadable          // no random device or no permission to read it
    | EntropyOpenFailed           // the random device could not be opened
    | MinAboveMax                 // getRandomNumber with min > max
    | RngBroken                   // too many rejections in getRandomNumber
    | DictionaryNotReadable
    | DictionaryOpenFailed
    | DictionaryHasEmptyLines
    | DictionaryNotConfigured
    | DictionaryEmpty
    | EntryNotFound               // not enough entries in the dictionary file
    | InvalidCasing
    | UndefinedAlgorithm(name: string)
    | UnknownEncryptionType(name: string)

  datatype Result<T> = Success(value: T) | Failure(error: Error)

  datatype Outcome = Pass | Fail(error: Error)
}
