/** The error kinds the index raises, and the two wrappers the model uses to
    return either a value or one of those errors. */
module Results {

  /** One constructor per exception the index operations throw. */
  datatype Error =
    | ZeroLengthVector    // Add: ArgumentException "Vector length cannot be zero."
    | DocumentNotFound    // Remove(doc): ArgumentException "Document not found."
    | VectorNotFound      // Remove(vector): ArgumentException "Vector not found."
    | PositionOutOfRange  // RemoveAt: ArgumentOutOfRangeException
    | NonPositiveTopK     // every Query*: ArgumentException on topK <= 0
    | IndexOutOfRange     // a kernel reading past the end of the query or of a stored vector (raised inside Parallel.For)
    | DirectoryNotFound   // Load: DirectoryNotFoundException

  datatype Result<+T> = Ok(value: T) | Err(error: Error)

  datatype Option<+T> = None | Some(value: T)
}
