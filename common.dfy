/** Values shared by both pages: optional values and the replies of the hosted backend. */
module Common {

  /** A value that may be absent (`null` / `undefined` in the page code). */
  datatype Option<+T> = None | Some(value: T)

  /** What one call into the hosted database or storage client hands back:
      either its data, or an error object carrying a message. */
  datatype Reply<+T> = Ok(value: T) | Err(message: string)
}
