/** Result types and error kinds shared by the KVDB manager model.
    The source returns `std::optional<base::Error>` (nullopt on success) or a
    `std::variant<T, base::Error>`; only the kind of each error is kept, not
    its formatted message text. */
module Base {

  datatype Option<T> = None | Some(value: T)

  /** `std::variant<T, base::Error>` */
  datatype Result<T> = Success(value: T) | Failure(error: Error)

  /** `std::optional<base::Error>`: `Pass` is `std::nullopt`. */
  datatype Outcome = Pass | Fail(error: Error)

  datatype Error =
    | NotExists                             // "The DB ... not exists."
    | InUse(refCount: nat)                  // "Could not remove the DB ... Usage Reference Count"
    | CreateFailed(status: string)          // CreateColumnFamily failed, with the engine status
    | DropFailed(status: string)            // DropColumnFamily failed, with the engine status
    | EmptyPath                             // "The path is empty."
    | FileOpenFailed                        // the file could not be opened
    | ParseFailed                           // the file is not valid JSON
    | NotAnObject                           // the JSON root is not an object
    | InsertFailed(key: string, value: string) // a Put failed (the message drops the status)
}
