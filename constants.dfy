/**
 * The JSONStoreConstants values the core uses, and the exceptions it throws.
 *
 * The literal numbers behind the return and error codes are not part of
 * this model: each code is a distinct constructor, so two codes are equal
 * exactly when they are the same constant. Exceptions become a Result.
 */
module Constants {
  import opened Wrappers
  import opened JsonValues

  /** JSON_STORE_RC_* return codes and JSON_STORE_* error codes. */
  datatype Code =
    | RcOk
    | ProvisionTableExists
    | RcJsTrue
    | RcJsFalse
    | DatabaseNotOpen
    | PersistentStoreFailure
    | TransactionFailureDuringRemoveCollection
    | ErrorClearingCollection
    | RemoveWithQueriesFailure
    | ReplaceDocumentsFailure
    | InvalidOffset
    | InvalidSearchField
    | CouldNotMarkDocumentPushed

  /** JSON_STORE_FIELD_ID: the name of a document's identifier field. */
  const FieldId: string := "_id"
  /** JSON_STORE_FIELD_JSON: the name of a stored document's payload field. */
  const FieldJson: string := "json"
  /** JSON_STORE_FIELD_OPERATION: the name of a dirty document's operation field. */
  const FieldOperation: string := "_operation"

  /**
   * What a failed operation throws: a JSONStoreException with its error code
   * and optional payload of failed documents, or any other exception
   * (an invalid cast or a null dereference on malformed input).
   */
  datatype Fault =
    | StoreException(code: Code, data: Option<seq<Json>>)
    | OtherException

  /** The return value of an operation, or the exception it throws. */
  datatype Result<+T> = Success(value: T) | Failure(fault: Fault)

  /** `throw new JSONStoreException(code)`. */
  function Throw<T>(code: Code): Result<T> {
    Failure(StoreException(code, None))
  }

  /** `throw new JSONStoreException(code, data)`. */
  function ThrowWith<T>(code: Code, data: seq<Json>): Result<T> {
    Failure(StoreException(code, Some(data)))
  }
}
