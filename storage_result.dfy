/**
 * StorageResult: what every plugin operation hands back to the JavaScript
 * layer, a status and a message. The message is kept as the object that
 * the constructor serialises; the JSON serialisation itself is not modelled.
 */
module StorageResults {
  import opened Wrappers
  import opened JsonValues
  import opened Constants

  /** The Status enum. */
  datatype Status = NoResult | Ok | Error

  /** The integer value of a Status member. */
  function Ordinal(s: Status): (n: nat)
    ensures n < |StatusMessages|
    ensures FromOrdinal(n) == Some(s)
  {
    match s
    case NoResult => 0
    case Ok => 1
    case Error => 2
  }

  /** The Status member with a given integer value, if any. */
  function FromOrdinal(n: int): (r: Option<Status>)
    ensures r.Some? <==> 0 <= n < 3
  {
    if n == 0 then Some(NoResult)
    else if n == 1 then Some(Ok)
    else if n == 2 then Some(Error)
    else None
  }

  /** The messages of the one-argument constructor, indexed by status. */
  const StatusMessages: seq<string> := ["No result", "OK", "Error"]

  /** The message object passed to the two-argument constructor. */
  datatype Message =
    | Text(s: string)
    | CodeMessage(code: Code)
    | Count(n: int)
    | Docs(docs: seq<Json>)

  /** A StorageResult; both properties have private setters and never change. */
  datatype StorageResult = StorageResult(value: Message, statusCode: Status) {
    /** isSuccess. */
    predicate IsSuccess() {
      statusCode == NoResult || statusCode == Ok
    }
  }

  /** The two-argument constructor StorageResult(status, message). */
  function WithMessage(status: Status, message: Message): (r: StorageResult)
    ensures r.statusCode == status
    ensures r.value == message
    ensures r.IsSuccess() <==> status != Error
  {
    StorageResult(message, status)
  }

  /** The one-argument constructor StorageResult(status). */
  function WithStatus(status: Status): (r: StorageResult)
    ensures r.statusCode == status
    ensures status == NoResult ==> r.value == Text("No result")
    ensures status == Ok ==> r.value == Text("OK")
    ensures status == Error ==> r.value == Text("Error")
  {
    WithMessage(status, Text(StatusMessages[Ordinal(status)]))
  }

  /** Casting an integer to Status and back gives the integer again. */
  lemma OrdinalRoundTrip(n: int)
    ensures FromOrdinal(n).Some? ==> Ordinal(FromOrdinal(n).value) == n
  {
  }
}
