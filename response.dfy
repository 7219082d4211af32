/** The result value every operation of the machine hands back. */
module Responses {

  /** A terminal result: exactly a success or exactly an error, each with its message.
      There is no other way to build one, so a response is never partly successful. */
  datatype Response = Success(message: string) | Error(message: string) {

    /** The `isSuccess` flag of the response. */
    predicate IsSuccess() {
      Success?
    }
  }

  /** The two factories fix the flag and keep the message as given. */
  lemma FactoriesKeepMessage(message: string)
    ensures Success(message).IsSuccess() && Success(message).message == message
    ensures !Error(message).IsSuccess() && Error(message).message == message
  {
  }

  /** Every response is the result of exactly one of the two factories. */
  lemma EveryResponseFromOneFactory(r: Response)
    ensures r == Success(r.message) <==> r.IsSuccess()
    ensures r == Error(r.message) <==> !r.IsSuccess()
  {
  }
}
