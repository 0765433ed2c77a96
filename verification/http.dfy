/** What an Express handler sends back, as far as the model needs it. */
module Http {
  /** A refusal: the HTTP status and the error text. */
  datatype Refusal = Refusal(status: nat, error: string)

  /** A handler's answer: a success with a body, or a refusal. */
  datatype Reply<+T> = Answered(body: T) | Refused(why: Refusal)
}
