/** The two shapes a request takes through an Express middleware. */
module Http {

  /** A JSON reply `{ success, message }` sent with `status`. */
  datatype Response = Response(status: nat, success: bool, message: string)

  /** A middleware either answers the request itself or calls `next()`
      after setting `req.user`; being one value of this datatype, every
      path does exactly one of the two. */
  datatype Outcome<U> = Respond(response: Response) | Next(user: U)
}
