/** The responses the edge functions send: a status code and a JSON body. */
module Http {
  /** The JSON body: none (preflight), `{ error }`, or `{ message, data }` with the data left out. */
  datatype ResponseBody = NoBody | ErrorMessage(message: string) | Success(message: string)

  datatype Response = Response(status: nat, body: ResponseBody)

  /** The answer to an OPTIONS preflight. */
  const Preflight := Response(204, NoBody)
  /** The answer to any method other than OPTIONS and POST. */
  const MethodNotAllowed := Response(405, ErrorMessage("Method not allowed"))
}
