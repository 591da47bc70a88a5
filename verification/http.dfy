/** What a controller sends back: a status code and a JSON body. */
module Http {

  datatype Body =
    | ErrorBody(error: string)              // { error }
    | TokenBody(token: string)              // { token }
    | UserBody(id: string, email: string)   // { id, email }
    | NoBody

  datatype Response = Response(status: int, body: Body)

  const InternalServerError := Response(500, ErrorBody("Internal Server Error"))
  const Unauthorized := Response(401, ErrorBody("Unauthorized"))
}
