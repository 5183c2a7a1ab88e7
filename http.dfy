/** The JSON responses the route handlers build with `NextResponse.json`. */
module Http {

  /** The JSON body: the entity on success, `{ error: message }` on failure. */
  datatype Body<T> = Data(value: T) | Error(message: string)

  /** An HTTP status with its JSON body. */
  datatype Response<T> = Response(status: nat, body: Body<T>)

  function Ok<T>(status: nat, value: T): Response<T> { Response(status, Data(value)) }

  function Fail<T>(status: nat, message: string): Response<T> { Response(status, Error(message)) }
}
