/** The responses the route handlers send: a status code and a JSON body. */
module Http {
  import opened Js

  datatype Response = Response(status: int, body: Value)

  /** `res.status(status).json({ error: message })` */
  function Error(status: int, message: string): Response {
    Response(status, Obj(map["error" := Str(message)]))
  }

  /** `res.status(status).json({ message })` */
  function Message(status: int, message: string): Response {
    Response(status, Obj(map["message" := Str(message)]))
  }
}
