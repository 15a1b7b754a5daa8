/** The push-gateway boundary (the a2 APNs client), seen only through what the
    handlers and the wake-up loop hand to it and what they get back. */
module Apns {

  /** The two gateway endpoints a client identity is bound to. */
  datatype Endpoint = Production | Sandbox

  /** The two payload shapes: Silent is the background wake-up
      (content-available, normal priority); Visible carries a title, a body and
      a sound and is sent with high priority. */
  datatype PayloadKind = Silent | Visible

  /** One send: the endpoint of the client used, the device token the payload
      is built for, and the payload's shape. */
  datatype Request = Request(endpoint: Endpoint, token: string, kind: PayloadKind)

  /** What `Client::send` returns: a gateway response with any status code,
      an error that carries a gateway response (`Error::ResponseError`), or any
      other error (connection, TLS, serialisation, ...). */
  datatype SendResult = Ok(code: int) | ResponseError(code: int) | OtherError

  /** APNs status 410: the device token is no longer active for the topic. */
  const Unregistered: int := 410
}
