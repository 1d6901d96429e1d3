/** Outcomes shared by the connection model and the endpoint registry:
    Python's `None`, its raised exceptions, and the value a call returns when it does not raise. */
module Results {

  datatype Option<+T> = None | Some(value: T)

  /** The exceptions the modelled code raises (or lets propagate). */
  datatype Error =
    | ConnectException(msg: string)   // connect/disconnect/send/receive in strict mode
    | ValueError                      // receive with a negative index, strict mode
    | IndexError                      // receive past the oldest entry, strict mode
    | SerialException                 // the device could not be opened
    | AttributeError                  // a method called on a value that lacks it
    | EndpointExistsException(msg: string)
    | TypeError(msg: string)

  /** A call either returns a value or raises an exception. */
  datatype Result<+T> = Ok(value: T) | Err(error: Error)

  const AlreadyEstablished: string := "Connection already established"
  const NotEstablished: string := "No connection established"
  const NotAResource: string := "method needs to return something that extends flask_restful Resource object"

  function Abs(x: int): (r: nat)
    ensures r == x || r == -x
  {
    if x < 0 then -x else x
  }

  function Min(a: nat, b: nat): (r: nat)
    ensures r <= a && r <= b && (r == a || r == b)
  {
    if a <= b then a else b
  }
}
