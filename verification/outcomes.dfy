/** Success and failure values shared by the pipeline scripts. */
module Outcomes {

  datatype Option<+T> = None | Some(value: T)

  /** The exceptions the modelled scripts can raise before finishing. */
  datatype Error =
    | ZeroChannelWidth            // maxspwbw / chanwidth with a zero channel width
    | ZeroBandwidth               // bandwidth / maxspwbw with a zero bandwidth
    | BadFieldId(token: string)   // int(token) rejects a field id token
    | UnknownField(id: int)       // namesforfields(id) knows no such field

  datatype Result<+T> = Ok(value: T) | Err(error: Error)
}
