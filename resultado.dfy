/** Errors raised by the catalog and the wrappers that carry them. */
module Resultado {

  /** One constructor per `throw new Error(...)` of the catalog code, plus the
      outcome of an interactive entry whose prompts never produced an answer. */
  datatype Error =
    | NombrePistaVacio        // track name is empty
    | DuracionFueraDeRango    // track duration outside [0, 7200]
    | NombreDiscoVacio        // album name is empty
    | ArtistaVacio            // artist is empty
    | PortadaVacia            // cover link is empty
    | CodigoFueraDeRango      // album id outside [1, 999]
    | CodigoDuplicado(id: int) // album id already in the catalog
    | IntentosAgotados        // interactive entry: no acceptable id among the answers

  /** A value, or the error that its construction threw. */
  datatype Result<T> = Ok(value: T) | Err(error: Error)

  datatype Option<T> = None | Some(value: T)
}
