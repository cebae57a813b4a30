/** Tracks (`Pista`): immutable name/duration values validated on creation. */
module Pistas {
  import opened Resultado

  /** Longest duration, in seconds, that a track may have. */
  const DuracionMaxima: int := 7200

  datatype Pista = Pista(nombre: string, duracion: int)

  /** What the constructor checks: a non-empty name and a duration in [0, 7200]. */
  predicate PistaValida(p: Pista)
  {
    |p.nombre| > 0 && 0 <= p.duracion <= DuracionMaxima
  }

  /** The `Pista` constructor: the name is checked first, then the duration. */
  function NuevaPista(nombre: string, duracion: int): (r: Result<Pista>)
    ensures r.Ok? <==> |nombre| > 0 && 0 <= duracion <= DuracionMaxima
    ensures r.Ok? ==> r.value.nombre == nombre && r.value.duracion == duracion && PistaValida(r.value)
    ensures r.Err? ==> r.error == (if |nombre| == 0 then NombrePistaVacio else DuracionFueraDeRango)
  {
    if |nombre| == 0 then Err(NombrePistaVacio)
    else if duracion < 0 || duracion > DuracionMaxima then Err(DuracionFueraDeRango)
    else Ok(Pista(nombre, duracion))
  }

  /** Every valid track is exactly what the constructor builds from its own fields. */
  lemma NuevaPistaReconstruye(p: Pista)
    ensures PistaValida(p) <==> NuevaPista(p.nombre, p.duracion) == Ok(p)
  {
  }
}
