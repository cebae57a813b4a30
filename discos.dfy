/** Albums (`Disco`): validated metadata plus an ordered list of tracks that
    grows in place, with the two aggregate queries over that list. */
module Discos {
  import opened Resultado
  import opened Pistas

  const CodigoMinimo: int := 1
  const CodigoMaximo: int := 999

  /** The value of an album at one moment: its metadata and its tracks. */
  datatype DiscoValor = DiscoValor(nombre: string, artista: string, id: int, portada: string, pistas: seq<Pista>)

  /** What the `Disco` constructor checks. */
  predicate CamposValidos(nombre: string, artista: string, id: int, portada: string)
  {
    |nombre| > 0 && |artista| > 0 && |portada| > 0 && CodigoMinimo <= id <= CodigoMaximo
  }

  /** The `Disco` constructor on values: name, artist and cover are checked in
      that order, then the id; a new album has no tracks. */
  function NuevoDisco(nombre: string, artista: string, id: int, portada: string): (r: Result<DiscoValor>)
    ensures r.Ok? <==> CamposValidos(nombre, artista, id, portada)
    ensures r.Ok? ==> r.value == DiscoValor(nombre, artista, id, portada, [])
    ensures r.Err? && |nombre| == 0 ==> r.error == NombreDiscoVacio
    ensures r.Err? && |nombre| > 0 && |artista| == 0 ==> r.error == ArtistaVacio
    ensures r.Err? && |nombre| > 0 && |artista| > 0 && |portada| == 0 ==> r.error == PortadaVacia
    ensures r.Err? && |nombre| > 0 && |artista| > 0 && |portada| > 0 ==> r.error == CodigoFueraDeRango
  {
    if |nombre| == 0 then Err(NombreDiscoVacio)
    else if |artista| == 0 then Err(ArtistaVacio)
    else if |portada| == 0 then Err(PortadaVacia)
    else if id < CodigoMinimo || id > CodigoMaximo then Err(CodigoFueraDeRango)
    else Ok(DiscoValor(nombre, artista, id, portada, []))
  }

  predicate PistasValidas(ps: seq<Pista>)
  {
    forall i :: 0 <= i < |ps| ==> PistaValida(ps[i])
  }

  // ---------------------------------------------------------------------------
  // Total duration: `reduce((total, pista) => total + pista.duracion, 0)`
  // ---------------------------------------------------------------------------

  /** The left fold of `+` over the durations, starting at 0. */
  function SumaDuraciones(ps: seq<Pista>): (t: int)
    ensures ps == [] ==> t == 0
    ensures PistasValidas(ps) ==> 0 <= t <= DuracionMaxima * |ps|
  {
    if ps == [] then 0 else SumaDuraciones(ps[..|ps| - 1]) + ps[|ps| - 1].duracion
  }

  /** Summing two lists one after the other is summing their concatenation. */
  lemma {:induction false} SumaDuracionesConcat(a: seq<Pista>, b: seq<Pista>)
    ensures SumaDuraciones(a + b) == SumaDuraciones(a) + SumaDuraciones(b)
    decreases |b|
  {
    if b == [] {
      assert a + b == a;
    } else {
      var b' := b[..|b| - 1];
      assert (a + b)[..|a + b| - 1] == a + b';
      SumaDuracionesConcat(a, b');
    }
  }

  /** Appending a track adds exactly its duration to the total. */
  lemma SumaDuracionesAgregar(ps: seq<Pista>, p: Pista)
    ensures SumaDuraciones(ps + [p]) == SumaDuraciones(ps) + p.duracion
  {
    SumaDuracionesConcat(ps, [p]);
  }

  /** The total of the tracks 60 s, 90 s and 200 s is 350 s. */
  lemma SumaDuracionesEjemplo()
    ensures SumaDuraciones([Pista("A", 60), Pista("B", 90), Pista("C", 200)]) == 350
  {
    SumaDuracionesAgregar([Pista("A", 60), Pista("B", 90)], Pista("C", 200));
    SumaDuracionesAgregar([Pista("A", 60)], Pista("B", 90));
    SumaDuracionesAgregar([], Pista("A", 60));
  }

  // ---------------------------------------------------------------------------
  // Longest track: `reduce((max, p) => (p.duracion > max.duracion ? p : max), pistas[0])`
  // ---------------------------------------------------------------------------

  /** One step of the reduction: a strictly longer track replaces the current one. */
  function Elegir(max: Pista, p: Pista): (r: Pista)
    ensures r == max || r == p
    ensures r.duracion >= max.duracion && r.duracion >= p.duracion
    ensures r != max ==> p.duracion > max.duracion
  {
    if p.duracion > max.duracion then p else max
  }

  /** The reduction after its first `i` steps, seeded with `ps[0]`. */
  function MasLargaHasta(ps: seq<Pista>, i: nat): (r: Pista)
    requires 0 < |ps| && i <= |ps|
    ensures r in ps
    ensures forall j :: 0 <= j < i ==> ps[j].duracion <= r.duracion
  {
    if i == 0 then ps[0] else Elegir(MasLargaHasta(ps, i - 1), ps[i - 1])
  }

  /** `k` is the first position of a track of maximal duration. */
  ghost predicate EsPrimerMaximo(ps: seq<Pista>, k: int)
  {
    && 0 <= k < |ps|
    && (forall j :: 0 <= j < |ps| ==> ps[j].duracion <= ps[k].duracion)
    && (forall j :: 0 <= j < k ==> ps[j].duracion < ps[k].duracion)
  }

  /** After `i` steps the reduction holds the first longest track among `ps[..i]`,
      and returns its position. */
  lemma {:induction false} PosicionMasLargaHasta(ps: seq<Pista>, i: nat) returns (k: nat)
    requires 0 < |ps| && i <= |ps|
    ensures k < |ps| && (i > 0 ==> k < i)
    ensures MasLargaHasta(ps, i) == ps[k]
    ensures forall j :: 0 <= j < i ==> ps[j].duracion <= ps[k].duracion
    ensures forall j :: 0 <= j < k ==> ps[j].duracion < ps[k].duracion
  {
    if i == 0 {
      k := 0;
    } else {
      var k' := PosicionMasLargaHasta(ps, i - 1);
      if ps[i - 1].duracion > ps[k'].duracion {
        k := i - 1;
      } else {
        k := if i == 1 then 0 else k';
      }
    }
  }

  /** `pistaMasLarga` on a non-empty list (on an empty one it has no result). */
  function MasLargaDe(ps: seq<Pista>): (r: Pista)
    requires |ps| > 0
    ensures exists k :: EsPrimerMaximo(ps, k) && r == ps[k]
  {
    ReduccionCompletaEsPrimerMaximo(ps);
    MasLargaHasta(ps, |ps|)
  }

  /** The complete reduction holds a first maximum of the whole list. */
  lemma ReduccionCompletaEsPrimerMaximo(ps: seq<Pista>)
    requires |ps| > 0
    ensures exists k :: EsPrimerMaximo(ps, k) && MasLargaHasta(ps, |ps|) == ps[k]
  {
    var k := PosicionMasLargaHasta(ps, |ps|);
    assert EsPrimerMaximo(ps, k);
  }

  /** The first maximum is unique, so the longest track is fully determined. */
  lemma PrimerMaximoUnico(ps: seq<Pista>, k1: int, k2: int)
    requires EsPrimerMaximo(ps, k1) && EsPrimerMaximo(ps, k2)
    ensures k1 == k2
  {
    assert ps[k1].duracion == ps[k2].duracion;
  }

  /** Appending a track updates the longest track by one more reduction step. */
  lemma {:induction false} MasLargaAgregar(ps: seq<Pista>, p: Pista)
    requires |ps| > 0
    ensures MasLargaDe(ps + [p]) == Elegir(MasLargaDe(ps), p)
  {
    MasLargaHastaPrefijo(ps, ps + [p], |ps|);
  }

  /** The first `i` steps only see the first `i` tracks. */
  lemma {:induction false} MasLargaHastaPrefijo(ps: seq<Pista>, qs: seq<Pista>, i: nat)
    requires 0 < |ps| <= |qs| && i <= |ps| && ps == qs[..|ps|]
    ensures MasLargaHasta(ps, i) == MasLargaHasta(qs, i)
  {
    if i > 0 {
      MasLargaHastaPrefijo(ps, qs, i - 1);
    }
  }

  /** With tracks of 60 s, 200 s and 200 s the first 200 s track ("B") wins. */
  lemma MasLargaEjemplo()
    ensures MasLargaDe([Pista("A", 60), Pista("B", 200), Pista("C", 200)]).nombre == "B"
  {
    var ps := [Pista("A", 60), Pista("B", 200), Pista("C", 200)];
    var k := PosicionMasLargaHasta(ps, |ps|);
    assert EsPrimerMaximo(ps, k) && MasLargaDe(ps) == ps[k];
    assert EsPrimerMaximo(ps, 1);
    PrimerMaximoUnico(ps, k, 1);
  }

  // ---------------------------------------------------------------------------
  // The album object
  // ---------------------------------------------------------------------------

  /** An album whose track list grows in place. The metadata is fixed at
      construction (the code never reassigns it). */
  class Disco {
    const nombre: string
    const artista: string
    const id: int
    const portada: string
    var pistas: seq<Pista>

    /** The metadata passed the constructor's checks. */
    ghost predicate Valid()
    {
      CamposValidos(nombre, artista, id, portada)
    }

    function Valor(): (v: DiscoValor)
      reads this
      ensures v.id == id && v.pistas == pistas
    {
      DiscoValor(nombre, artista, id, portada, pistas)
    }

    /** Only reached through `Nuevo`, which has made the checks. */
    constructor (nombre: string, artista: string, id: int, portada: string)
      requires CamposValidos(nombre, artista, id, portada)
      ensures Valid()
      ensures Valor() == DiscoValor(nombre, artista, id, portada, [])
    {
      this.nombre := nombre;
      this.artista := artista;
      this.id := id;
      this.portada := portada;
      this.pistas := [];
    }

    /** `new Disco(...)`: a fresh album exactly when `NuevoDisco` succeeds, with the
        same error otherwise. */
    static method Nuevo(nombre: string, artista: string, id: int, portada: string) returns (r: Result<Disco>)
      ensures r.Err? <==> NuevoDisco(nombre, artista, id, portada).Err?
      ensures r.Err? ==> r.error == NuevoDisco(nombre, artista, id, portada).error
      ensures r.Ok? ==> fresh(r.value) && r.value.Valid()
                        && r.value.Valor() == NuevoDisco(nombre, artista, id, portada).value
    {
      match NuevoDisco(nombre, artista, id, portada)
      case Err(e) =>
        r := Err(e);
      case Ok(_) =>
        var d := new Disco(nombre, artista, id, portada);
        r := Ok(d);
    }

    /** `agregarPista`: the track goes at the end; nothing else changes. */
    method AgregarPista(p: Pista)
      modifies this
      ensures pistas == old(pistas) + [p]
      ensures |pistas| == |old(pistas)| + 1 && pistas[..|old(pistas)|] == old(pistas)
    {
      pistas := pistas + [p];
    }

    /** `duracionTotal`. */
    function DuracionTotal(): (t: int)
      reads this
      ensures t == SumaDuraciones(pistas)
      ensures pistas == [] ==> t == 0
      ensures PistasValidas(pistas) ==> 0 <= t <= DuracionMaxima * |pistas|
    {
      SumaDuraciones(pistas)
    }

    /** `pistaMasLarga`: the first track of maximal duration. */
    function PistaMasLarga(): (r: Pista)
      reads this
      requires |pistas| > 0
      ensures exists k :: EsPrimerMaximo(pistas, k) && r == pistas[k]
    {
      MasLargaDe(pistas)
    }
  }
}
