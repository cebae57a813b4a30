/** The catalog (`discos`): albums unique by id, filled by the loader
    (`cargarDatosJson`) and by interactive entry (`cargar`). */
module Catalogos {
  import opened Resultado
  import opened Pistas
  import opened Discos

  // ---------------------------------------------------------------------------
  // Input records, already decoded from the JSON document
  // ---------------------------------------------------------------------------

  datatype RegistroPista = RegistroPista(nombre: string, duracion: int)

  datatype Registro = Registro(nombre: string, artista: string, id: int, portada: string,
                               pistas: seq<RegistroPista>)

  /** The track a record describes, as `new Pista` would store it. */
  function PistaDe(r: RegistroPista): Pista
  {
    Pista(r.nombre, r.duracion)
  }

  // ---------------------------------------------------------------------------
  // Ids in a catalog
  // ---------------------------------------------------------------------------

  /** `discos.find(d => d.id === id)` finds something. */
  predicate IdUsado(cat: seq<DiscoValor>, id: int)
  {
    exists i :: 0 <= i < |cat| && cat[i].id == id
  }

  /** The catalog invariant: no two albums share an id. */
  predicate IdsDistintos(cat: seq<DiscoValor>)
  {
    forall i, j :: 0 <= i < j < |cat| ==> cat[i].id != cat[j].id
  }

  /** A fresh album whose id is new keeps the ids distinct. */
  lemma AgregarIdNuevo(cat: seq<DiscoValor>, d: DiscoValor)
    requires !IdUsado(cat, d.id)
    ensures IdsDistintos(cat) ==> IdsDistintos(cat + [d])
  {
    var c := cat + [d];
    if !IdsDistintos(cat) { return; }
    forall i, j | 0 <= i < j < |c| ensures c[i].id != c[j].id {
      if j < |cat| {
        assert c[i] == cat[i] && c[j] == cat[j];
      } else {
        assert c[i] == cat[i] && c[j] == d;
      }
    }
  }

  // ---------------------------------------------------------------------------
  // Building one record: `new Disco(...)`, then `new Pista(...)` per track
  // ---------------------------------------------------------------------------

  /** The tracks of a record, built in document order; the first track that
      fails its checks decides the error. */
  function ConstruirPistas(rs: seq<RegistroPista>): (r: Result<seq<Pista>>)
    ensures r.Ok? <==> forall i :: 0 <= i < |rs| ==> PistaValida(PistaDe(rs[i]))
    ensures r.Ok? ==> |r.value| == |rs| && forall i :: 0 <= i < |rs| ==> r.value[i] == PistaDe(rs[i])
  {
    if rs == [] then Ok([])
    else
      var ultima := rs[|rs| - 1];
      match ConstruirPistas(rs[..|rs| - 1])
      case Err(e) => Err(e)
      case Ok(ps) =>
        match NuevaPista(ultima.nombre, ultima.duracion)
        case Err(e) => Err(e)
        case Ok(p) => Ok(ps + [p])
  }

  /** Once a prefix of the tracks fails, the whole record fails with that error. */
  lemma {:induction false} ConstruirPistasFallaPrefijo(rs: seq<RegistroPista>, i: nat)
    requires i <= |rs| && ConstruirPistas(rs[..i]).Err?
    ensures ConstruirPistas(rs) == ConstruirPistas(rs[..i])
    decreases |rs| - i
  {
    if i < |rs| {
      assert rs[..i + 1][..i] == rs[..i];
      ConstruirPistasFallaPrefijo(rs, i + 1);
    } else {
      assert rs[..i] == rs;
    }
  }

  /** The value a record becomes: the album fields are checked before any track. */
  function ConstruirValor(r: Registro): (res: Result<DiscoValor>)
    ensures res.Ok? ==> res.value.id == r.id
  {
    match NuevoDisco(r.nombre, r.artista, r.id, r.portada)
    case Err(e) => Err(e)
    case Ok(d) =>
      match ConstruirPistas(r.pistas)
      case Err(e) => Err(e)
      case Ok(ps) => Ok(d.(pistas := ps))
  }

  /** A record builds exactly when its album fields and all its tracks are
      valid; the album then holds the record's fields and its tracks in order,
      and an invalid album field is reported as the constructor reports it. */
  lemma ConstruirValorCorrecto(r: Registro)
    ensures var res := ConstruirValor(r);
            res.Ok? <==> && CamposValidos(r.nombre, r.artista, r.id, r.portada)
                         && forall i :: 0 <= i < |r.pistas| ==> PistaValida(PistaDe(r.pistas[i]))
    ensures var res := ConstruirValor(r);
            res.Ok? ==> && res.value.nombre == r.nombre && res.value.artista == r.artista
                        && res.value.id == r.id && res.value.portada == r.portada
                        && |res.value.pistas| == |r.pistas|
                        && (forall i :: 0 <= i < |r.pistas| ==> res.value.pistas[i] == PistaDe(r.pistas[i]))
                        && PistasValidas(res.value.pistas)
    ensures !CamposValidos(r.nombre, r.artista, r.id, r.portada)
            ==> ConstruirValor(r) == Err(NuevoDisco(r.nombre, r.artista, r.id, r.portada).error)
    ensures CamposValidos(r.nombre, r.artista, r.id, r.portada) && ConstruirPistas(r.pistas).Err?
            ==> ConstruirValor(r) == Err(ConstruirPistas(r.pistas).error)
  {
  }

  // ---------------------------------------------------------------------------
  // The merge, on values
  // ---------------------------------------------------------------------------

  /** What one record of the document does to the catalog: the album it
      describes, or the error reported for it. */
  function Procesar(cat: seq<DiscoValor>, r: Registro): (res: Result<DiscoValor>)
    ensures res.Ok? <==> ConstruirValor(r).Ok? && !IdUsado(cat, r.id)
    ensures res.Ok? ==> res == ConstruirValor(r)
    ensures ConstruirValor(r).Ok? && IdUsado(cat, r.id) ==> res == Err(CodigoDuplicado(r.id))
    ensures ConstruirValor(r).Err? ==> res == ConstruirValor(r)
  {
    match ConstruirValor(r)
    case Err(e) => Err(e)
    case Ok(d) => if IdUsado(cat, d.id) then Err(CodigoDuplicado(d.id)) else Ok(d)
  }

  /** One iteration of the loader's `forEach`. The album is appended exactly
      when it and all its tracks are valid and its id is new; otherwise the
      catalog is unchanged. */
  function PasoCarga(cat: seq<DiscoValor>, r: Registro): (res: seq<DiscoValor>)
    ensures res != cat <==> ConstruirValor(r).Ok? && !IdUsado(cat, r.id)
    ensures res != cat ==> res == cat + [ConstruirValor(r).value]
  {
    match Procesar(cat, r)
    case Ok(d) =>
      assert |cat + [d]| != |cat|;
      cat + [d]
    case Err(_) => cat
  }

  /** A loader step keeps the ids distinct. */
  lemma PasoCargaConservaIds(cat: seq<DiscoValor>, r: Registro)
    requires IdsDistintos(cat)
    ensures IdsDistintos(PasoCarga(cat, r))
  {
    if PasoCarga(cat, r) != cat {
      AgregarIdNuevo(cat, ConstruirValor(r).value);
    }
  }

  /** The records folded into the catalog in document order. */
  function Carga(cat: seq<DiscoValor>, rs: seq<Registro>): (res: seq<DiscoValor>)
    ensures |cat| <= |res| <= |cat| + |rs|
  {
    if rs == [] then cat else PasoCarga(Carga(cat, rs[..|rs| - 1]), rs[|rs| - 1])
  }

  /** The main invariant: loading keeps the catalog's ids pairwise distinct. */
  lemma {:induction false} CargaConservaIds(cat: seq<DiscoValor>, rs: seq<Registro>)
    requires IdsDistintos(cat)
    ensures IdsDistintos(Carga(cat, rs))
  {
    if rs != [] {
      CargaConservaIds(cat, rs[..|rs| - 1]);
      PasoCargaConservaIds(Carga(cat, rs[..|rs| - 1]), rs[|rs| - 1]);
    }
  }

  /** Loading only appends: the old catalog is a prefix of the new one, which
      has at most one more album per record. */
  lemma {:induction false} CargaExtiende(cat: seq<DiscoValor>, rs: seq<Registro>)
    ensures |cat| <= |Carga(cat, rs)| <= |cat| + |rs|
    ensures Carga(cat, rs)[..|cat|] == cat
  {
    if rs != [] {
      CargaExtiende(cat, rs[..|rs| - 1]);
    }
  }

  /** The errors reported while folding, one per skipped record, in order. */
  function ErroresCarga(cat: seq<DiscoValor>, rs: seq<Registro>): (es: seq<Error>)
    ensures |es| <= |rs|
  {
    if rs == [] then []
    else
      var previo := Carga(cat, rs[..|rs| - 1]);
      match Procesar(previo, rs[|rs| - 1])
      case Err(e) => ErroresCarga(cat, rs[..|rs| - 1]) + [e]
      case Ok(_) => ErroresCarga(cat, rs[..|rs| - 1])
  }

  /** A record with no tracks is accepted: the loader builds an album without
      tracks for it. */
  lemma CargaAceptaSinPistas()
    ensures Procesar([], Registro("Disco", "Artista", 5, "portada.jpg", [])).Ok?
    ensures Carga([], [Registro("Disco", "Artista", 5, "portada.jpg", [])])
            == [DiscoValor("Disco", "Artista", 5, "portada.jpg", [])]
  {
    assert [Registro("Disco", "Artista", 5, "portada.jpg", [])][..0] == [];
  }

  /** The albums appended plus the errors reported equal the number of records;
      `CargaPrefijoSiguiente` gives the per-record split. */
  lemma {:induction false} CargaCuentaRegistros(cat: seq<DiscoValor>, rs: seq<Registro>)
    ensures |Carga(cat, rs)| + |ErroresCarga(cat, rs)| == |cat| + |rs|
  {
    if rs != [] {
      CargaCuentaRegistros(cat, rs[..|rs| - 1]);
    }
  }

  /** The state before record `i` and the state after it. */
  lemma CargaPrefijoSiguiente(cat: seq<DiscoValor>, rs: seq<Registro>, i: nat)
    requires i < |rs|
    ensures Carga(cat, rs[..i + 1]) == PasoCarga(Carga(cat, rs[..i]), rs[i])
    ensures Procesar(Carga(cat, rs[..i]), rs[i]).Err?
            ==> ErroresCarga(cat, rs[..i + 1]) == ErroresCarga(cat, rs[..i]) + [Procesar(Carga(cat, rs[..i]), rs[i]).error]
    ensures Procesar(Carga(cat, rs[..i]), rs[i]).Ok?
            ==> ErroresCarga(cat, rs[..i + 1]) == ErroresCarga(cat, rs[..i])
  {
    assert rs[..i + 1][..i] == rs[..i];
  }

  /** Loading two documents one after the other is loading their concatenation. */
  lemma {:induction false} CargaConcat(cat: seq<DiscoValor>, a: seq<Registro>, b: seq<Registro>)
    ensures Carga(cat, a + b) == Carga(Carga(cat, a), b)
    decreases |b|
  {
    if b == [] {
      assert a + b == a;
    } else {
      assert (a + b)[..|a + b| - 1] == a + b[..|b| - 1];
      CargaConcat(cat, a, b[..|b| - 1]);
    }
  }

  /** Per-record isolation: a record that is rejected in its turn (malformed or
      with a used id) adds one error to the log and is otherwise skipped:
      everything else loads exactly as if it were not in the document. */
  lemma CargaIgnoraInvalido(cat: seq<DiscoValor>, antes: seq<Registro>, malo: Registro, despues: seq<Registro>)
    requires Procesar(Carga(cat, antes), malo).Err?
    ensures ErroresCarga(cat, antes + [malo])
            == ErroresCarga(cat, antes) + [Procesar(Carga(cat, antes), malo).error]
    ensures Carga(cat, antes + [malo] + despues) == Carga(cat, antes + despues)
  {
    assert (antes + [malo])[..|antes|] == antes;
    CargaConcat(cat, antes + [malo], despues);
    CargaConcat(cat, antes, [malo]);
    assert [malo][..0] == [];
    CargaConcat(cat, antes, despues);
  }

  /** An id that is not in the catalog and that no valid record carries is not
      in the loaded catalog either. */
  lemma {:induction false} IdAusenteDeCarga(cat: seq<DiscoValor>, rs: seq<Registro>, id: int)
    requires !IdUsado(cat, id)
    requires forall l :: 0 <= l < |rs| ==> !(ConstruirValor(rs[l]).Ok? && rs[l].id == id)
    ensures !IdUsado(Carga(cat, rs), id)
  {
    if rs != [] {
      var rs' := rs[..|rs| - 1];
      forall l | 0 <= l < |rs'| ensures !(ConstruirValor(rs'[l]).Ok? && rs'[l].id == id) {
        assert rs'[l] == rs[l];
      }
      IdAusenteDeCarga(cat, rs', id);
    }
  }

  /** Duplicate ids: the first valid record with an id is the album the catalog
      keeps for it; later records with that id are rejected. */
  lemma {:induction false} CargaPrimeroGana(cat: seq<DiscoValor>, rs: seq<Registro>, j: nat)
    requires j < |rs| && ConstruirValor(rs[j]).Ok? && !IdUsado(cat, rs[j].id)
    requires forall l :: 0 <= l < j ==> !(ConstruirValor(rs[l]).Ok? && rs[l].id == rs[j].id)
    ensures ConstruirValor(rs[j]).value in Carga(cat, rs)
    ensures forall k :: 0 <= k < |Carga(cat, rs)| && Carga(cat, rs)[k].id == rs[j].id
                        ==> Carga(cat, rs)[k] == ConstruirValor(rs[j]).value
  {
    var v := ConstruirValor(rs[j]).value;
    var rs' := rs[..|rs| - 1];
    var previo := Carga(cat, rs');
    var res := Carga(cat, rs);
    if j == |rs| - 1 {
      forall l | 0 <= l < |rs'| ensures !(ConstruirValor(rs'[l]).Ok? && rs'[l].id == v.id) {
        assert rs'[l] == rs[l];
      }
      IdAusenteDeCarga(cat, rs', v.id);
      assert res == previo + [v];
      forall k | 0 <= k < |res| && res[k].id == v.id ensures res[k] == v {
        assert k == |previo|;
      }
    } else {
      forall l | 0 <= l < j ensures !(ConstruirValor(rs'[l]).Ok? && rs'[l].id == rs'[j].id) {
        assert rs'[l] == rs[l];
      }
      assert rs'[j] == rs[j];
      CargaPrimeroGana(cat, rs', j);
      var i :| 0 <= i < |previo| && previo[i] == v;
      assert IdUsado(previo, v.id);
      assert res == previo || res == previo + [ConstruirValor(rs[|rs| - 1]).value];
      forall k | 0 <= k < |res| && res[k].id == v.id ensures res[k] == v {
        if k < |previo| {
          assert res[k] == previo[k];
        }
      }
      assert res[i] == v;
    }
  }

  /** Two valid records sharing an id: only the first is kept, and the second
      is reported as a duplicate. */
  lemma DuplicadoSoloPrimero(cat: seq<DiscoValor>, r1: Registro, r2: Registro)
    requires ConstruirValor(r1).Ok? && ConstruirValor(r2).Ok? && r1.id == r2.id
    requires !IdUsado(cat, r1.id)
    ensures Carga(cat, [r1, r2]) == cat + [ConstruirValor(r1).value]
    ensures ErroresCarga(cat, [r1, r2]) == [CodigoDuplicado(r1.id)]
  {
    var rs := [r1, r2];
    assert rs[..1] == [r1];
    assert [r1][..0] == [];
    var uno := cat + [ConstruirValor(r1).value];
    assert Procesar(cat, r1).Ok?;
    assert Carga(cat, [r1]) == uno;
    assert ErroresCarga(cat, [r1]) == [];
    assert uno[|cat|].id == r2.id;
    assert IdUsado(uno, r2.id);
    assert Procesar(uno, r2) == Err(CodigoDuplicado(r1.id));
  }

  /** The positions in the document of the records a load accepts. */
  function Aceptados(cat: seq<DiscoValor>, rs: seq<Registro>): (o: seq<nat>)
    ensures |Carga(cat, rs)| == |cat| + |o|
    ensures forall k :: 0 <= k < |o| ==> o[k] < |rs|
    ensures forall k1, k2 :: 0 <= k1 < k2 < |o| ==> o[k1] < o[k2]
  {
    if rs == [] then []
    else
      var n := |rs| - 1;
      Aceptados(cat, rs[..n]) + NuevoAceptado(cat, rs, n)
  }

  /** `[n]` when record `n` is accepted after the records before it. */
  function NuevoAceptado(cat: seq<DiscoValor>, rs: seq<Registro>, n: nat): (o: seq<nat>)
    requires n < |rs|
    ensures o == [] || o == [n]
    ensures o == [n] <==> Procesar(Carga(cat, rs[..n]), rs[n]).Ok?
  {
    if Procesar(Carga(cat, rs[..n]), rs[n]).Ok? then [n] else []
  }

  lemma AceptadosUltimo(cat: seq<DiscoValor>, rs: seq<Registro>)
    requires |rs| > 0
    ensures Aceptados(cat, rs) == Aceptados(cat, rs[..|rs| - 1]) + NuevoAceptado(cat, rs, |rs| - 1)
  {
  }

  /** Whether record `j` is accepted depends only on the records up to it. */
  lemma NuevoAceptadoPrefijo(cat: seq<DiscoValor>, rs: seq<Registro>, m: nat, j: nat)
    requires j < m <= |rs|
    ensures NuevoAceptado(cat, rs[..m], j) == NuevoAceptado(cat, rs, j)
  {
    assert rs[..m][..j] == rs[..j] && rs[..m][j] == rs[j];
  }

  lemma {:induction false} AceptadosEn(cat: seq<DiscoValor>, rs: seq<Registro>, j: nat)
    requires j < |rs|
    ensures j in Aceptados(cat, rs) <==> NuevoAceptado(cat, rs, j) == [j]
  {
    var n := |rs| - 1;
    AceptadosUltimo(cat, rs);
    if j < n {
      AceptadosEn(cat, rs[..n], j);
      NuevoAceptadoPrefijo(cat, rs, n, j);
      assert j !in NuevoAceptado(cat, rs, n);
    } else {
      assert j !in Aceptados(cat, rs[..n]);
    }
  }

  /** A record is accepted exactly when it passes the checks against the
      catalog as the records before it left it. */
  lemma AceptadosExactos(cat: seq<DiscoValor>, rs: seq<Registro>, j: nat)
    requires j < |rs|
    ensures j in Aceptados(cat, rs) <==> Procesar(Carga(cat, rs[..j]), rs[j]).Ok?
  {
    AceptadosEn(cat, rs, j);
  }

  /** The albums a load appends follow the document: the `k`-th new album is
      the one described by the `k`-th accepted record. */
  lemma {:induction false} AceptadosValores(cat: seq<DiscoValor>, rs: seq<Registro>, k: nat)
    requires k < |Aceptados(cat, rs)|
    ensures ConstruirValor(rs[Aceptados(cat, rs)[k]]).Ok?
    ensures Carga(cat, rs)[|cat| + k] == ConstruirValor(rs[Aceptados(cat, rs)[k]]).value
  {
    var n := |rs| - 1;
    var rs' := rs[..n];
    var o' := Aceptados(cat, rs');
    var o := Aceptados(cat, rs);
    var previo := Carga(cat, rs');
    if k < |o'| {
      AceptadosValores(cat, rs', k);
      assert o[k] == o'[k];
      assert rs[o'[k]] == rs'[o'[k]];
      assert Carga(cat, rs)[|cat| + k] == previo[|cat| + k];
    } else {
      assert o[k] == n;
      assert Carga(cat, rs) == previo + [ConstruirValor(rs[n]).value];
    }
  }

  // ---------------------------------------------------------------------------
  // Interactive entry (`cargar`), on values
  // ---------------------------------------------------------------------------

  /** The id check of the prompt loop: in [1, 999] and not used yet. */
  predicate CodigoAceptado(cat: seq<DiscoValor>, codigo: int)
  {
    CodigoMinimo <= codigo <= CodigoMaximo && !IdUsado(cat, codigo)
  }

  /** The position of the first acceptable answer to the id prompt, if any. */
  function PrimerAceptado(cat: seq<DiscoValor>, intentos: seq<int>): (r: Option<nat>)
    ensures r.Some? ==> r.value < |intentos| && CodigoAceptado(cat, intentos[r.value])
    ensures r.Some? ==> forall j :: 0 <= j < r.value ==> !CodigoAceptado(cat, intentos[j])
    ensures r.None? ==> forall j :: 0 <= j < |intentos| ==> !CodigoAceptado(cat, intentos[j])
  {
    if intentos == [] then None
    else
      var n := |intentos| - 1;
      match PrimerAceptado(cat, intentos[..n])
      case Some(k) => Some(k)
      case None => if CodigoAceptado(cat, intentos[n]) then Some(n) else None
  }

  /** The id interactive entry settles on, or the message that ends it before
      the tracks are asked for. The answers are checked in the order they are
      asked for: artist, name, id (the first acceptable answer), cover. */
  function Cabecera(cat: seq<DiscoValor>, artista: string, nombre: string, intentos: seq<int>,
                    portada: string): (r: Result<int>)
    ensures r.Ok? <==> |artista| > 0 && |nombre| > 0 && PrimerAceptado(cat, intentos).Some? && |portada| > 0
    ensures r.Ok? ==> CodigoAceptado(cat, r.value) && r.value == intentos[PrimerAceptado(cat, intentos).value]
    ensures r.Ok? ==> CamposValidos(nombre, artista, r.value, portada)
    ensures |artista| == 0 ==> r == Err(ArtistaVacio)
    ensures |artista| > 0 && |nombre| == 0 ==> r == Err(NombreDiscoVacio)
    ensures |artista| > 0 && |nombre| > 0 && PrimerAceptado(cat, intentos).None? ==> r == Err(IntentosAgotados)
    ensures |artista| > 0 && |nombre| > 0 && PrimerAceptado(cat, intentos).Some? && |portada| == 0
            ==> r == Err(PortadaVacia)
  {
    if |artista| == 0 then Err(ArtistaVacio)
    else if |nombre| == 0 then Err(NombreDiscoVacio)
    else match PrimerAceptado(cat, intentos)
      case None => Err(IntentosAgotados)
      case Some(k) =>
        if |portada| == 0 then Err(PortadaVacia) else Ok(intentos[k])
  }

  /** The album interactive entry builds, or the message that ends it: the
      header answers first; then the album is built from them and its tracks
      added, the first invalid track deciding. */
  function EntradaInteractiva(cat: seq<DiscoValor>, artista: string, nombre: string, intentos: seq<int>,
                              portada: string, pistas: seq<RegistroPista>): (r: Result<DiscoValor>)
    requires forall i :: 0 <= i < |pistas| ==> 0 <= pistas[i].duracion <= DuracionMaxima
    ensures r.Ok? <==> && |artista| > 0 && |nombre| > 0 && PrimerAceptado(cat, intentos).Some?
                       && |portada| > 0 && forall i :: 0 <= i < |pistas| ==> |pistas[i].nombre| > 0
    ensures r.Ok? ==> && CodigoAceptado(cat, r.value.id)
                      && r.value.id == intentos[PrimerAceptado(cat, intentos).value]
                      && r.value.nombre == nombre && r.value.artista == artista
                      && r.value.portada == portada
                      && |r.value.pistas| == |pistas|
                      && forall i :: 0 <= i < |pistas| ==> r.value.pistas[i] == PistaDe(pistas[i])
  {
    match Cabecera(cat, artista, nombre, intentos, portada)
    case Err(e) => Err(e)
    case Ok(codigo) => ConstruirValor(Registro(nombre, artista, codigo, portada, pistas))
  }

  /** The album interactive entry produces can be appended without breaking
      the catalog invariant. */
  lemma EntradaConservaIds(cat: seq<DiscoValor>, artista: string, nombre: string, intentos: seq<int>,
                           portada: string, pistas: seq<RegistroPista>)
    requires forall i :: 0 <= i < |pistas| ==> 0 <= pistas[i].duracion <= DuracionMaxima
    requires IdsDistintos(cat)
    requires EntradaInteractiva(cat, artista, nombre, intentos, portada, pistas).Ok?
    ensures IdsDistintos(cat + [EntradaInteractiva(cat, artista, nombre, intentos, portada, pistas).value])
  {
    AgregarIdNuevo(cat, EntradaInteractiva(cat, artista, nombre, intentos, portada, pistas).value);
  }

  // ---------------------------------------------------------------------------
  // The catalog object
  // ---------------------------------------------------------------------------

  /** The values of a sequence of album objects. */
  function Valores(ds: seq<Disco>): (vs: seq<DiscoValor>)
    reads ds
    ensures |vs| == |ds| && forall i :: 0 <= i < |ds| ==> vs[i] == ds[i].Valor()
  {
    if ds == [] then [] else Valores(ds[..|ds| - 1]) + [ds[|ds| - 1].Valor()]
  }

  lemma ValoresAgregar(ds: seq<Disco>, d: Disco)
    ensures Valores(ds + [d]) == Valores(ds) + [d.Valor()]
  {
    assert (ds + [d])[..|ds|] == ds;
  }

  /** The process-wide `discos` array. */
  class Catalogo {
    var discos: seq<Disco>

    function Contenido(): seq<DiscoValor>
      reads this, discos
    {
      Valores(discos)
    }

    ghost predicate Valid()
      reads this, discos
    {
      IdsDistintos(Contenido())
    }

    /** `let discos = []`. */
    constructor ()
      ensures Valid() && discos == []
    {
      discos := [];
    }

    /** `discos.find(d => d.id === id)`: the first album with that id, if any. */
    method Buscar(id: int) returns (r: Option<Disco>)
      ensures r.None? <==> !IdUsado(Contenido(), id)
      ensures r.Some? ==> exists k :: 0 <= k < |discos| && discos[k] == r.value && r.value.id == id
                                     && forall j :: 0 <= j < k ==> discos[j].id != id
    {
      var i := 0;
      while i < |discos|
        invariant 0 <= i <= |discos|
        invariant forall j :: 0 <= j < i ==> discos[j].id != id
      {
        if discos[i].id == id {
          assert Contenido()[i].id == id;
          return Some(discos[i]);
        }
        i := i + 1;
      }
      r := None;
    }

    /** The loop of `cargarDatosJson` (the JSON document already decoded): each
        record is built and appended when valid and new, or skipped with its
        error reported; the catalog is never reordered or rewritten. */
    method CargarDatosJson(registros: seq<Registro>) returns (errores: seq<Error>)
      requires Valid()
      modifies this
      ensures Valid()
      ensures Contenido() == Carga(old(Contenido()), registros)
      ensures errores == ErroresCarga(old(Contenido()), registros)
      ensures old(discos) <= discos
    {
      ghost var inicial := Contenido();
      errores := [];
      var i := 0;
      while i < |registros|
        invariant 0 <= i <= |registros|
        invariant Contenido() == Carga(inicial, registros[..i])
        invariant errores == ErroresCarga(inicial, registros[..i])
        invariant old(discos) <= discos
      {
        CargaPrefijoSiguiente(inicial, registros, i);
        var error := CargarRegistro(registros[i]);
        if error.Some? {
          errores := errores + [error.value];
        }
        i := i + 1;
      }
      assert registros[..i] == registros;
      CargaConservaIds(inicial, registros);
    }

    /** The body of the loader's `forEach`, one `try` block: build the album
        and its tracks, reject a used id, otherwise push. */
    method CargarRegistro(r: Registro) returns (error: Option<Error>)
      modifies this
      ensures Contenido() == PasoCarga(old(Contenido()), r)
      ensures error.Some? <==> Procesar(old(Contenido()), r).Err?
      ensures error.Some? ==> error.value == Procesar(old(Contenido()), r).error && discos == old(discos)
      ensures error.None? ==> && |discos| == |old(discos)| + 1 && discos[..|old(discos)|] == old(discos)
                              && fresh(discos[|old(discos)|])
    {
      ghost var antes := Contenido();
      var res := ConstruirDisco(r);
      match res {
        case Err(e) =>
          assert Procesar(antes, r) == Err(e);
          error := Some(e);
        case Ok(d) =>
          var previo := Buscar(d.id);
          if previo.Some? {
            assert Procesar(antes, r) == Err(CodigoDuplicado(d.id));
            error := Some(CodigoDuplicado(d.id));
          } else {
            assert Procesar(antes, r) == Ok(d.Valor());
            Agregar(d);
            error := None;
          }
      }
    }

    /** The id prompt of `cargar`, one answer: in range and not the id of an
        album already in the catalog. */
    method CodigoAceptable(codigo: int) returns (ok: bool)
      ensures ok <==> CodigoAceptado(Contenido(), codigo)
    {
      if codigo < CodigoMinimo || codigo > CodigoMaximo {
        return false;
      }
      var previo := Buscar(codigo);
      ok := previo.None?;
    }

    /** The do-while of `cargar` over the id answers: the position of the first
        acceptable one, if any answer is. */
    method PrimerCodigoAceptable(intentos: seq<int>) returns (r: Option<nat>)
      ensures r == PrimerAceptado(Contenido(), intentos)
      ensures r.Some? ==> r.value < |intentos| && CodigoAceptado(Contenido(), intentos[r.value])
    {
      var i := 0;
      while i < |intentos|
        invariant 0 <= i <= |intentos|
        invariant PrimerAceptado(Contenido(), intentos[..i]) == None
      {
        assert intentos[..i + 1][..i] == intentos[..i];
        var ok := CodigoAceptable(intentos[i]);
        if ok {
          PrimerAceptadoExtiende(Contenido(), intentos, i + 1, i);
          return Some(i);
        }
        i := i + 1;
      }
      assert intentos[..i] == intentos;
      r := None;
    }

    /** `discos.push(d)`; an album whose id is new keeps the ids distinct. */
    method Agregar(d: Disco)
      modifies this
      ensures discos == old(discos) + [d]
      ensures Contenido() == old(Contenido()) + [d.Valor()]
      ensures old(Valid()) && !IdUsado(old(Contenido()), d.id) ==> Valid()
    {
      ghost var antes := discos;
      if !IdUsado(Contenido(), d.id) {
        AgregarIdNuevo(Contenido(), d.Valor());
      }
      discos := discos + [d];
      ValoresAgregar(antes, d);
    }

    /** The header answers of `cargar`, checked against the catalog as it is. */
    method ValidarCabecera(artista: string, nombre: string, intentos: seq<int>, portada: string)
      returns (r: Result<int>)
      ensures r == Cabecera(Contenido(), artista, nombre, intentos, portada)
    {
      if |artista| == 0 {
        return Err(ArtistaVacio);
      }
      if |nombre| == 0 {
        return Err(NombreDiscoVacio);
      }
      var k := PrimerCodigoAceptable(intentos);
      if k.None? {
        return Err(IntentosAgotados);
      }
      if |portada| == 0 {
        return Err(PortadaVacia);
      }
      r := Ok(intentos[k.value]);
    }

    /** `cargar`, with the prompts' answers as parameters: either one new album
        is appended, with an id no album in the catalog has, or the catalog is
        left as it was. */
    method CargarInteractivo(artista: string, nombre: string, intentos: seq<int>, portada: string,
                             pistas: seq<RegistroPista>) returns (res: Result<Disco>)
      requires Valid()
      requires |pistas| > 0
      requires forall i :: 0 <= i < |pistas| ==> 0 <= pistas[i].duracion <= DuracionMaxima
      modifies this
      ensures Valid()
      ensures res.Err? <==> EntradaInteractiva(old(Contenido()), artista, nombre, intentos, portada, pistas).Err?
      ensures res.Err? ==> res.error == EntradaInteractiva(old(Contenido()), artista, nombre, intentos, portada, pistas).error
                           && discos == old(discos)
      ensures res.Ok? ==> && fresh(res.value) && discos == old(discos) + [res.value]
                          && res.value.Valor() == EntradaInteractiva(old(Contenido()), artista, nombre, intentos, portada, pistas).value
    {
      ghost var antes := Contenido();
      var cabecera := ValidarCabecera(artista, nombre, intentos, portada);
      if cabecera.Err? {
        return Err(cabecera.error);
      }
      var construido := ConstruirDisco(Registro(nombre, artista, cabecera.value, portada, pistas));
      if construido.Err? {
        return Err(construido.error);
      }
      var d := construido.value;
      assert d.Valor() == EntradaInteractiva(antes, artista, nombre, intentos, portada, pistas).value;
      Agregar(d);
      res := Ok(d);
    }
  }

  /** Answers after the first acceptable one do not change it. */
  lemma {:induction false} PrimerAceptadoExtiende(cat: seq<DiscoValor>, intentos: seq<int>, i: nat, k: nat)
    requires i <= |intentos|
    requires PrimerAceptado(cat, intentos[..i]) == Some(k)
    ensures PrimerAceptado(cat, intentos) == Some(k)
    decreases |intentos| - i
  {
    if i < |intentos| {
      assert intentos[..i + 1][..i] == intentos[..i];
      PrimerAceptadoExtiende(cat, intentos, i + 1, k);
    } else {
      assert intentos[..i] == intentos;
    }
  }

  /** `new Disco(...)` followed by one `new Pista(...)` and `agregarPista` per
      track: the album object exactly when the record's value is valid. */
  method ConstruirDisco(r: Registro) returns (res: Result<Disco>)
    ensures res.Err? <==> ConstruirValor(r).Err?
    ensures res.Err? ==> res.error == ConstruirValor(r).error
    ensures res.Ok? ==> fresh(res.value) && res.value.Valid() && res.value.Valor() == ConstruirValor(r).value
  {
    var nuevo := Disco.Nuevo(r.nombre, r.artista, r.id, r.portada);
    if nuevo.Err? {
      return Err(nuevo.error);
    }
    var d := nuevo.value;
    var fallo := AgregarPistas(d, r.pistas);
    if fallo.Some? {
      return Err(fallo.value);
    }
    res := Ok(d);
  }

  /** One `new Pista(...)` and `agregarPista` per track, in order, into an album
      that has none yet; the first track that fails stops the loop, and its error
      is returned. */
  method AgregarPistas(d: Disco, pistas: seq<RegistroPista>) returns (fallo: Option<Error>)
    requires d.pistas == []
    modifies d
    ensures fallo.None? <==> ConstruirPistas(pistas).Ok?
    ensures fallo.None? ==> d.pistas == ConstruirPistas(pistas).value
    ensures fallo.Some? ==> ConstruirPistas(pistas) == Err(fallo.value)
  {
    var i := 0;
    while i < |pistas|
      invariant 0 <= i <= |pistas|
      invariant ConstruirPistas(pistas[..i]) == Ok(d.pistas)
    {
      assert pistas[..i + 1][..i] == pistas[..i];
      var p := NuevaPista(pistas[i].nombre, pistas[i].duracion);
      if p.Err? {
        ConstruirPistasFallaPrefijo(pistas, i + 1);
        return Some(p.error);
      }
      d.AgregarPista(p.value);
      i := i + 1;
    }
    assert pistas[..i] == pistas;
    fallo := None;
  }
}
