# Music catalog (`scripts/index.js`) in Dafny

The page keeps a catalog of albums (`discos`). Each album (`Disco`) has a
name, an artist, a numeric id in [1, 999], a cover link and an ordered list
of tracks (`Pista`: a name and a duration in [0, 7200] seconds). Albums enter
the catalog in two ways:

- the loader (`cargarDatosJson`) reads a JSON document of album records, builds
  each album and its tracks, rejects a record whose id is already present and
  pushes the rest; a failing record is skipped and reported, and the others
  still load;
- interactive entry (`cargar`) asks for artist, name, id, cover and tracks; the
  id prompt repeats until the answer is in range and unused, and the finished
  album is pushed.

An album can report its total duration and its longest track, and durations
are shown as `MM:SS` by `formatearDuracion`.

The model has five modules:

- `Resultado` holds the error kinds, `Result` and `Option`. Each thrown `Error` becomes an `Err`.
- `Pistas` holds the track value and its validating constructor.
- `Discos` covers albums:
  - the album value, its validating constructor, and the sum and first-maximum reductions;
  - class `Disco`, whose track list grows in place.
- `Catalogos` covers the catalog:
  - the loader as a fold over records (`Carga`) with its error log (`ErroresCarga`);
  - interactive entry on values (`EntradaInteractiva`);
  - class `Catalogo`, whose `discos` field is the global array. Its methods loop over it; each method is proved against the fold or function it implements.
- `Formato` covers the duration text:
  - JavaScript's `Math.floor`, `%`, `String` and `padStart`, written out;
  - a reading-back function that the formatter is proved to invert.

The main invariant, `Catalogo.Valid()`, says the ids in the catalog are pairwise distinct. Both the loader and interactive entry establish it again after their changes.

## Model

| member | source | states |
|---|---|---|
| Pistas.NuevaPista | scripts/index.js:4-9 | a track is built exactly when the name is non-empty and the duration is in [0, 7200]; it stores both inputs unchanged; an empty name is reported before a bad duration |
| Pistas.NuevaPistaReconstruye | scripts/index.js:4-9 | a track is valid exactly when the constructor rebuilds that very track from its own fields |
| Discos.NuevoDisco | scripts/index.js:13-23 | an album is built exactly when name, artist and cover are non-empty and the id is in [1, 999]; it stores the fields unchanged with no tracks; errors follow the check order name, artist, cover, id |
| Discos.Disco.constructor | scripts/index.js:18-22 | once the checks have passed, the new object is valid and holds exactly the given name, artist, id and cover, with no tracks |
| Discos.Disco.Nuevo | scripts/index.js:13-23 | `new Disco` yields a fresh valid object whose value is the one `NuevoDisco` builds, or the same error |
| Discos.Disco.AgregarPista | scripts/index.js:25-27 | the track is appended at the end; the earlier tracks are unchanged and the metadata is constant |
| Discos.SumaDuraciones | scripts/index.js:29-31 | the sum is 0 with no tracks; with valid tracks it lies in [0, 7200 × number of tracks] |
| Discos.SumaDuracionesConcat | scripts/index.js:29-31 | the total of two track lists joined together is the sum of their totals |
| Discos.SumaDuracionesAgregar | scripts/index.js:25-31 | appending a track adds exactly its duration to the total |
| Discos.SumaDuracionesEjemplo | scripts/index.js:29-31 | 60 + 90 + 200 gives 350 |
| Discos.Disco.DuracionTotal | scripts/index.js:29-31 | `duracionTotal` is the sum of the album's durations; it is 0 for no tracks and bounded by 7200 per valid track |
| Discos.Elegir | scripts/index.js:34 | one step of the reduction keeps the longer of the current track and the next one, and keeps the current one on a tie |
| Discos.MasLargaHasta | scripts/index.js:34 | after `i` steps the reduction holds one of the album's tracks, at least as long as each of the first `i`; the position it holds is given by `PosicionMasLargaHasta` |
| Discos.PosicionMasLargaHasta | scripts/index.js:33-35 | the reduction over the first `i` tracks returns the track at a position `k < i` that no earlier track reaches and no track among the first `i` exceeds |
| Discos.MasLargaDe | scripts/index.js:33-35 | on a non-empty list the result is the element at the first position of maximal duration |
| Discos.PrimerMaximoUnico | scripts/index.js:33-35 | there is only one first maximal position, so the result above is determined |
| Discos.MasLargaAgregar | scripts/index.js:25-35 | after appending a track, the longest is the new track only if it is strictly longer than the previous longest |
| Discos.MasLargaEjemplo | scripts/index.js:33-35 | for durations 60, 200 and 200, the first 200-second track wins the tie |
| Discos.Disco.PistaMasLarga | scripts/index.js:33-35 | `pistaMasLarga` on a non-empty album is its first track of maximal duration |
| Catalogos.ConstruirPistas | scripts/index.js:49-51 | the tracks of a record build exactly when every one is valid; they are then the record's tracks, in order |
| Catalogos.ConstruirPistasFallaPrefijo | scripts/index.js:49-51 | once a prefix of the tracks fails, the rest are not looked at and that error is the record's error |
| Catalogos.ConstruirValor | scripts/index.js:48-51 | a record that builds keeps its id; everything else the function promises is stated by `ConstruirValorCorrecto` |
| Catalogos.ConstruirValorCorrecto | scripts/index.js:48-51 | a record builds exactly when its album fields and all of its tracks are valid; the album holds those fields and tracks; a bad album field is reported as the constructor reports it, and with valid fields the first invalid track's error is the record's error |
| Catalogos.Procesar | scripts/index.js:48-55 | a record is accepted exactly when it builds and its id is not yet in the catalog; a record that fails to build reports its build error even when its id is used, because the tracks are checked before the `find`; a built record with a used id is the duplicate-id error |
| Catalogos.PasoCarga | scripts/index.js:47-58 | one record changes the catalog exactly when it is accepted, and then only by appending its album |
| Catalogos.AgregarIdNuevo | scripts/index.js:52-55 | appending an album whose id is unused keeps the ids pairwise distinct |
| Catalogos.PasoCargaConservaIds | scripts/index.js:47-58 | each record step keeps the ids pairwise distinct |
| Catalogos.Carga | scripts/index.js:46-59 | the `forEach` over the records, as a fold of the step in document order; the catalog never shrinks and grows by at most one album per record; its other properties are the lemmas below |
| Catalogos.CargaConservaIds | scripts/index.js:46-59 | loading a whole document keeps the ids pairwise distinct |
| Catalogos.CargaExtiende | scripts/index.js:46-59 | loading only appends: the old catalog is a prefix of the new one, which has at most one more album per record |
| Catalogos.ErroresCarga | scripts/index.js:56-57 | the messages reported by the `catch`, one per rejected record, so never more than there are records; `CargaCuentaRegistros` and `CargaPrefijoSiguiente` tie them to the rejected records |
| Catalogos.CargaCuentaRegistros | scripts/index.js:46-59 | the albums appended plus the errors reported equal the number of records; the per-record split (each record either appends or logs) is `CargaPrefijoSiguiente` |
| Catalogos.CargaPrefijoSiguiente | scripts/index.js:46-59 | the state after record `i` is one step from the state before it; an error is logged exactly for a rejected record |
| Catalogos.CargaConcat | scripts/index.js:46-59 | loading two documents one after the other equals loading their concatenation |
| Catalogos.CargaIgnoraInvalido | scripts/index.js:47-58 | a record rejected in its turn, malformed or with a used id, logs exactly its error and is skipped; the rest loads exactly as if it were absent |
| Catalogos.IdAusenteDeCarga | scripts/index.js:46-59 | an id that is not in the catalog and that no valid record carries is not in the loaded catalog |
| Catalogos.CargaAceptaSinPistas | scripts/index.js:48-55 | a record with an empty track list is accepted, and the loaded catalog holds an album without tracks |
| Catalogos.CargaPrimeroGana | scripts/index.js:52-55 | the first valid record carrying a new id is in the loaded catalog, and it is the only album with that id |
| Catalogos.DuplicadoSoloPrimero | scripts/index.js:52-55 | of two valid records sharing a new id, only the first is kept and the second is reported as a duplicate |
| Catalogos.Aceptados | scripts/index.js:46-59 | the positions of the accepted records are strictly increasing, and there is one per appended album |
| Catalogos.AceptadosEn | scripts/index.js:46-59 | a record's position is in the accepted list exactly when that record was accepted in its turn |
| Catalogos.AceptadosExactos | scripts/index.js:46-59 | record `j` is accepted exactly when it builds and its id is absent from the catalog as the records before it left it |
| Catalogos.AceptadosValores | scripts/index.js:46-59 | the `k`-th appended album is the album of the `k`-th accepted record, so appends follow document order |
| Catalogos.Catalogo.constructor | scripts/index.js:38 | the catalog starts empty, and so satisfies the invariant |
| Catalogos.Catalogo.Buscar | scripts/index.js:52 | `discos.find` returns nothing exactly when no album has the id; otherwise it returns the first album with the id |
| Catalogos.ConstruirDisco | scripts/index.js:48-51 | building an album object and adding its tracks in place gives a fresh valid album of exactly the record's value, or the record's error |
| Catalogos.AgregarPistas | scripts/index.js:49-51 | the track loop adds the built tracks in order, or stops at the first invalid track with its error |
| Catalogos.Catalogo.Agregar | scripts/index.js:55 | `discos.push` appends the album and nothing else; with an unused id the invariant is kept |
| Catalogos.Catalogo.CargarRegistro | scripts/index.js:47-58 | one `try` block changes the catalog exactly as the fold step does; it reports an error exactly for a rejected record; the earlier albums are kept, and an accepted record adds one fresh album |
| Catalogos.Catalogo.CargarDatosJson | scripts/index.js:46-59 | the loop leaves the catalog equal to the fold of the records and the error list equal to the fold's errors; the invariant holds; the old albums stay a prefix |
| Catalogos.PrimerAceptado | scripts/index.js:72-84 | the selected id answer is in [1, 999] and unused, and every earlier answer was not; with no selection, no answer was acceptable |
| Catalogos.PrimerAceptadoExtiende | scripts/index.js:72-84 | answers after the first acceptable one do not change which answer is used |
| Catalogos.Catalogo.CodigoAceptable | scripts/index.js:74-82 | a single answer passes exactly when it is in [1, 999] and no album in the catalog has it |
| Catalogos.Catalogo.PrimerCodigoAceptable | scripts/index.js:72-84 | the prompt loop stops at the first acceptable answer |
| Catalogos.Cabecera | scripts/index.js:65-87 | the header answers pass exactly when artist, name and cover are non-empty and some id answer is acceptable; the id used is in range, unused and the first acceptable; an empty artist, then an empty name, then no acceptable id, then an empty cover decides the error, as the prompts come in that order |
| Catalogos.Catalogo.ValidarCabecera | scripts/index.js:65-87 | the prompts before the tracks decide exactly as the header function does |
| Catalogos.EntradaInteractiva | scripts/index.js:65-113 | interactive entry yields an album exactly when all answers pass; the album has the answered fields, an id that no album in the catalog has, and the entered tracks, in order |
| Catalogos.EntradaConservaIds | scripts/index.js:74-113 | appending the album interactive entry produces (its id accepted by the prompt loop) keeps the ids pairwise distinct |
| Catalogos.Catalogo.CargarInteractivo | scripts/index.js:64-115 | exactly one fresh album is pushed when the entry succeeds, with the entry's value; otherwise the catalog is untouched; the invariant holds either way |
| Formato.Decimal | scripts/index.js:153-154 | `String(n)` for `n >= 0` is decimal digits whose value is `n`, with no leading zero from 10 on; it is one digit exactly when `n < 10` and at most two exactly when `n < 100` |
| Formato.TextoEntero | scripts/index.js:154 | `String(n)` is never empty, and it starts with a minus sign exactly when `n` is negative |
| Formato.TextoEnteroValor | scripts/index.js:154 | `String(n)` is the decimal digits of `n` for `n >= 0`, and a minus sign before the digits of `-n` otherwise |
| Formato.RellenarDos | scripts/index.js:154 | `padStart(2, '0')` gives at least two characters and never truncates; text of two characters or more is unchanged |
| Formato.RellenarDosCeros | scripts/index.js:154 | padding only puts zeros in front, as many as the text is short of two characters |
| Formato.RestoJS | scripts/index.js:153 | for a non-negative dividend, `%` gives the Euclidean remainder |
| Formato.RellenarDosDecimal | scripts/index.js:154 | `padStart(2, '0')` on digits keeps them digits with the same value; it never truncates and the result is at least two characters |
| Formato.FormatoNoNegativo | scripts/index.js:151-155 | for `d >= 0`, `Math.floor` and `%` agree with Dafny's division and remainder |
| Formato.FormatearDuracion | scripts/index.js:151-155 | the text has at least five characters for every integer; for `d >= 0` the third character from the end is the colon; its fields and its inverse are the lemmas below |
| Formato.FormatearDuracionCampos | scripts/index.js:151-155 | for `d >= 0` the text is minutes, a colon and seconds; the minutes are at least two digits worth `d / 60`; the seconds are exactly two digits worth `d % 60`; the minutes are two digits exactly when `d < 6000` |
| Formato.FormatearDuracionReversible | scripts/index.js:151-155 | reading the text back gives `d`, so the format loses nothing |
| Formato.FormatearDuracionInyectiva | scripts/index.js:151-155 | two different non-negative durations never format alike |
| Formato.FormatearDuracionEjemplo185 | scripts/index.js:151-155 | 185 s is "03:05" |
| Formato.FormatearDuracionEjemploCero | scripts/index.js:151-155 | 0 s is "00:00" |
| Formato.FormatearDuracionEjemploMaximo | scripts/index.js:151-155 | 7200 s is "120:00", because padding never truncates |
| Formato.FormatearDuracionEjemploNegativo | scripts/index.js:151-155 | -30 is "-1:-30", following JavaScript's `Math.floor` and `%` |

## Left out

- `fetch('discos.json')` and `response.json()` (scripts/index.js:42-43) are network I/O and JSON decoding. The loader takes the already-decoded records as a parameter. The outer `catch` covers a failed document, which leaves the catalog unchanged; the model has no such path.
- Logging: `console.log` and `console.error` (scripts/index.js:44, 57, 62). The per-record error messages are returned as a list of `Error` values instead.
- The `prompt`, `alert` and `confirm` dialogue of `cargar`. The answers are parameters:
  - The id prompt repeats without bound. It is modelled over a finite list of answers, and `IntentosAgotados` stands for the case where none of them is acceptable. The source has no such error: there the dialogue simply never ends.
  - The duration prompt repeats until it gets a valid duration. `Catalogo.CargarInteractivo` therefore requires every entered duration to be in range.
  - The track loop runs at least once, so `Catalogo.CargarInteractivo` requires at least one track.
- `mostrar` (scripts/index.js:117-149) is DOM rendering. This includes the red highlight for tracks over 180 s.
- Event-listener wiring (scripts/index.js:157-162).
- JavaScript's dynamic typing is not modelled: `isNaN` coercion, `parseInt` of text, fractional durations, and `===` between ids of different types. Ids and durations are integers; "empty" means a string of length 0.
- Discos.MasLargaDe: requires a non-empty track list. On an empty list the source's `reduce(..., this.pistas[0])` (scripts/index.js:34) returns `undefined` rather than throwing. The loader accepts a record with no tracks (`Catalogos.CargaAceptaSinPistas`), so such an album can be in the catalog. `mostrar` would then fail when it reads `.nombre` of the result (scripts/index.js:133), and `mostrar` is not part of this model.
- Discos.Disco.PistaMasLarga: requires the album to have at least one track, for the same reason as `MasLargaDe`. It does not model the `undefined` the source returns for an album without tracks.
- Catalogos.Catalogo.CargarDatosJson: the object-level contract states that the old album objects stay a prefix. The freshness of the appended objects is stated per record, by `Catalogo.CargarRegistro`, and not for the whole load.
- Catalogos.ConstruirValor: the function's own contract states only that the id is kept. Its full contract is the lemma `ConstruirValorCorrecto`.
