# Race timing and registry core, modelled in Dafny

This project models the core of `gestionar_carrera_backend`, the backend of a
stage-race manager. Riders (*participantes*) belong to a category
(*categoría*) with its own start time (`hora_salida`) and race over stages
(*etapas*). For each (rider, stage) pair, a time row (*tiempo*) holds:

- the raw time `tiempo`, in milliseconds;
- the penalty `penalizacion`;
- the final time `tiempo_final`;
- the place `posicion`.

The model covers the following parts of the backend:

- **Time texts** (`TimeFormat`):
  - `formatTime`, in its hours version and its minutes-only version.
  - `parseTimeString` and `isValidTimeFormat`, over `MM:SS.cc` and `HH:MM:SS.cc`.
- **Start offsets and bonuses** (`TiempoUtils`, `TimingRules`):
  - both copies of `calcularDiferenciaSalida`;
  - the bonus table `BONIFICACIONES` and `aplicarBonificacion`.
- **Ranking** (`Ranking`, `TiemposStore`). The two copies of `recalcularPosiciones` give the rows of a stage the places 1..N in ascending `tiempo_final` order. The model also covers:
  - the bonus passes of `recalcularPosicionesConBonificaciones` and `aplicarBonificacionesEtapa`;
  - the write rules of `registrarTiempo`, `registrarTiempoConBonificacion`, `updateTiempo` and `deleteTiempo`;
  - the route's own `PUT /tiempos/:id`.

  `TiemposStore.TiemposTable` is a class over the rows of the `tiempos` table, and its methods rewrite that table in place.
- **Utilities** (`TiempoUtils`): `ordenarTiempos`, a stable sort; `filtrarTiempos`; `calcularEstadisticas`; `validarTiempo`; `normalizarTiempoData`.
- **Results** (`Resultados`):
  - the general classification, which sums each rider's final times, sorts the sums and numbers them;
  - the per-stage statistics and the public summary;
  - `check-resultados`;
  - the pagination arithmetic of `/lista`.
- **Registries** (`Participantes`, `Categorias`, `Etapas`). These are classes over the `participantes`, `categorias`, `etapas` and `etapa_categorias` tables. They model:
  - the checks of create, update and delete;
  - the CI and dorsal conflict rules;
  - the age rule of public registration;
  - name normalisation;
  - replacement of a stage's category links.

Two further modules support the rest:

- `Js` models the JavaScript behaviour the source relies on:
  - truthiness;
  - `parseInt` and `Number`;
  - `toString` and `padStart`;
  - `split` and `trim`;
  - `toUpperCase` and `toLowerCase`, on ASCII and Latin-1 letters;
  - `x || null` and `x || 0`.
- `Sorting` models a stable `Array.prototype.sort` by key.

Database queries become functions over sequences of rows. Each row sequence is in table order. The current date and uploaded file paths are parameters.

## Model

| member | source | states |
|---|---|---|
| TimeFormat.ClockOf | src/utils/tiempoUtils.js:12-16 | minutes, seconds and hundredths are below 60, 60 and 100, and the four fields add back to the input truncated to 10 ms |
| TimeFormat.ClockText | src/utils/tiempoUtils.js:17-21 | the rendered fields are digits, their value is the clock's, and the hour field appears exactly when hours > 0 |
| TimeFormat.ZeroTextParses | src/utils/tiempoUtils.js:10 | both formatters print a missing, zero or negative time as `00:00.00`, which reads back as 0 |
| Js.ParseIntHexadecimal | src/utils/tiempoUtils.js:37-47 | `parseInt` without a radix reads `0x1A` as 26 |
| Js.ParseIntSignedHexadecimal | src/utils/tiempoUtils.js:37-47 | the sign comes before the `0X` prefix: `-0X1a` is −26 |
| Js.ParseIntBareHexPrefix | src/utils/tiempoUtils.js:37-47 | a `0x` prefix without hexadecimal digits is NaN, which the field reads as 0 |
| TimeFormat.ParseByPartCount | src/utils/tiempoUtils.js:29-51 | a three-part text parses to h·3600000 + m·60000 + s·1000 + cs·10 and a two-part text to m·60000 + s·1000 + cs·10, each field `parseInt(..) \|\| 0`; an empty text or any other part count gives 0 |
| TimeFormat.ParseRender | src/utils/tiempoUtils.js:29-51 | parsing any rendering of digit fields gives back the milliseconds those fields denote |
| TimeFormat.FormatTimeRoundTrip | src/utils/tiempoUtils.js:9-51 | for n ≥ 0, parseTimeString(formatTime(n)) = n − n mod 10 |
| TimeFormat.FormatTimeParts | src/utils/tiempoUtils.js:12-21 | the formatted time has an hour segment exactly when n ≥ one hour; its fields are bounded |
| TimeFormat.FormatMinutesRoundTrip | src/routes/tiempoRoutes.js:14-22 | the minutes-only formatter also round-trips through parseTimeString to n − n mod 10 |
| TimeFormat.FormatMinutesFields | src/routes/publicRoutes.js:11-19 | the minutes-only formatter has two segments, seconds < 60 and hundredths < 100, and its minutes exceed two digits from 100 minutes on |
| TimeFormat.FormattersAgreeBelowOneHour | src/routes/tiempoRoutes.js:14-22 | below one hour the minutes-only and the hours formatters print the same text |
| TimeFormat.ValidIffPattern | src/utils/tiempoUtils.js:58-64 | isValidTimeFormat accepts exactly the renderings of `[d{1,2}:]d{1,2}:dd.dd`, and not the empty text |
| TimeFormat.FormatTimeValid | src/utils/tiempoUtils.js:9-64 | a formatted time passes the format check exactly when it is below 100 hours |
| TimeFormat.ValidParses | src/utils/tiempoUtils.js:29-64 | every text the check accepts parses to the milliseconds its fields denote |
| TimeFormat.ValidTextNonNegative | src/utils/tiempoUtils.js:29-64 | every accepted text denotes a non-negative time |
| TiempoUtils.CalcularDiferencia | src/utils/tiempoUtils.js:72-74 | the difference is non-negative, is one of the two differences, and is 0 iff the times are equal |
| TiempoUtils.CalcularDiferenciaSymmetric | src/utils/tiempoUtils.js:72-74 | swapping the arguments gives the same difference |
| TiempoUtils.HoraToMinutosPadded | src/utils/tiempoUtils.js:81-91 | `HH:MM` reads as h·60 + m minutes |
| TiempoUtils.DiferenciaSalidaMissing | src/utils/tiempoUtils.js:93-101 | the offset is 0 when either start time is missing or empty |
| TiempoUtils.DiferenciaSalidaSame | src/utils/tiempoUtils.js:93-101 | a readable start against itself gives offset 0 |
| TiempoUtils.DiferenciaSalidaAntisymmetric | src/utils/tiempoUtils.js:93-101 | swapping the starts negates the offset, which is always a multiple of 60000 |
| TiempoUtils.DiferenciaSalidaHHMM | src/utils/tiempoUtils.js:81-101 | for `HH:MM` starts the offset is their difference in minutes, times 60000 |
| TiempoUtils.OrdenarTiempos | src/utils/tiempoUtils.js:110-156 | the result is a permutation of the input, ordered by the criterion in the requested direction, and stable for equal keys |
| TiempoUtils.OrdenarAscending | src/utils/tiempoUtils.js:110-156 | in ascending order a row with a strictly smaller key never comes after one with a larger key |
| TiempoUtils.FiltrarTiempos | src/utils/tiempoUtils.js:164-210 | a row is in the result iff it is an input row that passes every truthy filter, and the result is no longer than the input |
| TiempoUtils.FiltrarUno | src/utils/tiempoUtils.js:164-210 | a single row is kept iff it passes |
| TiempoUtils.FiltrarConcatena | src/utils/tiempoUtils.js:164-210 | filtering a concatenation concatenates the filtered parts, so passing rows keep their order and repetitions |
| TiempoUtils.FiltrarSinFiltros | src/utils/tiempoUtils.js:164-210 | with no filter set every row is kept, in order |
| TiempoUtils.FiltrarIdempotent | src/utils/tiempoUtils.js:164-210 | filtering twice by the same filters equals filtering once |
| TiempoUtils.FiltrarCategoriaTexto | src/utils/tiempoUtils.js:171-174 | a category filter given as text matches no row, because the comparison is strict |
| TiempoUtils.GruposSpec | src/utils/tiempoUtils.js:233-265 | the grouping gives one group per distinct key, holding exactly that key's times in order, and covers every keyed row |
| TiempoUtils.AgrupadosSpec | src/utils/tiempoUtils.js:233-279 | `Object.values` returns the groups in ascending key order, each with count = number of its times > 0 |
| TiempoUtils.CalcularEstadisticas | src/utils/tiempoUtils.js:217-285 | empty input gives all zeros and nulls; otherwise the counts are the row count and the number of distinct riders; the groups are the stage and category groupings; best/worst/mean come from the positive times |
| TiempoUtils.Agrupar | src/utils/tiempoUtils.js:233-265 | the `forEach` loop builds exactly the grouping function's groups |
| TiempoUtils.EstadisticasOrdered | src/utils/tiempoUtils.js:267-282 | with positive times, best ≤ mean ≤ worst |
| TiempoUtils.ParticipantesAtMostTiempos | src/utils/tiempoUtils.js:230-277 | there are never more distinct riders than rows |
| TiempoUtils.ValidarTiempo | src/utils/tiempoUtils.js:354-407 | valid iff no error; each error is pushed iff its rule is broken (missing ids or time, bad format, time ≤ 0, bad or negative penalty); a valid form normalises to a positive time and a non-negative penalty |
| TiempoUtils.NormalizadoPositivo | src/utils/tiempoUtils.js:354-441 | a time and a penalty that pass the rules normalise to a positive and a non-negative number of milliseconds |
| TiempoUtils.ValidarCampoTiempo | src/utils/tiempoUtils.js:367-383 | the time rules: required, well formed when text, > 0; with no error the time is positive |
| TiempoUtils.ValidarPenalizacion | src/utils/tiempoUtils.js:385-401 | the penalty rules: well formed when text, not negative; with no error the penalty is non-negative or absent |
| TiempoUtils.MensajeInjective | src/utils/tiempoUtils.js:354-407 | different rules push different messages |
| TiempoUtils.NormalizarTiempoData | src/utils/tiempoUtils.js:414-440 | a text time or penalty becomes its parsed milliseconds; another falsy penalty becomes 0 and a truthy one is kept; a truthy stage becomes `parseInt` of it (NaN when that fails) and a falsy one is kept; blank notes become null and other notes are kept; the rider is kept |
| TiempoUtils.NormalizarIdempotent | src/utils/tiempoUtils.js:414-440 | normalising a normalised form changes nothing |
| TimingRules.SegundosDelDiaHms | src/controllers/tiempoController.js:15-19 | `HH:MM:SS` reads as its seconds since midnight |
| TimingRules.SegundosDelDiaHhmm | src/controllers/tiempoController.js:15-19 | `HH:MM` reads as its seconds since midnight, with missing seconds as 0 |
| TimingRules.DiferenciaSalidaHms | src/controllers/tiempoController.js:15-25 | the controller offset is (seconds(category) − seconds(base)) · 1000 |
| TimingRules.DiferenciaSalidaAntisymmetric | src/controllers/tiempoController.js:21-25 | a category that starts with the base has offset 0, and swapping the starts negates the offset |
| TimingRules.DiferenciaSalidaCopiesAgree | src/controllers/tiempoController.js:15-25 | on `HH:MM` starts the controller's offset equals the one in the shared utilities |
| TimingRules.Bonificacion | src/controllers/tiempoController.js:28-34 | the table gives a bonus exactly to places 1..5; each bonus is a whole number of seconds of at most 10 s |
| TimingRules.BonificacionDecreasing | src/controllers/tiempoController.js:28-34 | among places 1..5 a better place earns a strictly larger bonus |
| TimingRules.AplicarBonificacion | src/controllers/tiempoController.js:37-43 | an absent, zero or > 5 place leaves the time unchanged; otherwise the result is max(0, tiempo − bonus) |
| TimingRules.AplicarBonificacionBounds | src/controllers/tiempoController.js:37-43 | the result is never negative and never longer than the time |
| TimingRules.AplicarBonificacionMonotone | src/controllers/tiempoController.js:28-43 | a better place never ends with a longer time |
| Ranking.DeEtapa | src/controllers/tiempoController.js:525-529 | the stage query returns exactly the stage's rows, in table order |
| Ranking.OrdenFacts | src/controllers/tiempoController.js:525-529 | the ordered stage rows are a permutation of the stage's rows, sorted by final time with nulls last |
| Ranking.RecalculadoKeeps | src/controllers/tiempoController.js:543-553 | re-ranking changes only `posicion`, and only on the stage's rows |
| Ranking.RecalculadoDense | src/controllers/tiempoController.js:520-563 | after re-ranking, the stage's N rows hold the places 1..N, each once |
| Ranking.RecalculadoRango | src/controllers/tiempoController.js:543-553 | every stage row gets a place between 1 and N |
| Ranking.RecalculadoDistintas | src/controllers/tiempoController.js:543-553 | two stage rows never share a place |
| Ranking.RecalculadoCubre | src/controllers/tiempoController.js:543-553 | every place 1..N is held by a stage row |
| Ranking.RecalculadoOrdered | src/controllers/tiempoController.js:525-553 | a strictly smaller final time gets a strictly better place |
| Ranking.PosicionDeFila | src/controllers/tiempoController.js:543-553 | a stage row's place is its index in the final-time order, plus one |
| Ranking.DensaOtraEtapa | src/controllers/tiempoController.js:525-553 | re-ranking one stage keeps another stage's dense places |
| Ranking.RecalculadoEmpty | src/controllers/tiempoController.js:531-540 | a stage without rows leaves the table as it was |
| Ranking.RecalculadoIdempotent | src/controllers/tiempoController.js:520-563 | re-ranking twice with no write in between gives the same table |
| Ranking.BonificadoSpec | src/controllers/tiempoController.js:71-98 | the bonus pass gives every stage row its place; only the first five places also lose their bonus from `tiempo` and get a note; other rows are untouched |
| Ranking.BonificadoTwice | src/controllers/tiempoController.js:83-98 | the bonus is not idempotent: a row that stays first loses 10 s again on a second run |
| TiemposStore.TiemposTable.RecalcularPosiciones | src/controllers/tiempoController.js:520-563 | the loop leaves exactly the re-ranked table and keeps ids valid |
| TiemposStore.TiemposTable.EscribirPosiciones | src/routes/tiempoRoutes.js:767-795 | writing place i + 1 on the i-th row of the order gives exactly the re-ranked table |
| TiemposStore.TiemposTable.RecalcularConBonificaciones | src/controllers/tiempoController.js:47-98 | both loops together leave exactly the bonus-pass table |
| TiemposStore.TiemposTable.AplicarBonificacionesEtapa | src/controllers/tiempoController.js:1498-1596 | an empty stage is rejected and nothing changes; otherwise the table ends as the bonus pass leaves it, and the answer counts the rows that got a bonus |
| TiemposStore.PosicionInicial | src/controllers/tiempoController.js:361-378 | the stored place is the given truthy one, or the stage's row count plus one |
| TiemposStore.HoraBase | src/controllers/tiempoController.js:325-332 | the base start is one of the categories' starts, and it is missing iff none is set |
| TiemposStore.HoraBaseMinima | src/controllers/tiempoController.js:325-332 | no category starts before the base |
| TiemposStore.TiempoFinalSinSalida | src/controllers/tiempoController.js:319-358 | without a category start or a base, the final time is the raw time |
| TiemposStore.TiempoFinalCategoriaBase | src/controllers/tiempoController.js:319-358 | a rider of the base category gets final time = raw time |
| TiemposStore.TiempoFinalConSalida | src/controllers/tiempoController.js:319-358 | with readable starts, final = raw + the start difference in ms |
| TiemposStore.TiemposTable.RegistrarTiempo | src/controllers/tiempoController.js:207-517 | rejects, in source order, missing fields, invalid numbers, an existing (rider, stage) pair and an unknown rider, each leaving the table unchanged; otherwise appends the row (offset final time, default place) and re-ranks its stage; one row per pair is kept |
| TiemposStore.TiemposTable.RegistrarConBonificacion | src/controllers/tiempoController.js:1343-1495 | missing fields, invalid numbers and an existing pair are rejected with the table unchanged; with a bonus asked for and a place 1..5 the stored time loses that place's bonus and gets a note; the final time is taken to be the stored time (see Left out); the stage is re-ranked, with the bonus pass when asked; one row per pair is kept |
| TiemposStore.UnoPorEtapaInsertar | src/controllers/tiempoController.js:263-274 | inserting a pair nobody holds, then re-ranking, keeps one row per (rider, stage) |
| TiemposStore.Cambiado | src/controllers/tiempoController.js:678-691 | the update writes the given truthy ids, the parsed time, the penalty `\|\| 0` and the note if present; it never writes `tiempo_final` |
| TiemposStore.TiemposTable.UpdateTiempo | src/controllers/tiempoController.js:569-929 | rejects in source order a missing or bad time, a negative penalty, an unknown id, an unknown rider or stage, and then, unlike the source (see Findings), any pair held by another row; otherwise writes the row and re-ranks its new stage and, unlike the source (see Findings), its old one, so both end dense; one row per pair is kept |
| TiemposStore.UnoPorEtapaReemplazar | src/controllers/tiempoController.js:696-720 | updating a row to a pair no other row holds keeps one row per pair |
| TiemposStore.ReordenadoDensa | src/controllers/tiempoController.js:902-910 | re-ranking the new stage and then the old one leaves both dense |
| TiemposStore.CambiadoCompleto | src/routes/tiempoRoutes.js:644-659 | the route's PUT writes every field with tiempo_final = tiempo + penalizacion |
| TiemposStore.TiemposTable.PutTiempo | src/routes/tiempoRoutes.js:575-712 | rejects missing fields, time ≤ 0 and a negative penalty before any lookup, then an unknown id, rider or stage; otherwise writes the row and re-ranks the new stage and, unlike the source (see Findings), the old one too, leaving both dense |
| TiemposStore.PutComoEscritoDejaHueco | src/routes/tiempoRoutes.js:690-697 | as written, the route's PUT that moves a row to another stage re-ranks only the new stage and leaves a gap at place 1 of the old one |
| TiemposStore.TiemposTable.DeleteTiempo | src/controllers/tiempoController.js:931-973 | an unknown id is not found and nothing changes; otherwise only that row goes and its stage is one row shorter and, when it has a stage, dense again |
| TiemposStore.BorradoUno | src/controllers/tiempoController.js:931-973 | a delete keeps one row per (rider, stage) |
| TiemposStore.ConflictoComoEscritoDejaDuplicado | src/controllers/tiempoController.js:696-720 | as written, an update that changes only the rider skips the pair check and leaves two rows for one pair |
| TiemposStore.ReordenComoEscritoDejaHueco | src/controllers/tiempoController.js:904-910 | as written, moving a row to another stage leaves a gap at place 1 of the old stage |
| Resultados.ClasificacionGeneral | src/controllers/tiempoController.js:1003-1027 | the `forEach`, sort and map compute exactly the classification function |
| Resultados.VistosSpec | src/controllers/tiempoController.js:1003-1020 | a rider gets an entry iff one row is theirs, and gets it once |
| Resultados.ClasificacionFilas | src/routes/tiempoRoutes.js:220-244 | each line carries the sum of its rider's final times (null as 0) and their row count |
| Resultados.ClasificacionCubre | src/routes/publicRoutes.js:217-233 | a rider appears in the answer iff they have a row |
| Resultados.ClasificacionUnaVez | src/routes/publicRoutes.js:217-233 | no rider has two lines |
| Resultados.ClasificacionOrdenada | src/routes/publicRoutes.js:236-241 | the totals are non-decreasing along the answer, and posicion = index + 1 |
| Resultados.ClasificacionSuma | src/routes/tiempoRoutes.js:220-244 | the totals of the answer add up to the sum of every row's final time |
| Resultados.EstadisticasEtapa | src/routes/tiempoRoutes.js:156-171 | an empty stage gives all zeros; otherwise the count is the row count, best is the minimum, worst the maximum, and the rounded mean lies between them |
| Resultados.EstadisticasIguales | src/routes/publicRoutes.js:153-168 | equal final times give that time as best, worst and mean |
| Stats.RoundDivNearest | src/controllers/tiempoController.js:1060-1065 | the rounded mean m satisfies m ≤ sum / n + 1/2 < m + 1, which is `Math.round` for either sign |
| Stats.MeanBetween | src/controllers/tiempoController.js:1060-1065 | the rounded mean of a non-empty list lies between its minimum and maximum |
| Resultados.ResumenResultados | src/routes/publicRoutes.js:287-302 | the distinct-rider count is at most the row count, and hay_resultados holds iff there is a row |
| Resultados.Activas | src/routes/publicRoutes.js:264-287 | the active-stage count is at most the stage count, and is 0 iff no stage is active |
| Resultados.HayResultados | src/routes/publicRoutes.js:328-331 | check-resultados answers true iff a row exists |
| Resultados.Hasta | src/routes/tiempoRoutes.js:490-492 | the intended page end covers exactly `limit` rows from `from` |
| Resultados.PaginasContiguas | src/routes/tiempoRoutes.js:490-492 | with the intended end, page p + 1 starts right after page p ends |
| Resultados.HastaComoEscritoConcatena | src/routes/tiempoRoutes.js:490-492 | as written, `page=2&limit=10` asks for rows 10..1009 instead of 10..19 |
| Resultados.HastaNumerico | src/routes/tiempoRoutes.js:490-492 | with numeric page and limit, the as-written end and the intended end agree |
| Resultados.TotalPaginas | src/routes/tiempoRoutes.js:561 | totalPages = ⌈total / limit⌉, with none for a zero limit |
| Resultados.TotalPaginasCubre | src/routes/tiempoRoutes.js:561 | the pages hold every row, and there is no empty last page |
| Resultados.PaginacionDe | src/routes/tiempoRoutes.js:555-561 | the pagination block reports the count, a null count as 0, and ⌈total / limit⌉ pages |
| Sorting.KeyLessOrder | src/utils/tiempoUtils.js:110-156 | the comparator's `<` on keys is a strict total order |
| Sorting.SortBySorted | src/utils/tiempoUtils.js:110-156 | the sort's output is ordered by the comparator |
| Sorting.SortByStable | src/utils/tiempoUtils.js:110-156 | elements with the same key keep their input order |
| Categorias.Normalizado | src/controllers/categoriaController.js:90-93 | the stored name is as long as the trimmed name, has no blank at either end and holds no lower-case ASCII or Latin-1 letter |
| Categorias.NormalizadoIdempotente | src/controllers/categoriaController.js:66-93 | normalising a stored name gives it back |
| Categorias.MismoNombre | src/controllers/categoriaController.js:66-85 | names that differ only in the case of ASCII or Latin-1 letters, or in surrounding blanks, normalise alike, so they clash |
| Categorias.MismoNombreAcentos | src/controllers/categoriaController.js:66-93 | `niñas` and `NIÑAS` are both stored as `NIÑAS`, so they clash |
| Categorias.Buscar | src/controllers/categoriaController.js:66-85 | the name query finds a row iff another category (other than the excluded id) holds the normalised name |
| Categorias.CategoriasTable.Crear | src/controllers/categoriaController.js:50-120 | rejects a missing name or start, then a taken normalised name, leaving the table unchanged; otherwise appends the normalised row; names stay unique |
| Categorias.CategoriasTable.Actualizar | src/controllers/categoriaController.js:162-315 | rejects, in order, missing fields, blank fields, an unknown id and a name held by another id, leaving the table unchanged; re-saving its own name is allowed; success rewrites only that row; names stay unique |
| Categorias.CategoriasTable.Eliminar | src/controllers/categoriaController.js:318-383 | an unknown id is not found; otherwise only that row is removed |
| Etapas.Fila | src/controllers/etapaController.js:97-121 | the stored stage has the normalised name, the trimmed description or null, the distance if truthy, and activa true unless given |
| Etapas.EnlacesDe | src/controllers/etapaController.js:110-121 | one link per listed category, in order |
| Etapas.CategoriasDeNuevos | src/controllers/etapaController.js:222-241 | reading back the inserted links gives the stage exactly the listed categories, in order, and no other stage any |
| Etapas.CategoriasDeSin | src/controllers/etapaController.js:296-302 | after the delete of a stage's links it has no category, and every other stage keeps its own |
| Etapas.Reemplazo | src/controllers/etapaController.js:222-241 | replacing a stage's links gives it exactly the new list and leaves other stages' lists alone |
| Etapas.BuscarFaltante | src/controllers/etapaController.js:191-201 | none iff every listed category exists; otherwise the first unknown id |
| Etapas.EtapasTable.Crear | src/controllers/etapaController.js:85-152 | rejects missing required fields; otherwise appends the stage and its links, so its categories are exactly the list and other stages keep theirs |
| Etapas.EtapasTable.Actualizar | src/controllers/etapaController.js:155-277 | rejects, in order, missing fields, a blank name, numero ≤ 0, a given distance ≤ 0, an unknown stage and an unknown category; otherwise rewrites only that stage and replaces exactly its links |
| Etapas.EtapasTable.Eliminar | src/controllers/etapaController.js:280-325 | an unknown stage is not found; otherwise its links and then the stage go; other stages and links are kept |
| Participantes.Fila | src/controllers/inscripcionController.js:580-594 | the admin row stores the required fields as sent and the optional ones `\|\| null` |
| Participantes.FilaPublica | src/controllers/inscripcionController.js:363-377 | the public row stores the dorsal only when one was sent, plus the storage paths of the uploads |
| Participantes.Edad | src/controllers/inscripcionController.js:206-213 | the computed age is the number of birthdays that have come: the n-th has come, the (n+1)-th has not |
| Participantes.EdadUnica | src/controllers/inscripcionController.js:206-213 | the age is determined by the two dates |
| Participantes.MenorDeEdad | src/controllers/inscripcionController.js:206-225 | age < 18 iff the eighteenth birthday is still to come |
| Participantes.SiempreMenor | src/controllers/inscripcionController.js:216-225 | anyone born in 2011 or later is a minor up to 2028 |
| Participantes.Conflicto | src/controllers/inscripcionController.js:553-578 | no conflict iff no row (other than the excluded id) has the CI or the dorsal; otherwise only the first selected row decides, CI before dorsal |
| Participantes.DorsalConCeros | src/controllers/inscripcionController.js:570-578 | dorsals are compared as strings: "007" does not clash with "7" |
| Participantes.PrimeraDecide | src/controllers/inscripcionController.js:570-578 | only the first selected row decides, even when a later row has the CI |
| Participantes.ParticipantesTable.Crear | src/controllers/inscripcionController.js:537-614 | rejects missing fields, then a CI or dorsal clash, leaving the table unchanged; otherwise appends the row; CIs and dorsals stay unique |
| Participantes.ParticipantesTable.Actualizar | src/controllers/inscripcionController.js:74-161 | rejects missing fields, then a clash with another id, then an unknown id; otherwise rewrites only that row; CIs and dorsals stay unique |
| Participantes.ParticipantesTable.CrearPublico | src/controllers/inscripcionController.js:164-409 | rejects, in source order, missing fields, missing or incomplete files, a birth year before 2011, a minor without authorisation and a taken CI; otherwise appends the public row; CIs stay unique |
| Participantes.PresentesSpec | src/controllers/inscripcionController.js:431-435 | the file list holds exactly the truthy URLs, in order |
| Participantes.ArchivosABorrar | src/controllers/inscripcionController.js:431-435 | the four pushes give the truthy URLs among comprobante, anverso, reverso and autorización, in that order |
| Participantes.ParticipantesTable.Eliminar | src/controllers/inscripcionController.js:412-466 | an unknown id is not found; otherwise only that row goes, and the answer lists its stored files |
| Participantes.ComprobarDorsal | src/controllers/inscripcionController.js:617-645 | a missing dorsal is rejected; otherwise existe iff some rider has exactly that dorsal string, and disponible = ¬existe |

## Left out

- Supabase, Express and HTTP.
  - Queries become functions over in-memory row sequences, in table order.
  - Status codes become a `Rechazo` value.
  - Database errors, the 500 answers and logging are not modelled.
  - Each table's row order is taken to be insertion order.
- The fallback paths for database failures are not modelled:
  - the retry of an insert without `tiempo_final`;
  - the delete-and-reinsert fallback;
  - the RPC fallback of the updates.

  Only the single write each handler intends is modelled.
- The `updated_at` timestamps and Supabase's row caps on a select are not modelled.
- The PostgREST `.or(...)` filter string is taken to mean what it says. Its parsing of commas or dots inside a CI or dorsal is not modelled.
- Floating point is not modelled; every number is an integer. This has two consequences:
  - the controller's `seconds / 60` minutes are replaced by exact whole milliseconds;
  - `distancia_km` is taken as a whole number of kilometres.
- Js.ToNumber: `Number` is modelled for blank text and optionally signed decimal integers. Its hexadecimal (`0x1A`), exponent (`1e1`), decimal-point and `Infinity` forms are not; the model reads them as NaN.
- TiemposStore.TiempoFinalRegistro: when a start time cannot be read, the offset is NaN and the JSON body carries null. The model stores `None`, which is that null. It does not model a database rejecting the value.
- Dates are parameters. Parsing `fecha_nacimiento`, the server's time zone and "today" are not modelled. `Participantes.Edad` takes both dates as year, month and day.
- The date filters of `filtrarTiempos` are not modelled. Neither are the date and arbitrary-column criteria of `ordenarTiempos`.
- `generarCSV` and `descargarCSV` are not modelled. They build a file for the browser.
- Upload storage is not modelled. The storage paths (built with `Date.now()`) arrive as parameters. The storage removal in `deleteParticipante` is represented by the list of files it would remove.
- JSON body values are modelled as a string, a number, null or absent, as each handler reads them. The model does not capture:
  - other value kinds, such as arrays or booleans where a string is expected;
  - mixing a number and a string in the same `===`.
- The joins with rider details in the list and classification answers are not modelled. Neither is the `!inner` join that drops stages without links.
- Some shadowed and duplicate handlers are modelled for their rules only:
  - the controller handlers of `PUT` and `DELETE /tiempos/:id` are registered before the route's inline ones, so the inline `PUT` is modelled for its own rules;
  - the inline `DELETE` duplicates the controller's except that it re-ranks even stage 0, which the model does not capture;
  - the GET statistics and classification handlers exist in several copies with the same rules, and one model covers them all.
- The groups of `calcularEstadisticas` are modelled as `Object.values` orders integer keys: ascending. Negative ids are not modelled separately.
- The classification's order among equal totals is taken to be the stable sort's.
- Categorias.CategoriasTable.Actualizar: the `!id` check is not modelled, because a route parameter is always present.
- Js.ToUpper and Js.ToLower change case for the ASCII letters and the Latin-1 letters `À`-`Þ` / `à`-`þ` only. Other scripts (Greek, Cyrillic), `ÿ`, `µ` and the length-changing `ß` → `SS` are left as they are.
- Categorias.Normalizado: a Greek or Cyrillic lower-case name is stored unchanged where the source stores it upper-cased, for example `αβ` where the source stores `ΑΒ`.
- Categorias.MismoNombre: names that differ in the case of letters outside ASCII and Latin-1 do not clash in the model, but do in the source.
- Etapas.Fila: the stage name is upper-cased under the same limit.
- TiempoUtils.FiltrarTiempos: the search (`toLowerCase` and `includes`) folds case under the same limit.
- TiempoUtils.OrdenarTiempos: the name and category sort keys fold case under the same limit.
- TiemposStore.TiempoFinalRegistro: `tiempo_final` is treated as a plain stored column, although the source's comments (src/controllers/tiempoController.js:94 and 679) call it generated. When no offset applies, `registrarTiempo` leaves it out of the insert (lines 389-392), and the model takes it to hold the raw time.
- TiemposStore.TiemposTable.RegistrarTiempo: stores that raw time as `tiempo_final` when no offset applies, for the same reason.
- TiemposStore.Cambiado: an update leaves `tiempo_final` unchanged, even when it changes `tiempo` or `penalizacion`, because the model does not recompute the column in the database. The re-rank after it therefore sorts on the old value.
- Categorias.CategoriasTable.Crear stores `Normalizado(nombre)`. A name made only of blanks therefore stores the empty name, as the source does.
- Etapas.EtapasTable.Crear: the model follows the source and does not check that the listed categories exist. It also accepts a numero or a distance that is not positive.
- Etapas.EtapasTable.Actualizar: when `activa` is omitted, it is stored as true, as the source does.
- Etapas.Fila: a JSON `null` for `activa` is stored as true, because the model's absent `activa` stands for both absent and null. The source (`activa !== undefined ? activa : true`) would store null.
- Participantes.ParticipantesTable.CrearPublico does not check the dorsal for clashes, as the source does not. Its contract therefore keeps dorsals unique only when no dorsal is sent.
- TiemposStore.TiemposTable.RegistrarConBonificacion: the insert (src/controllers/tiempoController.js:1420-1427) writes no `tiempo_final`. The model takes the column to hold the stored, bonus-reduced time. It does not add the penalty, as a column computed by the database would, and it does not store null.
- Ranking.Bonificado does not promise idempotence, because the source subtracts the bonus again on every run (see `Ranking.BonificadoTwice`).

## Findings

| source | as written | input that shows it | evidently intended | confidence | as-written member | corrected member |
|---|---|---|---|---|---|---|
| src/routes/tiempoRoutes.js:490-492 | `to = from + limit - 1`, with `limit` the query-string text, so `+` concatenates | `page=2&limit=10`: from = 10, to = "1010" − 1 = 1009 | to = from + Number(limit) − 1 = 19, so each page covers `limit` rows | high, not executed | Resultados.HastaComoEscritoConcatena | Resultados.PaginasContiguas |
| src/controllers/tiempoController.js:696-720 | the (rider, stage) pair check runs only when a different stage is given | rows (id 1: rider 10, stage 1) and (id 2: rider 20, stage 1); update row 2 with rider 10 and no stage | reject any update that makes the pair held by another row | high, not executed | TiemposStore.ConflictoComoEscritoDejaDuplicado | TiemposStore.TiemposTable.UpdateTiempo |
| src/controllers/tiempoController.js:904-910 | after an update only the row's new stage is re-ranked | the same two rows; move row 1 to stage 2: row 2 keeps place 2 alone in stage 1 | re-rank the old stage as well, so both stages hold places 1..N | high, not executed | TiemposStore.ReordenComoEscritoDejaHueco | TiemposStore.ReordenadoDensa |
| src/routes/tiempoRoutes.js:696-697 | the route's `PUT /tiempos/:id` re-ranks only the stage in the body (`recalcularPosiciones(etapa_id)`) | the same two rows; PUT row 1 with rider 10, stage 2, time 100: row 2 keeps place 2 alone in stage 1 | re-rank the row's old stage as well | high, not executed | TiemposStore.PutComoEscritoDejaHueco | TiemposStore.TiemposTable.PutTiempo |
