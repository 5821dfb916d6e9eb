# Turnero: a verified model of the scheduling core

This project is a Dafny model of the scheduling logic of a MERN appointment
administration tool ("turnero"). The tool manages professionals, clients,
weekly availability windows per professional ("disponibilidades") and
appointments ("turnos") booked against those windows.

The model covers:

- the backend time helpers: `HH:mm` padding, minutes since midnight, the UTC
  weekday of a date, and membership in a union of half-open ranges;
- the guard chains of `createTurno` / `updateTurno` and of
  `createDisponibilidad`, over an in-memory store class (`Backend.Store`)
  whose methods append or replace records and keep the store's invariants;
- the `fieldError` payload and its inverse on the frontend, `parseApiErrors`;
- the frontend mirrors of the engine: `normalizeDia`, `dayNameUTC`,
  `genTimeSlots`, `unionSlots`, `summarizeRanges`, the appointment form's
  first-range-of-the-day slot offer and its `hora` reset rule;
- the group-and-sort views (`useDisponibilidad`'s `byDay`, the quick view's
  `agruparYOrdenar`, the professional's week view);
- the list pipelines of the availability list, the appointment list and the
  home page;
- the client-side validators and change handlers of the four forms.

Modelling choices:

- Strings are `seq<char>`.
- JavaScript's `Number(...)` on a time part is `JsString.ToNumber`. The model
  reads only a digit string (its value) and the empty string (0); every other
  text is NaN here. JavaScript also accepts surrounding whitespace, a sign and
  a decimal part (see "Left out").
- Dates are whole days since 1970-01-01 (a Thursday), so the UTC weekday is
  `(days + 4) % 7` into `DIAS_ES`. An empty date input is `None`.
- Sorting (`Array.prototype.sort` with the page's comparator, `localeCompare`)
  is a stable insertion sort on a composite key (`Ordering.SortBy`). Strings
  are compared by code point.
- Accent folding (`normalize('NFD')` followed by removing combining marks) is
  a table covering the Latin-1 accented letters (`JsString.StripAccents`).
- Each store query (`Disponibilidad.find`, `Turno.findOne`, `exists`) is a
  function over the store's sequences. Mongoose's save-time schema check
  (required fields, the `estado` and `diaSemana` enums) is the last step of
  each decision.
- A page's React state is a class whose fields the handlers reassign. Each
  `validate` is a loop or a chain of steps proved against a pure function
  that gives the error object. The error object is a `map<string, string>`.

The model keeps these behaviours of the code:

- `createDisponibilidad` compares the raw `horaInicio`/`horaFin` strings; it
  neither pads them nor converts them to minutes. An unpadded `9:00`–`13:00`
  is refused as "start not before end" (`DisponibilidadController.UnpaddedRangeRefused`).
- `createDisponibilidad` does not check that the professional exists.
- Its rejections carry a message only, with no field name.
- `updateDisponibilidad` writes the patch without re-checking duplicates or
  overlaps, so it can break the per-day disjointness that create keeps
  (`DisponibilidadController.UpdateCanBreakDisjoint`).
- `createTurno` checks for a colliding turno before it checks that the client
  and the professional exist; `updateTurno` checks collisions last
  (`TurnoController.CreateCollisionFirst`, `TurnoController.UpdateOrderOfChecks`).

## Model

| member | source | states |
|---|---|---|
| TimeUtils.Pad2Pads | backend/utils/timeUtils.js:7 | `pad2` left-pads with `0` to length 2, keeps the text as a suffix, and is idempotent |
| TimeUtils.ToHHmm | backend/utils/timeUtils.js:9-13 | an empty input gives `""`; any other input gives a text with a colon |
| TimeUtils.ToHHmmParts | backend/utils/timeUtils.js:11-12 | the hour and minute parts of the result are the padded parts of the input; a missing minute becomes `00` |
| TimeUtils.ToHHmmOf | backend/utils/timeUtils.js:11-12 | `h:m` becomes `pad2(h):pad2(m)`; an already two-digit `HH:MM` is unchanged |
| TimeUtils.ToHHmmExamples | backend/utils/timeUtils.js:9-13 | `"9"` gives `"09:00"`, `"9:5"` gives `"09:05"`, `""` gives `""` |
| TimeUtils.ToHHmmIdempotent | backend/utils/timeUtils.js:9-13 | normalising twice equals normalising once |
| TimeUtils.ToMinutesOfClock | backend/utils/timeUtils.js:15-19 | `HH:MM` with hour at most 23 and minute at most 59 gives `60*HH+MM`, within a day |
| TimeUtils.Pad2Value | backend/utils/timeUtils.js:7 | padding keeps a digit string a digit string and keeps its numeric value |
| TimeUtils.ToMinutesPadding | backend/utils/timeUtils.js:15-19 | for a text with a colon, padding first does not change the minutes |
| TimeUtils.UTCDay | backend/utils/timeUtils.js:22-25 | the UTC day-of-week index is below 7 |
| TimeUtils.WeekdayEsUTC | backend/utils/timeUtils.js:22-25 | the weekday name is the `DIAS_ES` entry at the UTC day index |
| TimeUtils.WeekdayCycle | backend/utils/timeUtils.js:5 | day 0 (1970-01-01) is `jueves`; the name repeats every 7 days; the index advances by one per day |
| TimeUtils.HoraDentroDeRangos | backend/utils/timeUtils.js:28-35 | true iff the time lies in some range `[start, end)` of the list |
| TimeUtils.HoraDentroDeRangosPadding | backend/utils/timeUtils.js:29 | padding the time first does not change the answer |
| TimeUtils.ClockExamples | backend/utils/timeUtils.js:15-19 | `09:00` is 540 minutes, `12:00` is 720 |
| TimeUtils.ExampleMinutes | backend/utils/timeUtils.js:29-33 | the range test reads `09:00` and `9:00` both as 540 minutes |
| TimeUtils.HoraDentroDeRangosHalfOpen | backend/utils/timeUtils.js:28-35 | a range's start is inside, its end is outside, and an empty list contains nothing |
| TimeUtils.Labels | backend/utils/timeUtils.js:38-39 | one `start-end` label per range, in order |
| TimeUtils.RangesLabelAppend | backend/utils/timeUtils.js:38-39 | labels are joined with `", "` |
| FieldErrors.FieldError | backend/utils/fieldError.js:3-6 | the payload has status `error` and exactly one error item carrying the given field and message, and nothing else |
| TurnoController.MissingRefs | backend/controllers/turnoController.js:42-49 | one error per missing reference, the client's before the professional's, each with its own message |
| TurnoController.DayDisponibilidades | backend/controllers/turnoController.js:52-53 | exactly the professional's availabilities on that weekday |
| TurnoController.ScheduleError | backend/controllers/turnoController.js:52-62 | no error iff the time lies in one of the professional's ranges for the date's UTC weekday |
| TurnoController.AvailableInDayRanges | backend/controllers/turnoController.js:59-60 | availability is `horaDentroDeRangos` over that weekday's ranges |
| TurnoController.FindTurno | backend/controllers/turnoController.js:95-98 | finds the index of a turno with the id, or reports that none has it |
| TurnoController.CreateTurnoAccepted | backend/controllers/turnoController.js:27-71 | an accepted turno has the new id, the padded time and the default state; no turno of that professional holds that date and time; both references exist; the time is inside an availability of that weekday |
| TurnoController.CreateTurnoAcceptedIff | backend/controllers/turnoController.js:27-71 | a create is accepted with the new turno exactly when the slot is free, both references exist, the padded time is inside an availability of that weekday and the record passes the schema |
| TurnoController.UpdateTurnoAcceptedIff | backend/controllers/turnoController.js:91-159 | an update of the first turno with that id is accepted with the merged, padded record exactly when both references exist, the time is inside an availability of that weekday, no other turno holds the slot and the record passes the schema |
| TurnoController.FindTurnoFirst | backend/controllers/turnoController.js:95-98 | `findById` answers the first position holding the id |
| TurnoController.UpdateTurnoAccepted | backend/controllers/turnoController.js:91-159 | an accepted update merges the request into the stored turno, pads the time and keeps the id; no other turno holds the slot; both references exist; the time is inside an availability of that weekday |
| TurnoController.CreateCollisionFirst | backend/controllers/turnoController.js:32-39 | a turno of the same professional on the same date, at the raw or the padded time, is refused with the collision error before any other check |
| TurnoController.CollisionToleratesPadding | backend/controllers/turnoController.js:33-37 | the collision query matches both the raw and the padded stored time for a raw request, but a padded request does not see a raw stored time |
| TurnoController.CreateMissingReferences | backend/controllers/turnoController.js:42-49 | with no collision, a missing client or professional gives 404 listing the missing ones, both when both are missing |
| TurnoController.NoAvailabilityOnDay | backend/controllers/turnoController.js:52-56 | with no availability that weekday, the error names the weekday on field `fecha` |
| TurnoController.OutsideEveryRange | backend/controllers/turnoController.js:59-62 | with availabilities that day but none containing the time, the error on field `hora` lists the day's ranges |
| TurnoController.UpdateUnknownId | backend/controllers/turnoController.js:95-98 | an unknown id gives 404 |
| TurnoController.UpdateEmptyBodyKeepsFields | backend/controllers/turnoController.js:101-105 | an accepted update with an empty body keeps every field, padding only the time |
| TurnoController.UpdateOrderOfChecks | backend/controllers/turnoController.js:108-129 | on update, missing references give 404, and then a time outside availability gives 400 on `fecha` or `hora`, whatever the collisions |
| DisponibilidadController.Existentes | backend/controllers/disponibilidadController.js:28 | exactly the professional's availabilities on that day |
| DisponibilidadController.ExistentesSnoc | backend/controllers/disponibilidadController.js:28 | adding a record extends the sibling list only when it is of that professional and day |
| DisponibilidadController.CreateDecision | backend/controllers/disponibilidadController.js:15-64 | an accepted range carries the request's fields and the new id, starts before it ends, and overlaps no sibling; a start not before the end is refused first |
| DisponibilidadController.OverlapSymmetric | backend/controllers/disponibilidadController.js:42-44 | the overlap test is symmetric |
| DisponibilidadController.AdjacentRangesDoNotOverlap | backend/controllers/disponibilidadController.js:43 | ranges that touch at one end do not overlap |
| DisponibilidadController.CreateAcceptedIff | backend/controllers/disponibilidadController.js:15-64 | a create is accepted with the new record exactly when the start is before the end, no range of that professional and day overlaps it and the record passes the schema (a duplicate always overlaps) |
| DisponibilidadController.AdjacentRangeAccepted | backend/controllers/disponibilidadController.js:42-56 | `12:00`-`14:00` is accepted next to a stored `09:00`-`12:00` of the same professional and day |
| DisponibilidadController.DuplicateBeforeOverlap | backend/controllers/disponibilidadController.js:31-39 | an exact duplicate gets the duplicate message, not the overlap one |
| DisponibilidadController.OtherDaysIgnored | backend/controllers/disponibilidadController.js:28 | records of another professional or day never change the verdict |
| DisponibilidadController.CreatePreservesDisjoint | backend/controllers/disponibilidadController.js:41-54 | accepting a range keeps every professional's ranges on each day pairwise non-overlapping |
| DisponibilidadController.ClockStringOrder | backend/controllers/disponibilidadController.js:20 | on two-digit `HH:MM` texts the string comparison agrees with the order of the minutes |
| DisponibilidadController.ClockValueIsMinutes | backend/controllers/disponibilidadController.js:20 | on two-digit `HH:MM` texts the value compared is the minutes since midnight |
| DisponibilidadController.UnpaddedRangeRefused | backend/controllers/disponibilidadController.js:20-25 | `9:00`–`13:00` is refused as start not before end, because strings are compared unpadded |
| DisponibilidadController.ListByProfesional | backend/controllers/disponibilidadController.js:83-103 | the list holds exactly the professional's availabilities; an empty result is a 404 |
| DisponibilidadController.ApplyPatch | backend/controllers/disponibilidadController.js:107-110 | the update keeps the id and takes each of the four fields from the patch when present, otherwise from the record |
| DisponibilidadController.UpdateCanBreakDisjoint | backend/controllers/disponibilidadController.js:107-110 | copying one same-day range's times onto another is accepted and breaks the disjointness |
| Backend.AppendKeepsIds | backend/controllers/turnoController.js:65-66 | appending a record with the next id keeps ids distinct and below the counter |
| Backend.AppendKeepsNormalised | backend/controllers/turnoController.js:65-66 | appending a padded time keeps every stored time padded |
| Backend.AppendKeepsSlotUnique | backend/controllers/turnoController.js:36-39 | appending a turno whose slot is free keeps slots unique |
| Backend.ReplaceKeepsIds | backend/controllers/turnoController.js:144-150 | replacing a record under its own id keeps ids distinct and below the counter |
| Backend.ReplaceKeepsNormalised | backend/controllers/turnoController.js:144-150 | replacing with a padded time keeps every stored time padded |
| Backend.ReplaceKeepsSlotUnique | backend/controllers/turnoController.js:132-141 | replacing with a turno whose slot no other turno holds keeps slots unique |
| Backend.CreateKeepsTurnosOk | backend/controllers/turnoController.js:27-71 | an accepted create keeps the collection's invariant |
| Backend.UpdateKeepsTurnosOk | backend/controllers/turnoController.js:91-159 | an accepted update keeps the collection's invariant |
| Backend.Store.constructor | backend/controllers/turnoController.js:27-71 | an empty store over the given clients and professionals satisfies the invariant |
| Backend.Store.CreateTurno | backend/controllers/turnoController.js:27-71 | runs the create decision; on success appends the turno and advances the id counter, otherwise changes nothing; keeps the invariant |
| Backend.Store.UpdateTurno | backend/controllers/turnoController.js:91-159 | runs the update decision; on success replaces the found turno in place, otherwise changes nothing; keeps the invariant |
| Backend.Store.CreateDisponibilidad | backend/controllers/disponibilidadController.js:15-64 | runs the create decision; on success appends the range; keeps per-day disjointness when it held before |
| Backend.Store.UpdateDisponibilidad | backend/controllers/disponibilidadController.js:107-114 | replaces the only record with that id by the patched one, unchecked, and ids stay distinct; an unknown id changes nothing |
| Backend.Store.DisponibilidadesPorProfesional | backend/controllers/disponibilidadController.js:83-103 | answers the listing of one professional's availabilities |
| ScheduleUtils.NormalizeDia | frontend/src/utils/scheduleUtils.js:8-11 | an empty input gives `""`; the result has no combining marks |
| ScheduleUtils.NormalizeDiaIgnoresCase | frontend/src/utils/scheduleUtils.js:8-11 | upper and lower case give the same key |
| ScheduleUtils.NormalizeDiaExample | frontend/src/utils/scheduleUtils.js:8-11 | `" Miércoles "` gives `miercoles` |
| ScheduleUtils.NormalizeDiaPlain | frontend/src/utils/scheduleUtils.js:8-11 | a word of lower-case ASCII letters normalises to itself |
| ScheduleUtils.StripAccentsAppend | frontend/src/utils/scheduleUtils.js:10 | removing accents works letter by letter |
| ScheduleUtils.StripAccentsAscii | frontend/src/utils/scheduleUtils.js:10 | plain lower-case letters are unchanged |
| ScheduleUtils.DiasOrden | frontend/src/utils/scheduleUtils.js:14 | seven distinct names starting with `lunes`, each the `DIAS_ES` name of the next index |
| ScheduleUtils.DayNameUTC | frontend/src/utils/scheduleUtils.js:18-23 | no date gives no name; a date gives the `DIAS_ES` name of its UTC weekday |
| ScheduleUtils.SlotBoundIsMinutes | frontend/src/utils/scheduleUtils.js:39-42 | when a slot bound is a number it is the time's minutes |
| ScheduleUtils.SlotBoundOfClock | frontend/src/utils/scheduleUtils.js:39-42 | a two-digit `HH:MM` bound is `60*HH+MM` |
| ScheduleUtils.FormatMinutes | frontend/src/utils/scheduleUtils.js:46-47 | a formatted minute count is already padded and reads back as the same minute count |
| ScheduleUtils.GenTimeSlots | frontend/src/utils/scheduleUtils.js:37-51 | the loop computes the stepped slots of the range |
| ScheduleUtils.SlotsCount | frontend/src/utils/scheduleUtils.js:44-49 | from start to end the loop yields no slot when start is not before end, and otherwise just enough slots to reach the end |
| ScheduleUtils.SlotsAt | frontend/src/utils/scheduleUtils.js:44-49 | the i-th slot is `start + i*step` and lies before the end |
| ScheduleUtils.GenTimeSlotsEmpty | frontend/src/utils/scheduleUtils.js:38-43 | a missing bound or a start not before the end gives no slots |
| ScheduleUtils.GenTimeSlotsInRange | frontend/src/utils/scheduleUtils.js:37-51 | every slot is the start plus a whole number of steps and lies in `[start, end)` |
| ScheduleUtils.TimeSlotsAscending | frontend/src/utils/scheduleUtils.js:44-49 | slots are strictly increasing in minutes |
| ScheduleUtils.GenTimeSlotsExample | frontend/src/utils/scheduleUtils.js:36 | `09:00`–`10:30` in steps of 30 gives `09:00, 09:30, 10:00` |
| ScheduleUtils.PerRange | frontend/src/utils/scheduleUtils.js:57-58 | the slots of each range, in order |
| ScheduleUtils.AddAll | frontend/src/utils/scheduleUtils.js:58 | adding to the set keeps it duplicate-free and keeps insertion order |
| ScheduleUtils.CollectSlots | frontend/src/utils/scheduleUtils.js:56-59 | the set holds each slot of any range exactly once |
| ScheduleUtils.UnionSlots | frontend/src/utils/scheduleUtils.js:55-62 | the result is duplicate-free, strictly sorted, and holds exactly the slots of the ranges |
| ScheduleUtils.AllSlotsMembers | frontend/src/utils/scheduleUtils.js:55-62 | a slot is in the union iff some range produces it |
| ScheduleUtils.UnionSlotsAccepted | frontend/src/utils/scheduleUtils.js:55-62 | every offered slot passes the backend's `horaDentroDeRangos` for those ranges |
| ScheduleUtils.SummarizeRanges | frontend/src/utils/scheduleUtils.js:67-74 | no summary iff there are no ranges |
| ScheduleUtils.SummarySpec | frontend/src/utils/scheduleUtils.js:69-73 | the summary is the smallest start, `" - "`, and the largest end |
| SearchUtils.Normalize | frontend/src/utils/searchUtils.js:4-10 | a missing value gives `""`; the result has no combining marks |
| SearchUtils.NormalizeBlank | frontend/src/utils/searchUtils.js:4-10 | a blank text normalises to `""` |
| SearchUtils.NormalizeIgnoresCase | frontend/src/utils/searchUtils.js:4-10 | case does not matter |
| SearchUtils.IncludesSome | frontend/src/utils/searchUtils.js:13-17 | a blank query matches everything |
| SearchUtils.IncludesSomeSpec | frontend/src/utils/searchUtils.js:13-17 | true iff the normalised query is empty or some normalised field contains it |
| SearchUtils.IncludesSomeBlank | frontend/src/utils/searchUtils.js:14-15 | a blank or missing query matches |
| SearchUtils.IncludesSomeNoFields | frontend/src/utils/searchUtils.js:16 | with no fields only a blank query matches |
| SearchUtils.IncludesSomeMonotone | frontend/src/utils/searchUtils.js:16 | adding a field never loses a match |
| SearchUtils.IncludesSomeIgnoresCase | frontend/src/utils/searchUtils.js:14 | the query's case does not matter |
| SearchUtils.IncludesSomeExample | frontend/src/utils/searchUtils.js:13-17 | `mie` finds `" Miércoles "` |
| SearchUtils.AnyOfSpec | frontend/src/utils/searchUtils.js:16 | `some` holds iff some element passes the test |
| SearchUtils.NormalizeMie | frontend/src/utils/searchUtils.js:4-10 | `mie` normalises to itself |
| SearchUtils.NormalizeMiercoles | frontend/src/utils/searchUtils.js:4-10 | `" Miércoles "` normalises to `miercoles` |
| ParseApiErrors.Fallback | frontend/src/utils/parseApiErrors.js:5-8 | the fallback has exactly the `_general` key |
| ParseApiErrors.KeyOf | frontend/src/utils/parseApiErrors.js:19 | an error item's key is never empty: `_general` stands in |
| ParseApiErrors.CollectFieldErrors | frontend/src/utils/parseApiErrors.js:16-23 | the loop computes the error items' field map |
| ParseApiErrors.DupMessage | frontend/src/utils/parseApiErrors.js:31-41 | `email` and `dni` get their own duplicate messages, any other key the generic one |
| ParseApiErrors.ApiErrors | frontend/src/utils/parseApiErrors.js:3-56 | the decoded map is never empty |
| ParseApiErrors.ParseApiErrorsOf | frontend/src/utils/parseApiErrors.js:3-56 | the imperative decoding computes the decoded map |
| ParseApiErrors.CollectErrorsKeys | frontend/src/utils/parseApiErrors.js:18-21 | a key is present iff some error item has it |
| ParseApiErrors.CollectErrorsJoin | frontend/src/utils/parseApiErrors.js:20 | the messages of one key are joined with a space, in order |
| ParseApiErrors.ErrorsTakePrecedence | frontend/src/utils/parseApiErrors.js:16-23 | with an `errors` array, the keys are exactly the items' keys, and an empty array gives the fallback |
| ParseApiErrors.FieldErrorRoundTrip | frontend/src/utils/parseApiErrors.js:16-23 | decoding a `fieldError(p, m)` payload gives `{p: m}`, with `_general` for an empty field |
| ParseApiErrors.KeyValueDuplicate | frontend/src/utils/parseApiErrors.js:27-41 | a duplicate-key payload gives one entry under the duplicated field with its message |
| ParseApiErrors.DuplicateText | frontend/src/utils/parseApiErrors.js:44-49 | an `E11000` text gives one entry: email if mentioned, else dni if mentioned, else `_general` |
| ParseApiErrors.MessageIsGeneral | frontend/src/utils/parseApiErrors.js:51-53 | otherwise a non-blank message becomes `_general` |
| TurnoFormPage.NormalizeDay | frontend/src/pages/TurnoFormPage.jsx:14-15 | the page's day key: an empty input gives `""`, and the key is never longer than its input |
| TurnoFormPage.NormalizeDayAgrees | frontend/src/pages/TurnoFormPage.jsx:14-15 | on trimmed input it agrees with the shared `normalizeDia` |
| TurnoFormPage.DayNameFromDate | frontend/src/pages/TurnoFormPage.jsx:18-23 | no date gives no name; a date gives its UTC weekday name |
| TurnoFormPage.DayNameFromDateAgrees | frontend/src/pages/TurnoFormPage.jsx:18-23 | it agrees with `dayNameUTC` |
| TurnoFormPage.LocalBoundIsMinutes | frontend/src/pages/TurnoFormPage.jsx:35-38 | the page's slot bound is the time's minutes |
| TurnoFormPage.LocalBoundAgrees | frontend/src/pages/TurnoFormPage.jsx:35-38 | it agrees with the shared helper's bound when that bound is a number |
| TurnoFormPage.LocalBoundLenient | frontend/src/pages/TurnoFormPage.jsx:37-38 | a non-numeric minute counts as 0 here but makes the shared helper's bound NaN |
| TurnoFormPage.LocalGenTimeSlots | frontend/src/pages/TurnoFormPage.jsx:33-45 | the loop computes the page's slots |
| TurnoFormPage.LocalTimeSlotsAgree | frontend/src/pages/TurnoFormPage.jsx:33-45 | on numeric bounds the page's slots equal the shared helper's |
| TurnoFormPage.LocalSlotsInRange | frontend/src/pages/TurnoFormPage.jsx:33-45 | every slot lies in `[start, end)` |
| TurnoFormPage.FirstOnDay | frontend/src/pages/TurnoFormPage.jsx:75 | finds the first availability whose day key matches |
| TurnoFormPage.ComputeFranjaYSlots | frontend/src/pages/TurnoFormPage.jsx:72-78 | no date or no availabilities gives nothing; no range gives no slots; a range comes from the list |
| TurnoFormPage.ComputeFranjaYSlotsFirst | frontend/src/pages/TurnoFormPage.jsx:72-78 | only the first matching range of the day is offered, with its 30-minute slots |
| TurnoFormPage.ComputeFranjaYSlotsNone | frontend/src/pages/TurnoFormPage.jsx:72-78 | with no range on that day, nothing is offered |
| TurnoFormPage.OfferedSlotInFranja | frontend/src/pages/TurnoFormPage.jsx:72-78 | every offered slot lies in the offered range |
| TurnoFormPage.ResetHora | frontend/src/pages/TurnoFormPage.jsx:134 | the time is kept iff it is empty or offered, and is otherwise cleared |
| TurnoFormPage.RequiredErrors | frontend/src/pages/TurnoFormPage.jsx:156-164 | an error for each empty required field and only for those; no errors iff all four are set |
| TurnoFormPage.TurnoForm.constructor | frontend/src/pages/TurnoFormPage.jsx:11 | the initial form: state `pendiente`, everything else empty |
| TurnoFormPage.TurnoForm.Validate | frontend/src/pages/TurnoFormPage.jsx:156-164 | sets the required-field errors and returns true iff all four fields are set |
| TurnoFormPage.TurnoForm.HandleChange | frontend/src/pages/TurnoFormPage.jsx:167-171 | sets the named input and clears its error and `_general` |
| TurnoFormPage.TurnoForm.HandleChangeFecha | frontend/src/pages/TurnoFormPage.jsx:167-171 | sets the date and clears its error and `_general` |
| TurnoFormPage.TurnoForm.HandleChangeProfesional | frontend/src/pages/TurnoFormPage.jsx:174-178 | sets the professional, empties date and time, and clears those errors and `_general` |
| TurnoFormPage.TurnoForm.OnFechaOrDisponibilidades | frontend/src/pages/TurnoFormPage.jsx:144-153 | recomputes range and slots, and resets a time no longer offered |
| TurnoFormPage.TurnoForm.OnProfesional | frontend/src/pages/TurnoFormPage.jsx:121-141 | with no professional clears everything; otherwise takes the fetched ranges, recomputes, and resets the time when a date is set |
| TurnoFormPage.TurnoForm.HandleSubmit | frontend/src/pages/TurnoFormPage.jsx:181-200 | ignored while submitting; otherwise navigates iff the form is valid and the request succeeds, and shows the required errors or the decoded server errors |
| UseDisponibilidad.NormalizeItems | frontend/src/hooks/useDisponibilidad.js:22-27 | a non-array response gives no items; otherwise each item with both times padded |
| UseDisponibilidad.NormalizeItemsFormatted | frontend/src/hooks/useDisponibilidad.js:22-27 | the stored times are padded, keep their minutes, and day and id are unchanged |
| UseDisponibilidad.DisponibilidadHook.constructor | frontend/src/hooks/useDisponibilidad.js:9-11 | no items, not loading, no error |
| UseDisponibilidad.DisponibilidadHook.Run | frontend/src/hooks/useDisponibilidad.js:13-39 | no id clears; a failed fetch sets the error and no items; a response sets the normalised items and clears the error |
| UseDisponibilidad.ByDayOf | frontend/src/hooks/useDisponibilidad.js:42-53 | the loop computes the day map |
| UseDisponibilidad.ByDaySpec | frontend/src/hooks/useDisponibilidad.js:42-53 | day keys are distinct; each day's list is non-empty, is a permutation of the items with that key, and is sorted by start |
| UseDisponibilidad.ByDayMember | frontend/src/hooks/useDisponibilidad.js:44-48 | an item is under exactly the key of its own day |
| UseDisponibilidad.AvailableDaysSpec | frontend/src/hooks/useDisponibilidad.js:56 | a day is available iff some item has that day key |
| Grouping.GroupBy | frontend/src/hooks/useDisponibilidad.js:43-49 | the push-into-map loop computes the grouping |
| Grouping.GroupedSpec | frontend/src/hooks/useDisponibilidad.js:43-49 | keys are distinct, groups are non-empty, and each group is the items with its key, in input order |
| Grouping.GroupedMember | frontend/src/hooks/useDisponibilidad.js:43-49 | each item's key has a group, and the item is in exactly that group |
| Grouping.SortEach | frontend/src/hooks/useDisponibilidad.js:51 | sorts each group's list and keeps the keys |
| DisponibilidadQuickView.IndexIn | frontend/src/components/DisponibilidadQuickView.jsx:8 | `indexOf`: -1 iff absent, otherwise the first position |
| DisponibilidadQuickView.IdxDia | frontend/src/components/DisponibilidadQuickView.jsx:7-8 | the position of the lower-cased day in the week order, or -1 |
| DisponibilidadQuickView.IdxDiaIgnoresCase | frontend/src/components/DisponibilidadQuickView.jsx:8 | case does not matter |
| DisponibilidadQuickView.IdxDiaCanonical | frontend/src/components/DisponibilidadQuickView.jsx:7 | each canonical day name is at its own position |
| DisponibilidadQuickView.AgruparYOrdenarOf | frontend/src/components/DisponibilidadQuickView.jsx:11-25 | the reduce-then-sort computes the grouping |
| DisponibilidadQuickView.AgruparOrder | frontend/src/components/DisponibilidadQuickView.jsx:19-20 | days come in week order |
| DisponibilidadQuickView.AgruparSpec | frontend/src/components/DisponibilidadQuickView.jsx:11-25 | days are distinct; each day's list is non-empty, is a permutation of that day's items, and is sorted by start |
| DisponibilidadQuickView.AgruparKeysDistinct | frontend/src/components/DisponibilidadQuickView.jsx:11-25 | no day heads two groups |
| DisponibilidadQuickView.AgruparMember | frontend/src/components/DisponibilidadQuickView.jsx:12-17 | an item is listed under exactly its own day |
| DisponibilidadQuickView.AgruparDays | frontend/src/components/DisponibilidadQuickView.jsx:12-17 | a day is shown iff some item has it |
| DisponibilidadQuickView.AgruparEmpty | frontend/src/components/DisponibilidadQuickView.jsx:88-92 | no days iff no items |
| DisponibilidadQuickView.QuickView.constructor | frontend/src/components/DisponibilidadQuickView.jsx:27-30 | no items, not loading, no error |
| DisponibilidadQuickView.QuickView.Fetch | frontend/src/components/DisponibilidadQuickView.jsx:32-52 | closed or without an id it changes nothing; a failure sets the error and no items; a response sets the items |
| DisponibilidadQuickView.NoticeOrList | frontend/src/components/DisponibilidadQuickView.jsx:88-92 | once loaded without error, exactly one of the empty notice and the list is shown |
| ProfesionalWeekView.DayEntries | frontend/src/components/ProfesionalWeekView.jsx:18-23 | one entry per day, in order, holding that day's sorted ranges |
| ProfesionalWeekView.WeekViewOf | frontend/src/components/ProfesionalWeekView.jsx:11-23 | the reduce-then-map computes the week |
| ProfesionalWeekView.WeekViewSpec | frontend/src/components/ProfesionalWeekView.jsx:11-23 | seven entries in week order; each is a permutation of that day's items, sorted by start |
| ProfesionalWeekView.WeekViewMember | frontend/src/components/ProfesionalWeekView.jsx:11-16 | an item appears under a day iff its normalised day is that day |
| ProfesionalWeekView.DayBadge | frontend/src/components/ProfesionalWeekView.jsx:44-46 | the badge shows the count, green iff non-empty, grey otherwise |
| ProfesionalWeekView.BadgeCounts | frontend/src/components/ProfesionalWeekView.jsx:44-46 | the badge count is the number of items on that day |
| DisponibilidadFormPage.Set | frontend/src/pages/DisponibilidadFormPage.jsx:106-110 | sets one field and leaves the others |
| DisponibilidadFormPage.TimeCheck | frontend/src/pages/DisponibilidadFormPage.jsx:85-90 | a time not matching `HH:mm` gets the required or the format error |
| DisponibilidadFormPage.CheckTime | frontend/src/pages/DisponibilidadFormPage.jsx:86-90 | the two statements checking one time field add exactly the error the time check defines |
| DisponibilidadFormPage.RangeCheck | frontend/src/pages/DisponibilidadFormPage.jsx:93-97 | two well-formed times with start not before end put the range error on `horaFin` |
| DisponibilidadFormPage.FormErrors | frontend/src/pages/DisponibilidadFormPage.jsx:80-103 | which fields get errors and which messages, exactly |
| DisponibilidadFormPage.FormErrorsEmpty | frontend/src/pages/DisponibilidadFormPage.jsx:101-102 | the form passes iff day and professional are set and both times are `HH:mm` with start before end |
| DisponibilidadFormPage.AcceptedRangeIsProper | frontend/src/pages/DisponibilidadFormPage.jsx:80-103 | an accepted form's times are already padded and span a proper interval within the day |
| DisponibilidadFormPage.DisponibilidadForm.constructor | frontend/src/pages/DisponibilidadFormPage.jsx:19-24 | the initial form is empty, with no errors |
| DisponibilidadFormPage.DisponibilidadForm.Validate | frontend/src/pages/DisponibilidadFormPage.jsx:80-103 | sets the form's errors and returns true iff there are none |
| DisponibilidadFormPage.DisponibilidadForm.HandleChange | frontend/src/pages/DisponibilidadFormPage.jsx:106-110 | sets the field and clears its error and `_general` |
| FormRules.EmailNotBlank | frontend/src/pages/ClienteFormPage.jsx:60-61 | a text matching the email pattern is not blank |
| FormRules.EmailShape | frontend/src/pages/ClienteFormPage.jsx:61 | `x@y.z` without spaces matches; a leading space never does |
| FormRules.RequireText | frontend/src/pages/ClienteFormPage.jsx:58-64 | a blank value gets its message; otherwise nothing changes |
| FormRules.CheckEmail | frontend/src/pages/ClienteFormPage.jsx:60-61 | blank gets the required message, non-blank and malformed the format message |
| FormRules.ErrorsSpec | frontend/src/pages/ClienteFormPage.jsx:56-69 | a field has an error iff it is checked and its check fails, and the message is the check's |
| FormRules.HHmmMinutes | frontend/src/pages/DisponibilidadFormPage.jsx:85-90 | a text matching `HH:mm` is already padded and reads as its minute count |
| FormRules.HHmmOrder | frontend/src/pages/DisponibilidadFormPage.jsx:93-97 | on `HH:mm` texts the string order is the order of the minutes |
| ClienteFormPage.Set | frontend/src/pages/ClienteFormPage.jsx:71-75 | sets one field and leaves the others |
| ClienteFormPage.FormErrorsSpec | frontend/src/pages/ClienteFormPage.jsx:56-69 | a field has an error iff it is blank after trimming (the email also when malformed), with its message |
| ClienteFormPage.FormErrorsEmpty | frontend/src/pages/ClienteFormPage.jsx:66-67 | the form passes iff no field is blank and the email matches |
| ClienteFormPage.ClienteForm.constructor | frontend/src/pages/ClienteFormPage.jsx:13-20 | the initial form is empty, with no errors |
| ClienteFormPage.ClienteForm.Validate | frontend/src/pages/ClienteFormPage.jsx:56-69 | sets the form's errors and returns true iff there are none |
| ClienteFormPage.ClienteForm.HandleChange | frontend/src/pages/ClienteFormPage.jsx:71-75 | sets the field and clears its error and `_general` |
| ProfesionalFormPage.Set | frontend/src/pages/ProfesionalFormPage.jsx:60-64 | sets one field and leaves the others |
| ProfesionalFormPage.FormErrorsSpec | frontend/src/pages/ProfesionalFormPage.jsx:49-58 | a field has an error iff it is blank after trimming (the email also when malformed), with its message |
| ProfesionalFormPage.FormErrorsEmpty | frontend/src/pages/ProfesionalFormPage.jsx:56-57 | the form passes iff no field is blank and the email matches |
| ProfesionalFormPage.ProfesionalForm.constructor | frontend/src/pages/ProfesionalFormPage.jsx:11-16 | the initial form is empty, with no errors |
| ProfesionalFormPage.ProfesionalForm.Validate | frontend/src/pages/ProfesionalFormPage.jsx:49-58 | sets the form's errors and returns true iff there are none |
| ProfesionalFormPage.ProfesionalForm.HandleChange | frontend/src/pages/ProfesionalFormPage.jsx:60-64 | sets the field and clears only its own error; `_general` is kept |
| ListItems.Timestamp | frontend/src/pages/turnosPage.jsx:138-139 | a missing date sorts as 0; otherwise the date's milliseconds |
| ListItems.TimestampMonotone | frontend/src/pages/turnosPage.jsx:138-140 | timestamps order dates as days do |
| ListItems.EstadoOrPendiente | frontend/src/pages/turnosPage.jsx:113 | a missing state reads as `pendiente` |
| TurnosPage.EstadoBadgeClass | frontend/src/pages/turnosPage.jsx:29-34 | green iff confirmed, red iff cancelled, grey otherwise |
| TurnosPage.SearchFields | frontend/src/pages/turnosPage.jsx:119-124 | the six searched texts |
| TurnosPage.ViewTurnosOf | frontend/src/pages/turnosPage.jsx:108-147 | the memo body computes the listed turnos |
| TurnosPage.ViewTurnosMember | frontend/src/pages/turnosPage.jsx:109-134 | a turno is listed iff it passes the state filter and, for a non-blank query, one of its six texts contains the query; nothing is listed more often than it occurs |
| TurnosPage.ViewTurnosUnfiltered | frontend/src/pages/turnosPage.jsx:112-117 | with no filters the list is a permutation of the turnos |
| TurnosPage.ViewTurnosSorted | frontend/src/pages/turnosPage.jsx:137-144 | ascending by date, then by time text |
| TurnosPage.TurnoKeyOrder | frontend/src/pages/turnosPage.jsx:137-144 | the sort key's order means an earlier date, or the same date and a time not after |
| HomePage.BadgeForEstado | frontend/src/pages/HomePage.jsx:11-15 | the same classes as the list page's badge |
| HomePage.CountsPartition | frontend/src/pages/HomePage.jsx:41-47 | pending, confirmed, cancelled and other states partition the turnos |
| HomePage.CountsStep | frontend/src/pages/HomePage.jsx:41-47 | each turno adds one to exactly one of the four counts |
| HomePage.StatsSum | frontend/src/pages/HomePage.jsx:41-47 | the three counters never exceed the total, and equal it when every state is empty or one of the three |
| HomePage.RecentKeyOrder | frontend/src/pages/HomePage.jsx:52-59 | the comparator's order means a later date, or the same date and a time not before |
| HomePage.UltimosSpec | frontend/src/pages/HomePage.jsx:50-61 | at most five turnos, taken from the list, newest first |
| HomePage.UltimosLatest | frontend/src/pages/HomePage.jsx:50-61 | a turno left out is no newer than any shown |
| DisponibilidadesPage.TextFields | frontend/src/pages/DisponibilidadesPage.jsx:78-92 | the six texts searched: day, start, end and the professional's three fields |
| DisponibilidadesPage.FilteredByTextMember | frontend/src/pages/DisponibilidadesPage.jsx:78-92 | a blank query keeps all; otherwise an item stays iff `includesSome` matches it |
| DisponibilidadesPage.FilteredMember | frontend/src/pages/DisponibilidadesPage.jsx:95-98 | an item stays iff no day is chosen, focus mode is on, or its day equals the chosen one ignoring case |
| DisponibilidadesPage.ViewOrder | frontend/src/pages/DisponibilidadesPage.jsx:102-116 | the view is a permutation, sorted by professional name, then week day, then start |
| DisponibilidadesPage.ViewKeyOrder | frontend/src/pages/DisponibilidadesPage.jsx:102-116 | the sort key's order means professional name first, then week day, then start |
| DisponibilidadesPage.ViewKeepsProfesionalTogether | frontend/src/pages/DisponibilidadesPage.jsx:102-116 | one professional's rows are contiguous |
| DisponibilidadesPage.ProfListOf | frontend/src/pages/DisponibilidadesPage.jsx:119-129 | the loop over a seen-map computes the professional list |
| DisponibilidadesPage.FirstProfsComplete | frontend/src/pages/DisponibilidadesPage.jsx:121-126 | every professional with a non-empty id is collected |
| DisponibilidadesPage.FirstProfsSound | frontend/src/pages/DisponibilidadesPage.jsx:121-126 | each collected professional has a non-empty id and is its first occurrence |
| DisponibilidadesPage.FirstProfsUnique | frontend/src/pages/DisponibilidadesPage.jsx:121-126 | no id is collected twice |
| DisponibilidadesPage.ProfListUnique | frontend/src/pages/DisponibilidadesPage.jsx:119-129 | the sorted list has distinct ids |
| DisponibilidadesPage.ProfListSameIds | frontend/src/pages/DisponibilidadesPage.jsx:119-129 | sorting keeps exactly the collected professionals |
| DisponibilidadesPage.ProfListSorted | frontend/src/pages/DisponibilidadesPage.jsx:128 | sorted by name |
| DisponibilidadesPage.ProfListMember | frontend/src/pages/DisponibilidadesPage.jsx:119-129 | a professional is listed iff it is the first occurrence of a non-empty id |
| DisponibilidadesPage.AutoSelect | frontend/src/pages/DisponibilidadesPage.jsx:132-136 | focus mode with exactly one professional selects it; otherwise the selection is kept |
| DisponibilidadesPage.FindProf | frontend/src/pages/DisponibilidadesPage.jsx:138-141 | finds the first professional with the id, or reports that none has it |
| DisponibilidadesPage.FocusedItemsMember | frontend/src/pages/DisponibilidadesPage.jsx:143-146 | an item is focused iff a non-empty id is selected and the item belongs to that professional |
| DisponibilidadesPage.SingleProf | frontend/src/pages/DisponibilidadesPage.jsx:119-136 | a single listed professional has a non-empty id and is the whole collection |
| DisponibilidadesPage.AutoSelectShowsAll | frontend/src/pages/DisponibilidadesPage.jsx:132-146 | after auto-selection every item with a professional is focused |

## Left out

- Persistence: the Mongo queries are functions over the store's sequences. `populate`, casting errors and the 500 responses of a failing database are not modelled.
- The read-then-write race between the collision check and `save()`: the model is sequential.
- HTTP plumbing: `server.js`, the routes, and the CRUD-only client and professional controllers. Only the status code and the payload of each outcome are kept.
- The express-validator chains: the routes never attach them, so the controllers receive unvalidated input.
- The axios services, and the `turnos.jsx` page, which is commented out in full.
- React rendering, effects, loading flags and `mounted` guards. Each effect is a method the caller invokes with the fetched data or a failure. The presentational components and `HoraSelect` are not modelled.
- Date parsing, `toLocaleDateString` and `toISOString`: dates are whole days; times of day inside a date are not modelled.
- Unicode: NFD folding is a table of the Latin-1 accented letters; `localeCompare` is code-point order.
- Sorting: each comparator is modelled as a stable sort on a key. The comparator of `byDay` never returns 0, which is not a consistent order, so the model fixes one order for equal start times.
- In-place sorts of a fresh copy (`view`, `ultimos`, the per-day lists) are sorts of a value; no other alias of those arrays exists.
- `Object.keys` lists integer-like keys first. The models of `agruparYOrdenar` and the week view use insertion order instead, which gives the same result for day names.
- An error cleared by `{ ...prev, [name]: undefined }` is modelled as a key removed from the map.
- The `handleSubmit` handlers of the availability, client and professional forms, the list pages' fetch and delete handlers, and the location messages.
- The quick view's markup beyond the choice between the empty notice and the list.
- JsString.ToNumber: reads digit strings and the empty string only. JavaScript's `Number` also trims whitespace and accepts a sign and decimals (`" 9"` and `"+9"` are 9, `"9.5"` is 9.5), so a turno at `" 9:00"` inside `09:00`-`13:00` is created by the code and refused by the model.
- DisponibilidadController.CreateRequest: the times are strings, so a request without `horaInicio` or `horaFin` cannot be stated. In the code, `undefined >= undefined` is false, such a request passes the order check and fails at save with a 500; the model only has the empty string, which is refused with a 400.
- TimeUtils.ToMinutes: requires a colon or the empty string; on a text without a colon, JavaScript concatenates strings instead of adding, and that case is excluded.
- DisponibilidadesPage.FindProf: `focusedProf` uses `Array.prototype.find`, modelled as the first matching index.
- TurnoFormPage.TurnoForm.HandleSubmit: the create and update requests are one failure parameter, and navigation is a returned flag.
