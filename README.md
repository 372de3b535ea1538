# openmeasure in Dafny

openmeasure is a small web application for running measurement procedures. A **program** is a
template: an ordered list of **program steps**. Each step names an instrument, a unit of
measurement, a target value and its limits. A **measurement** (a "run") instantiates a program
for an **operator**: it stores one **step record** per program step, and the operator then fills
in a value and a status for each record. The application is a set of route actions and loaders
over a hosted Postgres database, which it reaches through the Supabase client.

This project models that logic in three layers.

* **An in-memory relational store.**
  * `Relational` holds a generic table: a map from id to row and an id counter. It has
    insert, batch insert, delete-by-id, overwrite-by-id, select-by-id, select-where, ordered
    select and `single()`.
  * `Schema` holds the seven row types and the update shapes of `src/types/supabase.ts`. It
    also has the foreign-key integrity predicate `Intact`, built from the `Relationships`
    blocks.
  * `Store.Database` is a class with one table field per database table. Each method stands
    for one client call. Every method keeps `Intact` and states the whole new state.
* **The route actions and loaders**, one module per page file. They are methods over a
  `Database`, and each returns a `Reply` (redirect, thrown or returned response, or crash) or
  a `Loaded` value.
* **The pure helpers.** These are `OString.truncateTo` (`Helpers`), the Zod schemas
  (`ZodSchemas`), the step-draft mapping, the description preview and the new-step order rule.

Some things are parameters:

* Whether each request reaches the database is a `Link` argument. `Down` means the request
  failed in transport.
* JavaScript's `Number(...)` is a `NumberParser` parameter (`string -> Option<real>`). `None`
  stands for `NaN`.
* The signed-in user is an `Option<string>` parameter.
* The current time is a `string` parameter.
* The database's column defaults for a step record's `realValue` and `status` do not appear in
  the source. They are constructor arguments of `Database`.

Constraint behaviour follows Postgres:

* An insert draws its id from the counter even when it then fails.
* A batch insert is all or nothing.
* A foreign key with no `ON DELETE` clause is `RESTRICT`, so deleting a row that is still
  referenced fails with `ForeignKeyViolation`.
* A non-integer id in a filter fails with `InvalidNumber`.
* `single()` fails with `NotSingle` unless exactly one row matches.

Text sorting compares code points (`Codes`, `LexLe`).

## Model

| member | source | states |
|---|---|---|
| Relational.KeyOf | src/types/supabase.ts:16 | a number is accepted as a row id exactly when it is integral, and the id has the same value |
| Relational.Insert | src/pages/units/UnitsPage.tsx:32-39 | an insert always advances the id counter; it succeeds iff the drawn id is free and the references resolve; on success the new row sits under the drawn id and nothing else changes; on failure the rows are unchanged |
| Relational.InsertAll | src/pages/measurments/MeasurmentsPage.tsx:72-76 | a batch insert draws one id per row; all rows land under consecutive ids in input order, or none does |
| Relational.Delete | src/pages/units/UnitPage.tsx:41-44 | delete-by-id removes exactly that key (a missing key is no error) unless the row is still referenced (RESTRICT); every other row is untouched |
| Relational.DeleteRequest | src/pages/programSteps/ProgramSteps.tsx:42-46 | the whole delete request: it succeeds iff the database is reachable, the id is integral and the row is absent or unreferenced; on success only that key is gone; on each failure the table is unchanged and the error names the cause |
| Relational.DeleteIdempotent | src/pages/units/UnitPage.tsx:41-44 | repeating a successful delete changes nothing more |
| Relational.Overwrite | src/pages/measurments/MeasurmentPage.tsx:55-58 | update-by-id replaces only the row with that key, keeps the key set, and is refused when the new row's references do not resolve |
| Relational.OverwriteIdempotent | src/pages/measurments/MeasurmentPage.tsx:55-60 | writing the same row twice gives the same table as writing it once |
| Relational.PickSingle | src/pages/measurments/MeasurmentsPage.tsx:56-61 | `single()`: exactly one matching key gives that row as stored; zero or several give NotSingle |
| Relational.SelectSingleWhere | src/pages/measurments/MeasurmentsPage.tsx:56-61 | select-where-eq followed by `single()`: the outcome is that of the set of matching keys |
| Relational.SelectById | src/pages/units/UnitPage.tsx:55-59 | select by id with `single()`: it succeeds iff the database is reachable, the id is integral and the row exists; a missing row gives NotSingle |
| Relational.SelectAll | src/pages/units/UnitsPage.tsx:22-24 | select without a filter returns every row exactly once, as stored |
| Relational.SelectWhere | src/pages/measurments/MeasurmentPage.tsx:19-26 | select-where returns exactly the matching rows, each once, as stored |
| Relational.SelectSorted | src/pages/measurments/MeasurmentsPage.tsx:44-48 | ordered select: the result is sorted by the key and is a permutation of the matching rows, each as stored |
| Relational.InsertSortedKeepsOrder | src/pages/programs/ProgramPage.tsx:82 | inserting into a sorted list keeps it sorted |
| Relational.InsertSortedIds | src/pages/programs/ProgramPage.tsx:82 | inserting into a sorted list adds exactly that row's id |
| Relational.LexLeTotal | src/pages/programs/ProgramPage.tsx:82 | the ordering used for `order(...)` is total |
| Relational.LexLeTransitive | src/pages/programs/ProgramPage.tsx:82 | the ordering used for `order(...)` is transitive |
| Relational.LexLeSingleton | src/pages/measurments/MeasurmentsPage.tsx:47 | ordering by one integer column is ordinary `<=` |
| Schema.ParseStatus | src/types/supabase.ts:294-296 | a status text is accepted iff it is "Done" or "InProgress", and it maps back to the same text |
| Schema.StatusRoundTrip | src/types/supabase.ts:191 | every status survives a trip through its text, so a record holds exactly one of the two values |
| Schema.WithDefaults | src/types/supabase.ts:193-201 | a step-record insert must carry its four references; an omitted realValue or status takes the column default, a supplied one is kept |
| Schema.ApplyStepUpdate | src/types/supabase.ts:202-210 | the MeasurementStep update shape: each of the six columns takes the supplied value when present and keeps the stored one otherwise (proved in StepUpdateChangesOnlySupplied) |
| Schema.FullStepUpdate | src/types/supabase.ts:202-210 | an update that supplies every column yields that row whatever the old row was |
| Schema.StepUpdateChangesOnlySupplied | src/types/supabase.ts:202-210 | an update sets each column it supplies (realValue, status, instrumentId, measurementProgramStepId, measurmentId, operatorId) to the supplied value and keeps every other column |
| Schema.StepUpdateIdempotent | src/types/supabase.ts:202-210 | applying the same update twice equals applying it once |
| Schema.ApplyUnitUpdate | src/types/supabase.ts:249-253 | a unit update sets name and symbol when supplied and keeps them otherwise |
| Schema.InstrumentsResolve | src/types/supabase.ts:64-72 | `Instrument_measurementUnitId_fkey`: every instrument names an existing unit |
| Schema.MeasurementsResolve | src/types/supabase.ts:92-100 | `Measurement_programId_fkey`: every run names an existing program |
| Schema.ProgramStepResolves | src/types/supabase.ts:162-182 | a program step names an existing instrument, unit and program |
| Schema.ProgramStepsResolve | src/types/supabase.ts:162-182 | every stored program step resolves |
| Schema.StepResolves | src/types/supabase.ts:211-237 | a step record names an existing instrument, program step, run and operator |
| Schema.StepsResolve | src/types/supabase.ts:211-237 | every stored step record resolves |
| Schema.Intact | src/types/supabase.ts:64-237 | referential integrity: all four groups of foreign keys hold; every store method keeps it |
| Schema.UnitsInUse | src/types/supabase.ts:64-71 | a unit is in use iff some instrument or program step refers to it |
| Schema.InstrumentsInUse | src/types/supabase.ts:162-217 | an instrument is in use iff some program step or step record refers to it |
| Schema.ProgramsInUse | src/types/supabase.ts:92-99 | a program is in use iff some run or program step refers to it |
| Schema.ProgramStepsInUse | src/types/supabase.ts:218-223 | a program step is in use iff some step record refers to it |
| Schema.MeasurementsInUse | src/types/supabase.ts:224-229 | a run is in use iff some step record refers to it |
| Store.UpsertProgramRow | src/pages/programs/ProgramPage.tsx:39-46 | upsert: no id inserts under a fresh id; an existing id rewrites name, description and updatedAt of that row only; a new explicit id inserts there without drawing; a null id or a missing name is a NOT NULL violation that writes nothing |
| Store.UpsertExistingIdempotent | src/pages/programs/ProgramPage.tsx:39-46 | repeating an upsert of an existing program gives the same table |
| Store.EditProgram | src/pages/programs/ProgramPage.tsx:41-45 | the upsert sets name and updatedAt, sets description only when it is sent, and keeps createdAt |
| Store.Defaulted | src/types/supabase.ts:193-201 | every draft of a batch becomes the row stored with column defaults, in order |
| Store.InsertStepsKeepsIntact | src/types/supabase.ts:211-236 | adding step records whose references resolve keeps every foreign key of the store intact |
| Store.Database.constructor | src/types/supabase.ts:9-287 | a store starts from a snapshot whose foreign keys are intact |
| Store.Database.InsertMeasurement | src/types/supabase.ts:74-85 | a run is inserted with its program, start time and no finish time, iff the program exists; only the runs table changes |
| Store.Database.DeleteMeasurement | src/types/supabase.ts:73-100 | delete a run unless a step record refers to it; only the runs table changes |
| Store.Database.InsertProgram | src/types/supabase.ts:101-124 | a program is inserted with the given name and times; only the programs table changes |
| Store.Database.UpsertProgram | src/types/supabase.ts:101-124 | the upsert on the program table; only that table changes |
| Store.Database.DeleteProgram | src/types/supabase.ts:101-124 | delete a program unless a run or step refers to it; only that table changes |
| Store.Database.InsertProgramStep | src/types/supabase.ts:162-181 | a program step is inserted iff its instrument, unit and program exist; only that table changes |
| Store.Database.DeleteProgramStep | src/types/supabase.ts:125-182 | delete a program step unless a step record refers to it; only that table changes |
| Store.Database.InsertSteps | src/types/supabase.ts:211-236 | batch insert of drafts with defaults; all rows land iff every reference resolves; only the step table changes |
| Store.Database.UpdateStep | src/types/supabase.ts:202-236 | update-by-id of a step record: no matching row is no error and no change; otherwise only that row changes, and only if its references resolve |
| Store.Database.InsertUnit | src/types/supabase.ts:238-255 | a unit is inserted with the given name and symbol; only the units table changes |
| Store.Database.UpdateUnit | src/types/supabase.ts:249-253 | update-by-id with `single()`: a missing unit is NotSingle; otherwise only that unit changes, by the patch |
| Store.Database.DeleteUnit | src/types/supabase.ts:238-255 | delete a unit unless an instrument or program step refers to it |
| Store.Database.InsertInstrument | src/types/supabase.ts:64-71 | an instrument is inserted iff its unit exists |
| Store.Database.UpdateInstrument | src/types/supabase.ts:47-71 | update-by-id with `single()`: a missing instrument is NotSingle, a missing unit a key violation; otherwise only that row is replaced |
| Store.Database.DeleteInstrument | src/types/supabase.ts:12-72 | delete an instrument unless a program step or step record refers to it |
| Helpers.TruncateTo | src/helpers/index.ts:3 | a string of at most n characters is returned unchanged; a longer one keeps its first n characters and ends in a single "…", n + 1 characters in all |
| Helpers.TruncateLength | src/helpers/index.ts:3 | the result length is min(len, n+1) |
| Helpers.TruncatePrefix | src/helpers/index.ts:3 | the first min(len, n) characters are those of the input |
| Helpers.TruncateIdempotent | src/helpers/index.ts:3 | truncating twice equals truncating once |
| ZodSchemas.CoerceNumber | src/types/ZodDBTypes.ts:4-10 | `z.coerce.number()`: a missing field fails, a present one is its text read as a number (failing on NaN) |
| ZodSchemas.CoerceString | src/types/ZodDBTypes.ts:5 | string coercion keeps a present field and turns a missing one into "undefined" |
| ZodSchemas.CoerceInt | src/types/ZodDBTypes.ts:4 | integer coercion succeeds iff the number coercion succeeds and is integral |
| ZodSchemas.ParseProgramStep | src/types/ZodDBTypes.ts:3-13 | step parsing succeeds iff programId, order, measurementUnitId and instrumentId coerce to integers and targetValue, usl and lsl to numbers; the fields carry the coerced values; nothing relates lsl, targetValue and usl, so lsl ≤ targetValue ≤ usl is not checked |
| ZodSchemas.MissingNameAccepted | src/types/ZodDBTypes.ts:5-6 | a step without name or description still parses; the name becomes "undefined" and the description stays absent |
| ZodSchemas.StepAcceptanceIgnoresText | src/types/ZodDBTypes.ts:8-10 | whether a step is accepted does not depend on its name or description |
| ZodSchemas.ParseInstrument | src/types/ZodDBTypes.ts:15-30 | instrument parsing succeeds iff measurementUnitId coerces to an integer and the limits, resolution and accuracy to numbers; notes is always present |
| ZodSchemas.InstrumentDatesUnchecked | src/types/ZodDBTypes.ts:20-22 | any text is accepted as the three dates |
| ZodSchemas.ParseMeasurementStep | src/types/ZodDBTypes.ts:32 | the step-record schema has no fields, so every body passes |
| Responses.NatTextRoundTrip | src/pages/measurments/MeasurmentsPage.tsx:78 | the decimal text of an id reads back as the same id |
| Responses.IntTextRoundTrip | src/pages/units/UnitsPage.tsx:43 | the text of any integer, negative ones included, reads back as that integer |
| Responses.PathTo | src/pages/measurments/MeasurmentsPage.tsx:78 | a redirect path starts with its prefix, has an id after it, and that id text parses back to the key |
| Responses.PathToInjective | src/pages/programs/ProgramsPage.tsx:34 | different ids give different redirect paths |
| MeasurementsPage.Drafts | src/pages/measurments/MeasurmentsPage.tsx:63-70 | one draft per program step, in order; each copies the step's id and instrument, uses the run and operator ids, and leaves value and status to the defaults |
| MeasurementsPage.DraftsAppend | src/pages/measurments/MeasurmentsPage.tsx:63-70 | the draft mapping is a map: drafts of a concatenation are the concatenated drafts |
| MeasurementsPage.DraftsRecoverSteps | src/pages/measurments/MeasurmentsPage.tsx:63-70 | the program step ids can be read back from the drafts in order |
| MeasurementsPage.GuardPasses | src/pages/measurments/MeasurmentsPage.tsx:31 | the guard (`!programId` or `Number.isNaN(programId)`) lets a request through exactly when it carries a number other than 0 |
| MeasurementsPage.RequestedProgram | src/pages/measurments/MeasurmentsPage.tsx:28-30 | a missing programId reads as 0; otherwise it is the number the field parses to |
| MeasurementsPage.MissingProgramRejected | src/pages/measurments/MeasurmentsPage.tsx:28-33 | a body without programId never passes the guard |
| MeasurementsPage.PlacedDrafts | src/pages/measurments/MeasurmentsPage.tsx:63-76 | the i-th drafted row is stored under the i-th new id |
| MeasurementsPage.InstantiatedRows | src/pages/measurments/MeasurmentsPage.tsx:63-76 | after a successful run, the i-th new step record is the defaulted draft of the i-th program step |
| MeasurementsPage.InstantiatedFor | src/pages/measurments/MeasurmentsPage.tsx:44-61 | the steps used belong to the requested program, and the operator is the signed-in user's |
| MeasurementsPage.OperatorFound | src/pages/measurments/MeasurmentsPage.tsx:56-60 | the Operator `single()` lookup succeeds iff it is reachable, a user is signed in, and exactly one operator row has that user id |
| MeasurementsPage.DraftsResolve | src/pages/measurments/MeasurmentsPage.tsx:63-76 | in an intact database, the drafts built from stored program steps and a stored operator pass every foreign-key check iff the run exists or there are no drafts |
| MeasurementsPage.InstantiateSteps | src/pages/measurments/MeasurmentsPage.tsx:44-78 | reads the program's steps sorted by order (exactly the stored steps of that program); the operator is found iff the lookup is reachable and exactly one operator row has the user's id; success happens iff the steps read is reachable, the operator is found, the batch is reachable, the drawn step ids are free and the run exists (or the program has no steps); the step counter advances by the number of steps once the batch is sent; each failure point gives its status and leaves the step rows as they were; only the step table can change |
| MeasurementsPage.NewMeasurement | src/pages/measurments/MeasurmentsPage.tsx:24-79 | a programId that is 0, missing or not a number gives 400 and writes nothing; otherwise the run is inserted iff the insert is reachable, the id is integral, the program exists and the drawn id is free, and its id is the run counter's old value; the run has that program, a start time and no finish, and a later failure keeps it (no rollback); once the run exists, success happens iff the steps read is reachable, exactly one operator matches the user, the batch is reachable and the drawn step ids are free; success redirects to the run's page; templates never change |
| MeasurementsPage.DeleteMeasurementAction | src/pages/measurments/MeasurmentsPage.tsx:81-98 | as written: a non-numeric id makes the Zod parse throw, so the action crashes before its own 400 guard; otherwise only that run is removed |
| MeasurementsPage.DeleteMeasurementActionFixed | src/pages/measurments/MeasurmentsPage.tsx:81-98 | as intended: a non-numeric id gives 400 and writes nothing |
| MeasurementsPage.Runs | src/pages/measurments/MeasurmentsPage.tsx:100-113 | the runs of a listing, in order |
| MeasurementsPage.ListRuns | src/pages/measurments/MeasurmentsPage.tsx:100-113 | every run is listed in order with the program it refers to |
| MeasurementsPage.MeasurementsLoader | src/pages/measurments/MeasurmentsPage.tsx:100-113 | the loader lists every run once, with its program; an error gives 500 |
| MeasurementsPage.DescriptionLine | src/pages/measurments/MeasurmentsPage.tsx:149-151 | as written: a null description prints as "null"; any other is truncated to 50 characters |
| MeasurementsPage.DescriptionLineFixed | src/pages/measurments/MeasurmentsPage.tsx:149-151 | as intended: a null description prints as nothing |
| MeasurementPage.StepIds | src/pages/measurments/MeasurmentPage.tsx:19-26 | the ids of the step views, in order |
| MeasurementPage.ViewSteps | src/pages/measurments/MeasurmentPage.tsx:19-26 | each step record is joined with its program step and that step's unit, in order |
| MeasurementPage.MeasurementLoader | src/pages/measurments/MeasurmentPage.tsx:14-43 | a non-numeric id or an absent run gives 404; otherwise the run with its program's name and all its step records, each joined |
| MeasurementPage.GridRow.constructor | src/pages/measurments/MeasurmentPage.tsx:85-107 | a grid row holds a step record and, until updated, its joined program step |
| MeasurementPage.RowOf | src/pages/measurments/MeasurmentPage.tsx:85-107 | a fresh grid row shows the joined program step of its view |
| MeasurementPage.OrderCell | src/pages/measurments/MeasurmentPage.tsx:85-87 | the order cell shows a value iff the row still holds its joined program step |
| MeasurementPage.UpdateStep | src/pages/measurments/MeasurmentPage.tsx:45-61 | drops the join from the very row it was given, then overwrites only the record with that id; true iff the store reports no error |
| MeasurementPage.ProcessRowUpdate | src/pages/measurments/MeasurmentPage.tsx:153-155 | as written: the edited row is returned iff the write succeeds (or its id is not stored); the returned row has lost its join, so its order cell has no value; the handed row's record is unchanged; a stored id gets exactly the written record with every other table and the id counter kept, and nothing else in the store changes |
| MeasurementPage.UpdateStepFixed | src/pages/measurments/MeasurmentPage.tsx:45-61 | as intended: the same write, leaving the caller's row intact |
| MeasurementPage.ProcessRowUpdateFixed | src/pages/measurments/MeasurmentPage.tsx:153-155 | as intended: the returned row keeps its order cell; the store changes exactly as for the written version |
| MeasurementPage.StatusChoices | src/pages/measurments/MeasurmentPage.tsx:140-145 | the editor offers exactly Done and InProgress, whatever the current value |
| MeasurementPage.ShowsComplete | src/pages/measurments/MeasurmentPage.tsx:121-125 | a step shows as complete iff its status is Done |
| ProgramSteps.NewProgramStepAction | src/pages/programSteps/ProgramSteps.tsx:5-30 | an invalid body gives 400 and writes nothing; a valid one inserts exactly the parsed step and redirects to its program; a store refusal gives 500 |
| ProgramSteps.DeleteProgramStepAction | src/pages/programSteps/ProgramSteps.tsx:32-49 | a non-numeric id gives 400 and writes nothing; the delete removes only that id; the redirect uses the unvalidated programId text |
| ProgramPage.UpsertKey | src/pages/programs/ProgramPage.tsx:37-38 | no route id gives an upsert without id; a non-numeric one gives a null id; otherwise the number |
| ProgramPage.UpdateProgramAction | src/pages/programs/ProgramPage.tsx:33-50 | upserts name, description and a fresh updatedAt; a store error is thrown; otherwise redirect to /programs |
| ProgramPage.SaveChangesOnlyThatProgram | src/pages/programs/ProgramPage.tsx:37-46 | saving an existing program rewrites only that program |
| ProgramPage.DeleteProgramAction | src/pages/programs/ProgramPage.tsx:52-65 | a non-numeric id gives 404; only that program is removed; a store error is returned as 400 |
| ProgramPage.ProgramLoader | src/pages/programs/ProgramPage.tsx:67-116 | a bad id or missing program gives 404 and missing units or instruments 500; otherwise the program with its steps (in no set order), the units sorted by name and all instruments |
| ProgramPage.NextOrder | src/pages/programs/ProgramPage.tsx:216 | as written: a new step's order is the number of steps plus one |
| ProgramPage.NextOrderRepeatsAfterDelete | src/pages/programs/ProgramPage.tsx:216 | with steps of order 1 and 3 left after a delete, the new step gets order 3 again |
| ProgramPage.MaxOrder | src/pages/programs/ProgramPage.tsx:216 | the largest order among the steps, or 0 when that is larger (0 for no steps); it bounds every order and is one of them unless it is 0 |
| ProgramPage.NextOrderFixed | src/pages/programs/ProgramPage.tsx:216 | as intended: the new order is above every existing order |
| ProgramPage.NextOrderAgrees | src/pages/programs/ProgramPage.tsx:216 | when the orders are 1..n the two rules agree |
| ProgramsPage.NewProgramAction | src/pages/programs/ProgramsPage.tsx:25-35 | inserts one program with an empty name and the current time, and redirects to it; a failure returns 400 |
| ProgramsPage.ProgramsLoader | src/pages/programs/ProgramsPage.tsx:37-45 | every program once; an error is thrown |
| ProgramsPage.Preview | src/pages/programs/ProgramsPage.tsx:137-140 | as written: shown iff the description is non-empty; its first 50 characters, plus "..." when longer than 49; at most 53 characters |
| ProgramsPage.PreviewMarksUncutText | src/pages/programs/ProgramsPage.tsx:139-140 | a 50-character description gets "..." without losing a character |
| ProgramsPage.PreviewFixed | src/pages/programs/ProgramsPage.tsx:137-140 | as intended: "..." is added iff characters were cut |
| ProgramsPage.PreviewsAgreeElsewhere | src/pages/programs/ProgramsPage.tsx:139-140 | the two previews differ only on 50-character descriptions |
| InstrumentPage.NewInstrumentAction | src/pages/instruments/InstrumentPage.tsx:16-41 | an invalid form gives 400 and writes nothing; a valid one inserts exactly the parsed instrument; a refusal gives 500 |
| InstrumentPage.EditInstrumentAction | src/pages/instruments/InstrumentPage.tsx:43-73 | a non-numeric id gives 404 before the form is read; an invalid form 400; otherwise only the row with that id is replaced (the id counter and every other table kept), or 500 |
| InstrumentPage.DeleteInstrumentAction | src/pages/instruments/InstrumentPage.tsx:75-95 | a non-numeric id gives 404; only that row is removed; a store error gives 500 |
| InstrumentPage.EditInstrumentLoader | src/pages/instruments/InstrumentPage.tsx:97-118 | a bad id or missing instrument gives 404, unreadable units 500; otherwise the stored instrument and every unit |
| InstrumentPage.BlankInstrument | src/pages/instruments/InstrumentPage.tsx:127-144 | the blank instrument has numbers 0, texts empty, dates now and no unit |
| InstrumentPage.NewInstrumentLoader | src/pages/instruments/InstrumentPage.tsx:120-147 | the blank instrument and every unit; an error gives 500 |
| UnitPage.UnitPatch | src/pages/units/UnitPage.tsx:20-23 | the update carries the form's name and symbol fields |
| UnitPage.UpdateUnitAction | src/pages/units/UnitPage.tsx:13-35 | a non-numeric id gives 404 before any write; name and symbol of that unit only are set (the id counter and every other table kept); a missing row or error gives 500 |
| UnitPage.FullFormSetsUnit | src/pages/units/UnitPage.tsx:20-30 | a form with both fields sets the unit to exactly those values |
| UnitPage.DeleteUnitAction | src/pages/units/UnitPage.tsx:37-49 | a non-numeric id gives 404; only that unit is removed; a store error gives 500 |
| UnitPage.UnitLoader | src/pages/units/UnitPage.tsx:51-63 | a non-numeric id gives 404; a missing unit or error gives 500; otherwise the stored unit |
| UnitsPage.UnitsLoader | src/pages/units/UnitsPage.tsx:21-29 | every unit once; an error gives 500 |
| UnitsPage.CreateUnitAction | src/pages/units/UnitsPage.tsx:31-44 | inserts one unit with empty name and symbol and redirects to /units/<new id>; a failure gives 500 |

## Left out

- JavaScript number semantics. These are left out: floating point, `Infinity`, `-0`, and the exponent notation that `String(n)` uses for ids of 1e21 and above. `Number` is a parameter and ids are integers. Numeric columns such as limits, values and accuracy are `real` with no arithmetic.
- Strings are sequences of characters. Lengths are not counted in UTF-16 code units, and text ordering is by code point, not by the database's collation.
- Authentication is out. The signed-in user is a parameter, and `Operator.userId` refers to an authentication table that is not part of this model.
- The two reads in `programLoader` run with `Promise.all`; here they run one after the other.
- Logging, JSX rendering, the delete-confirmation modal, `InstrumentsPage.tsx`, the client construction in `src/supabase.ts` and the route wiring are not part of this model.
- The values a user types into the data grid are taken as given. Editing cells is not modelled.
- Form fields other than the ones each schema or action names are not modelled. The unit update form is modelled as carrying only `name` and `symbol`.
- Whether a request reaches the database is the `Link` argument. Timeouts and partial writes are not modelled.
- The schema does not say what deleting a referenced row does. Deletes follow Postgres's default, RESTRICT: they fail, and nothing cascades.
- The column defaults for a step record's `realValue` and `status` are not in the source. They are parameters of the store.
- When a row breaks several constraints at once, the model reports one error. The order in which Postgres checks them is not modelled.
- Run instantiation in `newMeasurment` has no rollback in the code. The model follows the code: a failure after the run insert leaves the run in the store, with no step records.
- The step schema's `name` is `z.coerce.string()`. A missing name becomes "undefined", so the field is in effect optional. The model follows the code here (`ZodSchemas.MissingNameAccepted`).
- MeasurementPage.UpdateStep: the grid row's other columns (the joined unit name, limits and target) are modelled only as the joined template, which the update drops.
- Store.Database.UpdateStep: takes an integer id. The grid only holds ids that came from the store.

## Findings

| source | as written | input that shows it | evidently intended | confidence | as-written member | corrected member |
|---|---|---|---|---|---|---|
| src/pages/programs/ProgramsPage.tsx:139-140 | "..." is appended when the length is greater than 49 | a 50-character description: shown in full and followed by "..." | mark only text that was cut (length greater than 50) | not executed; high | ProgramsPage.PreviewMarksUncutText | ProgramsPage.PreviewFixed |
| src/pages/programs/ProgramPage.tsx:216 | a new step's order is the step count plus one | steps of order 1, 2, 3; delete order 2; the new step gets order 3, a duplicate | an order above every existing one | not executed; high | ProgramPage.NextOrderRepeatsAfterDelete | ProgramPage.NextOrderFixed |
| src/pages/measurments/MeasurmentPage.tsx:52, 153-155 | `updateStep` deletes the join from the row it is handed, and `processRowUpdate` returns that same object | any successful edit of a step record: the returned row has no program step; if the grid renders the returned object as it is (an assumption about the data grid, whose code is not part of this model), the value getters of its order, name, limit and target cells throw a `TypeError`, while a grid that merges the returned row over its stored row keeps the join | write a copy without the join and return the caller's row intact | not executed; low | MeasurementPage.ProcessRowUpdate | MeasurementPage.ProcessRowUpdateFixed |
| src/pages/measurments/MeasurmentsPage.tsx:84-88 | the id is read with `z.coerce.number().parse`, which throws on NaN, so the `isNaN` guard that follows can never fire | route id "abc": an unhandled ZodError instead of the 400 response | the guard's 400 response | not executed; high | MeasurementsPage.DeleteMeasurementAction | MeasurementsPage.DeleteMeasurementActionFixed |
| src/pages/measurments/MeasurmentsPage.tsx:149-151 | `OString(description).truncateTo(50)` on a null description | a program whose description is null: the list shows the text "null" | show nothing for a missing description | not executed; medium | MeasurementsPage.DescriptionLine | MeasurementsPage.DescriptionLineFixed |
