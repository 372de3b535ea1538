/**
 * The tables of the database (Row, Insert and Update shapes), the `MeasurementStepStatus`
 * enum, and the foreign keys declared in the `Relationships` blocks.
 */
module Schema {
  import opened Wrappers
  import opened Relational

  /** `MeasurementStepStatus`: a step record is either done or still in progress. */
  datatype Status = Done | InProgress

  /** The enum's wire values. */
  function StatusText(s: Status): string
  {
    match s
    case Done => "Done"
    case InProgress => "InProgress"
  }

  /** Reading a wire value back: only the two enum labels are statuses. */
  function ParseStatus(text: string): (s: Option<Status>)
    ensures s.Some? <==> text == "Done" || text == "InProgress"
    ensures s.Some? ==> StatusText(s.value) == text
  {
    if text == "Done" then Some(Done)
    else if text == "InProgress" then Some(InProgress)
    else None
  }

  lemma StatusRoundTrip(s: Status)
    ensures ParseStatus(StatusText(s)) == Some(s)
  {
  }

  // Row shapes.  The primary key `id` is the key of the table's map, not a column here.

  datatype Instrument = Instrument(
    accuracy: real,
    calibrationDate: string,
    location: string,
    lowerLimit: real,
    manufacturer: string,
    measurementUnitId: int,
    model: string,
    name: string,
    notes: Option<string>,
    resolution: real,
    serialNumber: string,
    upperLimit: real,
    verificationDate: string,
    verificationDueDate: string)

  /** A measurement run. */
  datatype Measurement = Measurement(finishedAt: Option<string>, programId: int, startedAt: string)

  /** A measurement program (a template). */
  datatype MeasurementProgram = MeasurementProgram(
    createdAt: string,
    description: Option<string>,
    name: string,
    updatedAt: string)

  /** One step of a program: tolerance bounds bound to an instrument and a unit. */
  datatype MeasurementProgramStep = MeasurementProgramStep(
    description: Option<string>,
    instrumentId: int,
    lsl: real,
    measurementUnitId: int,
    name: string,
    order: int,
    programId: int,
    targetValue: real,
    usl: real)

  /** A step record of a run. */
  datatype MeasurementStep = MeasurementStep(
    instrumentId: int,
    measurementProgramStepId: int,
    measurmentId: int,
    operatorId: int,
    realValue: real,
    status: Status)

  datatype MeasurementUnit = MeasurementUnit(name: string, symbol: string)

  datatype Operator = Operator(
    certificationDate: string,
    certificationExpiryDate: string,
    certificationNumber: string,
    userId: string)

  /**
   * Insert shape of a step record: the four references are required, `realValue` and
   * `status` may be left to the column defaults.
   */
  datatype MeasurementStepInsert = MeasurementStepInsert(
    instrumentId: int,
    measurementProgramStepId: int,
    measurmentId: int,
    operatorId: int,
    realValue: Option<real>,
    status: Option<Status>)

  /** The row an insert stores, given the column defaults. */
  function WithDefaults(d: MeasurementStepInsert, realValueDefault: real, statusDefault: Status): (r: MeasurementStep)
    ensures r.instrumentId == d.instrumentId && r.measurementProgramStepId == d.measurementProgramStepId
    ensures r.measurmentId == d.measurmentId && r.operatorId == d.operatorId
    ensures d.realValue.None? ==> r.realValue == realValueDefault
    ensures d.status.None? ==> r.status == statusDefault
    ensures d.realValue.Some? ==> r.realValue == d.realValue.value
    ensures d.status.Some? ==> r.status == d.status.value
  {
    MeasurementStep(d.instrumentId, d.measurementProgramStepId, d.measurmentId, d.operatorId,
                    d.realValue.GetOr(realValueDefault), d.status.GetOr(statusDefault))
  }

  /** Update shape of a step record: every column optional. */
  datatype MeasurementStepUpdate = MeasurementStepUpdate(
    instrumentId: Option<int>,
    measurementProgramStepId: Option<int>,
    measurmentId: Option<int>,
    operatorId: Option<int>,
    realValue: Option<real>,
    status: Option<Status>)

  function ApplyStepUpdate(r: MeasurementStep, u: MeasurementStepUpdate): MeasurementStep
  {
    MeasurementStep(
      u.instrumentId.GetOr(r.instrumentId),
      u.measurementProgramStepId.GetOr(r.measurementProgramStepId),
      u.measurmentId.GetOr(r.measurmentId),
      u.operatorId.GetOr(r.operatorId),
      u.realValue.GetOr(r.realValue),
      u.status.GetOr(r.status))
  }

  /** An update that supplies every column of `s`. */
  function FullStepUpdate(s: MeasurementStep): (u: MeasurementStepUpdate)
    ensures forall r :: ApplyStepUpdate(r, u) == s
  {
    MeasurementStepUpdate(Some(s.instrumentId), Some(s.measurementProgramStepId), Some(s.measurmentId),
                          Some(s.operatorId), Some(s.realValue), Some(s.status))
  }

  /** A column the update does not supply keeps its value; one it supplies takes the new one. */
  lemma StepUpdateChangesOnlySupplied(r: MeasurementStep, u: MeasurementStepUpdate)
    ensures var r' := ApplyStepUpdate(r, u);
      && (u.realValue.None? ==> r'.realValue == r.realValue)
      && (u.status.None? ==> r'.status == r.status)
      && (u.instrumentId.None? ==> r'.instrumentId == r.instrumentId)
      && (u.measurementProgramStepId.None? ==> r'.measurementProgramStepId == r.measurementProgramStepId)
      && (u.measurmentId.None? ==> r'.measurmentId == r.measurmentId)
      && (u.operatorId.None? ==> r'.operatorId == r.operatorId)
      && (u.realValue.Some? ==> r'.realValue == u.realValue.value)
      && (u.status.Some? ==> r'.status == u.status.value)
      && (u.instrumentId.Some? ==> r'.instrumentId == u.instrumentId.value)
      && (u.measurementProgramStepId.Some? ==> r'.measurementProgramStepId == u.measurementProgramStepId.value)
      && (u.measurmentId.Some? ==> r'.measurmentId == u.measurmentId.value)
      && (u.operatorId.Some? ==> r'.operatorId == u.operatorId.value)
  {
  }

  /** Applying the same update twice gives the row applying it once gives. */
  lemma StepUpdateIdempotent(r: MeasurementStep, u: MeasurementStepUpdate)
    ensures ApplyStepUpdate(ApplyStepUpdate(r, u), u) == ApplyStepUpdate(r, u)
  {
  }

  /** Update shape of a unit. */
  datatype MeasurementUnitUpdate = MeasurementUnitUpdate(name: Option<string>, symbol: Option<string>)

  function ApplyUnitUpdate(r: MeasurementUnit, u: MeasurementUnitUpdate): (r': MeasurementUnit)
    ensures r'.name == (if u.name.Some? then u.name.value else r.name)
    ensures r'.symbol == (if u.symbol.Some? then u.symbol.value else r.symbol)
  {
    MeasurementUnit(u.name.GetOr(r.name), u.symbol.GetOr(r.symbol))
  }

  // ---------------------------------------------------------------------------------------
  // The whole database and its foreign keys.

  datatype Tables = Tables(
    instrument: Table<Instrument>,
    measurement: Table<Measurement>,
    program: Table<MeasurementProgram>,
    programStep: Table<MeasurementProgramStep>,
    step: Table<MeasurementStep>,
    unit: Table<MeasurementUnit>,
    operator: Table<Operator>)

  /** `Instrument_measurementUnitId_fkey`. */
  ghost predicate InstrumentsResolve(t: Tables)
  {
    forall k :: k in t.instrument.rows ==> t.instrument.rows[k].measurementUnitId in t.unit.rows
  }

  /** `Measurement_programId_fkey`. */
  ghost predicate MeasurementsResolve(t: Tables)
  {
    forall k :: k in t.measurement.rows ==> t.measurement.rows[k].programId in t.program.rows
  }

  /** The instrument, unit and program keys of `MeasurementProgramStep`. */
  predicate ProgramStepResolves(t: Tables, s: MeasurementProgramStep)
  {
    && s.instrumentId in t.instrument.rows
    && s.measurementUnitId in t.unit.rows
    && s.programId in t.program.rows
  }

  ghost predicate ProgramStepsResolve(t: Tables)
  {
    forall k :: k in t.programStep.rows ==> ProgramStepResolves(t, t.programStep.rows[k])
  }

  /** The instrument, program step, run and operator keys of `MeasurementStep`. */
  predicate StepResolves(t: Tables, s: MeasurementStep)
  {
    && s.instrumentId in t.instrument.rows
    && s.measurementProgramStepId in t.programStep.rows
    && s.measurmentId in t.measurement.rows
    && s.operatorId in t.operator.rows
  }

  ghost predicate StepsResolve(t: Tables)
  {
    forall k :: k in t.step.rows ==> StepResolves(t, t.step.rows[k])
  }

  /** Referential integrity: every foreign key of every row names an existing row. */
  ghost predicate Intact(t: Tables)
  {
    && InstrumentsResolve(t)
    && MeasurementsResolve(t)
    && ProgramStepsResolve(t)
    && StepsResolve(t)
  }

  // The keys of each table that rows of other tables reference; deleting one of them is refused.

  function UnitsInUse(t: Tables): (ks: set<int>)
    ensures forall k :: k in ks <==>
      || (exists i :: i in t.instrument.rows && t.instrument.rows[i].measurementUnitId == k)
      || (exists i :: i in t.programStep.rows && t.programStep.rows[i].measurementUnitId == k)
  {
    (set i | i in t.instrument.rows :: t.instrument.rows[i].measurementUnitId)
    + (set i | i in t.programStep.rows :: t.programStep.rows[i].measurementUnitId)
  }

  function InstrumentsInUse(t: Tables): (ks: set<int>)
    ensures forall k :: k in ks <==>
      || (exists i :: i in t.programStep.rows && t.programStep.rows[i].instrumentId == k)
      || (exists i :: i in t.step.rows && t.step.rows[i].instrumentId == k)
  {
    (set i | i in t.programStep.rows :: t.programStep.rows[i].instrumentId)
    + (set i | i in t.step.rows :: t.step.rows[i].instrumentId)
  }

  function ProgramsInUse(t: Tables): (ks: set<int>)
    ensures forall k :: k in ks <==>
      || (exists i :: i in t.programStep.rows && t.programStep.rows[i].programId == k)
      || (exists i :: i in t.measurement.rows && t.measurement.rows[i].programId == k)
  {
    (set i | i in t.programStep.rows :: t.programStep.rows[i].programId)
    + (set i | i in t.measurement.rows :: t.measurement.rows[i].programId)
  }

  function ProgramStepsInUse(t: Tables): (ks: set<int>)
    ensures forall k :: k in ks <==> exists i :: i in t.step.rows && t.step.rows[i].measurementProgramStepId == k
  {
    set i | i in t.step.rows :: t.step.rows[i].measurementProgramStepId
  }

  function MeasurementsInUse(t: Tables): (ks: set<int>)
    ensures forall k :: k in ks <==> exists i :: i in t.step.rows && t.step.rows[i].measurmentId == k
  {
    set i | i in t.step.rows :: t.step.rows[i].measurmentId
  }

  // Filters and sort keys of the queries the pages run.

  /** `eq("programId", pid)` on `MeasurementProgramStep`. */
  function OfProgram(pid: int): MeasurementProgramStep -> bool
  {
    (s: MeasurementProgramStep) => s.programId == pid
  }

  /** `order("order")` on `MeasurementProgramStep`. */
  function StepOrder(s: MeasurementProgramStep): seq<int>
  {
    [s.order]
  }

  /** `eq("userId", uid)` on `Operator`. */
  function OfUser(uid: string): Operator -> bool
  {
    (o: Operator) => o.userId == uid
  }

  /** `eq("measurmentId", mid)` on `MeasurementStep`, the steps a run embeds. */
  function OfRun(mid: int): MeasurementStep -> bool
  {
    (s: MeasurementStep) => s.measurmentId == mid
  }

  /** `order("name")` on `MeasurementUnit`. */
  function UnitName(u: MeasurementUnit): seq<int>
  {
    Codes(u.name)
  }

  /** The template side (programs, their steps, instruments, units, operators) is the same. */
  predicate SameTemplates(a: Tables, b: Tables)
  {
    && a.instrument == b.instrument
    && a.program == b.program
    && a.programStep == b.programStep
    && a.unit == b.unit
    && a.operator == b.operator
  }
}
