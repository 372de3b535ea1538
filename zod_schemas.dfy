/**
 * The validation schemas `ZMeasurementProgramStep`, `ZInstrument` and `ZMeasurementStep`,
 * applied to a submitted form.  A form is the bag of its fields (`Object.fromEntries` of the
 * URL-encoded body); a key that is not there is `undefined`.
 */
module ZodSchemas {
  import opened Wrappers
  import opened Relational
  import opened Schema

  type FormBag = map<string, string>

  /**
   * JavaScript's `Number(text)` as a parameter of the model: `None` is `NaN`, the one
   * number value `z.number()` refuses.
   */
  type NumberParser = string -> Option<real>

  function Field(body: FormBag, key: string): (v: Option<string>)
    ensures v.Some? <==> key in body
    ensures v.Some? ==> v.value == body[key]
  {
    if key in body then Some(body[key]) else None
  }

  /** `z.coerce.string()`: `String(value)`, which turns a missing field into the text "undefined". */
  function CoerceString(v: Option<string>): (s: string)
    ensures v.Some? ==> s == v.value
    ensures v.None? ==> s == "undefined"
  {
    v.GetOr("undefined")
  }

  /** `z.coerce.number()`: `Number(value)`, refused when it is `NaN`; `Number(undefined)` is `NaN`. */
  function CoerceNumber(num: NumberParser, v: Option<string>): (x: Option<real>)
    ensures v.None? ==> x.None?
    ensures v.Some? ==> x == num(v.value)
  {
    match v
    case None => None
    case Some(s) => num(s)
  }

  /** `z.coerce.number().int()`: the number must also be an integer. */
  function CoerceInt(num: NumberParser, v: Option<string>): (k: Option<int>)
    ensures k.Some? <==> CoerceNumber(num, v).Some? && KeyOf(CoerceNumber(num, v).value).Some?
    ensures k.Some? ==> k.value as real == CoerceNumber(num, v).value
  {
    match CoerceNumber(num, v)
    case None => None
    case Some(x) => KeyOf(x)
  }

  /** Whether every integer field of a step form coerces to an integer. */
  predicate StepIntsOk(num: NumberParser, body: FormBag)
  {
    && CoerceInt(num, Field(body, "programId")).Some?
    && CoerceInt(num, Field(body, "order")).Some?
    && CoerceInt(num, Field(body, "measurementUnitId")).Some?
    && CoerceInt(num, Field(body, "instrumentId")).Some?
  }

  /** Whether every plain number field of a step form coerces to a number. */
  predicate StepNumbersOk(num: NumberParser, body: FormBag)
  {
    && CoerceNumber(num, Field(body, "targetValue")).Some?
    && CoerceNumber(num, Field(body, "usl")).Some?
    && CoerceNumber(num, Field(body, "lsl")).Some?
  }

  /**
   * `ZMeasurementProgramStep.safeParse(body)`.  Only the numeric fields can make it fail; the
   * tolerance bounds and the target are not compared with each other; `name` falls back to
   * "undefined" and `description` stays absent when the form lacks them.
   */
  function ParseProgramStep(num: NumberParser, body: FormBag): (r: Option<MeasurementProgramStep>)
    ensures r.Some? <==> StepIntsOk(num, body) && StepNumbersOk(num, body)
    ensures r.Some? ==>
      && r.value.programId as real == num(body["programId"]).value
      && r.value.order as real == num(body["order"]).value
      && r.value.measurementUnitId as real == num(body["measurementUnitId"]).value
      && r.value.instrumentId as real == num(body["instrumentId"]).value
      && r.value.targetValue == num(body["targetValue"]).value
      && r.value.usl == num(body["usl"]).value
      && r.value.lsl == num(body["lsl"]).value
      && r.value.name == CoerceString(Field(body, "name"))
      && r.value.description == Field(body, "description")
  {
    if StepIntsOk(num, body) && StepNumbersOk(num, body) then
      Some(MeasurementProgramStep(
        description := Field(body, "description"),
        instrumentId := CoerceInt(num, Field(body, "instrumentId")).value,
        lsl := CoerceNumber(num, Field(body, "lsl")).value,
        measurementUnitId := CoerceInt(num, Field(body, "measurementUnitId")).value,
        name := CoerceString(Field(body, "name")),
        order := CoerceInt(num, Field(body, "order")).value,
        programId := CoerceInt(num, Field(body, "programId")).value,
        targetValue := CoerceNumber(num, Field(body, "targetValue")).value,
        usl := CoerceNumber(num, Field(body, "usl")).value))
    else None
  }

  /** A form without `name` still parses, and the step is named "undefined". */
  lemma MissingNameAccepted(num: NumberParser, body: FormBag)
    requires StepIntsOk(num, body) && StepNumbersOk(num, body)
    ensures var r := ParseProgramStep(num, body - {"name"});
      r.Some? && r.value.name == "undefined"
  {
    var b := body - {"name"};
    assert Field(b, "name") == None;
    assert forall k :: k != "name" ==> Field(b, k) == Field(body, k);
  }

  /** Only the four integer fields and the three number fields decide whether a step form is accepted. */
  lemma StepAcceptanceIgnoresText(num: NumberParser, body: FormBag, name: string, description: string)
    ensures ParseProgramStep(num, body["name" := name]["description" := description]).Some?
        <==> ParseProgramStep(num, body).Some?
  {
    var b := body["name" := name]["description" := description];
    assert forall k :: k != "name" && k != "description" ==> Field(b, k) == Field(body, k);
  }

  predicate InstrumentNumbersOk(num: NumberParser, body: FormBag)
  {
    && CoerceNumber(num, Field(body, "upperLimit")).Some?
    && CoerceNumber(num, Field(body, "lowerLimit")).Some?
    && CoerceNumber(num, Field(body, "resolution")).Some?
    && CoerceNumber(num, Field(body, "accuracy")).Some?
    && CoerceInt(num, Field(body, "measurementUnitId")).Some?
  }

  /**
   * `ZInstrument.safeParse(body)`.  Text and date fields are taken as they are (no date is
   * checked), the limits are not compared, the unit key must be an integer, and `notes` is
   * always present because a form never carries a null.
   */
  function ParseInstrument(num: NumberParser, body: FormBag): (r: Option<Instrument>)
    ensures r.Some? <==> InstrumentNumbersOk(num, body)
    ensures r.Some? ==>
      && r.value.upperLimit == num(body["upperLimit"]).value
      && r.value.lowerLimit == num(body["lowerLimit"]).value
      && r.value.resolution == num(body["resolution"]).value
      && r.value.accuracy == num(body["accuracy"]).value
      && r.value.measurementUnitId as real == num(body["measurementUnitId"]).value
      && r.value.name == CoerceString(Field(body, "name"))
      && r.value.manufacturer == CoerceString(Field(body, "manufacturer"))
      && r.value.model == CoerceString(Field(body, "model"))
      && r.value.serialNumber == CoerceString(Field(body, "serialNumber"))
      && r.value.verificationDate == CoerceString(Field(body, "verificationDate"))
      && r.value.verificationDueDate == CoerceString(Field(body, "verificationDueDate"))
      && r.value.calibrationDate == CoerceString(Field(body, "calibrationDate"))
      && r.value.location == CoerceString(Field(body, "location"))
      && r.value.notes == Some(CoerceString(Field(body, "notes")))
  {
    if InstrumentNumbersOk(num, body) then
      Some(Instrument(
        accuracy := CoerceNumber(num, Field(body, "accuracy")).value,
        calibrationDate := CoerceString(Field(body, "calibrationDate")),
        location := CoerceString(Field(body, "location")),
        lowerLimit := CoerceNumber(num, Field(body, "lowerLimit")).value,
        manufacturer := CoerceString(Field(body, "manufacturer")),
        measurementUnitId := CoerceInt(num, Field(body, "measurementUnitId")).value,
        model := CoerceString(Field(body, "model")),
        name := CoerceString(Field(body, "name")),
        notes := Some(CoerceString(Field(body, "notes"))),
        resolution := CoerceNumber(num, Field(body, "resolution")).value,
        serialNumber := CoerceString(Field(body, "serialNumber")),
        upperLimit := CoerceNumber(num, Field(body, "upperLimit")).value,
        verificationDate := CoerceString(Field(body, "verificationDate")),
        verificationDueDate := CoerceString(Field(body, "verificationDueDate"))))
    else None
  }

  /** Whatever the date fields hold, they do not decide whether an instrument form is accepted. */
  lemma InstrumentDatesUnchecked(num: NumberParser, body: FormBag, d1: string, d2: string, d3: string)
    ensures ParseInstrument(num, body["verificationDate" := d1]["verificationDueDate" := d2]["calibrationDate" := d3]).Some?
        <==> ParseInstrument(num, body).Some?
  {
    var b := body["verificationDate" := d1]["verificationDueDate" := d2]["calibrationDate" := d3];
    assert forall k :: k != "verificationDate" && k != "verificationDueDate" && k != "calibrationDate" ==>
                         Field(b, k) == Field(body, k);
  }

  /** The object `ZMeasurementStep` yields: the schema declares no field. */
  datatype NoFields = NoFields

  /** `ZMeasurementStep.safeParse(body)`: every form is accepted, and every field is dropped. */
  function ParseMeasurementStep(body: FormBag): (r: Option<NoFields>)
    ensures r.Some?
  {
    Some(NoFields)
  }
}
