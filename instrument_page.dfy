/** The page of one instrument: create, edit and delete, and the two loaders. */
module InstrumentPage {
  import opened Wrappers
  import opened Relational
  import opened Schema
  import opened Store
  import opened ZodSchemas
  import opened Responses

  /**
   * `newInstrumentAction`: a form that does not validate gives 400 and writes nothing; a
   * valid one inserts exactly the parsed instrument (500 when the store refuses it, a missing
   * unit among the reasons); then back to the list.
   */
  method NewInstrumentAction(db: Database, num: NumberParser, body: FormBag, link: Link) returns (reply: Reply)
    requires db.Valid()
    modifies db
    ensures db.Valid()
    ensures ParseInstrument(num, body).None? ==> reply == Thrown(400) && db.Contents() == old(db.Contents())
    ensures ParseInstrument(num, body).Some? && link.Down? ==> reply == Thrown(500) && db.Contents() == old(db.Contents())
    ensures ParseInstrument(num, body).Some? && link.Up? ==>
      var i := ParseInstrument(num, body).value;
      var p := Insert(old(db.instruments), i, i.measurementUnitId in old(db.units.rows));
      && db.instruments == p.0
      && db.Contents() == old(db.Contents()).(instrument := db.instruments)
      && reply == if p.1.Ok? then Redirect("/instruments") else Thrown(500)
    ensures reply.Redirect? ==>
      db.instruments.rows == old(db.instruments.rows)[old(db.instruments.next) := ParseInstrument(num, body).value]
  {
    var parsed := ParseInstrument(num, body);
    if parsed.None? {
      return Thrown(400);
    }
    var r := db.InsertInstrument(link, parsed.value);
    reply := if r.Ok? then Redirect("/instruments") else Thrown(500);
  }

  /**
   * `editInstrumentAction`: a key that is not a number gives 404 before the form is read; a
   * form that does not validate gives 400; otherwise every column of the instrument with that
   * key is set, and of no other row; no such row, or a refusal, gives 500.
   */
  method EditInstrumentAction(db: Database, num: NumberParser, param: string, body: FormBag, link: Link)
    returns (reply: Reply)
    requires db.Valid()
    modifies db
    ensures db.Valid()
    ensures num(param).None? ==> reply == Thrown(404) && db.Contents() == old(db.Contents())
    ensures num(param).Some? && ParseInstrument(num, body).None? ==> reply == Thrown(400) && db.Contents() == old(db.Contents())
    ensures reply.Thrown? ==> db.Contents() == old(db.Contents())
    ensures num(param).Some? && ParseInstrument(num, body).Some? ==>
      var i := ParseInstrument(num, body).value;
      var key := KeyOf(num(param).value);
      var ok := link.Up? && key.Some? && key.value in old(db.instruments.rows) && i.measurementUnitId in old(db.units.rows);
      && (ok ==> reply == Redirect("/instruments")
                 && db.instruments == old(db.instruments).(rows := old(db.instruments.rows)[key.value := i])
                 && db.Contents() == old(db.Contents()).(instrument := db.instruments))
      && (!ok ==> reply == Thrown(500))
  {
    var id := num(param);
    if id.None? {
      return Thrown(404);
    }
    var parsed := ParseInstrument(num, body);
    if parsed.None? {
      return Thrown(400);
    }
    var r := db.UpdateInstrument(link, id.value, parsed.value);
    reply := if r.Ok? then Redirect("/instruments") else Thrown(500);
  }

  /**
   * `deleteInstrumentAction`: a key that is not a number gives 404; the delete removes at most
   * the row with that key (an instrument that steps use stays, 500).
   */
  method DeleteInstrumentAction(db: Database, num: NumberParser, param: string, link: Link) returns (reply: Reply)
    requires db.Valid()
    modifies db
    ensures db.Valid()
    ensures num(param).None? ==> reply == Thrown(404) && db.Contents() == old(db.Contents())
    ensures num(param).Some? ==>
      var p := DeleteRequest(old(db.instruments), link, num(param).value, InstrumentsInUse(old(db.Contents())));
      && db.instruments == p.0
      && db.Contents() == old(db.Contents()).(instrument := db.instruments)
      && reply == if p.1.None? then Redirect("/instruments") else Thrown(500)
  {
    var id := num(param);
    if id.None? {
      return Thrown(404);
    }
    var err := db.DeleteInstrument(link, id.value);
    reply := if err.None? then Redirect("/instruments") else Thrown(500);
  }

  /** What the instrument loaders return: the record the form starts from, and every unit. */
  datatype InstrumentData<I> = InstrumentData(instrument: I, units: seq<Keyed<MeasurementUnit>>)

  /**
   * `editInstrumentLoader`: a key that is not a number, or no instrument with it, gives 404;
   * units that cannot be read give 500.
   */
  method EditInstrumentLoader(db: Database, num: NumberParser, param: string, instrumentLink: Link, unitsLink: Link)
    returns (r: Loaded<InstrumentData<Keyed<Instrument>>>)
    ensures num(param).None? ==> r == Rejected(404)
    ensures num(param).Some? ==>
      var found := instrumentLink.Up? && KeyOf(num(param).value).Some? && KeyOf(num(param).value).value in db.instruments.rows;
      && (!found ==> r == Rejected(404))
      && (found && unitsLink.Down? ==> r == Rejected(500))
      && (r.Loaded? <==> found && unitsLink.Up?)
    ensures r.Loaded? ==>
      && KeyOf(num(param).value) == Some(r.value.instrument.id)
      && r.value.instrument.id in db.instruments.rows
      && r.value.instrument.row == db.instruments.rows[r.value.instrument.id]
      && multiset(Ids(r.value.units)) == multiset(db.units.rows.Keys)
      && (forall x :: x in r.value.units ==> x.id in db.units.rows && x.row == db.units.rows[x.id])
  {
    var id := num(param);
    if id.None? {
      return Rejected(404);
    }
    var instrument := SelectById(db.instruments.rows, instrumentLink, id.value);
    if instrument.Err? {
      return Rejected(404);
    }
    var units := SelectAll(db.units.rows, unitsLink);
    if units.Err? {
      return Rejected(500);
    }
    r := Loaded(InstrumentData(instrument.value, units.value));
  }

  /**
   * The record the new-instrument form starts from.  It is not an `Instrument` row: it has a
   * `measurementRange` field the table lacks, and no unit yet.
   */
  datatype InstrumentTemplate = InstrumentTemplate(
    name: string,
    accuracy: real,
    calibrationDate: string,
    verificationDate: string,
    verificationDueDate: string,
    location: string,
    lowerLimit: real,
    upperLimit: real,
    manufacturer: string,
    measurementRange: string,
    model: string,
    notes: string,
    resolution: real,
    serialNumber: string,
    measurementUnitId: Option<int>)

  /** The blank instrument: numbers 0, texts empty, every date the current time, no unit. */
  function BlankInstrument(now: string): (b: InstrumentTemplate)
    ensures b.accuracy == 0.0 && b.lowerLimit == 0.0 && b.upperLimit == 0.0 && b.resolution == 0.0
    ensures b.name == "" && b.location == "" && b.manufacturer == "" && b.measurementRange == ""
    ensures b.model == "" && b.notes == "" && b.serialNumber == ""
    ensures b.calibrationDate == now && b.verificationDate == now && b.verificationDueDate == now
    ensures b.measurementUnitId.None?
  {
    InstrumentTemplate(
      name := "", accuracy := 0.0, calibrationDate := now, verificationDate := now, verificationDueDate := now,
      location := "", lowerLimit := 0.0, upperLimit := 0.0, manufacturer := "", measurementRange := "",
      model := "", notes := "", resolution := 0.0, serialNumber := "", measurementUnitId := None)
  }

  /** `newInstrumentLoader`: the blank instrument and every unit; units that cannot be read give 500. */
  method NewInstrumentLoader(db: Database, now: string, link: Link) returns (r: Loaded<InstrumentData<InstrumentTemplate>>)
    ensures link.Down? <==> r.Rejected?
    ensures r.Rejected? ==> r.status == 500
    ensures r.Loaded? ==>
      && r.value.instrument == BlankInstrument(now)
      && multiset(Ids(r.value.units)) == multiset(db.units.rows.Keys)
      && (forall x :: x in r.value.units ==> x.id in db.units.rows && x.row == db.units.rows[x.id])
  {
    var units := SelectAll(db.units.rows, link);
    if units.Err? {
      return Rejected(500);
    }
    r := Loaded(InstrumentData(BlankInstrument(now), units.value));
  }
}
