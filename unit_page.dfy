/** The page of one unit of measurement: update, delete, and its loader. */
module UnitPage {
  import opened Wrappers
  import opened Relational
  import opened Schema
  import opened Store
  import opened ZodSchemas
  import opened Responses

  /** The update the form sends: the `name` and `symbol` fields it carries. */
  function UnitPatch(form: FormBag): (u: MeasurementUnitUpdate)
    ensures u.name == Field(form, "name") && u.symbol == Field(form, "symbol")
  {
    MeasurementUnitUpdate(Field(form, "name"), Field(form, "symbol"))
  }

  /**
   * `updateUnitAction`: a key that is not a number gives 404 before any write; otherwise
   * `name` and `symbol` of the unit with that key are set, and nothing else; no such unit, or
   * a store error, gives 500.
   */
  method UpdateUnitAction(db: Database, num: NumberParser, param: string, form: FormBag, link: Link) returns (reply: Reply)
    requires db.Valid()
    modifies db
    ensures db.Valid()
    ensures num(param).None? ==> reply == Thrown(404) && db.Contents() == old(db.Contents())
    ensures reply.Thrown? ==> db.Contents() == old(db.Contents())
    ensures num(param).Some? ==>
      var key := KeyOf(num(param).value);
      var ok := link.Up? && key.Some? && key.value in old(db.units.rows);
      && (ok ==> reply == Redirect("/units")
                 && db.units == old(db.units).(rows := old(db.units.rows)[key.value := ApplyUnitUpdate(old(db.units.rows)[key.value], UnitPatch(form))])
                 && db.Contents() == old(db.Contents()).(unit := db.units))
      && (!ok ==> reply == Thrown(500))
  {
    var id := num(param);
    if id.None? {
      return Thrown(404);
    }
    var r := db.UpdateUnit(link, id.value, UnitPatch(form));
    reply := if r.Ok? then Redirect("/units") else Thrown(500);
  }

  /** With both fields sent, the unit ends up with exactly the sent name and symbol. */
  lemma FullFormSetsUnit(u: MeasurementUnit, form: FormBag)
    requires "name" in form && "symbol" in form
    ensures ApplyUnitUpdate(u, UnitPatch(form)) == MeasurementUnit(form["name"], form["symbol"])
  {
  }

  /**
   * `deleteUnitAction`: a key that is not a number gives 404; the delete removes at most the
   * row with that key (a unit that instruments or steps use stays, 500).
   */
  method DeleteUnitAction(db: Database, num: NumberParser, param: string, link: Link) returns (reply: Reply)
    requires db.Valid()
    modifies db
    ensures db.Valid()
    ensures num(param).None? ==> reply == Thrown(404) && db.Contents() == old(db.Contents())
    ensures num(param).Some? ==>
      var p := DeleteRequest(old(db.units), link, num(param).value, UnitsInUse(old(db.Contents())));
      && db.units == p.0
      && db.Contents() == old(db.Contents()).(unit := db.units)
      && reply == if p.1.None? then Redirect("/units") else Thrown(500)
  {
    var id := num(param);
    if id.None? {
      return Thrown(404);
    }
    var err := db.DeleteUnit(link, id.value);
    reply := if err.None? then Redirect("/units") else Thrown(500);
  }

  /** `unitLoader`: a key that is not a number gives 404; no unit with it, or a store error, gives 500. */
  method UnitLoader(db: Database, num: NumberParser, param: string, link: Link) returns (r: Loaded<Keyed<MeasurementUnit>>)
    ensures num(param).None? ==> r == Rejected(404)
    ensures num(param).Some? && r.Rejected? ==> r.status == 500
    ensures r.Loaded? <==> num(param).Some? && link.Up? && KeyOf(num(param).value).Some?
                           && KeyOf(num(param).value).value in db.units.rows
    ensures r.Loaded? ==> KeyOf(num(param).value) == Some(r.value.id) && r.value.row == db.units.rows[r.value.id]
  {
    var id := num(param);
    if id.None? {
      return Rejected(404);
    }
    var unit := SelectById(db.units.rows, link, id.value);
    r := if unit.Ok? then Loaded(unit.value) else Rejected(500);
  }
}
