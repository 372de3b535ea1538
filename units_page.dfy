/** The list of units of measurement: the loader and creating a unit. */
module UnitsPage {
  import opened Wrappers
  import opened Relational
  import opened Schema
  import opened Store
  import opened Responses

  /** `unitsLoader`: every unit once; a store error gives 500. */
  method UnitsLoader(db: Database, link: Link) returns (r: Loaded<seq<Keyed<MeasurementUnit>>>)
    ensures link.Down? <==> r.Rejected?
    ensures r.Rejected? ==> r.status == 500
    ensures r.Loaded? ==> multiset(Ids(r.value)) == multiset(db.units.rows.Keys)
    ensures r.Loaded? ==> forall x :: x in r.value ==> x.id in db.units.rows && x.row == db.units.rows[x.id]
  {
    var units := SelectAll(db.units.rows, link);
    r := if units.Ok? then Loaded(units.value) else Rejected(500);
  }

  /**
   * `createUnitAction`: insert one unit with empty name and symbol and go to its page; an
   * insert failure gives 500.
   */
  method CreateUnitAction(db: Database, link: Link) returns (reply: Reply)
    requires db.Valid()
    modifies db
    ensures db.Valid()
    ensures link.Down? ==> reply == Thrown(500) && db.Contents() == old(db.Contents())
    ensures link.Up? ==>
      var p := Insert(old(db.units), MeasurementUnit("", ""), true);
      && db.units == p.0
      && db.Contents() == old(db.Contents()).(unit := db.units)
      && reply == if p.1.Ok? then Redirect(PathTo("/units/", p.1.value)) else Thrown(500)
    ensures reply.Redirect? ==>
      && db.units.rows == old(db.units.rows)[old(db.units.next) := MeasurementUnit("", "")]
      && reply.path == PathTo("/units/", old(db.units.next))
  {
    var r := db.InsertUnit(link, "", "");
    reply := if r.Ok? then Redirect(PathTo("/units/", r.value)) else Thrown(500);
  }
}
