/** Farmer registration in app.py: the `Farmer` table of seven required text
    columns and the `/register-farmer` handler that adds one row per submitted
    form. The table is modelled as an append-only sequence of records; the
    database session (`add` then `commit`) is the single append in `Register`. */
module Registration {
  import opened Http

  /** One row of the `Farmer` table, without its generated `id`. */
  datatype Farmer = Farmer(
    name: string,
    farmType: string,
    soilType: string,
    area: string,
    region: string,
    state: string,
    district: string
  )

  /** The form fields the handler reads, in the order it reads them; each is a
      `nullable=False` column of the table. */
  const RequiredFields: seq<string> :=
    ["name", "farm_type", "soil_type", "area", "region", "state", "district"]

  /** The column values of a row, in the order of `RequiredFields`. */
  function Columns(f: Farmer): (cols: seq<string>)
    ensures |cols| == |RequiredFields|
  {
    [f.name, f.farmType, f.soilType, f.area, f.region, f.state, f.district]
  }

  /** The outcome of building a `Farmer` from a form. */
  datatype ParseResult = Parsed(farmer: Farmer) | Missing(field: string)

  /** `Farmer(name=data['name'], ..., district=data['district'])`. The keyword
      arguments are evaluated left to right, so the first required field that
      was not submitted is the one the lookup fails on. */
  function ParseFarmer(form: Form): (r: ParseResult)
    ensures r.Parsed? <==> forall i :: 0 <= i < |RequiredFields| ==> RequiredFields[i] in form
    ensures r.Parsed? ==>
              forall i :: 0 <= i < |RequiredFields| ==> Columns(r.farmer)[i] == form[RequiredFields[i]]
    ensures r.Missing? ==>
              exists i :: 0 <= i < |RequiredFields| && r.field == RequiredFields[i]
                          && RequiredFields[i] !in form
                          && forall j :: 0 <= j < i ==> RequiredFields[j] in form
  {
    if "name" !in form then assert RequiredFields[0] == "name"; Missing("name")
    else if "farm_type" !in form then assert RequiredFields[1] == "farm_type"; Missing("farm_type")
    else if "soil_type" !in form then assert RequiredFields[2] == "soil_type"; Missing("soil_type")
    else if "area" !in form then assert RequiredFields[3] == "area"; Missing("area")
    else if "region" !in form then assert RequiredFields[4] == "region"; Missing("region")
    else if "state" !in form then assert RequiredFields[5] == "state"; Missing("state")
    else if "district" !in form then assert RequiredFields[6] == "district"; Missing("district")
    else
      Parsed(Farmer(form["name"], form["farm_type"], form["soil_type"], form["area"],
                    form["region"], form["state"], form["district"]))
  }

  /** The form a browser submits for a given registration. */
  function FormOf(f: Farmer): (form: Form)
    ensures forall i :: 0 <= i < |RequiredFields| ==>
              RequiredFields[i] in form && form[RequiredFields[i]] == Columns(f)[i]
  {
    map["name" := f.name, "farm_type" := f.farmType, "soil_type" := f.soilType,
        "area" := f.area, "region" := f.region, "state" := f.state,
        "district" := f.district]
  }

  /** Submitting a registration's own form yields exactly that registration,
      whatever other fields come with it. */
  lemma ParseFormOf(f: Farmer, extra: Form)
    ensures ParseFarmer(extra + FormOf(f)) == Parsed(f)
  {
    var form := extra + FormOf(f);
    var r := ParseFarmer(form);
    assert r.Parsed?;
    assert Columns(r.farmer) == Columns(f);
  }

  /** The table after one registration request. */
  function AfterRegister(rows: seq<Farmer>, form: Form): (rows': seq<Farmer>)
    ensures ParseFarmer(form).Parsed? ==> rows' == rows + [ParseFarmer(form).farmer]
    ensures ParseFarmer(form).Missing? ==> rows' == rows
  {
    match ParseFarmer(form)
    case Parsed(farmer) => rows + [farmer]
    case Missing(_) => rows
  }

  /** A request with all seven fields adds exactly one row, holding the
      submitted values, after the untouched old rows; a request missing any of
      them leaves the table as it was. */
  lemma RegisterOneRow(rows: seq<Farmer>, form: Form)
    ensures (forall i :: 0 <= i < |RequiredFields| ==> RequiredFields[i] in form) ==>
              var rows' := AfterRegister(rows, form);
              && |rows'| == |rows| + 1
              && rows'[..|rows|] == rows
              && forall i :: 0 <= i < |RequiredFields| ==>
                   Columns(rows'[|rows|])[i] == form[RequiredFields[i]]
    ensures (exists i :: 0 <= i < |RequiredFields| && RequiredFields[i] !in form) ==>
              AfterRegister(rows, form) == rows
  {
    var rows' := AfterRegister(rows, form);
    match ParseFarmer(form)
    case Parsed(f) =>
      assert rows'[..|rows|] == rows;
      assert rows'[|rows|] == f;
    case Missing(_) =>
  }

  /** The table after a series of registration requests, in arrival order. */
  function AfterAll(rows: seq<Farmer>, forms: seq<Form>): seq<Farmer>
    decreases |forms|
  {
    if forms == [] then rows else AfterAll(AfterRegister(rows, forms[0]), forms[1..])
  }

  /** The registrations that a series of requests carries, in order. */
  function Accepted(forms: seq<Form>): (farmers: seq<Farmer>)
    ensures |farmers| <= |forms|
  {
    if forms == [] then []
    else
      match ParseFarmer(forms[0])
      case Parsed(f) => [f] + Accepted(forms[1..])
      case Missing(_) => Accepted(forms[1..])
  }

  /** The table is append-only: whatever the requests, the earlier rows are kept
      unchanged and in place, and the new rows are the complete submissions in
      the order they arrived. */
  lemma {:induction false} AfterAllAppends(rows: seq<Farmer>, forms: seq<Form>)
    ensures AfterAll(rows, forms) == rows + Accepted(forms)
    ensures rows <= AfterAll(rows, forms)
    decreases |forms|
  {
    if forms != [] {
      var next := AfterRegister(rows, forms[0]);
      AfterAllAppends(next, forms[1..]);
      match ParseFarmer(forms[0])
      case Parsed(f) =>
        assert rows + [f] + Accepted(forms[1..]) == rows + ([f] + Accepted(forms[1..]));
      case Missing(_) =>
    }
  }

  const SuccessMessage := "\U{E2}\U{153}\U{2026} Farmer registered successfully!"

  /** The `Farmer` table as the application sees it. */
  class FarmerStore {
    var rows: seq<Farmer>

    /** `db.create_all()` on a fresh database. */
    constructor ()
      ensures rows == []
    {
      rows := [];
    }

    /** The `/register-farmer` handler: build the row from the form, then
        `db.session.add` and `db.session.commit`. */
    method Register(form: Form) returns (r: Response)
      modifies this
      ensures rows == AfterRegister(old(rows), form)
      ensures |rows| == |old(rows)| + (if ParseFarmer(form).Parsed? then 1 else 0)
      ensures ParseFarmer(form).Parsed? ==>
                r == Page("success.html", SuccessMessage)
                && rows[|old(rows)|] == ParseFarmer(form).farmer
      ensures ParseFarmer(form).Missing? ==> r == MissingFormField(ParseFarmer(form).field)
      ensures old(rows) <= rows
    {
      var parsed := ParseFarmer(form);
      match parsed
      case Missing(field) =>
        r := MissingFormField(field);
      case Parsed(farmer) =>
        rows := rows + [farmer];
        r := Page("success.html", SuccessMessage);
    }
  }
}
