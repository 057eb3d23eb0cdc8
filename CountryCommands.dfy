/**
 * Countries (src-tauri/src/commands/countries.rs): ISO 3166-1 alpha-2 codes
 * are trimmed and upper-cased and must then be two ASCII letters; the code
 * column is UNIQUE. Countries can be imported from the list a public holiday
 * service offers (a parameter here), and all countries and their holidays
 * can be deleted at once.
 */
module CountryCommands {
  import opened Base
  import opened Tables
  import WorkingDays

  /** CreateCountryInput. */
  datatype CountryInput = CountryInput(isoCode: string, name: string)

  /** A country as the public holiday service lists it. */
  datatype ServiceCountry = ServiceCountry(countryCode: string, name: string)

  const InvalidCode: string := "ISO code must be exactly 2 uppercase letters (e.g., US, GB, DE)"

  function DuplicateCode(code: string): string
  {
    "Country with ISO code '" + code + "' already exists"
  }

  function NotInService(code: string): string
  {
    "Country code '" + code + "' not found in API"
  }

  predicate IsAsciiAlpha(c: char)
  {
    'A' <= c <= 'Z' || 'a' <= c <= 'z'
  }

  /** Two upper-case ASCII letters: the only codes the table receives from
      create and update. */
  predicate Canonical(code: string)
  {
    |code| == 2 && forall k :: 0 <= k < 2 ==> 'A' <= code[k] <= 'Z'
  }

  // ---------------------------------------------------------------------
  // The code check
  // ---------------------------------------------------------------------

  /** The code check of create and update: trim, upper-case, then require
      exactly two ASCII letters. */
  function ValidateCode(raw: string): (r: Result<string, string>)
    ensures r.Err? ==> r.error == InvalidCode
  {
    var code := Upper(WorkingDays.Trim(raw));
    if |code| == 2 && forall k :: 0 <= k < |code| ==> IsAsciiAlpha(code[k]) then Ok(code)
    else Err(InvalidCode)
  }

  /** A code is accepted exactly when, trimmed, it is two ASCII letters of
      either case, and what is kept is its canonical upper-case form. */
  lemma {:induction false} CodeAcceptance(raw: string)
    ensures ValidateCode(raw).Ok?
            <==> |WorkingDays.Trim(raw)| == 2
                 && IsAsciiAlpha(WorkingDays.Trim(raw)[0]) && IsAsciiAlpha(WorkingDays.Trim(raw)[1])
    ensures ValidateCode(raw).Ok? ==> Canonical(ValidateCode(raw).value)
                                      && ValidateCode(raw).value == Upper(WorkingDays.Trim(raw))
  {
    var trimmed := WorkingDays.Trim(raw);
    var code := Upper(trimmed);
    if |trimmed| == 2 {
      assert IsAsciiAlpha(code[0]) <==> IsAsciiAlpha(trimmed[0]);
      assert IsAsciiAlpha(code[1]) <==> IsAsciiAlpha(trimmed[1]);
    }
  }

  /** The canonical form passes the check unchanged, so normalising twice
      is normalising once. */
  lemma {:induction false} CanonicalIsFixed(code: string)
    requires Canonical(code)
    ensures ValidateCode(code) == Ok(code)
  {
    WorkingDays.TrimPlain(code);
    assert Upper(code) == code;
  }

  // ---------------------------------------------------------------------
  // Create and update
  // ---------------------------------------------------------------------

  /** Some country other than `id` has the code. */
  predicate CodeTakenByOther(countries: seq<Country>, code: string, id: int)
  {
    exists k :: 0 <= k < |countries| && countries[k].isoCode == code && countries[k].id != id
  }

  predicate HasCountry(countries: seq<Country>, id: int)
  {
    exists k :: 0 <= k < |countries| && countries[k].id == id
  }

  /** `create_country`: a taken code breaks the UNIQUE constraint, which
      is reported with the code. */
  function Create(t: Tables, input: CountryInput): (e: Effect<Country>)
    ensures e.result.Err? ==> e.tables == t
  {
    match ValidateCode(input.isoCode)
    case Err(m) => Effect(Err(m), t)
    case Ok(code) =>
      if CountryByCode(t.countries, code).Some? then Effect(Err(DuplicateCode(code)), t)
      else
        var row := Country(t.nextId, code, input.name);
        Effect(Ok(row), t.(countries := t.countries + [row], nextId := t.nextId + 1))
  }

  function ReviseRows(countries: seq<Country>, id: int, code: string, name: string): (out: seq<Country>)
    ensures |out| == |countries|
    ensures forall k :: 0 <= k < |countries| ==>
              out[k] == (if countries[k].id == id then Country(id, code, name) else countries[k])
  {
    seq(|countries|, k requires 0 <= k < |countries| =>
      if countries[k].id == id then Country(id, code, name) else countries[k])
  }

  /** `update_country`: an UPDATE of a missing id changes nothing and the
      fetch that follows fails. */
  function Update(t: Tables, id: int, input: CountryInput): (e: Effect<Country>)
    ensures e.result.Err? ==> e.tables == t
  {
    match ValidateCode(input.isoCode)
    case Err(m) => Effect(Err(m), t)
    case Ok(code) =>
      if !HasCountry(t.countries, id) then Effect(Err(RowNotFound), t)
      else if CodeTakenByOther(t.countries, code, id) then Effect(Err(DuplicateCode(code)), t)
      else Effect(Ok(Country(id, code, input.name)), t.(countries := ReviseRows(t.countries, id, code, input.name)))
  }

  /** No two countries share a code (the column is UNIQUE). */
  predicate UniqueCodes(countries: seq<Country>)
  {
    forall i, j :: 0 <= i < |countries| && 0 <= j < |countries| && i != j ==> countries[i].isoCode != countries[j].isoCode
  }

  predicate UniqueIds(countries: seq<Country>)
  {
    forall i, j :: 0 <= i < |countries| && 0 <= j < |countries| && i != j ==> countries[i].id != countries[j].id
  }

  /** A created country carries the canonical form of the given code, which
      no country had before; a failed create changes nothing; create keeps
      the codes unique. */
  lemma {:induction false} CreatedCountryIsValid(t: Tables, input: CountryInput)
    ensures Create(t, input).result.Err? ==> Create(t, input).tables == t
    ensures Create(t, input).result.Ok? ==>
              var c := Create(t, input).result.value;
              Canonical(c.isoCode) && c.isoCode == Upper(WorkingDays.Trim(input.isoCode))
              && c.name == input.name && c.id == t.nextId
              && (forall d :: d in t.countries ==> d.isoCode != c.isoCode)
              && Create(t, input).tables.countries == t.countries + [c]
    ensures UniqueCodes(t.countries) ==> UniqueCodes(Create(t, input).tables.countries)
  {
    CodeAcceptance(input.isoCode);
    var e := Create(t, input);
    if e.result.Ok? {
      var c := e.result.value;
      var cs := e.tables.countries;
      assert forall d :: d in t.countries ==> d.isoCode != c.isoCode;
      if UniqueCodes(t.countries) {
        forall i, j | 0 <= i < |cs| && 0 <= j < |cs| && i != j ensures cs[i].isoCode != cs[j].isoCode {
          if i == |t.countries| {
            assert cs[j] in t.countries;
          } else if j == |t.countries| {
            assert cs[i] in t.countries;
          }
        }
      }
    }
  }

  /** An updated country carries the canonical form of the given code,
      which no other country has; a failed update changes nothing; update
      keeps the codes unique. */
  lemma {:induction false} UpdatedCountryIsValid(t: Tables, id: int, input: CountryInput)
    ensures Update(t, id, input).result.Err? ==> Update(t, id, input).tables == t
    ensures Update(t, id, input).result.Ok? ==>
              var c := Update(t, id, input).result.value;
              Canonical(c.isoCode) && c.isoCode == Upper(WorkingDays.Trim(input.isoCode))
              && c.id == id && HasCountry(t.countries, id)
              && forall d :: d in t.countries && d.id != id ==> d.isoCode != c.isoCode
    ensures UniqueCodes(t.countries) && UniqueIds(t.countries) ==> UniqueCodes(Update(t, id, input).tables.countries)
  {
    CodeAcceptance(input.isoCode);
    var e := Update(t, id, input);
    if e.result.Ok? {
      var code := e.result.value.isoCode;
      var cs := e.tables.countries;
      var old_ := t.countries;
      assert forall k :: 0 <= k < |old_| && old_[k].id != id ==> old_[k].isoCode != code;
      forall d | d in old_ && d.id != id ensures d.isoCode != code {
        var k :| 0 <= k < |old_| && old_[k] == d;
      }
      if UniqueCodes(old_) && UniqueIds(old_) {
        forall i, j | 0 <= i < |cs| && 0 <= j < |cs| && i != j ensures cs[i].isoCode != cs[j].isoCode {
          if old_[i].id == id {
            assert old_[j].id != id;
          } else if old_[j].id == id {
            assert old_[i].id != id;
          }
        }
      }
    }
  }

  // ---------------------------------------------------------------------
  // Import from the service's country list
  // ---------------------------------------------------------------------

  /** The first country the service lists under the code. */
  function FindServiceCountry(available: seq<ServiceCountry>, code: string): (r: Option<ServiceCountry>)
    ensures r.Some? ==> r.value in available && r.value.countryCode == code
    ensures r.None? ==> forall k :: 0 <= k < |available| ==> available[k].countryCode != code
    decreases |available|
  {
    if available == [] then None
    else if available[0].countryCode == code then Some(available[0])
    else FindServiceCountry(available[1..], code)
  }

  /** The state of the import loop: the tables, the countries listed so far,
      and the failure that ended the loop, if any. */
  datatype CountryImport = CountryImport(tables: Tables, countries: seq<Country>, failure: Option<string>)

  /** One turn of the import loop: stop at a code the service does not
      list; list a country that already has the code without inserting it;
      insert any other under the service's code and name. */
  function ImportStep(run: CountryImport, available: seq<ServiceCountry>, code: string): CountryImport
  {
    if run.failure.Some? then run
    else
      var upper := Upper(code);
      match FindServiceCountry(available, upper)
      case None => CountryImport(run.tables, run.countries, Some(NotInService(upper)))
      case Some(sc) =>
        match CountryByCode(run.tables.countries, sc.countryCode)
        case Some(c) => CountryImport(run.tables, run.countries + [c], None)
        case None =>
          var row := Country(run.tables.nextId, sc.countryCode, sc.name);
          CountryImport(run.tables.(countries := run.tables.countries + [row], nextId := run.tables.nextId + 1),
                        run.countries + [row], None)
  }

  function ImportRun(t: Tables, available: seq<ServiceCountry>, codes: seq<string>): CountryImport
    decreases |codes|
  {
    if codes == [] then CountryImport(t, [], None)
    else ImportStep(ImportRun(t, available, codes[..|codes| - 1]), available, codes[|codes| - 1])
  }

  /** `import_countries_from_api` with the service's list `available`. The
      inserts are not in a transaction: rows inserted before an unknown code
      stay. */
  function Import(t: Tables, codes: seq<string>, available: Result<seq<ServiceCountry>, string>)
    : (e: Effect<seq<Country>>)
    ensures available.Err? ==> e.tables == t
  {
    match available
    case Err(m) => Effect(Err(m), t)
    case Ok(av) =>
      var run := ImportRun(t, av, codes);
      if run.failure.Some? then Effect(Err(run.failure.value), run.tables)
      else Effect(Ok(run.countries), run.tables)
  }

  lemma {:induction false} ImportRunStep(t: Tables, available: seq<ServiceCountry>, codes: seq<string>, i: int)
    requires 0 <= i < |codes|
    ensures ImportRun(t, available, codes[..i + 1]) == ImportStep(ImportRun(t, available, codes[..i]), available, codes[i])
  {
    assert codes[..i + 1][..i] == codes[..i];
  }

  /** The import fails exactly when some code is not in the service's list. */
  lemma {:induction false} ImportFailsOnUnknownCode(t: Tables, available: seq<ServiceCountry>, codes: seq<string>)
    ensures ImportRun(t, available, codes).failure.Some?
            <==> exists k :: 0 <= k < |codes| && FindServiceCountry(available, Upper(codes[k])).None?
    decreases |codes|
  {
    if codes != [] {
      var init := codes[..|codes| - 1];
      ImportFailsOnUnknownCode(t, available, init);
      assert forall k :: 0 <= k < |init| ==> init[k] == codes[k];
      if FindServiceCountry(available, Upper(codes[|codes| - 1])).None? {
        assert 0 <= |codes| - 1 < |codes|;
      }
    }
  }

  /** A run that has not failed lists, for every code in order, the country
      that now has its upper-case form, whether it existed or was inserted. */
  lemma {:induction false} ImportListsEveryCode(t: Tables, available: seq<ServiceCountry>, codes: seq<string>)
    requires ImportRun(t, available, codes).failure.None?
    ensures |ImportRun(t, available, codes).countries| == |codes|
    ensures forall k :: 0 <= k < |codes| ==>
              ImportRun(t, available, codes).countries[k].isoCode == Upper(codes[k])
              && ImportRun(t, available, codes).countries[k] in ImportRun(t, available, codes).tables.countries
    decreases |codes|
  {
    if codes != [] {
      var init := codes[..|codes| - 1];
      var prev := ImportRun(t, available, init);
      var run := ImportRun(t, available, codes);
      assert codes[..|codes| - 1] == init;
      ListStep(prev, available, codes[|codes| - 1]);
      ImportListsEveryCode(t, available, init);
      {
        forall k | 0 <= k < |codes|
          ensures run.countries[k].isoCode == Upper(codes[k]) && run.countries[k] in run.tables.countries
        {
          if k < |init| {
            assert init[k] == codes[k];
            assert run.countries[k] == prev.countries[k];
          }
        }
      }
    }
  }

  /** A turn that does not fail lists one more country, with the code's
      upper-case form, and keeps every country. */
  lemma {:induction false} ListStep(prev: CountryImport, available: seq<ServiceCountry>, code: string)
    requires ImportStep(prev, available, code).failure.None?
    ensures var run := ImportStep(prev, available, code);
            prev.failure.None?
            && |run.countries| == |prev.countries| + 1
            && run.countries[..|prev.countries|] == prev.countries
            && run.countries[|prev.countries|].isoCode == Upper(code)
            && run.countries[|prev.countries|] in run.tables.countries
            && forall c :: c in prev.tables.countries ==> c in run.tables.countries
  {
  }

  /** The import only appends countries, and never one whose code is taken,
      so the codes stay unique. */
  lemma {:induction false} ImportKeepsCodesUnique(t: Tables, available: seq<ServiceCountry>, codes: seq<string>)
    requires UniqueCodes(t.countries)
    ensures var run := ImportRun(t, available, codes);
            UniqueCodes(run.tables.countries)
            && |run.tables.countries| >= |t.countries| && run.tables.countries[..|t.countries|] == t.countries
            && run.tables.(countries := t.countries, nextId := t.nextId) == t
    decreases |codes|
  {
    if codes != [] {
      var init := codes[..|codes| - 1];
      ImportKeepsCodesUnique(t, available, init);
      var prev := ImportRun(t, available, init);
      var run := ImportRun(t, available, codes);
      var cs := run.tables.countries;
      var ps := prev.tables.countries;
      if |cs| != |ps| {
        assert cs == ps + [cs[|ps|]];
        assert forall d :: d in ps ==> d.isoCode != cs[|ps|].isoCode;
        forall i, j | 0 <= i < |cs| && 0 <= j < |cs| && i != j ensures cs[i].isoCode != cs[j].isoCode {
          if i == |ps| {
            assert cs[j] in ps;
          } else if j == |ps| {
            assert cs[i] in ps;
          }
        }
        assert cs[..|t.countries|] == ps[..|t.countries|];
      }
    }
  }

  // ---------------------------------------------------------------------
  // Deleting every country
  // ---------------------------------------------------------------------

  function WithoutCountry(people: seq<Person>): (out: seq<Person>)
    ensures |out| == |people|
    ensures forall k :: 0 <= k < |people| ==> out[k] == people[k].(countryId := None)
  {
    seq(|people|, k requires 0 <= k < |people| => people[k].(countryId := None))
  }

  /** `delete_all_countries_and_holidays`: clear every person's country,
      then delete every country, whose holidays cascade. The two statements
      commit separately. */
  function DeleteAll(t: Tables, clearError: Option<string>, deleteError: Option<string>): (e: Effect<()>)
    ensures clearError.Some? ==> e.tables == t
    ensures clearError.None? ==> forall k :: 0 <= k < |e.tables.people| ==> e.tables.people[k].countryId.None?
  {
    if clearError.Some? then Effect(Err(clearError.value), t)
    else
      var cleared := t.(people := WithoutCountry(t.people));
      if deleteError.Some? then Effect(Err(deleteError.value), cleared)
      else Effect(Ok(()), cleared.(countries := [], holidays := []))
  }

  /** After a successful delete-all no country or holiday is left and no
      person has a country; people keep every other column, and no other
      table changes. A failing delete still leaves the people cleared. */
  lemma {:induction false} DeleteAllLeavesNoCountry(t: Tables, clearError: Option<string>, deleteError: Option<string>)
    ensures var e := DeleteAll(t, clearError, deleteError);
            e.result.Ok? <==> clearError.None? && deleteError.None?
    ensures var e := DeleteAll(t, clearError, deleteError);
            e.result.Ok? ==>
              e.tables.countries == [] && e.tables.holidays == []
              && |e.tables.people| == |t.people|
              && (forall k :: 0 <= k < |t.people| ==>
                    e.tables.people[k].countryId.None?
                    && e.tables.people[k].(countryId := t.people[k].countryId) == t.people[k])
              && e.tables.(people := t.people, countries := t.countries, holidays := t.holidays) == t
    ensures var e := DeleteAll(t, clearError, deleteError);
            clearError.None? && deleteError.Some? ==>
              e.tables.countries == t.countries && e.tables.holidays == t.holidays
              && forall p :: p in e.tables.people ==> p.countryId.None?
  {
  }

  // ---------------------------------------------------------------------
  // The commands on the database
  // ---------------------------------------------------------------------

  /** `create_country` on the database. */
  method CreateCountry(db: Database, input: CountryInput) returns (r: Result<Country, string>)
    modifies db
    ensures Effect(r, db.Snapshot()) == Create(old(db.Snapshot()), input)
  {
    var code := ValidateCode(input.isoCode);
    if code.Err? {
      return Err(code.error);
    }
    if CountryByCode(db.countries, code.value).Some? {
      return Err(DuplicateCode(code.value));
    }
    var row := Country(db.nextId, code.value, input.name);
    db.countries := db.countries + [row];
    db.nextId := db.nextId + 1;
    r := Ok(row);
  }

  /** `update_country` on the database. */
  method UpdateCountry(db: Database, id: int, input: CountryInput) returns (r: Result<Country, string>)
    modifies db
    ensures Effect(r, db.Snapshot()) == Update(old(db.Snapshot()), id, input)
  {
    var code := ValidateCode(input.isoCode);
    if code.Err? {
      return Err(code.error);
    }
    if !HasCountry(db.countries, id) {
      return Err(RowNotFound);
    }
    if CodeTakenByOther(db.countries, code.value, id) {
      return Err(DuplicateCode(code.value));
    }
    db.countries := ReviseRows(db.countries, id, code.value, input.name);
    r := Ok(Country(id, code.value, input.name));
  }

  /** One turn of the import loop on the database. */
  method ImportOne(db: Database, available: seq<ServiceCountry>, code: string, listed: seq<Country>)
    returns (listedAfter: seq<Country>, failure: Option<string>)
    modifies db
    ensures ImportStep(CountryImport(old(db.Snapshot()), listed, None), available, code)
            == CountryImport(db.Snapshot(), listedAfter, failure)
  {
    var upper := Upper(code);
    var sc := FindServiceCountry(available, upper);
    if sc.None? {
      return listed, Some(NotInService(upper));
    }
    var existing := CountryByCode(db.countries, sc.value.countryCode);
    if existing.Some? {
      return listed + [existing.value], None;
    }
    var row := Country(db.nextId, sc.value.countryCode, sc.value.name);
    db.countries := db.countries + [row];
    db.nextId := db.nextId + 1;
    listedAfter, failure := listed + [row], None;
  }

  /** `import_countries_from_api` on the database. */
  method ImportCountries(db: Database, codes: seq<string>, available: Result<seq<ServiceCountry>, string>)
    returns (r: Result<seq<Country>, string>)
    modifies db
    ensures Effect(r, db.Snapshot()) == Import(old(db.Snapshot()), codes, available)
  {
    if available.Err? {
      return Err(available.error);
    }
    var av := available.value;
    ghost var t0 := db.Snapshot();
    var listed: seq<Country> := [];
    var i := 0;
    while i < |codes|
      invariant 0 <= i <= |codes|
      invariant ImportRun(t0, av, codes[..i]) == CountryImport(db.Snapshot(), listed, None)
    {
      ImportRunStep(t0, av, codes, i);
      var failure;
      listed, failure := ImportOne(db, av, codes[i], listed);
      if failure.Some? {
        AbortStays(t0, av, codes, i + 1);
        return Err(failure.value);
      }
      i := i + 1;
    }
    assert codes[..i] == codes;
    r := Ok(listed);
  }

  /** Once the loop has failed, later codes change nothing. */
  lemma {:induction false} AbortStays(t: Tables, available: seq<ServiceCountry>, codes: seq<string>, j: int)
    requires 0 <= j <= |codes| && ImportRun(t, available, codes[..j]).failure.Some?
    ensures ImportRun(t, available, codes) == ImportRun(t, available, codes[..j])
    decreases |codes| - j
  {
    if j < |codes| {
      ImportRunStep(t, available, codes, j);
      AbortStays(t, available, codes, j + 1);
    } else {
      assert codes[..j] == codes;
    }
  }

  /** `delete_all_countries_and_holidays` on the database. */
  method DeleteAllCountriesAndHolidays(db: Database, clearError: Option<string>, deleteError: Option<string>)
    returns (r: Result<(), string>)
    modifies db
    ensures Effect(r, db.Snapshot()) == DeleteAll(old(db.Snapshot()), clearError, deleteError)
  {
    if clearError.Some? {
      return Err(clearError.value);
    }
    // UPDATE people SET country_id = NULL
    db.people := WithoutCountry(db.people);
    if deleteError.Some? {
      return Err(deleteError.value);
    }
    // DELETE FROM countries, whose holidays cascade
    db.countries := [];
    db.holidays := [];
    r := Ok(());
  }
}
