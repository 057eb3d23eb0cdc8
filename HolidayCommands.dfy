/**
 * Public holidays of a country (src-tauri/src/commands/holidays.rs):
 * creating and updating one holiday with its date-order and overlap checks,
 * listing the holidays that touch a person's date range, creating a batch in
 * one transaction, and previewing and importing the holidays that a public
 * holiday service reports for a year. The service's answers are parameters.
 */
module HolidayCommands {
  import opened Base
  import opened Tables
  import Calendar

  /** CreateHolidayInput. */
  datatype HolidayInput = HolidayInput(countryId: int, name: Option<string>, startDate: int, endDate: int)

  /** A holiday as the public holiday service reports it: a single day. */
  datatype ServiceHoliday = ServiceHoliday(date: int, name: string, localName: string)

  datatype PreviewItem = PreviewItem(date: int, name: string, localName: string, isDuplicate: bool)

  datatype ImportPreview = ImportPreview(countryCode: string, countryName: string, year: int,
                                         holidays: seq<PreviewItem>, totalCount: nat,
                                         duplicateCount: nat, newCount: nat)

  datatype ImportResult = ImportResult(countryCode: string, year: int, importedCount: nat, skippedCount: nat)

  const StartAfterEnd: string := "Start date must be on or before end date"
  const BatchStartAfterEnd: string := "Start date must be on or before end date for all holidays"
  const OverlapRefused: string :=
    "A holiday already exists for this country during this period. Overlapping holidays are not allowed."

  /** The message of a preview or import for a code no country has. */
  function UnknownCountry(code: string): string
  {
    "Country with code '" + code + "' not found in database"
  }

  // ---------------------------------------------------------------------
  // Creating and updating one holiday
  // ---------------------------------------------------------------------

  /** A holiday of `countryId` that shares at least one day with [start, end]. */
  predicate Overlaps(h: Holiday, countryId: int, start: int, end: int)
  {
    h.countryId == countryId && h.startDate <= end && h.endDate >= start
  }

  /** The overlap query: SELECT COUNT(*) of the holidays of the country that
      overlap the range, leaving out the holiday `except` when given. */
  function OverlapCount(hs: seq<Holiday>, input: HolidayInput, except: Option<int>): nat
  {
    Count(hs, (h: Holiday) => Overlaps(h, input.countryId, input.startDate, input.endDate)
                              && (except.None? || h.id != except.value))
  }

  /** The row an INSERT stores. */
  function NewHoliday(id: int, input: HolidayInput): Holiday
  {
    Holiday(id, input.countryId, input.name, input.startDate, input.endDate)
  }

  /** INSERT INTO holidays: fails on the country foreign key. */
  function Stored(t: Tables, input: HolidayInput): (r: Result<Tables, string>)
    ensures r.Ok? <==> CountryById(t.countries, input.countryId).Some?
    ensures r.Err? ==> r.error == ForeignKeyFailed
    ensures r.Ok? ==> r.value == t.(holidays := t.holidays + [NewHoliday(t.nextId, input)], nextId := t.nextId + 1)
  {
    if CountryById(t.countries, input.countryId).None? then Err(ForeignKeyFailed)
    else Ok(t.(holidays := t.holidays + [NewHoliday(t.nextId, input)], nextId := t.nextId + 1))
  }

  /** `create_holiday`. */
  function Create(t: Tables, input: HolidayInput): (e: Effect<Holiday>)
    ensures e.result.Err? ==> e.tables == t
  {
    if input.startDate > input.endDate then Effect(Err(StartAfterEnd), t)
    else if OverlapCount(t.holidays, input, None) > 0 then Effect(Err(OverlapRefused), t)
    else match Stored(t, input)
      case Err(m) => Effect(Err(m), t)
      case Ok(u) => Effect(Ok(NewHoliday(t.nextId, input)), u)
  }

  /** UPDATE holidays SET … WHERE id = ? */
  function ReviseRows(hs: seq<Holiday>, id: int, input: HolidayInput): (out: seq<Holiday>)
    ensures |out| == |hs|
    ensures forall k :: 0 <= k < |hs| ==> out[k] == (if hs[k].id == id then NewHoliday(id, input) else hs[k])
  {
    seq(|hs|, k requires 0 <= k < |hs| => if hs[k].id == id then NewHoliday(id, input) else hs[k])
  }

  /** Whether some holiday has the id. */
  predicate HasHoliday(hs: seq<Holiday>, id: int)
  {
    exists k :: 0 <= k < |hs| && hs[k].id == id
  }

  /** `update_holiday`: an UPDATE that matches no row succeeds, and the
      fetch that follows it fails. */
  function Update(t: Tables, id: int, input: HolidayInput): (e: Effect<Holiday>)
    ensures e.result.Err? ==> e.tables == t
  {
    if input.startDate > input.endDate then Effect(Err(StartAfterEnd), t)
    else if OverlapCount(t.holidays, input, Some(id)) > 0 then Effect(Err(OverlapRefused), t)
    else if !HasHoliday(t.holidays, id) then Effect(Err(RowNotFound), t)
    else if CountryById(t.countries, input.countryId).None? then Effect(Err(ForeignKeyFailed), t)
    else Effect(Ok(NewHoliday(id, input)), t.(holidays := ReviseRows(t.holidays, id, input)))
  }

  /** No two holidays of one country share a day. */
  predicate NoOverlap(hs: seq<Holiday>)
  {
    forall i, j :: 0 <= i < |hs| && 0 <= j < |hs| && i != j
      ==> !Overlaps(hs[j], hs[i].countryId, hs[i].startDate, hs[i].endDate)
  }

  /** Holiday ids are a primary key. */
  predicate UniqueIds(hs: seq<Holiday>)
  {
    forall i, j :: 0 <= i < |hs| && 0 <= j < |hs| && i != j ==> hs[i].id != hs[j].id
  }

  /** Create refuses a range that ends before it starts, and a range that
      shares a day with any holiday of the same country. */
  lemma {:induction false} CreateRefusals(t: Tables, input: HolidayInput)
    ensures input.startDate > input.endDate ==> Create(t, input) == Effect(Err(StartAfterEnd), t)
    ensures input.startDate <= input.endDate
            && (exists k :: 0 <= k < |t.holidays|
                             && Overlaps(t.holidays[k], input.countryId, input.startDate, input.endDate))
            ==> Create(t, input) == Effect(Err(OverlapRefused), t)
  {
    if input.startDate <= input.endDate
       && exists k :: 0 <= k < |t.holidays|
                      && Overlaps(t.holidays[k], input.countryId, input.startDate, input.endDate) {
      var k :| 0 <= k < |t.holidays| && Overlaps(t.holidays[k], input.countryId, input.startDate, input.endDate);
      assert t.holidays[k] in t.holidays;
    }
  }

  /** A created holiday is well ordered, shares no day with another holiday
      of its country, and is appended under a fresh id; a failed create
      changes nothing. */
  lemma {:induction false} CreatedHolidayIsValid(t: Tables, input: HolidayInput)
    ensures Create(t, input).result.Err? ==> Create(t, input).tables == t
    ensures Create(t, input).result.Ok? ==>
              input.startDate <= input.endDate
              && CountryById(t.countries, input.countryId).Some?
              && (forall h :: h in t.holidays ==> !Overlaps(h, input.countryId, input.startDate, input.endDate))
              && Create(t, input).result.value == NewHoliday(t.nextId, input)
              && Create(t, input).tables.holidays == t.holidays + [NewHoliday(t.nextId, input)]
  {
  }

  /** Create keeps the holidays of every country free of overlaps. */
  lemma {:induction false} CreatePreservesNoOverlap(t: Tables, input: HolidayInput)
    requires NoOverlap(t.holidays)
    ensures NoOverlap(Create(t, input).tables.holidays)
  {
    var e := Create(t, input);
    if e.result.Ok? {
      var hs := e.tables.holidays;
      var n := |t.holidays|;
      assert hs == t.holidays + [NewHoliday(t.nextId, input)];
      forall i, j | 0 <= i < |hs| && 0 <= j < |hs| && i != j
        ensures !Overlaps(hs[j], hs[i].countryId, hs[i].startDate, hs[i].endDate)
      {
        if i == n {
          assert hs[j] in t.holidays;
        } else if j == n {
          assert hs[i] in t.holidays;
          assert !Overlaps(hs[i], input.countryId, input.startDate, input.endDate);
        }
      }
    }
  }

  /** Update ignores the holiday it rewrites: with no other holiday of the
      country in the way, an existing holiday in an existing country can
      always be updated. */
  lemma {:induction false} UpdateIgnoresItself(t: Tables, id: int, input: HolidayInput)
    requires input.startDate <= input.endDate
    requires HasHoliday(t.holidays, id) && CountryById(t.countries, input.countryId).Some?
    requires forall h :: h in t.holidays && h.id != id ==> !Overlaps(h, input.countryId, input.startDate, input.endDate)
    ensures Update(t, id, input).result == Ok(NewHoliday(id, input))
  {
  }

  /** An updated holiday shares no day with any other holiday of its
      country; a failed update changes nothing. */
  lemma {:induction false} UpdatedHolidayIsValid(t: Tables, id: int, input: HolidayInput)
    ensures Update(t, id, input).result.Err? ==> Update(t, id, input).tables == t
    ensures Update(t, id, input).result.Ok? ==>
              input.startDate <= input.endDate
              && HasHoliday(t.holidays, id)
              && (forall h :: h in t.holidays && h.id != id
                    ==> !Overlaps(h, input.countryId, input.startDate, input.endDate))
  {
  }

  /** Update keeps the holidays of every country free of overlaps. */
  lemma {:induction false} UpdatePreservesNoOverlap(t: Tables, id: int, input: HolidayInput)
    requires NoOverlap(t.holidays) && UniqueIds(t.holidays)
    ensures NoOverlap(Update(t, id, input).tables.holidays)
  {
    var e := Update(t, id, input);
    if e.result.Ok? {
      var hs := e.tables.holidays;
      var old_ := t.holidays;
      forall i, j | 0 <= i < |hs| && 0 <= j < |hs| && i != j
        ensures !Overlaps(hs[j], hs[i].countryId, hs[i].startDate, hs[i].endDate)
      {
        if old_[i].id == id {
          assert old_[j].id != id;
          assert old_[j] in old_;
        } else if old_[j].id == id {
          assert old_[i] in old_;
          assert !Overlaps(old_[i], input.countryId, input.startDate, input.endDate);
        }
      }
    }
  }

  // ---------------------------------------------------------------------
  // The holidays that touch a person's date range
  // ---------------------------------------------------------------------

  predicate SortedByStart(hs: seq<Holiday>)
  {
    forall i, j :: 0 <= i < j < |hs| ==> hs[i].startDate <= hs[j].startDate
  }

  function InsertByStart(h: Holiday, hs: seq<Holiday>): (r: seq<Holiday>)
    requires SortedByStart(hs)
    ensures SortedByStart(r)
    ensures multiset(r) == multiset(hs) + multiset{h}
    decreases |hs|
  {
    if hs == [] || h.startDate <= hs[0].startDate then
      SortedCons(h, hs);
      [h] + hs
    else
      var rest := InsertByStart(h, hs[1..]);
      assert hs == [hs[0]] + hs[1..];
      HeadBelowInsert(hs[0], h, hs[1..], rest);
      SortedCons(hs[0], rest);
      [hs[0]] + rest
  }

  lemma {:induction false} SortedCons(x: Holiday, hs: seq<Holiday>)
    requires SortedByStart(hs)
    requires forall k :: 0 <= k < |hs| ==> x.startDate <= hs[k].startDate
    ensures SortedByStart([x] + hs)
  {
    var r := [x] + hs;
    forall i, j | 0 <= i < j < |r| ensures r[i].startDate <= r[j].startDate {
      if i > 0 {
        assert r[i] == hs[i - 1] && r[j] == hs[j - 1];
      } else {
        assert r[j] == hs[j - 1];
      }
    }
  }

  /** An element that starts no later than `h` and than every element of
      `tail` starts no later than anything of their union. */
  lemma {:induction false} HeadBelowInsert(x: Holiday, h: Holiday, tail: seq<Holiday>, rest: seq<Holiday>)
    requires x.startDate <= h.startDate
    requires forall k :: 0 <= k < |tail| ==> x.startDate <= tail[k].startDate
    requires multiset(rest) == multiset(tail) + multiset{h}
    ensures forall k :: 0 <= k < |rest| ==> x.startDate <= rest[k].startDate
  {
    forall k | 0 <= k < |rest| ensures x.startDate <= rest[k].startDate {
      assert rest[k] in multiset(rest);
      if rest[k] != h {
        assert rest[k] in multiset(tail);
        var m :| 0 <= m < |tail| && tail[m] == rest[k];
      }
    }
  }

  /** ORDER BY start_date (the order of holidays that start on the same day
      is left to the database; this is one of the orders it may pick). */
  function SortByStart(hs: seq<Holiday>): (r: seq<Holiday>)
    ensures SortedByStart(r) && multiset(r) == multiset(hs)
    decreases |hs|
  {
    if hs == [] then []
    else
      assert hs == [hs[0]] + hs[1..];
      InsertByStart(hs[0], SortByStart(hs[1..]))
  }

  /** `list_holidays_for_person`: the holidays of the person's country that
      share a day with [start, end], by start date; none for a person
      without a country. */
  function HolidaysForPerson(t: Tables, personId: int, start: int, end: int): (r: Result<seq<Holiday>, string>)
    ensures r.Err? <==> PersonById(t.people, personId).None?
    ensures PersonById(t.people, personId).Some? && PersonById(t.people, personId).value.countryId.None?
            ==> r == Ok([])
  {
    match PersonById(t.people, personId)
    case None => Err(RowNotFound)
    case Some(p) =>
      match p.countryId
      case None => Ok([])
      case Some(c) => Ok(SortByStart(Filter(t.holidays, (h: Holiday) => Overlaps(h, c, start, end))))
  }

  /** The listing holds exactly the holidays of the person's country that
      touch the range, each once per row, by start date. */
  lemma {:induction false} HolidaysForPersonExact(t: Tables, personId: int, start: int, end: int)
    ensures HolidaysForPerson(t, personId, start, end).Err?
            <==> PersonById(t.people, personId).None?
    ensures PersonById(t.people, personId).Some? && PersonById(t.people, personId).value.countryId.None?
            ==> HolidaysForPerson(t, personId, start, end) == Ok([])
    ensures PersonById(t.people, personId).Some? && PersonById(t.people, personId).value.countryId.Some?
            ==> var r := HolidaysForPerson(t, personId, start, end).value;
                var c := PersonById(t.people, personId).value.countryId.value;
                SortedByStart(r) && forall h :: h in r <==> h in t.holidays && Overlaps(h, c, start, end)
  {
    match PersonById(t.people, personId)
    case None =>
    case Some(p) =>
      match p.countryId
      case None =>
      case Some(c) =>
        var f := Filter(t.holidays, (h: Holiday) => Overlaps(h, c, start, end));
        var r := SortByStart(f);
        assert forall h :: h in r <==> h in multiset(f);
  }

  // ---------------------------------------------------------------------
  // Batch creation in one transaction
  // ---------------------------------------------------------------------

  /** The batch inside its transaction: each item in turn is checked for
      order and inserted; the first failure ends the batch. No item is
      checked for overlaps. */
  function BatchRows(t: Tables, items: seq<HolidayInput>): (r: Result<Tables, string>)
    decreases |items|
  {
    if items == [] then Ok(t)
    else
      match BatchRows(t, items[..|items| - 1])
      case Err(m) => Err(m)
      case Ok(u) =>
        var item := items[|items| - 1];
        if item.startDate > item.endDate then Err(BatchStartAfterEnd) else Stored(u, item)
  }

  /** `batch_create_holidays`: commits all the rows or, on any failure, none. */
  function BatchCreate(t: Tables, items: seq<HolidayInput>): (e: Effect<()>)
    ensures e.result.Err? ==> e.tables == t
  {
    match BatchRows(t, items)
    case Err(m) => Effect(Err(m), t)
    case Ok(u) => Effect(Ok(()), u)
  }

  /** The rows a successful batch appends, with consecutive fresh ids. */
  function BatchHolidays(firstId: int, items: seq<HolidayInput>): (hs: seq<Holiday>)
    ensures |hs| == |items|
  {
    seq(|items|, k requires 0 <= k < |items| => NewHoliday(firstId + k, items[k]))
  }

  /** A batch succeeds exactly when every item is well ordered and names an
      existing country, whatever holidays already exist (there is no overlap
      check); it then appends one row per item, in order. */
  lemma {:induction false} BatchAcceptance(t: Tables, items: seq<HolidayInput>)
    ensures BatchRows(t, items).Ok?
            <==> forall k :: 0 <= k < |items| ==>
                   items[k].startDate <= items[k].endDate
                   && CountryById(t.countries, items[k].countryId).Some?
    ensures BatchRows(t, items).Ok? ==>
              BatchRows(t, items).value
              == t.(holidays := t.holidays + BatchHolidays(t.nextId, items), nextId := t.nextId + |items|)
    decreases |items|
  {
    if items != [] {
      var init := items[..|items| - 1];
      var item := items[|items| - 1];
      BatchAcceptance(t, init);
      assert forall k :: 0 <= k < |init| ==> init[k] == items[k];
      if BatchRows(t, items).Ok? {
        var u := BatchRows(t, init).value;
        assert BatchHolidays(t.nextId, items) == BatchHolidays(t.nextId, init) + [NewHoliday(t.nextId + |init|, item)];
      }
    }
  }

  lemma {:induction false} BatchRowsStep(t: Tables, items: seq<HolidayInput>, i: int)
    requires 0 <= i < |items|
    ensures BatchRows(t, items[..i + 1])
            == match BatchRows(t, items[..i])
               case Err(m) => Err(m)
               case Ok(u) => if items[i].startDate > items[i].endDate then Err(BatchStartAfterEnd)
                             else Stored(u, items[i])
  {
    assert items[..i + 1][..i] == items[..i];
  }

  /** A failure on a prefix is the failure of the whole batch. */
  lemma {:induction false} BatchRowsAbort(t: Tables, items: seq<HolidayInput>, j: int)
    requires 0 <= j <= |items| && BatchRows(t, items[..j]).Err?
    ensures BatchRows(t, items) == BatchRows(t, items[..j])
    decreases |items| - j
  {
    if j < |items| {
      BatchRowsStep(t, items, j);
      BatchRowsAbort(t, items, j + 1);
    } else {
      assert items[..j] == items;
    }
  }

  // ---------------------------------------------------------------------
  // Import preview and import from the public holiday service
  // ---------------------------------------------------------------------

  /** The start dates of the country's holidays that start in `year`, which
      the queries bound by "year-01-01" and "(year+1)-01-01". */
  function ExistingDates(hs: seq<Holiday>, countryId: int, year: int): set<int>
  {
    if year < 1 then {}
    else set h | h in hs && h.countryId == countryId
                 && Calendar.YearStart(year) <= h.startDate < Calendar.YearStart(year + 1) :: h.startDate
  }

  /** The service's holidays whose date some existing holiday already starts on. */
  function DuplicateCount(hs: seq<ServiceHoliday>, existing: set<int>): (n: nat)
    ensures n <= |hs|
  {
    Count(hs, (h: ServiceHoliday) => h.date in existing)
  }

  lemma {:induction false} DuplicateCountStep(hs: seq<ServiceHoliday>, existing: set<int>, j: int)
    requires 0 <= j < |hs|
    ensures DuplicateCount(hs[..j + 1], existing)
            == DuplicateCount(hs[..j], existing) + (if hs[j].date in existing then 1 else 0)
  {
    assert hs[..j + 1][..j] == hs[..j];
  }

  function PreviewItems(hs: seq<ServiceHoliday>, existing: set<int>): (items: seq<PreviewItem>)
    ensures |items| == |hs|
  {
    seq(|hs|, k requires 0 <= k < |hs| =>
      PreviewItem(hs[k].date, hs[k].name, hs[k].localName, hs[k].date in existing))
  }

  lemma PreviewItemsStep(hs: seq<ServiceHoliday>, existing: set<int>, j: int)
    requires 0 <= j < |hs|
    ensures PreviewItems(hs[..j + 1], existing)
            == PreviewItems(hs[..j], existing)
               + [PreviewItem(hs[j].date, hs[j].name, hs[j].localName, hs[j].date in existing)]
  {
    var next := PreviewItems(hs[..j + 1], existing);
    var grown := PreviewItems(hs[..j], existing)
                 + [PreviewItem(hs[j].date, hs[j].name, hs[j].localName, hs[j].date in existing)];
    assert |next| == |grown|;
    forall k | 0 <= k < |next|
      ensures next[k] == grown[k]
    {
      assert hs[..j + 1][k] == hs[k];
    }
  }

  /** `preview_holiday_import` for the service's answer `fetched`. */
  function Preview(t: Tables, code: string, year: int, fetched: Result<seq<ServiceHoliday>, string>)
    : (r: Result<ImportPreview, string>)
    ensures fetched.Err? ==> r.Err?
    ensures r.Ok? ==> r.value.newCount + r.value.duplicateCount == r.value.totalCount
  {
    var upper := Upper(code);
    match CountryByCode(t.countries, upper)
    case None => Err(UnknownCountry(upper))
    case Some(country) =>
      match fetched
      case Err(m) => Err(m)
      case Ok(hs) =>
        var existing := ExistingDates(t.holidays, country.id, year);
        var duplicates := DuplicateCount(hs, existing);
        Ok(ImportPreview(upper, country.name, year, PreviewItems(hs, existing), |hs|,
                         duplicates, |hs| - duplicates))
  }

  /** A preview item is a duplicate exactly when a holiday of the country
      already starts on its date in that year; the new and duplicate counts
      add up to the total, and the duplicate count is the number of items
      flagged. */
  lemma {:induction false} PreviewCounts(t: Tables, code: string, year: int,
                                         fetched: Result<seq<ServiceHoliday>, string>)
    requires year >= 1
    ensures Preview(t, code, year, fetched).Ok? ==>
              var p := Preview(t, code, year, fetched).value;
              var country := CountryByCode(t.countries, Upper(code)).value;
              p.newCount + p.duplicateCount == p.totalCount == |p.holidays|
              && p.duplicateCount == Count(p.holidays, (i: PreviewItem) => i.isDuplicate)
              && forall k :: 0 <= k < |p.holidays| ==>
                   (p.holidays[k].isDuplicate
                    <==> exists h :: h in t.holidays && h.countryId == country.id
                                     && Calendar.YearStart(year) <= h.startDate < Calendar.YearStart(year + 1)
                                     && h.startDate == p.holidays[k].date)
  {
    if Preview(t, code, year, fetched).Ok? {
      var country := CountryByCode(t.countries, Upper(code)).value;
      var existing := ExistingDates(t.holidays, country.id, year);
      FlaggedCount(fetched.value, existing);
    }
  }

  lemma {:induction false} FlaggedCount(hs: seq<ServiceHoliday>, existing: set<int>)
    ensures Count(PreviewItems(hs, existing), (i: PreviewItem) => i.isDuplicate) == DuplicateCount(hs, existing)
    decreases |hs|
  {
    if hs != [] {
      var init := hs[..|hs| - 1];
      FlaggedCount(init, existing);
      assert PreviewItems(hs, existing)[..|hs| - 1] == PreviewItems(init, existing);
    }
  }

  /** The loop of `preview_holiday_import`. */
  method PreviewHolidayImport(db: Database, code: string, year: int, fetched: Result<seq<ServiceHoliday>, string>)
    returns (r: Result<ImportPreview, string>)
    ensures r == Preview(db.Snapshot(), code, year, fetched)
  {
    ghost var t := db.Snapshot();
    var upper := Upper(code);
    var country := CountryByCode(db.countries, upper);
    assert country == CountryByCode(t.countries, upper);
    if country.None? {
      return Err(UnknownCountry(upper));
    }
    if fetched.Err? {
      return Err(fetched.error);
    }
    var hs := fetched.value;
    var existing := ExistingDates(db.holidays, country.value.id, year);
    assert existing == ExistingDates(t.holidays, country.value.id, year);
    var items: seq<PreviewItem> := [];
    var duplicates := 0;
    var j := 0;
    while j < |hs|
      invariant 0 <= j <= |hs|
      invariant items == PreviewItems(hs[..j], existing)
      invariant duplicates == DuplicateCount(hs[..j], existing)
    {
      DuplicateCountStep(hs, existing, j);
      PreviewItemsStep(hs, existing, j);
      var isDuplicate := hs[j].date in existing;
      if isDuplicate {
        duplicates := duplicates + 1;
      }
      items := items + [PreviewItem(hs[j].date, hs[j].name, hs[j].localName, isDuplicate)];
      j := j + 1;
    }
    assert hs[..j] == hs;
    assert |items| == |hs|;
    r := Ok(ImportPreview(upper, country.value.name, year, items, |items|, duplicates, |items| - duplicates));
  }

  /** The single-day row the import stores for a service holiday. */
  function SingleDay(id: int, countryId: int, h: ServiceHoliday): Holiday
  {
    Holiday(id, countryId, Some(h.localName), h.date, h.date)
  }

  datatype YearImport = YearImport(tables: Tables, imported: nat, skipped: nat)

  /** One turn of the inner import loop: skip a holiday whose date is in
      `existing`, insert any other as a single-day holiday. */
  function Next(y: YearImport, countryId: int, existing: set<int>, h: ServiceHoliday): YearImport
  {
    if h.date in existing then YearImport(y.tables, y.imported, y.skipped + 1)
    else
      var u := y.tables;
      YearImport(u.(holidays := u.holidays + [SingleDay(u.nextId, countryId, h)], nextId := u.nextId + 1),
                 y.imported + 1, y.skipped)
  }

  /** The inner loop of `import_holidays_from_api` over one year's holidays;
      `existing` is read once, before the loop. */
  function ImportYear(t: Tables, countryId: int, existing: set<int>, hs: seq<ServiceHoliday>): (y: YearImport)
    decreases |hs|
  {
    if hs == [] then YearImport(t, 0, 0)
    else Next(ImportYear(t, countryId, existing, hs[..|hs| - 1]), countryId, existing, hs[|hs| - 1])
  }

  /** Every holiday of the year is either skipped, exactly when its date is
      already taken, or imported. */
  lemma {:induction false} ImportYearCounts(t: Tables, countryId: int, existing: set<int>, hs: seq<ServiceHoliday>)
    ensures var y := ImportYear(t, countryId, existing, hs);
            y.imported + y.skipped == |hs| && y.skipped == DuplicateCount(hs, existing)
    decreases |hs|
  {
    if hs != [] {
      ImportYearCounts(t, countryId, existing, hs[..|hs| - 1]);
      DuplicateCountStep(hs, existing, |hs| - 1);
      assert hs[..|hs| - 1] == hs[..|hs| - 1][..|hs| - 1];
    }
  }

  /** One year's import appends one single-day holiday of the country per
      imported item, on a date not already taken, and changes nothing else. */
  lemma {:induction false} ImportYearRows(t: Tables, countryId: int, existing: set<int>, hs: seq<ServiceHoliday>)
    ensures var y := ImportYear(t, countryId, existing, hs);
            |y.tables.holidays| == |t.holidays| + y.imported && y.tables.nextId == t.nextId + y.imported
            && y.tables.holidays[..|t.holidays|] == t.holidays
            && y.tables.(holidays := t.holidays, nextId := t.nextId) == t
            && forall k :: |t.holidays| <= k < |y.tables.holidays| ==>
                 y.tables.holidays[k].countryId == countryId
                 && y.tables.holidays[k].startDate == y.tables.holidays[k].endDate
                 && y.tables.holidays[k].startDate !in existing
    decreases |hs|
  {
    if hs != [] {
      ImportYearRows(t, countryId, existing, hs[..|hs| - 1]);
      var prev := ImportYear(t, countryId, existing, hs[..|hs| - 1]);
      var y := ImportYear(t, countryId, existing, hs);
      assert y.tables.holidays[..|prev.tables.holidays|] == prev.tables.holidays;
    }
  }

  lemma {:induction false} ImportYearStep(t: Tables, countryId: int, existing: set<int>, hs: seq<ServiceHoliday>, j: int)
    requires 0 <= j < |hs|
    ensures ImportYear(t, countryId, existing, hs[..j + 1])
            == Next(ImportYear(t, countryId, existing, hs[..j]), countryId, existing, hs[j])
  {
    assert hs[..j + 1][..j] == hs[..j];
  }

  datatype ImportRun = ImportRun(tables: Tables, results: seq<ImportResult>)

  /** One turn of the outer import loop: a year whose fetch fails is
      skipped; any other is imported against the holidays present now. */
  function YearStep(run: ImportRun, country: Country, code: string, year: int,
                    fetch: int -> Result<seq<ServiceHoliday>, string>): ImportRun
  {
    match fetch(year)
    case Err(_) => run
    case Ok(hs) =>
      var y := ImportYear(run.tables, country.id, ExistingDates(run.tables.holidays, country.id, year), hs);
      ImportRun(y.tables, run.results + [ImportResult(code, year, y.imported, y.skipped)])
  }

  /** The outer loop of `import_holidays_from_api` over the years. */
  function ImportYears(t: Tables, country: Country, code: string, years: seq<int>,
                       fetch: int -> Result<seq<ServiceHoliday>, string>): (run: ImportRun)
    decreases |years|
  {
    if years == [] then ImportRun(t, [])
    else YearStep(ImportYears(t, country, code, years[..|years| - 1], fetch), country, code, years[|years| - 1], fetch)
  }

  lemma {:induction false} ImportYearsStep(t: Tables, country: Country, code: string, years: seq<int>,
                        fetch: int -> Result<seq<ServiceHoliday>, string>, i: int)
    requires 0 <= i < |years|
    ensures ImportYears(t, country, code, years[..i + 1], fetch)
            == YearStep(ImportYears(t, country, code, years[..i], fetch), country, code, years[i], fetch)
  {
    assert years[..i + 1][..i] == years[..i];
  }

  function ResultYears(results: seq<ImportResult>): seq<int>
  {
    seq(|results|, k requires 0 <= k < |results| => results[k].year)
  }

  /** The import reports exactly the years whose fetch succeeded, in order,
      and for each the imported and skipped holidays add up to what the
      service returned. */
  lemma {:induction false} ImportReportsFetchedYears(t: Tables, country: Country, code: string, years: seq<int>,
                                                     fetch: int -> Result<seq<ServiceHoliday>, string>)
    ensures var run := ImportYears(t, country, code, years, fetch);
            ResultYears(run.results) == Filter(years, (y: int) => fetch(y).Ok?)
            && forall k :: 0 <= k < |run.results| ==>
                 fetch(run.results[k].year).Ok? && run.results[k].countryCode == code
                 && run.results[k].importedCount + run.results[k].skippedCount
                    == |fetch(run.results[k].year).value|
    decreases |years|
  {
    if years != [] {
      var init := years[..|years| - 1];
      var year := years[|years| - 1];
      ImportReportsFetchedYears(t, country, code, init, fetch);
      var prev := ImportYears(t, country, code, init, fetch);
      assert years == init + [year];
      if fetch(year).Ok? {
        ImportYearCounts(prev.tables, country.id, ExistingDates(prev.tables.holidays, country.id, year),
                         fetch(year).value);
        var run := ImportYears(t, country, code, years, fetch);
        assert run.results[..|prev.results|] == prev.results;
        assert ResultYears(run.results) == ResultYears(prev.results) + [year];
      }
    }
  }

  /** The import only appends rows, each a single-day holiday of the
      imported country. */
  lemma {:induction false} ImportAppendsSingleDays(t: Tables, country: Country, code: string, years: seq<int>,
                                                   fetch: int -> Result<seq<ServiceHoliday>, string>)
    ensures var run := ImportYears(t, country, code, years, fetch);
            |run.tables.holidays| >= |t.holidays| && run.tables.holidays[..|t.holidays|] == t.holidays
            && run.tables.countries == t.countries
            && forall k :: |t.holidays| <= k < |run.tables.holidays| ==>
                 run.tables.holidays[k].countryId == country.id
                 && run.tables.holidays[k].startDate == run.tables.holidays[k].endDate
    decreases |years|
  {
    if years != [] {
      var init := years[..|years| - 1];
      var year := years[|years| - 1];
      ImportAppendsSingleDays(t, country, code, init, fetch);
      var prev := ImportYears(t, country, code, init, fetch);
      if fetch(year).Ok? {
        var y := ImportYear(prev.tables, country.id, ExistingDates(prev.tables.holidays, country.id, year),
                            fetch(year).value);
        ImportYearRows(prev.tables, country.id, ExistingDates(prev.tables.holidays, country.id, year),
                       fetch(year).value);
        assert y.tables.holidays[..|t.holidays|] == prev.tables.holidays[..|t.holidays|];
      }
    }
  }

  /** `import_holidays_from_api` with the service's answer for each year
      given by `fetch`. The inserts are not in a transaction. */
  function Import(t: Tables, code: string, years: seq<int>,
                  fetch: int -> Result<seq<ServiceHoliday>, string>): (e: Effect<seq<ImportResult>>)
    ensures CountryByCode(t.countries, Upper(code)).None? ==> e == Effect(Err(UnknownCountry(Upper(code))), t)
    ensures |e.tables.holidays| >= |t.holidays| && e.tables.holidays[..|t.holidays|] == t.holidays
    ensures e.tables.countries == t.countries
  {
    var upper := Upper(code);
    match CountryByCode(t.countries, upper)
    case None => Effect(Err(UnknownCountry(upper)), t)
    case Some(country) =>
      ImportAppendsSingleDays(t, country, upper, years, fetch);
      var run := ImportYears(t, country, upper, years, fetch);
      Effect(Ok(run.results), run.tables)
  }

  /** A preview and a one-year import run on the same tables agree: the
      import inserts the preview's new holidays and skips its duplicates. */
  lemma {:induction false} PreviewAgreesWithImport(t: Tables, code: string, year: int,
                                fetch: int -> Result<seq<ServiceHoliday>, string>)
    requires Preview(t, code, year, fetch(year)).Ok?
    ensures var p := Preview(t, code, year, fetch(year)).value;
            Import(t, code, [year], fetch).result == Ok([ImportResult(p.countryCode, year, p.newCount, p.duplicateCount)])
  {
    var upper := Upper(code);
    var country := CountryByCode(t.countries, upper).value;
    var hs := fetch(year).value;
    var existing := ExistingDates(t.holidays, country.id, year);
    ImportYearsStep(t, country, upper, [year], fetch, 0);
    assert [year][..0] == [] && [year][..1] == [year];
    ImportYearCounts(t, country.id, existing, hs);
    var y := ImportYear(t, country.id, existing, hs);
    assert ImportYears(t, country, upper, [year], fetch).results == [ImportResult(upper, year, y.imported, y.skipped)];
  }

  // ---------------------------------------------------------------------
  // The commands on the database
  // ---------------------------------------------------------------------

  /** `create_holiday` on the database. */
  method CreateHoliday(db: Database, input: HolidayInput) returns (r: Result<Holiday, string>)
    modifies db
    ensures Effect(r, db.Snapshot()) == Create(old(db.Snapshot()), input)
  {
    if input.startDate > input.endDate {
      return Err(StartAfterEnd);
    }
    if OverlapCount(db.holidays, input, None) > 0 {
      return Err(OverlapRefused);
    }
    if CountryById(db.countries, input.countryId).None? {
      return Err(ForeignKeyFailed);
    }
    var row := NewHoliday(db.nextId, input);
    db.holidays := db.holidays + [row];
    db.nextId := db.nextId + 1;
    r := Ok(row);
  }

  /** `update_holiday` on the database. */
  method UpdateHoliday(db: Database, id: int, input: HolidayInput) returns (r: Result<Holiday, string>)
    modifies db
    ensures Effect(r, db.Snapshot()) == Update(old(db.Snapshot()), id, input)
  {
    if input.startDate > input.endDate {
      return Err(StartAfterEnd);
    }
    if OverlapCount(db.holidays, input, Some(id)) > 0 {
      return Err(OverlapRefused);
    }
    if !HasHoliday(db.holidays, id) {
      return Err(RowNotFound);
    }
    if CountryById(db.countries, input.countryId).None? {
      return Err(ForeignKeyFailed);
    }
    db.holidays := ReviseRows(db.holidays, id, input);
    r := Ok(NewHoliday(id, input));
  }

  /** `batch_create_holidays` on the database: the rows are staged in a
      transaction and stored only when every item has been inserted. */
  method BatchCreateHolidays(db: Database, items: seq<HolidayInput>) returns (r: Result<(), string>)
    modifies db
    ensures Effect(r, db.Snapshot()) == BatchCreate(old(db.Snapshot()), items)
  {
    var tx := db.Snapshot();
    var i := 0;
    while i < |items|
      invariant 0 <= i <= |items|
      invariant db.Snapshot() == old(db.Snapshot())
      invariant BatchRows(db.Snapshot(), items[..i]) == Ok(tx)
    {
      BatchRowsStep(db.Snapshot(), items, i);
      if items[i].startDate > items[i].endDate {
        BatchRowsAbort(db.Snapshot(), items, i + 1);
        return Err(BatchStartAfterEnd);
      }
      var next := Stored(tx, items[i]);
      if next.Err? {
        BatchRowsAbort(db.Snapshot(), items, i + 1);
        return Err(next.error);
      }
      tx := next.value;
      i := i + 1;
    }
    assert items[..i] == items;
    db.Store(tx);
    r := Ok(());
  }

  /** `import_holidays_from_api` on the database. */
  method ImportHolidays(db: Database, code: string, years: seq<int>,
                        fetch: int -> Result<seq<ServiceHoliday>, string>)
    returns (r: Result<seq<ImportResult>, string>)
    modifies db
    ensures Effect(r, db.Snapshot()) == Import(old(db.Snapshot()), code, years, fetch)
  {
    var upper := Upper(code);
    var country := CountryByCode(db.countries, upper);
    if country.None? {
      return Err(UnknownCountry(upper));
    }
    ghost var t0 := db.Snapshot();
    var results: seq<ImportResult> := [];
    var i := 0;
    while i < |years|
      invariant 0 <= i <= |years|
      invariant ImportYears(t0, country.value, upper, years[..i], fetch) == ImportRun(db.Snapshot(), results)
    {
      ImportYearsStep(t0, country.value, upper, years, fetch, i);
      var year := years[i];
      var fetched := fetch(year);
      if fetched.Ok? {
        var hs := fetched.value;
        var existing := ExistingDates(db.holidays, country.value.id, year);
        ghost var u0 := db.Snapshot();
        var imported, skipped := 0, 0;
        var j := 0;
        while j < |hs|
          invariant 0 <= j <= |hs|
          invariant ImportYear(u0, country.value.id, existing, hs[..j]) == YearImport(db.Snapshot(), imported, skipped)
        {
          ImportYearStep(u0, country.value.id, existing, hs, j);
          if hs[j].date in existing {
            skipped := skipped + 1;
          } else {
            db.holidays := db.holidays + [SingleDay(db.nextId, country.value.id, hs[j])];
            db.nextId := db.nextId + 1;
            imported := imported + 1;
          }
          j := j + 1;
        }
        assert hs[..j] == hs;
        results := results + [ImportResult(upper, year, imported, skipped)];
      }
      i := i + 1;
    }
    assert years[..i] == years;
    r := Ok(results);
  }
}

