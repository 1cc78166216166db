/** The conversions between a plant and a row of the `plants` table: the
    last-watered date is stored as text with the pattern yyyy/MM/dd and read
    back by splitting on '/' and parsing the first three pieces. */
module PlantDB {
  import opened Results
  import opened JavaText
  import opened Calendar
  import opened Plants

  /** The declared width of the date column, VARCHAR(12). */
  const DateColumnWidth: nat := 12

  /** Joda's printing of a date with the pattern yyyy/MM/dd: the year padded
      to at least four digits (with a leading '-' when negative), month and
      day padded to two, separated by '/'. */
  function FormatDate(d: LocalDate): (s: string)
    ensures Split(s) == [PaddedInteger(d.year, 4), PaddedInteger(d.month, 2), PaddedInteger(d.day, 2)]
  {
    SplitThree(PaddedInteger(d.year, 4), PaddedInteger(d.month, 2), PaddedInteger(d.day, 2));
    PaddedInteger(d.year, 4) + "/" + PaddedInteger(d.month, 2) + "/" + PaddedInteger(d.day, 2)
  }

  /** `Integer.parseInt(fields[i])`: an index past the end throws
      ArrayIndexOutOfBoundsException, a piece that is not an int throws
      NumberFormatException. */
  function ParseField(fields: seq<string>, i: nat): (r: Result<int32>)
    ensures r.Success? <==> i < |fields| && ParseInt(fields[i]).Some?
    ensures r.Success? ==> r.value == ParseInt(fields[i]).value
    ensures r.Failure? ==> r.error == (if i < |fields| then NumberFormat else IndexOutOfBounds)
  {
    if i >= |fields| then Failure(IndexOutOfBounds)
    else match ParseInt(fields[i])
      case None => Failure(NumberFormat)
      case Some(v) => Success(v)
  }

  /** The date parsing of `convertCursorToPlant`: split on '/', parse pieces
      0, 1 and 2 in that order, then build the LocalDate (which throws for
      a year, month or day out of range). Later pieces are ignored and
      unpadded pieces are accepted. */
  function ParseDate(s: string): (r: Result<LocalDate>)
    ensures r.Success? ==> |Split(s)| >= 3
    ensures r.Success? ==> ParseInt(Split(s)[0]) == Some(r.value.year)
    ensures r.Success? ==> ParseInt(Split(s)[1]) == Some(r.value.month)
    ensures r.Success? ==> ParseInt(Split(s)[2]) == Some(r.value.day)
    ensures r.Failure? ==> r.error == IndexOutOfBounds || r.error == NumberFormat || r.error == IllegalFieldValue
  {
    var fields := Split(s);
    var year :- ParseField(fields, 0);
    var month :- ParseField(fields, 1);
    var day :- ParseField(fields, 2);
    var d := Date(year, month, day);
    if ValidDate(d) then Success(d) else Failure(IllegalFieldValue)
  }

  /** The parser fails, and never falls back to a default, in exactly three
      cases: fewer than three pieces, a piece that is not an int, or numbers
      that do not form a calendar date. */
  lemma ParseDateFailsExactly(s: string)
    ensures ParseDate(s).Failure? <==>
      || |Split(s)| < 3
      || (exists i :: 0 <= i < 3 && ParseInt(Split(s)[i]).None?)
      || !ValidDate(Date(ParseInt(Split(s)[0]).value, ParseInt(Split(s)[1]).value, ParseInt(Split(s)[2]).value))
  {
    var f := Split(s);
    if |f| < 3 {
      assert ParseField(f, |f|).Failure?;
    } else if ParseInt(f[0]).None? {
      assert ParseField(f, 0).Failure?;
    } else if ParseInt(f[1]).None? {
      assert ParseField(f, 1).Failure?;
    } else if ParseInt(f[2]).None? {
      assert ParseField(f, 2).Failure?;
    } else {
      assert forall i :: 0 <= i < 3 ==> ParseInt(f[i]).Some?;
    }
  }

  /** Three '/'-separated numbers, each printed with any zero padding, parse
      to the date they spell, or fail as Joda does when they spell none.
      Parsing therefore accepts unpadded pieces such as "2024/1/5". */
  lemma ParsePaddedPieces(year: int32, month: int32, day: int32, wy: nat, wm: nat, wd: nat)
    ensures ParseDate(PaddedInteger(year, wy) + "/" + PaddedInteger(month, wm) + "/" + PaddedInteger(day, wd))
         == if ValidDate(Date(year, month, day)) then Success(Date(year, month, day)) else Failure(IllegalFieldValue)
  {
    SplitThree(PaddedInteger(year, wy), PaddedInteger(month, wm), PaddedInteger(day, wd));
    ParseIntOfPaddedInteger(year, wy);
    ParseIntOfPaddedInteger(month, wm);
    ParseIntOfPaddedInteger(day, wd);
  }

  /** Parsing the text written for a date gives back that date, for every
      date Joda represents, negative years included. */
  lemma ParseFormatRoundTrip(d: LocalDate)
    ensures ParseDate(FormatDate(d)) == Success(d)
  {
    ParsePaddedPieces(d.year, d.month, d.day, 4, 2, 2);
  }

  /** Distinct dates are stored as distinct text. */
  lemma FormatDateInjective(a: LocalDate, b: LocalDate)
    requires FormatDate(a) == FormatDate(b)
    ensures a == b
  {
    ParseFormatRoundTrip(a);
    ParseFormatRoundTrip(b);
  }

  /** For the years 0 to 9999 the stored text has exactly ten characters and
      so fits the VARCHAR(12) column. */
  lemma FormatDateLength(d: LocalDate)
    requires 0 <= d.year <= 9999
    ensures |FormatDate(d)| == 10 <= DateColumnWidth
  {
    ToDigitsLength(d.year, 4);
    ToDigitsLength(d.month, 2);
    ToDigitsLength(d.day, 2);
  }

  /** Because parsing is lenient, formatting after parsing restores only
      canonical text: a date whose month is written without its leading
      zero parses, but is written back differently. */
  lemma UnpaddedMonthIsRewritten(d: LocalDate)
    requires d.month < 10
    ensures ParseDate(PaddedInteger(d.year, 4) + "/" + PaddedInteger(d.month, 1) + "/" + PaddedInteger(d.day, 2)) == Success(d)
    ensures FormatDate(d) != PaddedInteger(d.year, 4) + "/" + PaddedInteger(d.month, 1) + "/" + PaddedInteger(d.day, 2)
  {
    var y, m1, m2, dd := PaddedInteger(d.year, 4), PaddedInteger(d.month, 1), PaddedInteger(d.month, 2), PaddedInteger(d.day, 2);
    ParsePaddedPieces(d.year, d.month, d.day, 4, 1, 2);
    SplitThree(y, m1, dd);
    SplitThree(y, m2, dd);
    ToDigitsLength(d.month, 1);
    assert |m1| == 1 && |m2| == 2;
  }

  /** Pieces after the third are ignored. */
  lemma ExtraPiecesIgnored(d: LocalDate, rest: string)
    ensures ParseDate(FormatDate(d) + "/" + rest) == Success(d)
  {
    var y, m, dd := PaddedInteger(d.year, 4), PaddedInteger(d.month, 2), PaddedInteger(d.day, 2);
    SplitThreeThenRest(y, m, dd, rest);
    ParseIntOfPaddedInteger(d.year, 4);
    ParseIntOfPaddedInteger(d.month, 2);
    ParseIntOfPaddedInteger(d.day, 2);
  }

  /** A trailing '/' in place of the day leaves only two pieces, because
      Java's split drops trailing empty pieces: the third access is out of
      bounds. */
  lemma MissingDayFails(year: int32, month: int32)
    ensures ParseDate(PaddedInteger(year, 4) + "/" + PaddedInteger(month, 2) + "/") == Failure(IndexOutOfBounds)
  {
    var y, m := PaddedInteger(year, 4), PaddedInteger(month, 2);
    var s := y + "/" + m + "/";
    assert s == y + "/" + (m + "/" + "");
    SegmentsOfPlain("");
    SegmentsCons(m, "");
    SegmentsCons(y, m + "/" + "");
    assert s[|y|] == '/';
    assert DropTrailingEmpty([y, m, ""]) == [y, m];
    ParseIntOfPaddedInteger(year, 4);
    ParseIntOfPaddedInteger(month, 2);
  }

  /** An empty month piece is not an int. */
  lemma EmptyMonthFails(year: int32, day: int32)
    ensures ParseDate(PaddedInteger(year, 4) + "/" + "" + "/" + PaddedInteger(day, 2)) == Failure(NumberFormat)
  {
    SplitThree(PaddedInteger(year, 4), "", PaddedInteger(day, 2));
    ParseIntOfPaddedInteger(year, 4);
  }

  // ----- rows -------------------------------------------------------------------

  /** The five data columns written for a plant (`ContentValues`): no id. */
  datatype ContentValues = ContentValues(
    name: string,
    specie: string,
    location: string,
    wateringFrequency: int32,
    lastWateredDate: string)

  /** A row as the cursor returns it, in the column order of PlantFields.ALL:
      _id, name, specie, location, wateringFrequency, lastWateredData. */
  datatype Row = Row(
    id: int32,
    name: string,
    specie: string,
    location: string,
    wateringFrequency: int32,
    lastWateredDate: string)

  /** A plant read back from the table, with its id kept beside it. */
  datatype StoredPlant = StoredPlant(id: int32, plant: PlantRecord)

  /** The row of the table that holds `values` under `id`. */
  function StoredRow(id: int32, values: ContentValues): Row {
    Row(id, values.name, values.specie, values.location, values.wateringFrequency, values.lastWateredDate)
  }

  /** `convertPlantToContentValues`: the text fields and the frequency as they
      are, the date as formatted text. */
  function ConvertPlantToContentValues(p: PlantRecord): (v: ContentValues)
    ensures v.name == p.name && v.specie == p.specie && v.location == p.location
    ensures v.wateringFrequency == p.wateringFrequency
    ensures ParseDate(v.lastWateredDate) == Success(p.lastWateredDate)
  {
    ParseFormatRoundTrip(p.lastWateredDate);
    ContentValues(p.name, p.specie, p.location, p.wateringFrequency, FormatDate(p.lastWateredDate))
  }

  /** `convertCursorToPlant`: parse the date first, then build the plant
      through its constructor, so a malformed date or a stored frequency
      below 1 throws rather than yielding a plant. */
  function ConvertCursorToPlant(row: Row): (r: Result<StoredPlant>)
    ensures r.Success? <==> ParseDate(row.lastWateredDate).Success? && row.wateringFrequency >= 1
    ensures ParseDate(row.lastWateredDate).Failure? ==> r.Failure? && r.error == ParseDate(row.lastWateredDate).error
    ensures ParseDate(row.lastWateredDate).Success? && row.wateringFrequency < 1 ==> r == Failure(IllegalArgument)
    ensures r.Success? ==> ValidRecord(r.value.plant)
    ensures r.Success? ==> r.value == StoredPlant(row.id, PlantRecord(row.name, row.specie, row.location,
                                                     row.wateringFrequency, ParseDate(row.lastWateredDate).value))
  {
    var date :- ParseDate(row.lastWateredDate);
    var plant :- NewPlantRecord(row.name, row.specie, row.location, row.wateringFrequency, date);
    Success(StoredPlant(row.id, plant))
  }

  /** Writing a valid plant and reading its row back gives the same plant,
      with the id the table assigned. */
  lemma PlantRowRoundTrip(id: int32, p: PlantRecord)
    requires ValidRecord(p)
    ensures ConvertCursorToPlant(StoredRow(id, ConvertPlantToContentValues(p))) == Success(StoredPlant(id, p))
  {
  }

  /** Reading a row whose date text is canonical and writing the plant back
      reproduces the row's five data columns. */
  lemma RowPlantRowRoundTrip(row: Row, d: LocalDate)
    requires row.lastWateredDate == FormatDate(d) && row.wateringFrequency >= 1
    ensures ConvertCursorToPlant(row).Success?
    ensures StoredRow(row.id, ConvertPlantToContentValues(ConvertCursorToPlant(row).value.plant)) == row
  {
    ParseFormatRoundTrip(d);
  }

}
