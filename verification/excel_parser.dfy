/** Spreadsheet extraction (src/excel-parser.ts): the workbook arrives already
    decoded into named sheets of rows of cells; the parser turns the registered
    and cancelled sheets into company records and infers the data date from the
    file name. */
module ExcelParser {
  import opened Wrappers
  import opened Text
  import opened Types
  import opened CivilDate
  import opened Seqs

  // ---------------------------------------------------------------
  // Decoded workbook
  // ---------------------------------------------------------------

  /** A decoded cell: a number, a text, or nothing at all (a column past the
      end of the row). */
  datatype Cell = Num(n: int) | Str(s: string) | Empty

  type Row = seq<Cell>

  datatype Sheet = Sheet(name: string, rows: seq<Row>)

  /** Sheets in workbook order. */
  type Workbook = seq<Sheet>

  /** `Number(text)` for a text cell: the integer it denotes, or None for NaN
      and for values that are not whole numbers. JavaScript's numeric grammar is
      not part of this model, so callers supply the coercion. */
  type NumberCoercion = string -> Option<int>

  /** `row[i]`, which is `undefined` past the end of the row. */
  function CellAt(row: Row, i: nat): Cell {
    if i < |row| then row[i] else Empty
  }

  /** `String(cell ?? "")`. */
  function CellText(c: Cell): string {
    match c
    case Num(n) => IntToDecimal(n)
    case Str(s) => s
    case Empty => ""
  }

  /** `Number(cell)`; `Number(undefined)` is NaN. */
  function NumberOf(c: Cell, coerce: NumberCoercion): Option<int> {
    match c
    case Num(n) => Some(n)
    case Str(s) => coerce(s)
    case Empty => None
  }

  // ---------------------------------------------------------------
  // Excel serial dates
  // ---------------------------------------------------------------

  /** Serial number of 1970-01-01 in Excel's 1900 date system. */
  const EXCEL_UNIX_EPOCH: int := 25569

  /** ECMAScript time values are limited to 8.64e15 ms, that is 10^8 days either
      side of the epoch; a later day is an Invalid Date. */
  const MAX_TIME_DAYS: int := 100_000_000

  /** What an Invalid Date's UTC getters print as. */
  const INVALID_DATE_TEXT: string := "NaN-NaN-NaN"

  /** `${y}-${mm}-${dd}` with month and day padded to two digits. */
  function FormatIsoDate(d: Date): string
    requires Valid(d)
  {
    IntToDecimal(d.year) + "-" + Pad2(d.month) + "-" + Pad2(d.day)
  }

  /** Reads `Y-MM-DD` back (a non-negative year of any length). */
  function ParseIsoDate(s: string): Option<Date> {
    if |s| >= 7 && s[|s| - 6] == '-' && s[|s| - 3] == '-'
       && AllAsciiDigits(s[..|s| - 6]) && AllAsciiDigits(s[|s| - 5..|s| - 3])
       && AllAsciiDigits(s[|s| - 2..])
    then Some(Date(DecimalValue(s[..|s| - 6]), DecimalValue(s[|s| - 5..|s| - 3]),
                   DecimalValue(s[|s| - 2..])))
    else None
  }

  /** Formatting a date of a non-negative year loses nothing. */
  lemma IsoDateRoundTrip(d: Date)
    requires Valid(d) && d.year >= 0
    ensures ParseIsoDate(FormatIsoDate(d)) == Some(d)
  {
    IsoPieces(NatToDecimal(d.year), Pad2(d.month), Pad2(d.day));
  }

  lemma IsoPieces(y: string, m: string, d: string)
    requires |y| >= 1 && |m| == 2 && |d| == 2
    requires AllAsciiDigits(y) && AllAsciiDigits(m) && AllAsciiDigits(d)
    ensures ParseIsoDate(y + "-" + m + "-" + d) == Some(Date(DecimalValue(y), DecimalValue(m), DecimalValue(d)))
  {
    var s := y + "-" + m + "-" + d;
    assert |s| == |y| + 6;
    assert s[|y|] == '-' && s[|y| + 3] == '-';
    assert s[..|s| - 6] == y;
    assert s[|s| - 5..|s| - 3] == m;
    assert s[|s| - 2..] == d;
  }

  /** `excelDateToString`: "" for serials below 1; otherwise the UTC calendar
      date `serial - 25569` days after 1970-01-01, as `YYYY-MM-DD`. */
  function ExcelDateToString(serial: int): (r: string)
    ensures serial < 1 ==> r == ""
    ensures serial >= 1 && serial - EXCEL_UNIX_EPOCH > MAX_TIME_DAYS ==> r == INVALID_DATE_TEXT
    ensures 1 <= serial && serial - EXCEL_UNIX_EPOCH <= MAX_TIME_DAYS ==>
      exists d :: Valid(d) && DaysFromCivil(d) == serial - EXCEL_UNIX_EPOCH && r == FormatIsoDate(d)
  {
    if serial < 1 then ""
    else
      var days := serial - EXCEL_UNIX_EPOCH;
      if days > MAX_TIME_DAYS then INVALID_DATE_TEXT
      else FormatIsoDate(CivilFromDays(days))
  }

  /** Every day from serial 1 on falls in year 1899 or later. */
  lemma YearFromSerialOne(n: int)
    requires n >= 1 - EXCEL_UNIX_EPOCH
    ensures CivilFromDays(n).year >= 1899
  {
    var y := CivilFromDays(n).year;
    DayWithinYear(CivilFromDays(n));
    if y + 1 < 1899 {
      YearStartsIncrease(y + 1, 1899);
    }
  }

  /** The text produced for any serial in the representable range names exactly
      the day `serial - 25569` days after the epoch. */
  lemma ExcelDateDenotesDay(serial: int)
    requires 1 <= serial && serial - EXCEL_UNIX_EPOCH <= MAX_TIME_DAYS
    ensures ParseIsoDate(ExcelDateToString(serial)).Some?
    ensures var d := ParseIsoDate(ExcelDateToString(serial)).value;
            Valid(d) && DaysFromCivil(d) == serial - EXCEL_UNIX_EPOCH
  {
    var d := CivilFromDays(serial - EXCEL_UNIX_EPOCH);
    YearFromSerialOne(serial - EXCEL_UNIX_EPOCH);
    IsoDateRoundTrip(d);
  }

  /** The serial of a representable date converts back to that date. */
  lemma ExcelDateOfDate(d: Date, serial: int)
    requires Valid(d) && serial == DaysFromCivil(d) + EXCEL_UNIX_EPOCH
    requires 1 <= serial && DaysFromCivil(d) <= MAX_TIME_DAYS
    ensures ExcelDateToString(serial) == FormatIsoDate(d)
  {
    CivilFromDaysInverse(d);
  }

  /** The documented conversion: serial 45306 is 2024-01-15. */
  lemma ExcelDateExample()
    ensures ExcelDateToString(45306) == "2024-01-15"
  {
    assert DaysFromCivil(Date(2024, 1, 15)) == 19737;
    ExcelDateOfDate(Date(2024, 1, 15), 45306);
    FormatIso2024();
  }

  lemma FormatIso2024()
    ensures FormatIsoDate(Date(2024, 1, 15)) == "2024-01-15"
  {
    assert NatToDecimal(2024) == "2024";
  }

  /** Serial 25569 is the Unix epoch itself. */
  lemma ExcelDateEpoch()
    ensures ExcelDateToString(25569) == "1970-01-01"
  {
    assert DaysFromCivil(Date(1970, 1, 1)) == 0;
    ExcelDateOfDate(Date(1970, 1, 1), 25569);
    FormatIso1970();
  }

  lemma FormatIso1970()
    ensures FormatIsoDate(Date(1970, 1, 1)) == "1970-01-01"
  {
    assert NatToDecimal(1970) == "1970";
  }

  // ---------------------------------------------------------------
  // Rows
  // ---------------------------------------------------------------

  /** Which of the two fixed sheet formats a sheet is parsed as. */
  datatype SheetKind = RegisteredSheet | CancelledSheet {
    function Layout(): ColumnLayout {
      if RegisteredSheet? then REG_COL else CAN_COL
    }

    function RecordStatus(): Status {
      if RegisteredSheet? then Registered else Cancelled
    }

    /** A business-type cell counts as marked: a dot (filled or open) on the
        registered sheet, a cancellation word on the cancelled sheet. */
    predicate IsMarker(cell: string) {
      if RegisteredSheet? then Includes(cell, "●") || Includes(cell, "○")
      else Includes(cell, "말소") || Includes(cell, "취소")
    }
  }

  /** The trimmed text of the k-th business-type column. */
  function TypeCell(kind: SheetKind, row: Row, k: nat): string
    requires k < |BUSINESS_TYPES|
  {
    Trim(CellText(CellAt(row, kind.Layout().TypeColumn(k))))
  }

  predicate TypeMarked(kind: SheetKind, row: Row, t: BusinessType) {
    kind.IsMarker(TypeCell(kind, row, t.Index()))
  }

  /** Strictly increasing positions in BUSINESS_TYPES: a duplicate-free
      subsequence of the declaration order. */
  predicate InDeclarationOrder(ts: seq<BusinessType>) {
    forall i, j | 0 <= i < j < |ts| :: ts[i].Index() < ts[j].Index()
  }

  /** The business types from the k-th declared on that `marked` selects, in
      declaration order. */
  function TypesFrom(marked: BusinessType -> bool, k: nat): (ts: seq<BusinessType>)
    requires k <= |BUSINESS_TYPES|
    ensures forall t :: t in ts <==> k <= t.Index() && marked(t)
    ensures forall i | 0 <= i < |ts| :: k <= ts[i].Index()
    ensures InDeclarationOrder(ts)
    decreases |BUSINESS_TYPES| - k
  {
    if k == |BUSINESS_TYPES| then []
    else
      var t := BUSINESS_TYPES[k];
      IndexOfDeclared(k);
      var rest := TypesFrom(marked, k + 1);
      assert forall u: BusinessType | k <= u.Index() && u != t :: k + 1 <= u.Index();
      if marked(t) then
        ConsInDeclarationOrder(t, rest);
        [t] + rest
      else rest
  }

  /** A type declared before every type of an ordered list can go in front. */
  lemma ConsInDeclarationOrder(t: BusinessType, ts: seq<BusinessType>)
    requires InDeclarationOrder(ts)
    requires forall i | 0 <= i < |ts| :: t.Index() < ts[i].Index()
    ensures InDeclarationOrder([t] + ts)
  {
    forall i, j | 0 <= i < j < |ts| + 1 ensures ([t] + ts)[i].Index() < ([t] + ts)[j].Index() {
      assert ([t] + ts)[j] == ts[j - 1];
      if i > 0 {
        assert ([t] + ts)[i] == ts[i - 1];
      }
    }
  }

  /** The business types a row marks, in declaration order. */
  function MarkedTypes(kind: SheetKind, row: Row): (ts: seq<BusinessType>)
    ensures forall t :: t in ts <==> TypeMarked(kind, row, t)
    ensures InDeclarationOrder(ts)
  {
    TypesFrom(t => TypeMarked(kind, row, t), 0)
  }

  /** `dateVal` as text: a numeric cell is an Excel serial, anything else is
      its trimmed text. */
  function DateText(c: Cell): (r: string)
    ensures c.Num? ==> r == ExcelDateToString(c.n)
    ensures !c.Num? ==> r == Trim(CellText(c))
  {
    match c
    case Num(n) => ExcelDateToString(n)
    case _ => Trim(CellText(c))
  }

  /** A data row is kept when its number is a number of at least 1 and its
      trimmed name is not empty. */
  predicate Accepted(kind: SheetKind, row: Row, coerce: NumberCoercion) {
    var no := NumberOf(CellAt(row, kind.Layout().no), coerce);
    && no.Some? && no.value >= 1
    && Trim(CellText(CellAt(row, kind.Layout().name))) != ""
  }

  /** The record invariant of a parsed entry: positive number, trimmed
      non-empty name, types in declaration order, the status of its sheet with
      only that status's date filled in (the other one empty), empty remark. */
  predicate WellFormedRecord(kind: SheetKind, c: Company) {
    && c.no >= 1
    && c.name != [] && Trim(c.name) == c.name
    && InDeclarationOrder(c.types)
    && c.status == kind.RecordStatus()
    && (kind.RegisteredSheet? ==> c.cancelledDate == [])
    && (kind.CancelledSheet? ==> c.registeredDate == [])
    && c.remark == []
  }

  /** One loop iteration of `parseRegisteredSheet` / `parseCancelledSheet`. */
  function RowRecord(kind: SheetKind, row: Row, coerce: NumberCoercion): (r: Option<Company>)
    ensures r.Some? <==> Accepted(kind, row, coerce)
  {
    var layout := kind.Layout();
    var no := NumberOf(CellAt(row, layout.no), coerce);
    if no.None? || no.value < 1 then None
    else
      var name := Trim(CellText(CellAt(row, layout.name)));
      if name == "" then None
      else
        var date := DateText(CellAt(row, layout.date));
        Some(Company(
          no := no.value,
          name := name,
          types := MarkedTypes(kind, row),
          registeredDate := if kind.RegisteredSheet? then date else "",
          cancelledDate := if kind.CancelledSheet? then date else "",
          status := kind.RecordStatus(),
          remark := ""))
  }

  /** What a kept row becomes: a well-formed record carrying the row's number,
      trimmed name, the converted date cell as its own sheet's date, and
      exactly the business types its columns mark. */
  lemma RowRecordSound(kind: SheetKind, row: Row, coerce: NumberCoercion)
    requires Accepted(kind, row, coerce)
    ensures var c := RowRecord(kind, row, coerce).value;
            && WellFormedRecord(kind, c)
            && c.name == Trim(CellText(CellAt(row, kind.Layout().name)))
            && Some(c.no) == NumberOf(CellAt(row, kind.Layout().no), coerce)
            && (kind.RegisteredSheet? ==> c.registeredDate == DateText(CellAt(row, kind.Layout().date)))
            && (kind.CancelledSheet? ==> c.cancelledDate == DateText(CellAt(row, kind.Layout().date)))
            && (forall t :: t in c.types <==> TypeMarked(kind, row, t))
  {
    TrimIdempotent(CellText(CellAt(row, kind.Layout().name)));
  }

  // ---------------------------------------------------------------
  // Sheets
  // ---------------------------------------------------------------

  /** `Accepted` as a function value, the selection the row loop makes. */
  function AcceptRow(kind: SheetKind, coerce: NumberCoercion): Row -> bool {
    row => Accepted(kind, row, coerce)
  }

  /** `RowRecord` as a function value, what the row loop applies to each row. */
  function RecordOf(kind: SheetKind, coerce: NumberCoercion): Row -> Option<Company> {
    row => RowRecord(kind, row, coerce)
  }

  /** The rows from DATA_START_ROW on; none when the sheet is no longer than
      its header. */
  function DataRows(rows: seq<Row>): (data: seq<Row>)
    ensures |data| == if |rows| > DATA_START_ROW then |rows| - DATA_START_ROW else 0
    ensures forall k | 0 <= k < |data| :: data[k] == rows[DATA_START_ROW + k]
  {
    if |rows| <= DATA_START_ROW then [] else rows[DATA_START_ROW..]
  }

  /** The sheet's records: the record of every data row that yields one, in
      row order. */
  function SheetRecords(kind: SheetKind, rows: seq<Row>, coerce: NumberCoercion): seq<Company> {
    FilterMap(DataRows(rows), RecordOf(kind, coerce))
  }

  /** The sheet's records, position by position: the `k`-th record is the
      record of the `k`-th accepted data row, and there is one record per
      accepted data row. */
  lemma SheetRecordsInRowOrder(kind: SheetKind, rows: seq<Row>, coerce: NumberCoercion)
    ensures var data := DataRows(rows);
      var s := Survivors(data, AcceptRow(kind, coerce), 0, |data|);
      && |SheetRecords(kind, rows, coerce)| == |s|
      && forall k | 0 <= k < |s| ::
           DATA_START_ROW + s[k] < |rows| && Accepted(kind, rows[DATA_START_ROW + s[k]], coerce)
           && Some(SheetRecords(kind, rows, coerce)[k]) == RowRecord(kind, rows[DATA_START_ROW + s[k]], coerce)
  {
    var data := DataRows(rows);
    var f := RecordOf(kind, coerce);
    FilterMapIsImageOfSurvivors(data, f);
    SurvivorsSame(data, Yields(f), AcceptRow(kind, coerce), 0, |data|);
  }

  /** Every record of a sheet satisfies the record invariant. */
  lemma SheetRecordsWellFormed(kind: SheetKind, rows: seq<Row>, coerce: NumberCoercion)
    ensures forall c | c in SheetRecords(kind, rows, coerce) :: WellFormedRecord(kind, c)
  {
    var data := DataRows(rows);
    forall c | c in SheetRecords(kind, rows, coerce) ensures WellFormedRecord(kind, c) {
      var k :| 0 <= k < |data| && RecordOf(kind, coerce)(data[k]) == Some(c);
      RowRecordSound(kind, data[k], coerce);
    }
  }

  /** The row loop shared by `parseRegisteredSheet` and `parseCancelledSheet`:
      header rows are skipped and every rejected row is passed over. */
  method ParseSheet(kind: SheetKind, rows: seq<Row>, coerce: NumberCoercion) returns (companies: seq<Company>)
    ensures companies == SheetRecords(kind, rows, coerce)
    ensures |companies| <= if |rows| >= DATA_START_ROW then |rows| - DATA_START_ROW else 0
    ensures forall c | c in companies :: WellFormedRecord(kind, c)
  {
    SheetRecordsWellFormed(kind, rows, coerce);
    if |rows| <= DATA_START_ROW {
      return [];
    }
    companies := FilterMapFrom(rows, DATA_START_ROW, RecordOf(kind, coerce));
    assert rows[DATA_START_ROW..] == DataRows(rows);
  }

  /** `parseRegisteredSheet`: registered records with an empty cancellation date. */
  method ParseRegisteredSheet(rows: seq<Row>, coerce: NumberCoercion) returns (companies: seq<Company>)
    ensures companies == SheetRecords(RegisteredSheet, rows, coerce)
    ensures forall c | c in companies ::
      c.status == Registered && c.cancelledDate == [] && c.remark == [] && c.no >= 1 && c.name != []
  {
    companies := ParseSheet(RegisteredSheet, rows, coerce);
  }

  /** `parseCancelledSheet`: cancelled records with an empty registration date. */
  method ParseCancelledSheet(rows: seq<Row>, coerce: NumberCoercion) returns (companies: seq<Company>)
    ensures companies == SheetRecords(CancelledSheet, rows, coerce)
    ensures forall c | c in companies ::
      c.status == Cancelled && c.registeredDate == [] && c.remark == [] && c.no >= 1 && c.name != []
  {
    companies := ParseSheet(CancelledSheet, rows, coerce);
  }

  // ---------------------------------------------------------------
  // Data date from the file name
  // ---------------------------------------------------------------

  /** What the data date is when the file name carries none. */
  const UNKNOWN_DATA_DATE: string := "알 수 없음"

  /** Eight ASCII digits start at index `i`. */
  predicate DigitRunAt(s: string, i: int) {
    0 <= i && i + 8 <= |s| && AllAsciiDigits(s[i..i + 8])
  }

  /** Where `/(\d{8})/` matches: the first index from `i` on that starts eight
      consecutive digits, also inside a longer run of digits. */
  function FirstDigitRun(s: string, i: nat): (r: Option<nat>)
    ensures r.Some? ==> i <= r.value && DigitRunAt(s, r.value)
    ensures r.Some? ==> forall j | i <= j < r.value :: !DigitRunAt(s, j)
    ensures r.None? ==> forall j | i <= j :: !DigitRunAt(s, j)
    decreases |s| - i
  {
    if i + 8 > |s| then None
    else if DigitRunAt(s, i) then Some(i)
    else FirstDigitRun(s, i + 1)
  }

  /** `dataDate`: the first eight-digit run of the file name read as YYYYMMDD
      and written YYYY-MM-DD, or the unknown marker when there is none. */
  function DataDate(fileName: string): (r: string)
    ensures (forall j :: !DigitRunAt(fileName, j)) ==> r == UNKNOWN_DATA_DATE
    ensures forall i | DigitRunAt(fileName, i) && (forall j | 0 <= j < i :: !DigitRunAt(fileName, j)) ::
      r == fileName[i..i + 4] + "-" + fileName[i + 4..i + 6] + "-" + fileName[i + 6..i + 8]
  {
    match FirstDigitRun(fileName, 0)
    case None => UNKNOWN_DATA_DATE
    case Some(i) => fileName[i..i + 4] + "-" + fileName[i + 4..i + 6] + "-" + fileName[i + 6..i + 8]
  }

  /** Where no character before index `n` is a digit, no run starts before `n`. */
  lemma NoRunBefore(s: string, n: int)
    requires forall k | 0 <= k < |s| && k < n :: !IsAsciiDigit(s[k])
    ensures forall j | j < n :: !DigitRunAt(s, j)
  {
    forall j | j < n ensures !DigitRunAt(s, j) {
      if 0 <= j && j + 8 <= |s| {
        assert s[j..j + 8][0] == s[j];
      }
    }
  }

  /** The date read from the first run, as pieces of the name. */
  lemma DataDateAt(s: string, i: int)
    requires DigitRunAt(s, i) && forall j | j < i :: !DigitRunAt(s, j)
    ensures DataDate(s) == s[i..i + 4] + "-" + s[i + 4..i + 6] + "-" + s[i + 6..i + 8]
  {
  }

  /** A name whose first digits are eight in a row gives them as
      year-month-day, whatever follows them, further digits included. */
  lemma DataDateAfterPrefix(prefix: string, digits: string, rest: string)
    requires forall k | 0 <= k < |prefix| :: !IsAsciiDigit(prefix[k])
    requires |digits| == 8 && AllAsciiDigits(digits)
    ensures DataDate(prefix + digits + rest) == digits[..4] + "-" + digits[4..6] + "-" + digits[6..]
  {
    var s := prefix + digits + rest;
    var i := |prefix|;
    assert s[i..i + 8] == digits;
    assert DigitRunAt(s, i);
    forall k | 0 <= k < |s| && k < i ensures !IsAsciiDigit(s[k]) {
      assert s[k] == prefix[k];
    }
    NoRunBefore(s, i);
    DataDateAt(s, i);
    assert s[i..i + 4] == digits[..4];
    assert s[i + 4..i + 6] == digits[4..6];
    assert s[i + 6..i + 8] == digits[6..];
  }

  /** A file name with an eight-digit date after a Korean prefix. */
  lemma DataDateOfDatedName()
    ensures DataDate("전자금융업_" + "20231231" + ".xlsx") == "2023-12-31"
  {
    DataDateAfterPrefix("전자금융업_", "20231231", ".xlsx");
  }

  /** A file name without digits has an unknown data date. */
  lemma DataDateOfUndatedName()
    ensures DataDate("전자금융업_현황.xlsx") == UNKNOWN_DATA_DATE
  {
    var b := "전자금융업_현황.xlsx";
    NoRunBefore(b, |b|);
  }

  // ---------------------------------------------------------------
  // Workbook
  // ---------------------------------------------------------------

  /** How `parseExcelData` treats a sheet, decided by its name alone. */
  datatype SheetRole = ReadAsCancelled | ReadAsRegistered | NotRead

  /** A name with 말소 or 취소 marks the cancelled sheet (checked first, so it
      wins over 등록); otherwise a name with 등록 marks the registered sheet. */
  function Classify(name: string): SheetRole {
    if Includes(name, "말소") || Includes(name, "취소") then ReadAsCancelled
    else if Includes(name, "등록") then ReadAsRegistered
    else NotRead
  }

  function RoleOf(kind: SheetKind): SheetRole {
    if kind.RegisteredSheet? then ReadAsRegistered else ReadAsCancelled
  }

  /** The last sheet read in the given role, if any. */
  function LastSheetOf(wb: Workbook, role: SheetRole): (r: Option<nat>)
    ensures r.Some? ==> r.value < |wb| && Classify(wb[r.value].name) == role
    ensures r.Some? ==> forall j | r.value < j < |wb| :: Classify(wb[j].name) != role
    ensures r.None? ==> forall j | 0 <= j < |wb| :: Classify(wb[j].name) != role
  {
    if wb == [] then None
    else if Classify(wb[|wb| - 1].name) == role then Some(|wb| - 1)
    else LastSheetOf(wb[..|wb| - 1], role)
  }

  /** The records a workbook yields for one sheet kind: those of the last sheet
      read in that role, since each such sheet overwrites the previous result. */
  function Collected(wb: Workbook, kind: SheetKind, coerce: NumberCoercion): seq<Company> {
    match LastSheetOf(wb, RoleOf(kind))
    case None => []
    case Some(k) => SheetRecords(kind, wb[k].rows, coerce)
  }

  /** A sheet read in some role replaces whatever earlier sheets yielded for it;
      a sheet read in the other role, or not read at all, changes nothing. */
  lemma CollectedAppend(wb: Workbook, sheet: Sheet, kind: SheetKind, coerce: NumberCoercion)
    ensures Classify(sheet.name) == RoleOf(kind) ==>
      Collected(wb + [sheet], kind, coerce) == SheetRecords(kind, sheet.rows, coerce)
    ensures Classify(sheet.name) != RoleOf(kind) ==>
      Collected(wb + [sheet], kind, coerce) == Collected(wb, kind, coerce)
  {
    var ws := wb + [sheet];
    assert ws[..|ws| - 1] == wb;
    assert ws[|ws| - 1] == sheet;
    match LastSheetOf(wb, RoleOf(kind))
    case None =>
    case Some(k) => assert ws[k] == wb[k];
  }

  /** One more sheet of the workbook, in the form the parsing loop uses. */
  lemma CollectedStep(wb: Workbook, i: nat, kind: SheetKind, coerce: NumberCoercion)
    requires i < |wb|
    ensures Collected(wb[..i + 1], kind, coerce) ==
      if Classify(wb[i].name) == RoleOf(kind) then SheetRecords(kind, wb[i].rows, coerce)
      else Collected(wb[..i], kind, coerce)
  {
    assert wb[..i + 1] == wb[..i] + [wb[i]];
    CollectedAppend(wb[..i], wb[i], kind, coerce);
  }

  /** What `parseExcelData` returns for a decoded workbook, stated over the
      whole workbook: the collections of the last sheet read in each role,
      or the unparseable-document failure when both are empty. */
  function ParseWorkbook(wb: Workbook, fileName: string, coerce: NumberCoercion, now: int)
    : Result<Snapshot, Error>
  {
    var registered := Collected(wb, RegisteredSheet, coerce);
    var cancelled := Collected(wb, CancelledSheet, coerce);
    if registered == [] && cancelled == [] then Failure(UnparseableDocument)
    else Success(Snapshot(registered, cancelled, DataDate(fileName), fileName, now))
  }

  /** `parseExcelData` after `XLSX.read`: every sheet is visited in order, a
      cancelled-like name is parsed as the cancelled sheet and a registered-like
      one as the registered sheet, each overwriting the previous result; the
      result fails exactly when both collections end up empty. */
  method ParseExcelData(wb: Workbook, fileName: string, coerce: NumberCoercion, now: int)
    returns (r: Result<Snapshot, Error>)
    ensures r.Success? <==>
      Collected(wb, RegisteredSheet, coerce) != [] || Collected(wb, CancelledSheet, coerce) != []
    ensures r.Failure? ==> r.error == UnparseableDocument
    ensures r.Success? ==> r.value == Snapshot(
      registered := Collected(wb, RegisteredSheet, coerce),
      cancelled := Collected(wb, CancelledSheet, coerce),
      dataDate := DataDate(fileName),
      fileName := fileName,
      fetchedAt := now)
    ensures r == ParseWorkbook(wb, fileName, coerce, now)
  {
    var dataDate := DataDate(fileName);
    var registered: seq<Company> := [];
    var cancelled: seq<Company> := [];
    var i := 0;
    while i < |wb|
      invariant 0 <= i <= |wb|
      invariant registered == Collected(wb[..i], RegisteredSheet, coerce)
      invariant cancelled == Collected(wb[..i], CancelledSheet, coerce)
    {
      var sheet := wb[i];
      CollectedStep(wb, i, RegisteredSheet, coerce);
      CollectedStep(wb, i, CancelledSheet, coerce);
      var role := Classify(sheet.name);
      if role == ReadAsCancelled {
        cancelled := ParseCancelledSheet(sheet.rows, coerce);
      } else if role == ReadAsRegistered {
        registered := ParseRegisteredSheet(sheet.rows, coerce);
      }
      i := i + 1;
    }
    assert wb[..i] == wb;
    if registered == [] && cancelled == [] {
      return Failure(UnparseableDocument);
    }
    return Success(Snapshot(registered, cancelled, dataDate, fileName, now));
  }

  /** Sheet selection: a name with both 등록 and 말소 or 취소 is read as the
      cancelled sheet, a name with only 등록 as the registered one, and others
      are not read. */
  lemma ClassifyExamples()
    ensures Classify("등록말소현황") == ReadAsCancelled
    ensures Classify("취소현황") == ReadAsCancelled
    ensures Classify("등록현황") == ReadAsRegistered
    ensures Classify("기타시트") == NotRead
  {
    assert OccursAt("등록말소현황", "말소", 2);
    assert OccursAt("취소현황", "취소", 0);
    assert OccursAt("등록현황", "등록", 0);
    AbsentHead("등록현황", "말소");
    AbsentHead("등록현황", "취소");
    AbsentHead("기타시트", "말소");
    AbsentHead("기타시트", "취소");
    AbsentHead("기타시트", "등록");
  }
}
