/**
 * The filters and the CSV export of the ticket dashboards.
 *
 * A table row is described by what the script reads from it: its text,
 * its `data-*` attributes (None when `getAttribute` returns null) and the
 * text of its cells. `isDateInRange` depends on the current clock and is a
 * parameter.
 */
module Dashboard {
  import opened Models
  import opened Strings
  import opened Display

  /** A `tbody tr` of a ticket table. */
  datatype TicketRow = TicketRow(
    text: string,
    status: Option<string>,
    priority: Option<string>,
    department: Option<string>,
    technician: Option<string>,
    date: Option<string>,
    cells: seq<string>)

  /** The values of a table's filter inputs ('' for an input that is absent). */
  datatype Filters = Filters(
    search: string,
    status: string,
    priority: string,
    department: string,
    technician: string,
    date: string)

  /** `text.includes(searchTerm)` on the lower-cased row text and search term. */
  predicate MatchesSearch(text: string, search: string)
  {
    Contains(Lower(text), Lower(search))
  }

  /** `!term || (value && value === term)`: an empty term accepts everything. */
  predicate MatchesExactly(value: Option<string>, term: string)
  {
    term == "" || (Truthy(value) && value.value == term)
  }

  /** `!term || value === term`. */
  predicate MatchesEqual(value: Option<string>, term: string)
  {
    term == "" || value == Some(term)
  }

  /** `!dateTerm || (date && isDateInRange(date, dateTerm))`. */
  predicate MatchesDate(date: Option<string>, term: string, inDateRange: (string, string) -> bool)
  {
    term == "" || (Truthy(date) && inDateRange(date.value, term))
  }

  /** The conjunction `filterTickets` shows a row by. */
  predicate MatchesTicketFilters(row: TicketRow, f: Filters, inDateRange: (string, string) -> bool)
  {
    && MatchesSearch(row.text, f.search)
    && MatchesExactly(row.status, f.status)
    && MatchesExactly(row.priority, f.priority)
    && MatchesEqual(row.department, f.department)
    && MatchesEqual(row.technician, f.technician)
    && MatchesDate(row.date, f.date, inDateRange)
  }

  /** With every filter empty, every row is shown. */
  lemma EmptyFiltersShowAll(row: TicketRow, inDateRange: (string, string) -> bool)
    ensures MatchesTicketFilters(row, Filters("", "", "", "", "", ""), inDateRange)
  {
    ContainsEmpty(Lower(row.text));
  }

  /**
   * A non-empty status, priority, department or technician term is matched
   * only by an attribute equal to it.
   */
  lemma NonEmptyTermsAreExact(row: TicketRow, f: Filters, inDateRange: (string, string) -> bool)
    requires MatchesTicketFilters(row, f, inDateRange)
    ensures f.status != "" ==> row.status == Some(f.status)
    ensures f.priority != "" ==> row.priority == Some(f.priority)
    ensures f.department != "" ==> row.department == Some(f.department)
    ensures f.technician != "" ==> row.technician == Some(f.technician)
  {
  }

  /** Search ignores case: any occurrence of the term in the text, whatever its case, is a match. */
  lemma SearchFindsOccurrence(text: string, search: string)
    requires Contains(text, search)
    ensures MatchesSearch(text, search)
    ensures MatchesSearch(Lower(text), search) && MatchesSearch(text, Lower(search))
  {
    ContainsLower(text, search);
    LowerIdempotent(text);
    LowerIdempotent(search);
  }

  /**
   * `filterTickets` followed by `updateTicketCounters`: each row is hidden
   * exactly when it fails the filters, and the counter is the number of rows
   * left visible.
   */
  method FilterTickets(rows: seq<TicketRow>, hidden: array<bool>, f: Filters,
                       inDateRange: (string, string) -> bool) returns (counter: nat)
    requires hidden.Length == |rows|
    modifies hidden
    ensures forall i :: 0 <= i < |rows| ==> hidden[i] == !MatchesTicketFilters(rows[i], f, inDateRange)
    ensures counter == |Shown(rows, hidden[..])|
  {
    ApplyFilter(rows, hidden, row => MatchesTicketFilters(row, f, inDateRange));
    counter := CountVisible(hidden);
    ShownCount(rows, hidden[..]);
  }

  /** After filtering, the visible rows are exactly the matching rows, in table order. */
  lemma FilteredRowsAreMatches(rows: seq<TicketRow>, hidden: seq<bool>, f: Filters,
                               inDateRange: (string, string) -> bool)
    requires |hidden| == |rows|
    requires forall i :: 0 <= i < |rows| ==> hidden[i] == !MatchesTicketFilters(rows[i], f, inDateRange)
    ensures forall row :: row in Shown(rows, hidden) <==> row in rows && MatchesTicketFilters(row, f, inDateRange)
  {
    ShownIsSelect(rows, hidden, row => MatchesTicketFilters(row, f, inDateRange));
  }

  /** An exported data cell: the trimmed text with every ',' replaced by ';', in double quotes. */
  function CsvCell(text: string): string
  {
    "\"" + ReplaceAll(Trim(text), ",", ";") + "\""
  }

  /**
   * A cell is the trimmed text in double quotes with no ',' left in it; text
   * without a ',' is kept verbatim apart from trimming.
   */
  lemma CsvCellShape(text: string)
    ensures var r := CsvCell(text);
            |r| == |Trim(text)| + 2 && r[0] == '"' && r[|r| - 1] == '"' && ',' !in r
    ensures ',' !in text ==> CsvCell(text) == "\"" + Trim(text) + "\""
  {
    ReplaceCharRemoves(Trim(text), ',', ';');
    ContainsChar(Trim(text), ',');
    if ',' !in Trim(text) {
      ReplaceAllNoOccurrence(Trim(text), ",", ";");
    }
  }

  /** The cells of a data line: each cell quoted and cleaned. */
  function DataCells(cells: seq<string>): seq<string>
  {
    seq(|cells|, k requires 0 <= k < |cells| => CsvCell(cells[k]))
  }

  /** The data line of a row: its cells, quoted, joined by ','. */
  function DataLine(cells: seq<string>): string
  {
    Join(DataCells(cells), ",")
  }

  /** The cells of the header line: the trimmed header texts, neither quoted nor cleaned. */
  function HeaderTexts(headers: seq<string>): seq<string>
  {
    seq(|headers|, k requires 0 <= k < |headers| => Trim(headers[k]))
  }

  /** The header line: the header texts joined by ','. */
  function HeaderLine(headers: seq<string>): string
  {
    Join(HeaderTexts(headers), ",")
  }

  /** The lines of the export: the header line, then one data line per exported row. */
  function CsvLines(headers: seq<string>, rows: seq<seq<string>>): (r: seq<string>)
    ensures |r| == |rows| + 1 && r[0] == HeaderLine(headers)
    ensures forall i :: 0 <= i < |rows| ==> r[i + 1] == DataLine(rows[i])
  {
    [HeaderLine(headers)] + seq(|rows|, i requires 0 <= i < |rows| => DataLine(rows[i]))
  }

  /** A data line of n >= 1 cells has exactly n - 1 commas, so every comma separates two cells. */
  lemma DataLineCommas(cells: seq<string>)
    requires |cells| >= 1
    ensures CountChar(DataLine(cells), ',') == |cells| - 1
  {
    forall k | 0 <= k < |cells|
      ensures ',' !in DataCells(cells)[k]
    {
      CsvCellShape(cells[k]);
    }
    JoinSeparatorCount(DataCells(cells), ',');
  }

  /** Exporting one more row appends its data line. */
  lemma CsvLinesAppend(headers: seq<string>, rows: seq<seq<string>>, row: seq<string>)
    ensures CsvLines(headers, rows + [row]) == CsvLines(headers, rows) + [DataLine(row)]
  {
  }

  /** `headers.push(th.textContent.trim())` for every header cell. */
  method HeaderCells(headers: seq<string>) returns (cells: seq<string>)
    ensures cells == HeaderTexts(headers)
  {
    cells := [];
    for j := 0 to |headers|
      invariant |cells| == j && forall k :: 0 <= k < j ==> cells[k] == Trim(headers[k])
    {
      cells := cells + [Trim(headers[j])];
    }
  }

  /** `rowData.push(...)` for every `td` of a row. */
  method RowData(row: seq<string>) returns (rowData: seq<string>)
    ensures rowData == DataCells(row)
  {
    rowData := [];
    for j := 0 to |row|
      invariant |rowData| == j && forall k :: 0 <= k < j ==> rowData[k] == CsvCell(row[k])
    {
      rowData := rowData + [CsvCell(row[j])];
    }
  }

  /**
   * The export button: the header line and the data line of every visible
   * row of the table, joined by newlines.
   */
  method ExportCsv(headers: seq<string>, table: seq<seq<string>>, hidden: seq<bool>) returns (csvContent: string)
    requires |table| == |hidden|
    ensures csvContent == Join(CsvLines(headers, Shown(table, hidden)), "\n")
  {
    var headerCells := HeaderCells(headers);
    var csv := [Join(headerCells, ",")];
    for i := 0 to |table|
      invariant csv == CsvLines(headers, Shown(table[..i], hidden[..i]))
    {
      assert table[..i + 1][..i] == table[..i] && hidden[..i + 1][..i] == hidden[..i];
      if !hidden[i] {
        var rowData := RowData(table[i]);
        CsvLinesAppend(headers, Shown(table[..i], hidden[..i]), table[i]);
        csv := csv + [Join(rowData, ",")];
      }
    }
    assert table[..|table|] == table && hidden[..|hidden|] == hidden;
    csvContent := Join(csv, "\n");
  }

  /** The export has one line per visible row plus the header line. */
  lemma ExportLineCount(headers: seq<string>, table: seq<seq<string>>, hidden: seq<bool>)
    requires |table| == |hidden|
    ensures |CsvLines(headers, Shown(table, hidden))| == CountShown(hidden) + 1
  {
    ShownCount(table, hidden);
  }

  /** A row of the user's ticket list: its text and the text of its `.status-badge`. */
  datatype UserRow = UserRow(text: string, badge: string)

  /** `filterUserTickets`' condition: search as above, and the trimmed badge equal to a chosen status. */
  predicate MatchesUserFilters(row: UserRow, search: string, status: string)
  {
    MatchesSearch(row.text, search) && (status == "" || Trim(row.badge) == status)
  }

  /** The badge comparison ignores surrounding white space but not case. */
  lemma UserStatusIgnoresPadding(text: string, badge: string, status: string)
    requires badge == " " + status + " "
    requires status != "" && !IsSpace(status[0]) && !IsSpace(status[|status| - 1])
    ensures MatchesUserFilters(UserRow(text, badge), "", status)
  {
    ContainsEmpty(Lower(text));
    assert TrimStart(badge) == status + " " by {
      assert badge[1..] == status + " ";
    }
    assert TrimEnd(status + " ") == status by {
      assert (status + " ")[..|status|] == status;
    }
  }

  /** `filterUserTickets`: each row of the list is hidden exactly when it fails the condition. */
  method FilterUserTickets(rows: seq<UserRow>, hidden: array<bool>, search: string, status: string)
    requires hidden.Length == |rows|
    modifies hidden
    ensures forall i :: 0 <= i < |rows| ==> hidden[i] == !MatchesUserFilters(rows[i], search, status)
  {
    ApplyFilter(rows, hidden, row => MatchesUserFilters(row, search, status));
  }
}
