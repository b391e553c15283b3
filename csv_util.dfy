/**
 * The contact throttle and the ban check (utils/csv_util/csv_util.py). The
 * contacts table holds rows `(volunteer id, YYYY-MM-DD)`; the ban check reads the
 * reminder ledger, rows `(chat url, YYYY-MM-DD, count)`.
 */
module CsvUtil {
  import opened Wrappers
  import opened Dates
  import opened Text
  import opened Store

  /** `len(row) >= width and row[0] == id`, for a width of at least one field. */
  predicate Keyed(row: Row, id: string, width: nat) {
    |row| >= width && |row| > 0 && row[0] == id
  }

  /** The first row that is keyed by `id` and has at least `width` fields. */
  function FirstMatch(rows: Table, id: string, width: nat): (k: Option<nat>)
    ensures k.Some? ==> k.value < |rows| && Keyed(rows[k.value], id, width)
    ensures k.Some? ==> forall j :: 0 <= j < k.value ==> !Keyed(rows[j], id, width)
    ensures k.None? ==> forall j :: 0 <= j < |rows| ==> !Keyed(rows[j], id, width)
    decreases |rows|
  {
    if |rows| == 0 then None
    else if Keyed(rows[0], id, width) then Some(0)
    else match FirstMatch(rows[1..], id, width)
      case None =>
        assert forall j :: 1 <= j < |rows| ==> rows[j] == rows[1..][j - 1];
        None
      case Some(k) =>
        assert forall j :: 1 <= j <= k + 1 ==> rows[j] == rows[1..][j - 1];
        Some(k + 1)
  }

  /** A row of `id` with no row of `id` before it is the first match. */
  lemma FirstMatchIs(rows: Table, id: string, width: nat, k: nat)
    requires k < |rows| && Keyed(rows[k], id, width)
    requires forall j :: 0 <= j < k ==> !Keyed(rows[j], id, width)
    ensures FirstMatch(rows, id, width) == Some(k)
  {
  }

  /** Rows after the first match do not change which row is the first match. */
  lemma {:induction false} FirstMatchIgnoresLaterRows(rows: Table, extra: Table, id: string, width: nat)
    requires FirstMatch(rows, id, width).Some?
    ensures FirstMatch(rows + extra, id, width) == FirstMatch(rows, id, width)
  {
    var k := FirstMatch(rows, id, width).value;
    var all := rows + extra;
    assert forall j :: 0 <= j <= k ==> all[j] == rows[j];
  }

  // ---------------------------------------------------------------- ban check

  /**
   * The loop test of `check_if_volunteer_id_is_banned` on one row:
   * `len(row) > 0 and row[0].split('/')[-1] == id and int(row[2]) > 4`, evaluated
   * left to right, so a missing or non-integer count raises only on a row of `id`.
   */
  function TerminalRowOf(row: Row, id: string): (r: Result<bool>)
    ensures r == Ok(true) ==> |row| >= 3 && LastSegment(row[0]) == id && ParseInt(row[2]).Some? && ParseInt(row[2]).value > 4
    ensures (|row| == 0 || LastSegment(row[0]) != id) ==> r == Ok(false)
  {
    if |row| == 0 || LastSegment(row[0]) != id then Ok(false)
    else if |row| < 3 then Fail(IndexError)
    else match ParseInt(row[2])
      case None => Fail(ValueError)
      case Some(count) => Ok(count > 4)
  }

  /** The search of `check_if_volunteer_id_is_banned` from row `i` on, given `today.replace(year=today.year - 1)`. */
  function BanScan(rows: Table, i: nat, id: string, yearAgo: Date): Result<bool>
    decreases |rows| - i
  {
    if i >= |rows| then Ok(false)
    else match TerminalRowOf(rows[i], id)
      case Fail(e) => Fail(e)
      case Ok(terminal) =>
        if !terminal then BanScan(rows, i + 1, id, yearAgo)
        else match ParseIsoDate(rows[i][1])
          case None => Fail(ValueError)
          case Some(last) => Ok(AtOrBefore(last, yearAgo))
  }

  /**
   * `check_if_volunteer_id_is_banned(id)`: computing the date one year back
   * raises on 29 February before anything is read; then the ledger is searched.
   */
  function BanOutcome(id: string, ledger: Read, today: Date): Result<bool>
    requires PyDate(today)
  {
    match OneYearBefore(today)
    case None => Fail(ValueError)
    case Some(yearAgo) =>
      match ledger
      case Present(rows) => BanScan(rows, 0, id, yearAgo)
      case _ => Fail(StoreError)
  }

  method CheckIfVolunteerIdIsBanned(id: string, ledger: Read, today: Date) returns (r: Result<bool>)
    requires PyDate(today)
    ensures r == BanOutcome(id, ledger, today)
  {
    var twelveMonthsAgo := OneYearBefore(today);
    if twelveMonthsAgo.None? {
      return Fail(ValueError);
    }
    if !ledger.Present? {
      return Fail(StoreError);
    }
    var rows := ledger.rows;
    var i := 0;
    while i < |rows|
      invariant 0 <= i <= |rows|
      invariant BanScan(rows, 0, id, twelveMonthsAgo.value) == BanScan(rows, i, id, twelveMonthsAgo.value)
    {
      var row := rows[i];
      if |row| > 0 && LastSegment(row[0]) == id {
        if |row| < 3 {
          BanScanRaises(rows, i, id, twelveMonthsAgo.value);
          return Fail(IndexError);
        }
        var count := ParseInt(row[2]);
        if count.None? {
          BanScanRaises(rows, i, id, twelveMonthsAgo.value);
          return Fail(ValueError);
        }
        if count.value > 4 {
          var lastContactDate := ParseIsoDate(row[1]);
          if lastContactDate.None? {
            BanScanBadDate(rows, i, id, twelveMonthsAgo.value);
            return Fail(ValueError);
          }
          BanScanStops(rows, i, id, twelveMonthsAgo.value);
          return Ok(AtOrBefore(lastContactDate.value, twelveMonthsAgo.value));
        }
      }
      BanScanSkips(rows, i, id, twelveMonthsAgo.value);
      i := i + 1;
    }
    return Ok(false);
  }

  /**
   * The ban check answers from the first terminal row of `id`: rows of other
   * ids, and rows of `id` with a count of at most 4, are passed over.
   */
  lemma {:induction false} BanScanFirstTerminal(rows: Table, i: nat, k: nat, id: string, yearAgo: Date)
    requires i <= k < |rows|
    requires forall j :: i <= j < k ==> TerminalRowOf(rows[j], id) == Ok(false)
    requires TerminalRowOf(rows[k], id) == Ok(true)
    ensures BanScan(rows, i, id, yearAgo) == BanScan(rows, k, id, yearAgo)
    decreases k - i
  {
    if i < k {
      BanScanSkips(rows, i, id, yearAgo);
      BanScanFirstTerminal(rows, i + 1, k, id, yearAgo);
    }
  }

  /** A row that is not a terminal row of `id` is passed over. */
  lemma BanScanSkips(rows: Table, i: nat, id: string, yearAgo: Date)
    requires i < |rows| && TerminalRowOf(rows[i], id) == Ok(false)
    ensures BanScan(rows, i, id, yearAgo) == BanScan(rows, i + 1, id, yearAgo)
  {
  }

  /** A row of `id` with a missing or unreadable count makes the ban check raise. */
  lemma BanScanRaises(rows: Table, i: nat, id: string, yearAgo: Date)
    requires i < |rows| && TerminalRowOf(rows[i], id).Fail?
    ensures BanScan(rows, i, id, yearAgo) == Fail(TerminalRowOf(rows[i], id).error)
  {
  }

  /** A terminal row of `id` whose date does not parse makes the ban check raise `ValueError`. */
  lemma BanScanBadDate(rows: Table, k: nat, id: string, yearAgo: Date)
    requires k < |rows| && TerminalRowOf(rows[k], id) == Ok(true) && ParseIsoDate(rows[k][1]).None?
    ensures BanScan(rows, k, id, yearAgo) == Fail(ValueError)
  {
  }

  /**
   * At a terminal row of `id` the ban check is `true` exactly when the row is
   * dated on or before the same day one year back.
   */
  lemma BanScanStops(rows: Table, k: nat, id: string, yearAgo: Date)
    requires k < |rows| && TerminalRowOf(rows[k], id) == Ok(true) && ParseIsoDate(rows[k][1]).Some?
    ensures BanScan(rows, k, id, yearAgo) == Ok(AtOrBefore(ParseIsoDate(rows[k][1]).value, yearAgo))
  {
  }

  /** Without a terminal row of `id` the ban check is `false`. */
  lemma {:induction false} BanScanNoTerminal(rows: Table, i: nat, id: string, yearAgo: Date)
    requires forall j :: i <= j < |rows| ==> TerminalRowOf(rows[j], id) == Ok(false)
    ensures BanScan(rows, i, id, yearAgo) == Ok(false)
    decreases |rows| - i
  {
    if i < |rows| {
      BanScanNoTerminal(rows, i + 1, id, yearAgo);
    }
  }

  /** On 29 February the ban check always raises `ValueError`, whatever the ledger holds. */
  lemma BanCheckFailsOnLeapDay(id: string, ledger: Read, today: Date)
    requires PyDate(today) && today.month == 2 && today.day == 29
    ensures BanOutcome(id, ledger, today) == Fail(ValueError)
  {
  }

  // ---------------------------------------------------------------- pre-send check

  /**
   * The date of the first row keyed by `id` (`None` when there is none): that
   * row's second field must exist and parse.
   */
  function LastContactDate(rows: Table, id: string): Result<Option<Date>> {
    match FirstMatch(rows, id, 1)
    case None => Ok(None)
    case Some(k) =>
      if |rows[k]| < 2 then Fail(IndexError)
      else match ParseIsoDate(rows[k][1])
        case None => Fail(ValueError)
        case Some(last) => Ok(Some(last))
  }

  /**
   * `pre_send_message_check(id)`: a message may go out when `id` has no contact
   * row, or its first row is dated on or before six months back, and the ban
   * check answers `false`.
   */
  function PreSendOutcome(id: string, contacts: Read, ledger: Read, today: Date): Result<bool>
    requires PyDate(today)
  {
    match contacts
    case Present(rows) =>
      (match LastContactDate(rows, id)
       case Fail(e) => Fail(e)
       case Ok(last) =>
         if last.None? || AtOrBefore(last.value, SixMonthsBefore(today)) then
           match BanOutcome(id, ledger, today)
           case Fail(e) => Fail(e)
           case Ok(banned) => Ok(!banned)
         else Ok(false))
    case _ => Fail(StoreError)
  }

  method PreSendMessageCheck(id: string, contacts: Read, ledger: Read, today: Date) returns (r: Result<bool>)
    requires PyDate(today)
    ensures r == PreSendOutcome(id, contacts, ledger, today)
  {
    var sixMonthsAgo := SixMonthsBefore(today);
    if !contacts.Present? {
      return Fail(StoreError);
    }
    var rows := contacts.rows;
    var lastContactDate: Option<Date> := None;
    var i := 0;
    while i < |rows|
      invariant 0 <= i <= |rows|
      invariant forall j :: 0 <= j < i ==> !Keyed(rows[j], id, 1)
    {
      var row := rows[i];
      if |row| > 0 && row[0] == id {
        if |row| < 2 {
          return Fail(IndexError);
        }
        var parsed := ParseIsoDate(row[1]);
        if parsed.None? {
          return Fail(ValueError);
        }
        lastContactDate := parsed;
        break;
      }
      i := i + 1;
    }
    assert LastContactDate(rows, id) == Ok(lastContactDate);
    if lastContactDate.None? || AtOrBefore(lastContactDate.value, sixMonthsAgo) {
      var banned := CheckIfVolunteerIdIsBanned(id, ledger, today);
      if banned.Fail? {
        return Fail(banned.error);
      }
      return Ok(!banned.value);
    }
    return Ok(false);
  }

  /**
   * The throttle of the pre-send check: the first row of `id` exists and is
   * dated after six months back.
   */
  predicate ContactedWithinSixMonths(rows: Table, id: string, today: Date)
    requires PyDate(today) && LastContactDate(rows, id).Ok?
  {
    FirstMatch(rows, id, 1).Some? &&
    !AtOrBefore(ParseIsoDate(rows[FirstMatch(rows, id, 1).value][1]).value, SixMonthsBefore(today))
  }

  /**
   * The pre-send check in terms of the throttle and the ban check: on a contacts
   * table whose first row of `id` (if any) is well formed, it is `true` exactly
   * when `id` was not contacted within six months and is not banned. The ban
   * check need only be defined when the throttle lets the id through, since it
   * is not consulted otherwise.
   */
  lemma PreSendAllowsIff(id: string, rows: Table, ledger: Read, today: Date)
    requires PyDate(today)
    requires LastContactDate(rows, id).Ok?
    requires !ContactedWithinSixMonths(rows, id, today) ==> BanOutcome(id, ledger, today).Ok?
    ensures PreSendOutcome(id, Present(rows), ledger, today) ==
      Ok(!ContactedWithinSixMonths(rows, id, today) && !BanOutcome(id, ledger, today).value)
  {
  }

  /**
   * A recent contact refuses the message without reading the ledger: the answer
   * is `false` whatever the ledger holds, 29 February and an unreadable ledger
   * included.
   */
  lemma RecentContactRefuses(id: string, rows: Table, ledger: Read, today: Date)
    requires PyDate(today)
    requires LastContactDate(rows, id).Ok? && ContactedWithinSixMonths(rows, id, today)
    ensures PreSendOutcome(id, Present(rows), ledger, today) == Ok(false)
  {
  }

  /** Only the first row of `id` is consulted: rows after it never change the answer. */
  lemma PreSendIgnoresLaterRows(id: string, rows: Table, extra: Table, ledger: Read, today: Date)
    requires PyDate(today)
    requires FirstMatch(rows, id, 1).Some?
    ensures PreSendOutcome(id, Present(rows + extra), ledger, today) == PreSendOutcome(id, Present(rows), ledger, today)
  {
    FirstMatchIgnoresLaterRows(rows, extra, id, 1);
    var k := FirstMatch(rows, id, 1).value;
    assert (rows + extra)[k] == rows[k];
  }

  // ---------------------------------------------------------------- contact date

  /**
   * The table `contact_date_to_csv(id)` writes: the first row of `id` with two
   * fields gets today's date when its date is six months old or older; when no
   * row was updated a row `(id, today)` is appended.
   */
  function ContactOutcome(id: string, contacts: Read, today: Date): Result<Table>
    requires PyDate(today)
  {
    match contacts
    case Present(rows) =>
      (match FirstMatch(rows, id, 2)
       case None => Ok(rows + [[id, FormatIsoDate(today)]])
       case Some(k) =>
         match ParseIsoDate(rows[k][1])
         case None => Fail(ValueError)
         case Some(last) =>
           if AtOrBefore(last, SixMonthsBefore(today)) then Ok(rows[k := rows[k][1 := FormatIsoDate(today)]])
           else Ok(rows + [[id, FormatIsoDate(today)]]))
    case _ => Fail(StoreError)
  }

  method ContactDateToCsv(id: string, contacts: Read, today: Date) returns (r: Result<Table>)
    requires PyDate(today)
    ensures r == ContactOutcome(id, contacts, today)
  {
    var sixMonthsAgo := SixMonthsBefore(today);
    if !contacts.Present? {
      return Fail(StoreError);
    }
    var rows := contacts.rows;
    var updated := false;
    var i := 0;
    while i < |rows|
      invariant 0 <= i <= |rows|
      invariant forall j :: 0 <= j < i ==> !Keyed(rows[j], id, 2)
      invariant rows == contacts.rows
    {
      var row := rows[i];
      if |row| >= 2 && row[0] == id {
        FirstMatchIs(rows, id, 2, i);
        var lastContactDate := ParseIsoDate(row[1]);
        if lastContactDate.None? {
          return Fail(ValueError);
        }
        if AtOrBefore(lastContactDate.value, sixMonthsAgo) {
          rows := rows[i := row[1 := FormatIsoDate(today)]];
          updated := true;
        }
        break;
      }
      i := i + 1;
    }
    if !updated {
      rows := rows + [[id, FormatIsoDate(today)]];
    }
    return Ok(rows);
  }

  /**
   * The contacts table after `contact_date_to_csv`: either one row is updated in
   * place, only in its date field and only to a later date, or the table grows by
   * exactly the row `(id, today)`; every other row stays as it was.
   */
  lemma ContactUpdateOrAppend(id: string, rows: Table, today: Date)
    requires PyDate(today)
    requires ContactOutcome(id, Present(rows), today).Ok?
    ensures var t := ContactOutcome(id, Present(rows), today).value;
      (|t| == |rows| + 1 && t[..|rows|] == rows && t[|rows|] == [id, FormatIsoDate(today)]) ||
      (|t| == |rows| &&
       exists k :: 0 <= k < |rows| && FirstMatch(rows, id, 2) == Some(k) &&
         |t[k]| == |rows[k]| && t[k][1] == FormatIsoDate(today) &&
         (forall f :: 0 <= f < |rows[k]| && f != 1 ==> t[k][f] == rows[k][f]) &&
         (forall j :: 0 <= j < |rows| && j != k ==> t[j] == rows[j]) &&
         Before(ParseIsoDate(rows[k][1]).value, today))
  {
    var t := ContactOutcome(id, Present(rows), today).value;
    match FirstMatch(rows, id, 2)
    case None =>
      assert t[..|rows|] == rows;
    case Some(k) =>
      var last := ParseIsoDate(rows[k][1]).value;
      if !AtOrBefore(last, SixMonthsBefore(today)) {
        assert t[..|rows|] == rows;
      } else {
        ContactOutdatedIsUpdated(id, rows, today, k);
        assert t == rows[k := rows[k][1 := FormatIsoDate(today)]];
      }
  }

  /** A first row of `id` dated six months back or earlier gets today's date, which is later than its old one. */
  lemma ContactOutdatedIsUpdated(id: string, rows: Table, today: Date, k: nat)
    requires PyDate(today) && FirstMatch(rows, id, 2) == Some(k)
    requires ParseIsoDate(rows[k][1]).Some? && AtOrBefore(ParseIsoDate(rows[k][1]).value, SixMonthsBefore(today))
    ensures ContactOutcome(id, Present(rows), today) == Ok(rows[k := rows[k][1 := FormatIsoDate(today)]])
    ensures Before(ParseIsoDate(rows[k][1]).value, today)
  {
    var last := ParseIsoDate(rows[k][1]).value;
    OrderIsOrdinalOrder(last, SixMonthsBefore(today));
    OrderIsOrdinalOrder(SixMonthsBefore(today), today);
    OrderIsOrdinalOrder(last, today);
  }

  /** A first row of `id` dated within the last six months is left alone and a second row is appended. */
  lemma ContactTooRecentAppends(id: string, rows: Table, today: Date)
    requires PyDate(today)
    requires FirstMatch(rows, id, 2).Some?
    requires var k := FirstMatch(rows, id, 2).value;
      ParseIsoDate(rows[k][1]).Some? && !AtOrBefore(ParseIsoDate(rows[k][1]).value, SixMonthsBefore(today))
    ensures ContactOutcome(id, Present(rows), today) == Ok(rows + [[id, FormatIsoDate(today)]])
  {
  }
}
