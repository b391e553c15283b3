/**
 * The reminder ledger tick of `ReminderService.csv_handler`
 * (services/reminderservice.py). The ledger is a table of rows
 * `(chat url, YYYY-MM-DD, count)`; for each candidate chat every row of that
 * chat is visited and escalated, left alone, or closed and restarted, and an
 * unknown chat gets a new row. The rows are written back as a set.
 */
module ReminderLedger {
  import opened Wrappers
  import opened Dates
  import opened Text
  import opened Store

  /** The text of a reminder: the caller's message, or one composed for the chat (`construct_message`). */
  datatype Body = Given(text: string) | Composed

  /** One call of `send_reminder(chat_url, reminder_msg)`. */
  datatype Reminder = Reminder(chat: string, body: Body)

  /** What stays fixed during one batch: the frequency in days, today's date and the reminder text. */
  datatype Batch = Batch(frequency: int, today: Date, body: Body)

  predicate ValidBatch(b: Batch) {
    PyDate(b.today)
  }

  /** `reminder_message if reminder_message else self.construct_message(chat_url)`. */
  function ReminderBody(message: Option<string>): (b: Body)
    ensures b.Given? <==> message.Some? && message.value != ""
    ensures b.Given? ==> b.text == message.value
  {
    if message.Some? && message.value != "" then Given(message.value) else Composed
  }

  /**
   * `check_with_frequency(str_date, frequency)`: at least `frequency` whole days
   * have passed since the date; an unparsable date raises `ValueError`.
   */
  function CheckWithFrequency(strDate: string, frequency: int, today: Date): (r: Result<bool>)
    requires PyDate(today)
    ensures r.Fail? <==> ParseIsoDate(strDate).None?
    ensures r.Fail? ==> r.error == ValueError
    ensures r.Ok? ==> (r.value <==> DaysBetween(ParseIsoDate(strDate).value, today) >= frequency)
  {
    match ParseIsoDate(strDate)
    case None => Fail(ValueError)
    case Some(lastCheck) => Ok(DaysBetween(lastCheck, today) >= frequency)
  }

  /** For a positive frequency a date is due only if it lies before today, and a date written today is not due. */
  lemma CheckWithFrequencyToday(frequency: int, today: Date)
    requires PyDate(today) && frequency >= 1
    ensures CheckWithFrequency(FormatIsoDate(today), frequency, today) == Ok(false)
  {
    IsoDateRoundTrip(today);
  }

  lemma DueDateIsPast(strDate: string, frequency: int, today: Date)
    requires PyDate(today) && frequency >= 1
    requires CheckWithFrequency(strDate, frequency, today) == Ok(true)
    ensures Before(ParseIsoDate(strDate).value, today)
  {
    OrderIsOrdinalOrder(ParseIsoDate(strDate).value, today);
  }

  /** The branch `csv_handler` takes for one row of the candidate chat. */
  datatype Tick =
    | Escalate(count: int)  // due and count below 4: the row becomes (chat, today, count), a reminder is sent
    | BanHold               // due, count 4, dated after six months back: "banned to send more reminders"
    | TooSoon               // fewer than `frequency` days since the row's date
    | Restart               // due, count 4, dated six months back or earlier: closed with 5, a new row with 0
    | Closed                // due and count above 4: no branch applies

  predicate Sends(t: Tick) {
    t.Escalate? || t.Restart?
  }

  /**
   * The branch cascade of `csv_handler` for a row of the chat, with the fields
   * read in the order the code reads them: the date first, and the count only
   * when the date is due.
   */
  function ClassifyRow(row: Row, b: Batch): (r: Result<Tick>)
    requires ValidBatch(b)
    ensures |row| < 2 ==> r == Fail(IndexError)
    ensures |row| >= 2 && ParseIsoDate(row[1]).None? ==> r == Fail(ValueError)
    ensures r.Ok? ==> |row| >= 2 && ParseIsoDate(row[1]).Some?
    ensures r == Ok(TooSoon) <==> |row| >= 2 && CheckWithFrequency(row[1], b.frequency, b.today) == Ok(false)
    ensures r.Ok? && r.value != TooSoon ==>
      CheckWithFrequency(row[1], b.frequency, b.today) == Ok(true) && |row| >= 3 && ParseInt(row[2]).Some?
    ensures forall n :: r == Ok(Escalate(n)) <==>
      |row| >= 2 && CheckWithFrequency(row[1], b.frequency, b.today) == Ok(true) &&
      |row| >= 3 && ParseInt(row[2]).Some? && ParseInt(row[2]).value < 4 && n == ParseInt(row[2]).value + 1
    ensures r == Ok(BanHold) <==>
      |row| >= 3 && CheckWithFrequency(row[1], b.frequency, b.today) == Ok(true) && ParseInt(row[2]) == Some(4) &&
      !AtOrBefore(ParseIsoDate(row[1]).value, SixMonthsBefore(b.today))
    ensures r == Ok(Restart) <==>
      |row| >= 3 && CheckWithFrequency(row[1], b.frequency, b.today) == Ok(true) && ParseInt(row[2]) == Some(4) &&
      AtOrBefore(ParseIsoDate(row[1]).value, SixMonthsBefore(b.today))
    ensures r == Ok(Closed) <==>
      |row| >= 3 && CheckWithFrequency(row[1], b.frequency, b.today) == Ok(true) &&
      ParseInt(row[2]).Some? && ParseInt(row[2]).value > 4
  {
    if |row| < 2 then Fail(IndexError)
    else match ParseIsoDate(row[1])
      case None => Fail(ValueError)
      case Some(lastContactDate) =>
        if !CheckWithFrequency(row[1], b.frequency, b.today).value then Ok(TooSoon)
        else if |row| < 3 then Fail(IndexError)
        else match ParseInt(row[2])
          case None => Fail(ValueError)
          case Some(count) =>
            if count < 4 then Ok(Escalate(count + 1))
            else if count == 4 && !AtOrBefore(lastContactDate, SixMonthsBefore(b.today)) then Ok(BanHold)
            else if count == 4 then Ok(Restart)
            else Ok(Closed)
  }

  /** The in-memory state of one batch: the file's rows, the rows to append, the reminders sent so far. */
  datatype Pass = Pass(rows: Table, appended: Table, sends: seq<Reminder>, raised: Option<PyError>)

  /** The row `(chat, today, count)` the handler writes. */
  function LedgerRow(chat: string, b: Batch, count: string): Row
    requires ValidBatch(b)
  {
    [chat, FormatIsoDate(b.today), count]
  }

  /** The effect of one tick on row `i` of the chat. */
  function ApplyTick(chat: string, st: Pass, i: nat, t: Tick, b: Batch): (r: Pass)
    requires ValidBatch(b) && i < |st.rows|
    ensures |r.rows| == |st.rows| && r.raised == st.raised
  {
    match t
    case Escalate(n) =>
      st.(rows := st.rows[i := LedgerRow(chat, b, IntToString(n))], sends := st.sends + [Reminder(chat, b.body)])
    case Restart =>
      st.(rows := st.rows[i := LedgerRow(chat, b, "5")], appended := st.appended + [LedgerRow(chat, b, "0")],
          sends := st.sends + [Reminder(chat, b.body)])
    case _ => st
  }

  /** The visit of row `i` while scanning for `chat`: rows of other chats are passed over. */
  function VisitRow(chat: string, st: Pass, i: nat, b: Batch): (r: Pass)
    requires ValidBatch(b) && i < |st.rows|
    ensures |r.rows| == |st.rows|
    ensures forall j :: 0 <= j < |st.rows| && j != i ==> r.rows[j] == st.rows[j]
  {
    if !KeyIs(st.rows[i], chat) then st
    else match ClassifyRow(st.rows[i], b)
      case Fail(e) => st.(raised := Some(e))
      case Ok(t) => ApplyTick(chat, st, i, t, b)
  }

  /** The inner loop from row `i` on; `found` is the `chat_exists` flag. An exception ends it. */
  function ScanFrom(chat: string, st: Pass, i: nat, found: bool, b: Batch): (r: (Pass, bool))
    requires ValidBatch(b) && i <= |st.rows|
    ensures |r.0.rows| == |st.rows|
    decreases |st.rows| - i
  {
    if i == |st.rows| || st.raised.Some? then (st, found)
    else ScanFrom(chat, VisitRow(chat, st, i, b), i + 1, found || KeyIs(st.rows[i], chat), b)
  }

  /** One candidate: scan every row, then append `(chat, today, 0)` and send when no row was the chat's. */
  function VisitCandidate(chat: string, st: Pass, b: Batch): Pass
    requires ValidBatch(b)
  {
    var (s, found) := ScanFrom(chat, st, 0, false, b);
    if s.raised.Some? || found then s
    else s.(appended := s.appended + [LedgerRow(chat, b, "0")], sends := s.sends + [Reminder(chat, b.body)])
  }

  /** The outer loop from candidate `k` on. */
  function CandidatesFrom(chats: seq<string>, k: nat, st: Pass, b: Batch): Pass
    requires ValidBatch(b)
    decreases |chats| - k
  {
    if k >= |chats| || st.raised.Some? then st
    else CandidatesFrom(chats, k + 1, VisitCandidate(chats[k], st, b), b)
  }

  function RowSet(t: Table): set<Row> {
    set r | r in t
  }

  /** What one run of the handler does: the reminders sent, the rows written (a set), the exception raised. */
  datatype HandlerResult = HandlerResult(sends: seq<Reminder>, written: Option<set<Row>>, raised: Option<PyError>)

  /**
   * `csv_handler`: nothing at all for an empty candidate list or a failed
   * download; a missing file is an empty ledger; after every candidate the
   * distinct rows of the appended and the file's rows are written. An exception
   * keeps the reminders already sent and writes nothing.
   */
  function CsvHandlerOutcome(chats: seq<string>, stored: Read, frequency: int, message: Option<string>, today: Date)
    : (r: HandlerResult)
    requires PyDate(today)
    ensures |chats| == 0 || stored.Unavailable? ==> r == HandlerResult([], None, None)
    ensures r.written.Some? <==> r.raised.None? && |chats| > 0 && !stored.Unavailable?
  {
    if |chats| < 1 || stored.Unavailable? then HandlerResult([], None, None)
    else
      var b := Batch(frequency, today, ReminderBody(message));
      var rows := if stored.Present? then stored.rows else [];
      var p := CandidatesFrom(chats, 0, Pass(rows, [], [], None), b);
      if p.raised.Some? then HandlerResult(p.sends, None, p.raised)
      else HandlerResult(p.sends, Some(RowSet(p.appended + p.rows)), None)
  }

  method CsvHandler(chatsWithNoResponse: seq<string>, stored: Read, reminderFrequency: int,
                    reminderMessage: Option<string>, today: Date)
    returns (sends: seq<Reminder>, written: Option<set<Row>>, raised: Option<PyError>)
    requires PyDate(today)
    ensures HandlerResult(sends, written, raised) ==
            CsvHandlerOutcome(chatsWithNoResponse, stored, reminderFrequency, reminderMessage, today)
  {
    sends, written, raised := [], None, None;
    if |chatsWithNoResponse| < 1 {
      return;
    }
    if stored.Unavailable? {
      return;
    }
    var rowsInFile: Table := if stored.Present? then stored.rows else [];
    var updatedRows: Table := [];
    var todayText := FormatIsoDate(today);
    var sixMonthsAgo := SixMonthsBefore(today);
    var body := ReminderBody(reminderMessage);
    ghost var b := Batch(reminderFrequency, today, body);
    ghost var start := Pass(rowsInFile, [], [], None);
    var k := 0;
    while k < |chatsWithNoResponse|
      invariant 0 <= k <= |chatsWithNoResponse| && raised.None?
      invariant CandidatesFrom(chatsWithNoResponse, 0, start, b) ==
                CandidatesFrom(chatsWithNoResponse, k, Pass(rowsInFile, updatedRows, sends, None), b)
    {
      var chatUrl := chatsWithNoResponse[k];
      ghost var before := Pass(rowsInFile, updatedRows, sends, None);
      var chatExists;
      rowsInFile, updatedRows, sends, chatExists, raised :=
        ScanChatRows(chatUrl, rowsInFile, updatedRows, sends, todayText, sixMonthsAgo, reminderFrequency, today, body);
      if raised.Some? {
        assert CandidatesFrom(chatsWithNoResponse, k, before, b) == Pass(rowsInFile, updatedRows, sends, raised);
        return;
      }
      if !chatExists {
        updatedRows := updatedRows + [[chatUrl, todayText, "0"]];
        sends := sends + [Reminder(chatUrl, body)];
      }
      assert VisitCandidate(chatUrl, before, b) == Pass(rowsInFile, updatedRows, sends, None);
      k := k + 1;
    }
    written := Some(RowSet(updatedRows + rowsInFile));
  }

  /**
   * The inner loop of `csv_handler` for one candidate chat: every row of the
   * chat is handled in turn; `chatExists` says whether there was one. An
   * exception ends the loop.
   */
  method ScanChatRows(chatUrl: string, rows0: Table, updated0: Table, sends0: seq<Reminder>,
                      todayText: string, sixMonthsAgo: Date, reminderFrequency: int, today: Date, body: Body)
    returns (rowsInFile: Table, updatedRows: Table, sends: seq<Reminder>, chatExists: bool, raised: Option<PyError>)
    requires PyDate(today) && todayText == FormatIsoDate(today) && sixMonthsAgo == SixMonthsBefore(today)
    ensures (Pass(rowsInFile, updatedRows, sends, raised), chatExists) ==
            ScanFrom(chatUrl, Pass(rows0, updated0, sends0, None), 0, false, Batch(reminderFrequency, today, body))
  {
    ghost var b := Batch(reminderFrequency, today, body);
    rowsInFile, updatedRows, sends, chatExists, raised := rows0, updated0, sends0, false, None;
    var i := 0;
    while i < |rowsInFile|
      invariant 0 <= i <= |rowsInFile| == |rows0| && raised.None?
      invariant ScanFrom(chatUrl, Pass(rows0, updated0, sends0, None), 0, false, b) ==
                ScanFrom(chatUrl, Pass(rowsInFile, updatedRows, sends, None), i, chatExists, b)
    {
      ghost var here, found := Pass(rowsInFile, updatedRows, sends, None), chatExists;
      if |rowsInFile[i]| > 0 && rowsInFile[i][0] == chatUrl {
        chatExists := true;
        rowsInFile, updatedRows, sends, raised :=
          HandleChatRow(chatUrl, rowsInFile, updatedRows, sends, i, todayText, sixMonthsAgo, reminderFrequency, today, body);
        if raised.Some? {
          assert ScanFrom(chatUrl, here, i, found, b) == (Pass(rowsInFile, updatedRows, sends, raised), true);
          return;
        }
      }
      i := i + 1;
    }
  }

  /**
   * The body of the inner loop of `csv_handler` for a row of the candidate
   * chat: the branch cascade on its date and count, with the row rewritten,
   * a row appended and a reminder sent as the branch says.
   */
  method HandleChatRow(chatUrl: string, rowsInFile: Table, updatedRows: Table, sends: seq<Reminder>, i: nat,
                       todayText: string, sixMonthsAgo: Date, reminderFrequency: int, today: Date, body: Body)
    returns (rows: Table, updated: Table, sent: seq<Reminder>, raised: Option<PyError>)
    requires PyDate(today) && todayText == FormatIsoDate(today) && sixMonthsAgo == SixMonthsBefore(today)
    requires i < |rowsInFile| && KeyIs(rowsInFile[i], chatUrl)
    ensures Pass(rows, updated, sent, raised) ==
            VisitRow(chatUrl, Pass(rowsInFile, updatedRows, sends, None), i, Batch(reminderFrequency, today, body))
  {
    rows, updated, sent, raised := rowsInFile, updatedRows, sends, None;
    var row := rowsInFile[i];
    if |row| < 2 {
      raised := Some(IndexError);
      return;
    }
    var lastContactDate := ParseIsoDate(row[1]);
    if lastContactDate.None? {
      raised := Some(ValueError);
      return;
    }
    var due := CheckWithFrequency(row[1], reminderFrequency, today).value;
    if !due {
      // not due yet: nothing changes
    } else {
      if |row| < 3 {
        raised := Some(IndexError);
        return;
      }
      var count := ParseInt(row[2]);
      if count.None? {
        raised := Some(ValueError);
        return;
      }
      if count.value < 4 {
        rows := rows[i := [chatUrl, todayText, IntToString(count.value + 1)]];
        sent := sent + [Reminder(chatUrl, body)];
      } else if count.value == 4 && !AtOrBefore(lastContactDate.value, sixMonthsAgo) {
        // count 4 dated within six months: ban hold, nothing changes
      } else if count.value == 4 {
        rows := rows[i := [chatUrl, todayText, "5"]];
        updated := updated + [[chatUrl, todayText, "0"]];
        sent := sent + [Reminder(chatUrl, body)];
      }
    }
  }
}
