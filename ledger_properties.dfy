/**
 * What one batch of `csv_handler` does to the reminder ledger: rows of other
 * chats are untouched, a chat without a row gets exactly one new row, a chat
 * with one row is decided by that row's tick alone, and a second batch on the
 * written ledger the same day sends nothing and writes the same rows.
 */
module LedgerProperties {
  import opened Wrappers
  import opened Dates
  import opened Text
  import opened Store
  import opened ReminderLedger

  /** No row from `i` to `j` belongs to the chat. */
  predicate NoRowOf(chat: string, rows: Table, i: nat, j: nat)
    requires i <= j <= |rows|
  {
    forall m :: i <= m < j ==> !KeyIs(rows[m], chat)
  }

  /** Rows of other chats are passed over without any effect. */
  lemma {:induction false} ScanSkipsOtherChats(chat: string, st: Pass, i: nat, j: nat, found: bool, b: Batch)
    requires ValidBatch(b) && i <= j <= |st.rows| && st.raised.None?
    requires NoRowOf(chat, st.rows, i, j)
    ensures ScanFrom(chat, st, i, found, b) == ScanFrom(chat, st, j, found, b)
    decreases j - i
  {
    if i < j {
      assert VisitRow(chat, st, i, b) == st;
      ScanSkipsOtherChats(chat, st, i + 1, j, found, b);
    }
  }

  /** A chat without a row in the ledger gets the one row `(chat, today, 0)` and one reminder. */
  lemma UnknownChatGetsOneRow(chat: string, st: Pass, b: Batch)
    requires ValidBatch(b) && st.raised.None?
    requires NoRowOf(chat, st.rows, 0, |st.rows|)
    ensures VisitCandidate(chat, st, b) ==
      st.(appended := st.appended + [[chat, FormatIsoDate(b.today), "0"]], sends := st.sends + [Reminder(chat, b.body)])
  {
    ScanSkipsOtherChats(chat, st, 0, |st.rows|, false, b);
  }

  /** With a single row of the chat, its tick alone decides the batch's effect for that chat. */
  lemma OnlyRowDecides(chat: string, st: Pass, k: nat, b: Batch)
    requires ValidBatch(b) && st.raised.None? && k < |st.rows|
    requires KeyIs(st.rows[k], chat)
    requires NoRowOf(chat, st.rows, 0, k) && NoRowOf(chat, st.rows, k + 1, |st.rows|)
    requires ClassifyRow(st.rows[k], b).Ok?
    ensures VisitCandidate(chat, st, b) == ApplyTick(chat, st, k, ClassifyRow(st.rows[k], b).value, b)
  {
    var next := ApplyTick(chat, st, k, ClassifyRow(st.rows[k], b).value, b);
    ScanSkipsOtherChats(chat, st, 0, k, false, b);
    assert VisitRow(chat, st, k, b) == next;
    assert forall m :: k + 1 <= m < |st.rows| ==> next.rows[m] == st.rows[m];
    ScanSkipsOtherChats(chat, next, k + 1, |st.rows|, true, b);
  }

  /** A due row with a count below 4 is rewritten with today's date and the count plus one. */
  lemma DueRowEscalates(chat: string, st: Pass, k: nat, b: Batch)
    requires ValidBatch(b) && st.raised.None? && k < |st.rows|
    requires KeyIs(st.rows[k], chat)
    requires NoRowOf(chat, st.rows, 0, k) && NoRowOf(chat, st.rows, k + 1, |st.rows|)
    requires |st.rows[k]| >= 3 && CheckWithFrequency(st.rows[k][1], b.frequency, b.today) == Ok(true)
    requires ParseInt(st.rows[k][2]).Some? && ParseInt(st.rows[k][2]).value < 4
    ensures var after := VisitCandidate(chat, st, b);
      after.rows == st.rows[k := [chat, FormatIsoDate(b.today), IntToString(ParseInt(st.rows[k][2]).value + 1)]] &&
      after.appended == st.appended && after.sends == st.sends + [Reminder(chat, b.body)]
  {
    OnlyRowDecides(chat, st, k, b);
  }

  /** A row that is not due, or that is on hold or closed, is kept as it is and nothing is sent. */
  lemma UndueRowIsKept(chat: string, st: Pass, k: nat, b: Batch)
    requires ValidBatch(b) && st.raised.None? && k < |st.rows|
    requires KeyIs(st.rows[k], chat)
    requires NoRowOf(chat, st.rows, 0, k) && NoRowOf(chat, st.rows, k + 1, |st.rows|)
    requires ClassifyRow(st.rows[k], b) in {Ok(TooSoon), Ok(BanHold), Ok(Closed)}
    ensures VisitCandidate(chat, st, b) == st
  {
    OnlyRowDecides(chat, st, k, b);
  }

  /** A due row at count 4 dated six months back or earlier is closed with 5 and a fresh row with 0 is added. */
  lemma OverdueFinalRowRestarts(chat: string, st: Pass, k: nat, b: Batch)
    requires ValidBatch(b) && st.raised.None? && k < |st.rows|
    requires KeyIs(st.rows[k], chat)
    requires NoRowOf(chat, st.rows, 0, k) && NoRowOf(chat, st.rows, k + 1, |st.rows|)
    requires |st.rows[k]| >= 3 && CheckWithFrequency(st.rows[k][1], b.frequency, b.today) == Ok(true)
    requires ParseInt(st.rows[k][2]) == Some(4) && AtOrBefore(ParseIsoDate(st.rows[k][1]).value, SixMonthsBefore(b.today))
    ensures var after := VisitCandidate(chat, st, b);
      after.rows == st.rows[k := [chat, FormatIsoDate(b.today), "5"]] &&
      after.appended == st.appended + [[chat, FormatIsoDate(b.today), "0"]] &&
      after.sends == st.sends + [Reminder(chat, b.body)]
  {
    OnlyRowDecides(chat, st, k, b);
  }

  /*
   * A chat with any number of rows: every row of the chat is visited (there
   * is no `break`), each is rewritten by its own tick, and the reminders and
   * appended rows are those of the ticks, in row order.
   */

  /** The row a visit leaves in place of `row`: rows of other chats, and rows whose tick rewrites nothing, stay. */
  function TickedRow(chat: string, row: Row, b: Batch): Row
    requires ValidBatch(b)
  {
    if KeyIs(row, chat) && ClassifyRow(row, b).Ok? then
      match ClassifyRow(row, b).value
      case Escalate(n) => LedgerRow(chat, b, IntToString(n))
      case Restart => LedgerRow(chat, b, "5")
      case _ => row
    else row
  }

  /** The reminder a row's tick sends, if it sends one. */
  function RowSends(chat: string, row: Row, b: Batch): seq<Reminder>
    requires ValidBatch(b)
  {
    if KeyIs(row, chat) && ClassifyRow(row, b).Ok? && Sends(ClassifyRow(row, b).value) then [Reminder(chat, b.body)] else []
  }

  /** The row a row's tick appends: `(chat, today, 0)` for a restart. */
  function RowAppends(chat: string, row: Row, b: Batch): Table
    requires ValidBatch(b)
  {
    if KeyIs(row, chat) && ClassifyRow(row, b) == Ok(Restart) then [LedgerRow(chat, b, "0")] else []
  }

  /** The reminders of the ticks of the rows from `i` on, in row order. */
  function TickSends(chat: string, rows: Table, i: nat, b: Batch): seq<Reminder>
    requires ValidBatch(b)
    decreases |rows| - i
  {
    if i >= |rows| then [] else RowSends(chat, rows[i], b) + TickSends(chat, rows, i + 1, b)
  }

  /** The rows the ticks of the rows from `i` on append, in row order. */
  function TickAppends(chat: string, rows: Table, i: nat, b: Batch): Table
    requires ValidBatch(b)
    decreases |rows| - i
  {
    if i >= |rows| then [] else RowAppends(chat, rows[i], b) + TickAppends(chat, rows, i + 1, b)
  }

  lemma ConcatAssoc<T>(x: seq<T>, y: seq<T>, z: seq<T>)
    ensures x + y + z == x + (y + z)
  {
  }

  /** Every row of the chat from `i` on has a tick, so none of them raises. */
  predicate TicksFrom(chat: string, rows: Table, i: nat, b: Batch)
    requires ValidBatch(b)
  {
    forall j :: i <= j < |rows| && KeyIs(rows[j], chat) ==> ClassifyRow(rows[j], b).Ok?
  }

  /** One visit of a row with a tick: the row is rewritten by it and its reminder and row are added. */
  lemma VisitRowTicks(chat: string, st: Pass, i: nat, b: Batch)
    requires ValidBatch(b) && i < |st.rows| && st.raised.None?
    requires KeyIs(st.rows[i], chat) ==> ClassifyRow(st.rows[i], b).Ok?
    ensures var v := VisitRow(chat, st, i, b);
      v.raised.None? && v.rows == st.rows[i := TickedRow(chat, st.rows[i], b)] &&
      v.appended == st.appended + RowAppends(chat, st.rows[i], b) &&
      v.sends == st.sends + RowSends(chat, st.rows[i], b)
  {
    if !KeyIs(st.rows[i], chat) {
      assert st.rows[i := st.rows[i]] == st.rows;
    } else {
      var t := ClassifyRow(st.rows[i], b).value;
      if !t.Escalate? && !t.Restart? {
        assert st.rows[i := st.rows[i]] == st.rows;
      }
    }
  }

  /** One visit of a row with a tick adds the row's appended row. */
  lemma VisitRowAppends(chat: string, st: Pass, i: nat, b: Batch)
    requires ValidBatch(b) && i < |st.rows| && st.raised.None?
    requires KeyIs(st.rows[i], chat) ==> ClassifyRow(st.rows[i], b).Ok?
    ensures var v := VisitRow(chat, st, i, b);
      v.raised.None? && v.appended == st.appended + RowAppends(chat, st.rows[i], b)
  {
    VisitRowTicks(chat, st, i, b);
  }

  /** One visit of a row with a tick adds the row's reminder. */
  lemma VisitRowSends(chat: string, st: Pass, i: nat, b: Batch)
    requires ValidBatch(b) && i < |st.rows| && st.raised.None?
    requires KeyIs(st.rows[i], chat) ==> ClassifyRow(st.rows[i], b).Ok?
    ensures var v := VisitRow(chat, st, i, b);
      v.raised.None? && v.sends == st.sends + RowSends(chat, st.rows[i], b)
  {
    VisitRowTicks(chat, st, i, b);
  }

  /** A scan from row `i` whose rows of the chat all have a tick rewrites each of them by its own tick. */
  lemma {:induction false} ScanRowsByTicks(chat: string, st: Pass, i: nat, found: bool, b: Batch)
    requires ValidBatch(b) && i <= |st.rows| && st.raised.None?
    requires TicksFrom(chat, st.rows, i, b)
    ensures var s := ScanFrom(chat, st, i, found, b).0;
      s.raised.None? && |s.rows| == |st.rows| &&
      (forall j :: 0 <= j < i ==> s.rows[j] == st.rows[j]) &&
      (forall j :: i <= j < |st.rows| ==> s.rows[j] == TickedRow(chat, st.rows[j], b))
    decreases |st.rows| - i
  {
    if i < |st.rows| {
      var v := VisitRow(chat, st, i, b);
      var f := found || KeyIs(st.rows[i], chat);
      VisitRowTicks(chat, st, i, b);
      assert ScanFrom(chat, st, i, found, b) == ScanFrom(chat, v, i + 1, f, b);
      assert v.rows[i + 1..] == st.rows[i + 1..];
      TicksFromStep(chat, st.rows, v.rows, i, b);
      ScanRowsByTicks(chat, v, i + 1, f, b);
      var s := ScanFrom(chat, v, i + 1, f, b).0;
      forall j | i <= j < |st.rows|
        ensures s.rows[j] == TickedRow(chat, st.rows[j], b)
      {
        if j > i {
          assert v.rows[j] == st.rows[j];
        }
      }
    }
  }

  /**
   * A scan from row `i` over rows that agree with `orig` from `i` on, whose
   * rows of the chat all have a tick, appends the ticks' rows, in row order.
   */
  lemma {:induction false} ScanAppendsByTicks(chat: string, st: Pass, i: nat, found: bool, b: Batch, orig: Table)
    requires ValidBatch(b) && i <= |st.rows| == |orig| && st.raised.None?
    requires forall j :: i <= j < |orig| ==> st.rows[j] == orig[j]
    requires TicksFrom(chat, orig, i, b)
    ensures ScanFrom(chat, st, i, found, b).0.appended == st.appended + TickAppends(chat, orig, i, b)
    decreases |st.rows| - i
  {
    if i < |st.rows| {
      var v := VisitRow(chat, st, i, b);
      VisitRowAppends(chat, st, i, b);
      assert ScanFrom(chat, st, i, found, b) == ScanFrom(chat, v, i + 1, found || KeyIs(st.rows[i], chat), b);
      ScanAppendsByTicks(chat, v, i + 1, found || KeyIs(st.rows[i], chat), b, orig);
      var s := ScanFrom(chat, v, i + 1, found || KeyIs(st.rows[i], chat), b).0;
      var here, rest := RowAppends(chat, orig[i], b), TickAppends(chat, orig, i + 1, b);
      assert v.appended == st.appended + here;
      assert TickAppends(chat, orig, i, b) == here + rest;
      assert s.appended == st.appended + here + rest;
      ConcatAssoc(st.appended, here, rest);
    }
  }

  /**
   * A scan from row `i` over rows that agree with `orig` from `i` on, whose
   * rows of the chat all have a tick, sends the ticks' reminders, in row order.
   */
  lemma {:induction false} ScanSendsByTicks(chat: string, st: Pass, i: nat, found: bool, b: Batch, orig: Table)
    requires ValidBatch(b) && i <= |st.rows| == |orig| && st.raised.None?
    requires forall j :: i <= j < |orig| ==> st.rows[j] == orig[j]
    requires TicksFrom(chat, orig, i, b)
    ensures ScanFrom(chat, st, i, found, b).0.sends == st.sends + TickSends(chat, orig, i, b)
    decreases |st.rows| - i
  {
    if i < |st.rows| {
      var v := VisitRow(chat, st, i, b);
      VisitRowSends(chat, st, i, b);
      assert ScanFrom(chat, st, i, found, b) == ScanFrom(chat, v, i + 1, found || KeyIs(st.rows[i], chat), b);
      ScanSendsByTicks(chat, v, i + 1, found || KeyIs(st.rows[i], chat), b, orig);
      var s := ScanFrom(chat, v, i + 1, found || KeyIs(st.rows[i], chat), b).0;
      var here, rest := RowSends(chat, orig[i], b), TickSends(chat, orig, i + 1, b);
      assert v.sends == st.sends + here;
      assert TickSends(chat, orig, i, b) == here + rest;
      assert s.sends == st.sends + here + rest;
      ConcatAssoc(st.sends, here, rest);
    }
  }

  /** Rewriting row `i` keeps the rows from `i + 1` on, so they still all have a tick. */
  lemma TicksFromStep(chat: string, rows: Table, next: Table, i: nat, b: Batch)
    requires ValidBatch(b) && i < |rows| && TicksFrom(chat, rows, i, b)
    requires |next| == |rows| && next[i + 1..] == rows[i + 1..]
    ensures TicksFrom(chat, next, i + 1, b)
  {
    forall j | i + 1 <= j < |rows|
      ensures next[j] == rows[j]
    {
      assert next[j] == next[i + 1..][j - i - 1];
    }
  }

  /** A scan from row `i` raises when some row of the chat from `i` on has no tick. */
  lemma {:induction false} ScanRaisesOnBadRow(chat: string, st: Pass, i: nat, found: bool, b: Batch, k: nat)
    requires ValidBatch(b) && i <= k < |st.rows| && st.raised.None?
    requires KeyIs(st.rows[k], chat) && ClassifyRow(st.rows[k], b).Fail?
    ensures ScanFrom(chat, st, i, found, b).0.raised.Some?
    decreases k - i
  {
    if KeyIs(st.rows[i], chat) && ClassifyRow(st.rows[i], b).Fail? {
      assert VisitRow(chat, st, i, b).raised.Some?;
    } else {
      var v := VisitRow(chat, st, i, b);
      VisitRowTicks(chat, st, i, b);
      ScanRaisesOnBadRow(chat, v, i + 1, found || KeyIs(st.rows[i], chat), b, k);
    }
  }

  /**
   * One candidate whose rows all have a tick: each of its rows is rewritten by
   * its own tick, the reminders are one per sending row in row order, one row
   * `(chat, today, 0)` is appended per restarted row, and a chat with no row
   * gets one new row and one reminder.
   */
  lemma VisitCandidateByRows(chat: string, st: Pass, b: Batch)
    requires ValidBatch(b) && st.raised.None? && TicksFrom(chat, st.rows, 0, b)
    ensures VisitCandidate(chat, st, b).raised.None? && |VisitCandidate(chat, st, b).rows| == |st.rows|
    ensures forall j :: 0 <= j < |st.rows| ==> VisitCandidate(chat, st, b).rows[j] == TickedRow(chat, st.rows[j], b)
    ensures VisitCandidate(chat, st, b).appended == st.appended + TickAppends(chat, st.rows, 0, b) +
      (if NoRowOf(chat, st.rows, 0, |st.rows|) then [LedgerRow(chat, b, "0")] else [])
    ensures VisitCandidate(chat, st, b).sends == st.sends + TickSends(chat, st.rows, 0, b) +
      (if NoRowOf(chat, st.rows, 0, |st.rows|) then [Reminder(chat, b.body)] else [])
  {
    ScanRowsByTicks(chat, st, 0, false, b);
    ScanAppendsByTicks(chat, st, 0, false, b, st.rows);
    ScanSendsByTicks(chat, st, 0, false, b, st.rows);
    ScanFinds(chat, st, 0, false, b);
  }

  /** A candidate with a row of the chat that has no tick raises. */
  lemma VisitCandidateRaises(chat: string, st: Pass, b: Batch, k: nat)
    requires ValidBatch(b) && st.raised.None? && k < |st.rows|
    requires KeyIs(st.rows[k], chat) && ClassifyRow(st.rows[k], b).Fail?
    ensures VisitCandidate(chat, st, b).raised.Some?
  {
    ScanRaisesOnBadRow(chat, st, 0, false, b, k);
  }

  /** A row the batch leaves alone on a rerun: the tick is neither an exception nor a reminder. */
  predicate Settled(row: Row, b: Batch)
    requires ValidBatch(b)
  {
    ClassifyRow(row, b).Ok? && !Sends(ClassifyRow(row, b).value)
  }

  /** Every row the handler writes is dated today, so it is not due again today. */
  lemma LedgerRowSettled(chat: string, b: Batch, count: string)
    requires ValidBatch(b) && b.frequency >= 1
    ensures ClassifyRow(LedgerRow(chat, b, count), b) == Ok(TooSoon)
  {
    CheckWithFrequencyToday(b.frequency, b.today);
  }

  /** A scan changes only rows of the chat, and only from row `i` on. */
  lemma {:induction false} ScanFrame(chat: string, st: Pass, i: nat, found: bool, b: Batch)
    requires ValidBatch(b) && i <= |st.rows|
    ensures var s := ScanFrom(chat, st, i, found, b).0;
      (forall j :: 0 <= j < |st.rows| && !KeyIs(st.rows[j], chat) ==> s.rows[j] == st.rows[j]) &&
      (forall j :: 0 <= j < i ==> s.rows[j] == st.rows[j])
    decreases |st.rows| - i
  {
    if i < |st.rows| && st.raised.None? {
      ScanFrame(chat, VisitRow(chat, st, i, b), i + 1, found || KeyIs(st.rows[i], chat), b);
    }
  }

  /** A scan keeps the rows to append and adds only rows `(chat, today, 0)`. */
  lemma {:induction false} ScanAppends(chat: string, st: Pass, i: nat, found: bool, b: Batch)
    requires ValidBatch(b) && i <= |st.rows|
    ensures var s := ScanFrom(chat, st, i, found, b).0;
      (forall r :: r in st.appended ==> r in s.appended) &&
      (forall r :: r in s.appended ==> r in st.appended || r == LedgerRow(chat, b, "0"))
    decreases |st.rows| - i
  {
    if i < |st.rows| && st.raised.None? {
      ScanAppends(chat, VisitRow(chat, st, i, b), i + 1, found || KeyIs(st.rows[i], chat), b);
    }
  }

  /** A scan that raises nothing sets `chat_exists` exactly when some row from `i` on is the chat's. */
  lemma {:induction false} ScanFinds(chat: string, st: Pass, i: nat, found: bool, b: Batch)
    requires ValidBatch(b) && i <= |st.rows| && st.raised.None?
    requires ScanFrom(chat, st, i, found, b).0.raised.None?
    ensures ScanFrom(chat, st, i, found, b).1 <==> found || exists j :: i <= j < |st.rows| && KeyIs(st.rows[j], chat)
    decreases |st.rows| - i
  {
    if i < |st.rows| {
      ScanFinds(chat, VisitRow(chat, st, i, b), i + 1, found || KeyIs(st.rows[i], chat), b);
    }
  }

  /** The row a visit that raises nothing leaves in place of a row of the chat is the chat's and settled. */
  lemma VisitSettlesRow(chat: string, st: Pass, i: nat, b: Batch)
    requires ValidBatch(b) && b.frequency >= 1 && i < |st.rows| && st.raised.None?
    requires KeyIs(st.rows[i], chat) && VisitRow(chat, st, i, b).raised.None?
    ensures KeyIs(VisitRow(chat, st, i, b).rows[i], chat) && Settled(VisitRow(chat, st, i, b).rows[i], b)
  {
    var t := ClassifyRow(st.rows[i], b).value;
    if Sends(t) {
      LedgerRowSettled(chat, b, if t.Escalate? then IntToString(t.count) else "5");
    }
  }

  /** A scan that raises nothing leaves every row of the chat from `i` on settled. */
  lemma {:induction false} ScanSettles(chat: string, st: Pass, i: nat, found: bool, b: Batch)
    requires ValidBatch(b) && b.frequency >= 1 && i <= |st.rows| && st.raised.None?
    requires ScanFrom(chat, st, i, found, b).0.raised.None?
    ensures var s := ScanFrom(chat, st, i, found, b).0;
      forall j :: i <= j < |st.rows| && KeyIs(st.rows[j], chat) ==> KeyIs(s.rows[j], chat) && Settled(s.rows[j], b)
    decreases |st.rows| - i
  {
    if i < |st.rows| {
      var v := VisitRow(chat, st, i, b);
      var f := found || KeyIs(st.rows[i], chat);
      assert ScanFrom(chat, st, i, found, b) == ScanFrom(chat, v, i + 1, f, b);
      ScanSettles(chat, v, i + 1, f, b);
      ScanFrame(chat, v, i + 1, f, b);
      if KeyIs(st.rows[i], chat) {
        VisitSettlesRow(chat, st, i, b);
      }
    }
  }

  /** A scan over rows of the chat that are all settled changes nothing. */
  lemma {:induction false} SettledScanIsIdentity(chat: string, st: Pass, i: nat, found: bool, b: Batch)
    requires ValidBatch(b) && i <= |st.rows| && st.raised.None?
    requires forall j :: i <= j < |st.rows| && KeyIs(st.rows[j], chat) ==> Settled(st.rows[j], b)
    ensures ScanFrom(chat, st, i, found, b) == (st, found || exists j :: i <= j < |st.rows| && KeyIs(st.rows[j], chat))
    decreases |st.rows| - i
  {
    if i < |st.rows| {
      assert VisitRow(chat, st, i, b) == st;
      SettledScanIsIdentity(chat, st, i + 1, found || KeyIs(st.rows[i], chat), b);
    }
  }

  /** After the candidates in `done`: every appended row and every row of a done chat is settled, and each done chat has a row. */
  predicate SettledFor(p: Pass, done: seq<string>, b: Batch)
    requires ValidBatch(b)
  {
    && (forall r :: r in p.appended ==> Settled(r, b))
    && (forall j, c :: 0 <= j < |p.rows| && c in done && KeyIs(p.rows[j], c) ==> Settled(p.rows[j], b))
    && (forall c :: c in done ==>
          (exists j :: 0 <= j < |p.rows| && KeyIs(p.rows[j], c)) || (exists r :: r in p.appended && KeyIs(r, c)))
  }

  lemma VisitCandidateSettles(chat: string, st: Pass, done: seq<string>, b: Batch)
    requires ValidBatch(b) && b.frequency >= 1 && st.raised.None?
    requires SettledFor(st, done, b)
    requires VisitCandidate(chat, st, b).raised.None?
    ensures SettledFor(VisitCandidate(chat, st, b), done + [chat], b)
  {
    VisitCandidateAppendsSettled(chat, st, b);
    VisitCandidateRowsSettled(chat, st, done, b);
    VisitCandidateRowsPresent(chat, st, done, b);
  }

  /** A visit appends only settled rows. */
  lemma VisitCandidateAppendsSettled(chat: string, st: Pass, b: Batch)
    requires ValidBatch(b) && b.frequency >= 1
    requires forall r :: r in st.appended ==> Settled(r, b)
    ensures forall r :: r in VisitCandidate(chat, st, b).appended ==> Settled(r, b)
  {
    var (s, found) := ScanFrom(chat, st, 0, false, b);
    ScanAppends(chat, st, 0, false, b);
    LedgerRowSettled(chat, b, "0");
    var p := VisitCandidate(chat, st, b);
    assert forall r :: r in p.appended ==> r in s.appended || r == LedgerRow(chat, b, "0");
  }

  /** After a visit that raises nothing, the rows of the chat and of the chats done before are settled. */
  lemma VisitCandidateRowsSettled(chat: string, st: Pass, done: seq<string>, b: Batch)
    requires ValidBatch(b) && b.frequency >= 1 && st.raised.None?
    requires forall j, c :: 0 <= j < |st.rows| && c in done && KeyIs(st.rows[j], c) ==> Settled(st.rows[j], b)
    requires VisitCandidate(chat, st, b).raised.None?
    ensures var p := VisitCandidate(chat, st, b);
      forall j, c :: 0 <= j < |p.rows| && c in done + [chat] && KeyIs(p.rows[j], c) ==> Settled(p.rows[j], b)
  {
    var (s, found) := ScanFrom(chat, st, 0, false, b);
    ScanFrame(chat, st, 0, false, b);
    ScanSettles(chat, st, 0, false, b);
    var p := VisitCandidate(chat, st, b);
    assert p.rows == s.rows;
    forall j, c | 0 <= j < |p.rows| && c in done + [chat] && KeyIs(p.rows[j], c)
      ensures Settled(p.rows[j], b)
    {
      if !KeyIs(st.rows[j], chat) {
        assert p.rows[j] == st.rows[j];
      }
    }
  }

  /** After a visit that raises nothing, the chat and every chat done before have a row. */
  lemma VisitCandidateRowsPresent(chat: string, st: Pass, done: seq<string>, b: Batch)
    requires ValidBatch(b) && b.frequency >= 1 && st.raised.None?
    requires forall c :: c in done ==>
      (exists j :: 0 <= j < |st.rows| && KeyIs(st.rows[j], c)) || (exists r :: r in st.appended && KeyIs(r, c))
    requires VisitCandidate(chat, st, b).raised.None?
    ensures var p := VisitCandidate(chat, st, b);
      forall c :: c in done + [chat] ==>
        (exists j :: 0 <= j < |p.rows| && KeyIs(p.rows[j], c)) || (exists r :: r in p.appended && KeyIs(r, c))
  {
    var (s, found) := ScanFrom(chat, st, 0, false, b);
    ScanFrame(chat, st, 0, false, b);
    ScanAppends(chat, st, 0, false, b);
    ScanFinds(chat, st, 0, false, b);
    ScanSettles(chat, st, 0, false, b);
    var p := VisitCandidate(chat, st, b);
    assert p.rows == s.rows;
    assert forall r :: r in s.appended ==> r in p.appended;
    forall c | c in done + [chat]
      ensures (exists j :: 0 <= j < |p.rows| && KeyIs(p.rows[j], c)) || (exists r :: r in p.appended && KeyIs(r, c))
    {
      if c == chat {
        if found {
          var j :| 0 <= j < |st.rows| && KeyIs(st.rows[j], chat);
          assert KeyIs(p.rows[j], c);
        } else {
          assert LedgerRow(chat, b, "0") in p.appended && KeyIs(LedgerRow(chat, b, "0"), c);
        }
      } else if exists j :: 0 <= j < |st.rows| && KeyIs(st.rows[j], c) {
        var j :| 0 <= j < |st.rows| && KeyIs(st.rows[j], c);
        assert !KeyIs(st.rows[j], chat) && p.rows[j] == st.rows[j];
      } else {
        var r :| r in st.appended && KeyIs(r, c);
        assert r in p.appended;
      }
    }
  }

  lemma {:induction false} CandidatesSettle(chats: seq<string>, k: nat, st: Pass, b: Batch)
    requires ValidBatch(b) && b.frequency >= 1 && st.raised.None? && k <= |chats|
    requires SettledFor(st, chats[..k], b)
    requires CandidatesFrom(chats, k, st, b).raised.None?
    ensures SettledFor(CandidatesFrom(chats, k, st, b), chats, b)
    decreases |chats| - k
  {
    if k == |chats| {
      assert chats[..k] == chats;
    } else {
      var next := VisitCandidate(chats[k], st, b);
      VisitCandidateSettles(chats[k], st, chats[..k], b);
      assert chats[..k] + [chats[k]] == chats[..k + 1];
      CandidatesSettle(chats, k + 1, next, b);
    }
  }

  /** On a ledger where every candidate has a row and all its rows are settled, the batch changes nothing. */
  lemma {:induction false} SettledLedgerIsFixed(chats: seq<string>, k: nat, rows: Table, b: Batch)
    requires ValidBatch(b) && k <= |chats|
    requires forall c, j :: c in chats && 0 <= j < |rows| && KeyIs(rows[j], c) ==> Settled(rows[j], b)
    requires forall c :: c in chats ==> exists j :: 0 <= j < |rows| && KeyIs(rows[j], c)
    ensures CandidatesFrom(chats, k, Pass(rows, [], [], None), b) == Pass(rows, [], [], None)
    decreases |chats| - k
  {
    if k < |chats| {
      var p := Pass(rows, [], [], None);
      assert chats[k] in chats;
      SettledScanIsIdentity(chats[k], p, 0, false, b);
      assert VisitCandidate(chats[k], p, b) == p;
      SettledLedgerIsFixed(chats, k + 1, rows, b);
    }
  }

  /** A table holding the same rows as a settled pass: every row of a chat is settled, and every chat has a row. */
  lemma RereadIsSettled(chats: seq<string>, p: Pass, reread: Table, b: Batch)
    requires ValidBatch(b) && SettledFor(p, chats, b) && RowSet(p.appended + p.rows) == RowSet(reread)
    ensures forall c, j :: c in chats && 0 <= j < |reread| && KeyIs(reread[j], c) ==> Settled(reread[j], b)
    ensures forall c :: c in chats ==> exists j :: 0 <= j < |reread| && KeyIs(reread[j], c)
  {
    forall c, j | c in chats && 0 <= j < |reread| && KeyIs(reread[j], c)
      ensures Settled(reread[j], b)
    {
      assert reread[j] in RowSet(p.appended + p.rows);
      if reread[j] !in p.appended {
        var m :| 0 <= m < |p.rows| && p.rows[m] == reread[j];
        assert KeyIs(p.rows[m], c);
      }
    }
    forall c | c in chats
      ensures exists j :: 0 <= j < |reread| && KeyIs(reread[j], c)
    {
      var r: Row;
      if exists j :: 0 <= j < |p.rows| && KeyIs(p.rows[j], c) {
        var j :| 0 <= j < |p.rows| && KeyIs(p.rows[j], c);
        r := p.rows[j];
      } else {
        r :| r in p.appended && KeyIs(r, c);
      }
      assert r in RowSet(p.appended + p.rows);
      var j :| 0 <= j < |reread| && reread[j] == r;
      assert KeyIs(reread[j], c);
    }
  }

  /**
   * Rerunning the batch on the ledger it wrote (read back in any order), on the
   * same day and with a frequency of at least one day, sends no reminder and
   * writes the same rows.
   */
  lemma RerunSendsNothing(chats: seq<string>, stored: Read, frequency: int, message: Option<string>,
                          today: Date, reread: Table)
    requires PyDate(today) && frequency >= 1
    requires CsvHandlerOutcome(chats, stored, frequency, message, today).written == Some(RowSet(reread))
    ensures CsvHandlerOutcome(chats, Present(reread), frequency, message, today) ==
            HandlerResult([], Some(RowSet(reread)), None)
  {
    var b := Batch(frequency, today, ReminderBody(message));
    var rows := if stored.Present? then stored.rows else [];
    var start := Pass(rows, [], [], None);
    var p := CandidatesFrom(chats, 0, start, b);
    assert chats[..0] == [];
    CandidatesSettle(chats, 0, start, b);
    assert RowSet(p.appended + p.rows) == RowSet(reread);
    RereadIsSettled(chats, p, reread, b);
    SettledLedgerIsFixed(chats, 0, reread, b);
    assert [] + reread == reread;
  }
}
