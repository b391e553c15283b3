/**
 * The first-contact batch of `MessagingService` (services/messagingservice.py):
 * for each recipient in turn the contact throttle and ban check, one message
 * post, a confirmation on the messages page and the contact-date record, with
 * a progress notification after every recipient and a pause between them.
 * The web site's replies for each recipient are given as an `Exchange`.
 */
module Messaging {
  import opened Wrappers
  import opened Dates
  import opened Text
  import opened Store
  import opened CsvUtil

  /** The volunteer's message page: a raised request, or the status and the two hidden form inputs (`None` when missing). */
  datatype MessagePage = PageRaised | PageReply(status: int, token: Option<string>, loaded: Option<string>)

  /** The reply to the message post. */
  datatype PostReply = PostRaised | PostStatus(status: int)

  /** The messages page used for confirmation: the hrefs of its conversation links in page order (`None`: no href). */
  datatype Inbox = InboxRaised | InboxReply(status: int, hrefs: seq<Option<string>>)

  /** What the web site answers for one recipient. */
  datatype Exchange = Exchange(page: MessagePage, post: PostReply, inbox: Inbox)

  /** The form data posted by `__send_message`. */
  datatype Form = Form(body: string, phoneNumber: string, dusdat: string, token: string, loaded: string)

  /** `__send_message`: its boolean result and the form it posted, if it got as far as posting. */
  datatype Attempt = Attempt(sent: bool, posted: Option<Form>)

  predicate FormReady(page: MessagePage) {
    page.PageReply? && page.status == 200 && page.token.Some? && page.loaded.Some?
  }

  /**
   * `__send_message`: the form is posted only from a 200 page carrying both
   * inputs (a missing input raises inside the `try`); the result is true
   * only for a 200 reply to the post. Every other path returns false.
   */
  function SendMessage(message: string, phoneNumber: string, page: MessagePage, post: PostReply): (a: Attempt)
    ensures a.posted.Some? <==> FormReady(page)
    ensures a.posted.Some? ==> a.posted.value == Form(message, phoneNumber, "", page.token.value, page.loaded.value)
    ensures a.sent <==> FormReady(page) && post == PostStatus(200)
  {
    match page
    case PageRaised => Attempt(false, None)
    case PageReply(status, token, loaded) =>
      if status != 200 then Attempt(false, None)
      else if token.None? || loaded.None? then Attempt(false, None)
      else
        var data := Form(message, phoneNumber, "", token.value, loaded.value);
        match post
        case PostRaised => Attempt(false, Some(data))
        case PostStatus(code) => Attempt(code == 200, Some(data))
  }

  /** `check_if_message_was_sent`: whether the message was found, and whether "not sent" was notified. */
  datatype Confirmation = Confirmation(found: bool, notifiedNotSent: bool)

  /** `[href.split('/')[-1] for ...]` over the links kept; a link without href raises `KeyError` (`None`). */
  function VolunteerIds(links: seq<Option<string>>): Option<seq<string>>
    decreases |links|
  {
    if |links| == 0 then Some([])
    else if links[0].None? then None
    else match VolunteerIds(links[1..])
      case None => None
      case Some(rest) => Some([LastSegment(links[0].value)] + rest)
  }

  /** The first conversation link is the only one `find_all(...)[:1]` keeps. */
  function FirstLinks(hrefs: seq<Option<string>>): seq<Option<string>> {
    if |hrefs| == 0 then [] else hrefs[..1]
  }

  /** The ids of the kept links: none for an empty page, else the first href's last segment. */
  lemma FirstLinkIds(hrefs: seq<Option<string>>)
    ensures |hrefs| == 0 ==> VolunteerIds(FirstLinks(hrefs)) == Some([])
    ensures |hrefs| > 0 && hrefs[0].None? ==> VolunteerIds(FirstLinks(hrefs)) == None
    ensures |hrefs| > 0 && hrefs[0].Some? ==> VolunteerIds(FirstLinks(hrefs)) == Some([LastSegment(hrefs[0].value)])
  {
    if |hrefs| > 0 {
      assert FirstLinks(hrefs) == [hrefs[0]];
      assert [hrefs[0]][1..] == [];
      if hrefs[0].Some? {
        assert VolunteerIds([hrefs[0]]) == Some([LastSegment(hrefs[0].value)] + []);
        assert [LastSegment(hrefs[0].value)] + [] == [LastSegment(hrefs[0].value)];
      }
    }
  }

  /**
   * `check_if_message_was_sent`: found exactly when the first conversation
   * link ends in the volunteer id; a 200 page without it notifies "not sent".
   */
  function CheckIfMessageWasSent(volunteerId: string, inbox: Inbox): (c: Confirmation)
    ensures c.found <==> inbox.InboxReply? && inbox.status == 200 && |inbox.hrefs| > 0 &&
                         inbox.hrefs[0].Some? && LastSegment(inbox.hrefs[0].value) == volunteerId
    ensures c.notifiedNotSent <==>
      (inbox.InboxReply? && inbox.status == 200 &&
       (|inbox.hrefs| == 0 || (inbox.hrefs[0].Some? && LastSegment(inbox.hrefs[0].value) != volunteerId)))
  {
    match inbox
    case InboxRaised => Confirmation(false, false)
    case InboxReply(status, hrefs) =>
      if status != 200 then Confirmation(false, false)
      else
        FirstLinkIds(hrefs);
        match VolunteerIds(FirstLinks(hrefs))
        case None => Confirmation(false, false)
        case Some(ids) =>
          var result := volunteerId in ids;
          if !result then Confirmation(false, true) else Confirmation(true, false)
  }

  /** Links after the first never change the confirmation. */
  lemma ConfirmationReadsFirstLinkOnly(volunteerId: string, status: int, hrefs: seq<Option<string>>, other: seq<Option<string>>)
    requires |hrefs| > 0 && |other| > 0 && hrefs[0] == other[0]
    ensures CheckIfMessageWasSent(volunteerId, InboxReply(status, hrefs)) ==
            CheckIfMessageWasSent(volunteerId, InboxReply(status, other))
  {
  }

  /** What the notifier and the clock observe, in order. */
  datatype Event =
    | Starting                         // notify_starting_messaging, then the start delay
    | Posted(id: string, form: Form)   // the message post of __send_message
    | NotSent(id: string)              // notify_message_not_sent
    | Recorded(id: string)             // contact_date_to_csv uploaded the contacts table
    | Progress(count: nat)             // notify_progress_message_sending(current_recipient)
    | Pause                            // the random delay between two recipients

  /** The events after a recipient: its progress count and, unless it was the last, a pause. */
  function Tail(position: nat, count: nat): seq<Event> {
    [Progress(position + 1)] + (if position + 1 != count then [Pause] else [])
  }

  /** What handling one recipient adds before its progress notification, the contacts table after it, and what it raised. */
  datatype Visit = Visit(attempt: seq<Event>, contacts: Read, raised: Option<PyError>)

  predicate AttemptEvent(e: Event) {
    e.Posted? || e.NotSent? || e.Recorded?
  }

  /** The post event of an attempt, if it posted. */
  function PostedEvents(id: string, a: Attempt): seq<Event> {
    if a.posted.Some? then [Posted(id, a.posted.value)] else []
  }

  /*
   * One turn of the loop, step by step. `gate` is what `pre_send_message_check`
   * answers and `written` what `contact_date_to_csv` does, both on the contacts
   * table as the turn finds it; each step starts from the events added so far.
   */

  /** `contact_date_to_csv`; an exception of it ends the batch. */
  function TurnFromRecord(tried: seq<Event>, id: string, contacts: Read, written: Result<Table>): Visit {
    match written
    case Fail(e) => Visit(tried, contacts, Some(e))
    case Ok(t) => Visit(tried + [Recorded(id)], Present(t), None)
  }

  /** `check_if_message_was_sent`; the contact date is recorded only when it finds the message. */
  function TurnFromConfirm(posted: seq<Event>, id: string, x: Exchange, contacts: Read, written: Result<Table>): Visit {
    var c := CheckIfMessageWasSent(id, x.inbox);
    var tried := posted + (if c.notifiedNotSent then [NotSent(id)] else []);
    if c.found then TurnFromRecord(tried, id, contacts, written) else Visit(tried, contacts, None)
  }

  /** `__send_message`; the confirmation follows only a successful post. */
  function TurnFromPost(id: string, x: Exchange, message: string, phoneNumber: string,
                        contacts: Read, written: Result<Table>): Visit {
    var a := SendMessage(message, phoneNumber, x.page, x.post);
    if a.sent then TurnFromConfirm(PostedEvents(id, a), id, x, contacts, written)
    else Visit(PostedEvents(id, a), contacts, None)
  }

  /** The pre-check decides whether a message is tried; an exception of it ends the batch. */
  function TurnFromCheck(id: string, x: Exchange, message: string, phoneNumber: string,
                         contacts: Read, gate: Result<bool>, written: Result<Table>): Visit {
    match gate
    case Fail(e) => Visit([], contacts, Some(e))
    case Ok(allowed) =>
      if allowed then TurnFromPost(id, x, message, phoneNumber, contacts, written)
      else Visit([], contacts, None)
  }

  /** One turn of the loop for recipient `id`, contacts table and ledger as stored, and the site's replies `x`. */
  function VisitRecipient(id: string, x: Exchange, message: string, phoneNumber: string,
                          contacts: Read, ledger: Read, today: Date): Visit
    requires PyDate(today)
  {
    TurnFromCheck(id, x, message, phoneNumber, contacts,
                  PreSendOutcome(id, contacts, ledger, today), ContactOutcome(id, contacts, today))
  }

  /** After the post, a turn adds either a "not sent" notification or a contact record, or nothing. */
  lemma NoPostAfterPost(posted: seq<Event>, id: string, x: Exchange, contacts: Read, written: Result<Table>)
    ensures var v := TurnFromConfirm(posted, id, x, contacts, written);
      v.attempt == posted || v.attempt == posted + [NotSent(id)] || v.attempt == posted + [Recorded(id)]
  {
    var c := CheckIfMessageWasSent(id, x.inbox);
    var v := TurnFromConfirm(posted, id, x, contacts, written);
    if c.found {
      assert !c.notifiedNotSent;
      assert posted + [] == posted;
    } else if c.notifiedNotSent {
      assert v.attempt == posted + [NotSent(id)];
    } else {
      assert v.attempt == posted + [];
    }
  }

  /** A turn adds only posts, "not sent" notifications and contact records, all for its own recipient. */
  lemma TurnAttempts(id: string, x: Exchange, message: string, phoneNumber: string,
                     contacts: Read, gate: Result<bool>, written: Result<Table>)
    ensures forall e :: e in TurnFromCheck(id, x, message, phoneNumber, contacts, gate, written).attempt ==>
      AttemptEvent(e) && e.id == id
  {
    var a := SendMessage(message, phoneNumber, x.page, x.post);
    if gate == Ok(true) && a.sent {
      var posted := PostedEvents(id, a);
      NoPostAfterPost(posted, id, x, contacts, written);
    }
  }

  /**
   * A turn raises only when the pre-check raises, or when the contact record
   * raises after the pre-check, the post and the confirmation all succeeded.
   */
  lemma TurnRaisesOnlyFromTables(id: string, x: Exchange, message: string, phoneNumber: string,
                                 contacts: Read, gate: Result<bool>, written: Result<Table>)
    ensures var v := TurnFromCheck(id, x, message, phoneNumber, contacts, gate, written);
      (v.raised.Some? <==>
        gate.Fail? ||
        (gate == Ok(true) && SendMessage(message, phoneNumber, x.page, x.post).sent &&
         CheckIfMessageWasSent(id, x.inbox).found && written.Fail?)) &&
      (gate.Fail? ==> v == Visit([], contacts, Some(gate.error))) &&
      (v.raised.Some? && gate.Ok? ==> v.raised == Some(written.error) && v.contacts == contacts)
  {
  }

  /** For a recipient the pre-check refuses, nothing is posted, notified or recorded, and nothing is raised. */
  lemma RefusedRecipientIsSkipped(id: string, x: Exchange, message: string, phoneNumber: string,
                                  contacts: Read, gate: Result<bool>, written: Result<Table>)
    requires gate == Ok(false)
    ensures TurnFromCheck(id, x, message, phoneNumber, contacts, gate, written) == Visit([], contacts, None)
  {
  }

  /** From the confirmation on, the contact date is recorded exactly when the message is found and the table written. */
  lemma RecordedAfterConfirm(posted: seq<Event>, id: string, x: Exchange, contacts: Read, written: Result<Table>)
    requires Recorded(id) !in posted
    ensures var v := TurnFromConfirm(posted, id, x, contacts, written);
      (Recorded(id) in v.attempt <==> CheckIfMessageWasSent(id, x.inbox).found && written.Ok?) &&
      (v.contacts != contacts ==> Recorded(id) in v.attempt && v.contacts == Present(written.value))
  {
    var c := CheckIfMessageWasSent(id, x.inbox);
    var tried := posted + (if c.notifiedNotSent then [NotSent(id)] else []);
    assert Recorded(id) !in tried;
  }

  /**
   * The contact date is recorded exactly when the pre-check, the post and the
   * confirmation all answer true (and the contacts table can be updated); the
   * contacts table changes only then, to the table `contact_date_to_csv` writes.
   */
  lemma RecordedIffAllThreeSucceed(id: string, x: Exchange, message: string, phoneNumber: string,
                                   contacts: Read, gate: Result<bool>, written: Result<Table>)
    ensures var v := TurnFromCheck(id, x, message, phoneNumber, contacts, gate, written);
      (Recorded(id) in v.attempt <==>
        gate == Ok(true) && SendMessage(message, phoneNumber, x.page, x.post).sent &&
        CheckIfMessageWasSent(id, x.inbox).found && written.Ok?) &&
      (v.contacts != contacts ==> Recorded(id) in v.attempt && v.contacts == Present(written.value))
  {
    var a := SendMessage(message, phoneNumber, x.page, x.post);
    RecordedAfterConfirm(PostedEvents(id, a), id, x, contacts, written);
  }

  /** From the post on, a turn posts a message exactly when the message page carries the form. */
  lemma PostedIffFormReady(id: string, x: Exchange, message: string, phoneNumber: string,
                           contacts: Read, written: Result<Table>)
    ensures (exists e :: e in TurnFromPost(id, x, message, phoneNumber, contacts, written).attempt && e.Posted?) <==>
            FormReady(x.page)
  {
    var a := SendMessage(message, phoneNumber, x.page, x.post);
    var v := TurnFromPost(id, x, message, phoneNumber, contacts, written);
    var posted := PostedEvents(id, a);
    if a.sent {
      NoPostAfterPost(posted, id, x, contacts, written);
      assert v.attempt[0] == posted[0];
      assert v.attempt[0].Posted?;
    } else if FormReady(x.page) {
      assert v.attempt[0].Posted?;
    }
  }

  /** A message is posted only for a recipient the pre-check allows, and always from a page carrying the form. */
  lemma PostOnlyAfterPreCheck(id: string, x: Exchange, message: string, phoneNumber: string,
                              contacts: Read, gate: Result<bool>, written: Result<Table>)
    ensures var v := TurnFromCheck(id, x, message, phoneNumber, contacts, gate, written);
      (exists e :: e in v.attempt && e.Posted?) <==> gate == Ok(true) && FormReady(x.page)
  {
    PostedIffFormReady(id, x, message, phoneNumber, contacts, written);
  }

  /** The state of the batch: the events so far, the contacts table as stored, the exception that ended it. */
  datatype Run = Run(events: seq<Event>, contacts: Read, raised: Option<PyError>)

  /** One turn for a recipient, its replies and the contacts table as stored before it. */
  type Turn = (string, Exchange, Read) -> Visit

  /** The turn `send_messages` takes for each recipient, with this message, phone number, ledger and date. */
  function TurnOf(message: string, phoneNumber: string, ledger: Read, today: Date): Turn
    requires PyDate(today)
  {
    (id: string, x: Exchange, contacts: Read) => VisitRecipient(id, x, message, phoneNumber, contacts, ledger, today)
  }

  /** Every turn adds only posts, "not sent" notifications and contact records. */
  ghost predicate OnlyAttempts(turn: Turn) {
    forall id, x, contacts, e :: e in turn(id, x, contacts).attempt ==> AttemptEvent(e)
  }

  /** The turns of `send_messages` add only posts, "not sent" notifications and contact records. */
  lemma TurnOfOnlyAttempts(message: string, phoneNumber: string, ledger: Read, today: Date)
    requires PyDate(today)
    ensures OnlyAttempts(TurnOf(message, phoneNumber, ledger, today))
  {
    forall id, x, contacts
      ensures forall e :: e in TurnOf(message, phoneNumber, ledger, today)(id, x, contacts).attempt ==> AttemptEvent(e)
    {
      TurnAttempts(id, x, message, phoneNumber, contacts,
                   PreSendOutcome(id, contacts, ledger, today), ContactOutcome(id, contacts, today));
    }
  }

  /**
   * The batch after its first `n` recipients: the start notification, then
   * each turn in order; once a turn raises, later recipients are not visited.
   */
  function RunThrough(recipients: seq<string>, exchanges: seq<Exchange>, n: nat, contacts: Read, turn: Turn): Run
    requires |exchanges| == |recipients| && n <= |recipients|
    decreases n
  {
    if n == 0 then Run([Starting], contacts, None)
    else
      var st := RunThrough(recipients, exchanges, n - 1, contacts, turn);
      if st.raised.Some? then st
      else
        var v := turn(recipients[n - 1], exchanges[n - 1], st.contacts);
        Run(st.events + v.attempt + (if v.raised.None? then Tail(n - 1, |recipients|) else []), v.contacts, v.raised)
  }

  /** `send_messages` with the tables it consults passed in: the start notification, then every recipient in order. */
  function SendRun(recipients: seq<string>, exchanges: seq<Exchange>, message: string, phoneNumber: string,
                   contacts: Read, ledger: Read, today: Date): Run
    requires PyDate(today) && |exchanges| == |recipients|
  {
    RunThrough(recipients, exchanges, |recipients|, contacts, TurnOf(message, phoneNumber, ledger, today))
  }

  /** Once a turn raises, the batch stays as it was. */
  lemma {:induction false} RaisedStays(recipients: seq<string>, exchanges: seq<Exchange>, k: nat, n: nat,
                                       contacts: Read, turn: Turn)
    requires |exchanges| == |recipients| && k <= n <= |recipients|
    requires RunThrough(recipients, exchanges, k, contacts, turn).raised.Some?
    ensures RunThrough(recipients, exchanges, n, contacts, turn) == RunThrough(recipients, exchanges, k, contacts, turn)
    decreases n
  {
    if k < n {
      RaisedStays(recipients, exchanges, k, n - 1, contacts, turn);
    }
  }

  /** `a` is a prefix of `b`. */
  predicate Extends(a: seq<Event>, b: seq<Event>) {
    |a| <= |b| && b[..|a|] == a
  }

  lemma ExtendsTransitive(a: seq<Event>, b: seq<Event>, c: seq<Event>)
    requires Extends(a, b) && Extends(b, c)
    ensures Extends(a, c)
  {
    assert c[..|a|] == c[..|b|][..|a|];
  }

  /** One more recipient only adds events. */
  lemma TurnExtends(recipients: seq<string>, exchanges: seq<Exchange>, n: nat, contacts: Read, turn: Turn)
    requires |exchanges| == |recipients| && 0 < n <= |recipients|
    ensures Extends(RunThrough(recipients, exchanges, n - 1, contacts, turn).events,
                    RunThrough(recipients, exchanges, n, contacts, turn).events)
  {
    var c := RunThrough(recipients, exchanges, n - 1, contacts, turn).events;
    var b := RunThrough(recipients, exchanges, n, contacts, turn).events;
    assert b[..|c|] == c;
  }

  /** Later turns only add events: the events after `m` recipients begin the events after `n`. */
  lemma {:induction false} RunExtends(recipients: seq<string>, exchanges: seq<Exchange>, m: nat, n: nat,
                                      contacts: Read, turn: Turn)
    requires |exchanges| == |recipients| && m <= n <= |recipients|
    ensures Extends(RunThrough(recipients, exchanges, m, contacts, turn).events,
                    RunThrough(recipients, exchanges, n, contacts, turn).events)
    decreases n
  {
    var a := RunThrough(recipients, exchanges, m, contacts, turn).events;
    if m < n {
      RunExtends(recipients, exchanges, m, n - 1, contacts, turn);
      TurnExtends(recipients, exchanges, n, contacts, turn);
      ExtendsTransitive(a, RunThrough(recipients, exchanges, n - 1, contacts, turn).events,
                        RunThrough(recipients, exchanges, n, contacts, turn).events);
    } else {
      assert a[..|a|] == a;
    }
  }

  /** One more turn of a batch that has not raised. */
  lemma RunStep(recipients: seq<string>, exchanges: seq<Exchange>, k: nat, contacts: Read, turn: Turn)
    requires |exchanges| == |recipients| && k < |recipients|
    requires RunThrough(recipients, exchanges, k, contacts, turn).raised.None?
    ensures var st := RunThrough(recipients, exchanges, k, contacts, turn);
      var v := turn(recipients[k], exchanges[k], st.contacts);
      RunThrough(recipients, exchanges, k + 1, contacts, turn) ==
        Run(st.events + v.attempt + (if v.raised.None? then Tail(k, |recipients|) else []), v.contacts, v.raised)
  {
  }

  /** The progress counts notified, in order. */
  function ProgressOf(events: seq<Event>): seq<nat>
    decreases |events|
  {
    if |events| == 0 then []
    else ProgressOf(events[..|events| - 1]) + (if events[|events| - 1].Progress? then [events[|events| - 1].count] else [])
  }

  function PausesIn(events: seq<Event>): nat
    decreases |events|
  {
    if |events| == 0 then 0 else PausesIn(events[..|events| - 1]) + (if events[|events| - 1].Pause? then 1 else 0)
  }

  /** The counts `lo + 1`, ..., `hi`. */
  function Counts(lo: nat, hi: nat): seq<nat>
    requires lo <= hi
    decreases hi - lo
  {
    if lo == hi then [] else [lo + 1] + Counts(lo + 1, hi)
  }

  lemma {:induction false} CountingSplits(a: seq<Event>, b: seq<Event>)
    ensures ProgressOf(a + b) == ProgressOf(a) + ProgressOf(b)
    ensures PausesIn(a + b) == PausesIn(a) + PausesIn(b)
    decreases |b|
  {
    if |b| == 0 {
      assert a + b == a;
    } else {
      var init := b[..|b| - 1];
      assert (a + b)[..|a + b| - 1] == a + init;
      assert (a + b)[|a + b| - 1] == b[|b| - 1];
      CountingSplits(a, init);
    }
  }

  lemma {:induction false} AttemptsCountNothing(events: seq<Event>)
    requires forall e :: e in events ==> AttemptEvent(e)
    ensures ProgressOf(events) == [] && PausesIn(events) == 0
    decreases |events|
  {
    if |events| > 0 {
      assert events[|events| - 1] in events;
      assert forall e :: e in events[..|events| - 1] ==> e in events;
      AttemptsCountNothing(events[..|events| - 1]);
    }
  }

  lemma {:induction false} CountsSnoc(lo: nat, hi: nat)
    requires lo <= hi
    ensures Counts(lo, hi + 1) == Counts(lo, hi) + [hi + 1]
    decreases hi - lo
  {
    if lo < hi {
      CountsSnoc(lo + 1, hi);
    }
  }

  /** One turn adds its progress count and, unless it was the last, one pause. */
  lemma TurnCounts(events: seq<Event>, attempt: seq<Event>, k: nat, n: nat)
    requires forall e :: e in attempt ==> AttemptEvent(e)
    ensures ProgressOf(events + attempt + Tail(k, n)) == ProgressOf(events) + [k + 1]
    ensures PausesIn(events + attempt + Tail(k, n)) == PausesIn(events) + (if k + 1 != n then 1 else 0)
  {
    AttemptsCountNothing(attempt);
    CountingSplits(events, attempt);
    CountingSplits(events + attempt, Tail(k, n));
    CountingSplits([Progress(k + 1)], if k + 1 != n then [Pause] else []);
    assert ProgressOf([Progress(k + 1)]) == ProgressOf([]) + [k + 1];
    assert PausesIn([Progress(k + 1)]) == 0 && PausesIn([Pause]) == 1 && ProgressOf([Pause]) == [];
  }

  /** Counts and pauses after one more turn of a batch of `count` recipients. */
  lemma CountsAfterTurn(events: seq<Event>, attempt: seq<Event>, after: seq<Event>, k: nat, count: nat)
    requires k < count && ProgressOf(events) == Counts(0, k) && PausesIn(events) == k
    requires forall e :: e in attempt ==> AttemptEvent(e)
    requires after == events + attempt + Tail(k, count)
    ensures ProgressOf(after) == Counts(0, k + 1)
    ensures PausesIn(after) == (if k + 1 == count then k else k + 1)
  {
    TurnCounts(events, attempt, k, count);
    CountsSnoc(0, k);
  }

  /** A batch that has not raised after `k + 1` recipients had not raised after `k`. */
  lemma NotRaisedBefore(recipients: seq<string>, exchanges: seq<Exchange>, k: nat, contacts: Read, turn: Turn)
    requires |exchanges| == |recipients| && k < |recipients|
    requires RunThrough(recipients, exchanges, k + 1, contacts, turn).raised.None?
    ensures RunThrough(recipients, exchanges, k, contacts, turn).raised.None?
  {
  }

  /** The counts after recipient `k + 1` follow from the counts after recipient `k`. */
  lemma CountsThroughTurn(recipients: seq<string>, exchanges: seq<Exchange>, k: nat, contacts: Read, turn: Turn)
    requires |exchanges| == |recipients| && k < |recipients| && OnlyAttempts(turn)
    requires RunThrough(recipients, exchanges, k, contacts, turn).raised.None?
    requires RunThrough(recipients, exchanges, k + 1, contacts, turn).raised.None?
    requires ProgressOf(RunThrough(recipients, exchanges, k, contacts, turn).events) == Counts(0, k)
    requires PausesIn(RunThrough(recipients, exchanges, k, contacts, turn).events) == k
    ensures ProgressOf(RunThrough(recipients, exchanges, k + 1, contacts, turn).events) == Counts(0, k + 1)
    ensures PausesIn(RunThrough(recipients, exchanges, k + 1, contacts, turn).events) ==
              (if k + 1 == |recipients| then k else k + 1)
  {
    var st := RunThrough(recipients, exchanges, k, contacts, turn);
    var v := turn(recipients[k], exchanges[k], st.contacts);
    RunStep(recipients, exchanges, k, contacts, turn);
    CountsAfterTurn(st.events, v.attempt, RunThrough(recipients, exchanges, k + 1, contacts, turn).events, k, |recipients|);
  }

  /**
   * After `n` recipients handled without an exception the progress counts
   * are 1, ..., n in order, with a pause after each but the last of the batch.
   */
  lemma {:induction false} ThroughCounts(recipients: seq<string>, exchanges: seq<Exchange>, n: nat,
                                         contacts: Read, turn: Turn)
    requires |exchanges| == |recipients| && n <= |recipients| && OnlyAttempts(turn)
    requires RunThrough(recipients, exchanges, n, contacts, turn).raised.None?
    ensures ProgressOf(RunThrough(recipients, exchanges, n, contacts, turn).events) == Counts(0, n)
    ensures PausesIn(RunThrough(recipients, exchanges, n, contacts, turn).events) ==
              (if n == |recipients| && n > 0 then n - 1 else n)
    decreases n
  {
    if n == 0 {
      assert RunThrough(recipients, exchanges, n, contacts, turn).events == [Starting];
      assert ProgressOf([Starting]) == ProgressOf([]) && PausesIn([Starting]) == 0;
    } else {
      NotRaisedBefore(recipients, exchanges, n - 1, contacts, turn);
      ThroughCounts(recipients, exchanges, n - 1, contacts, turn);
      CountsThroughTurn(recipients, exchanges, n - 1, contacts, turn);
    }
  }

  /**
   * A batch that runs to the end notifies the progress counts 1, ..., n in
   * order, pauses n - 1 times, and starts with the start notification.
   */
  lemma ProgressAndPauses(recipients: seq<string>, exchanges: seq<Exchange>, contacts: Read, turn: Turn)
    requires |exchanges| == |recipients| && OnlyAttempts(turn)
    requires RunThrough(recipients, exchanges, |recipients|, contacts, turn).raised.None?
    ensures var r := RunThrough(recipients, exchanges, |recipients|, contacts, turn);
      ProgressOf(r.events) == Counts(0, |recipients|) &&
      PausesIn(r.events) == (if |recipients| > 0 then |recipients| - 1 else 0) &&
      |r.events| > 0 && r.events[0] == Starting
  {
    ThroughCounts(recipients, exchanges, |recipients|, contacts, turn);
    RunExtends(recipients, exchanges, 0, |recipients|, contacts, turn);
  }

  /** Progress counts 1, ..., n are all distinct and increasing: each recipient is counted once, in order. */
  lemma CountsIncrease(lo: nat, hi: nat)
    requires lo <= hi
    ensures |Counts(lo, hi)| == hi - lo
    ensures forall i | 0 <= i < hi - lo :: Counts(lo, hi)[i] == lo + i + 1
    decreases hi - lo
  {
    if lo < hi {
      CountsIncrease(lo + 1, hi);
    }
  }

  /**
   * The turn `send_messages` takes as written: `pre_send_message_check(recipient)`
   * and `contact_date_to_csv(recipient)` omit the drive manager both functions
   * require, so each call raises `TypeError` before it reads any table.
   */
  function TurnAsWritten(message: string, phoneNumber: string): (t: Turn)
    ensures forall id, x, contacts :: t(id, x, contacts) == Visit([], contacts, Some(TypeError))
  {
    (id: string, x: Exchange, contacts: Read) =>
      TurnFromCheck(id, x, message, phoneNumber, contacts, Fail(TypeError), Fail(TypeError))
  }

  /** `send_messages` as written: the same loop over the recipients, with the turn as written. */
  function SendRunAsWritten(recipients: seq<string>, exchanges: seq<Exchange>, message: string, phoneNumber: string,
                            contacts: Read): (r: Run)
    requires |exchanges| == |recipients|
    ensures |r.events| >= 1 && r.events[0] == Starting
  {
    var turn := TurnAsWritten(message, phoneNumber);
    RunExtends(recipients, exchanges, 0, |recipients|, contacts, turn);
    RunThrough(recipients, exchanges, |recipients|, contacts, turn)
  }

  /**
   * The batch as written stops at its first recipient: after the start
   * notification nothing is posted, notified or recorded, and the pre-check's
   * `TypeError` ends the batch whenever there is a recipient.
   */
  lemma AsWrittenHalts(recipients: seq<string>, exchanges: seq<Exchange>, message: string, phoneNumber: string,
                       contacts: Read)
    requires |exchanges| == |recipients|
    ensures var r := SendRunAsWritten(recipients, exchanges, message, phoneNumber, contacts);
      r.events == [Starting] && r.contacts == contacts &&
      r.raised == (if |recipients| == 0 then None else Some(TypeError))
  {
    var turn := TurnAsWritten(message, phoneNumber);
    if |recipients| > 0 {
      RunStep(recipients, exchanges, 0, contacts, turn);
      RaisedStays(recipients, exchanges, 1, |recipients|, contacts, turn);
    }
  }

  /** Where the corrected batch records its first recipient, the batch as written records nobody. */
  lemma AsWrittenRecordsNobody(recipients: seq<string>, exchanges: seq<Exchange>, message: string, phoneNumber: string,
                               contacts: Read, ledger: Read, today: Date)
    requires PyDate(today) && |exchanges| == |recipients| && |recipients| > 0
    requires Recorded(recipients[0]) in TurnOf(message, phoneNumber, ledger, today)(recipients[0], exchanges[0], contacts).attempt
    ensures Recorded(recipients[0]) in SendRun(recipients, exchanges, message, phoneNumber, contacts, ledger, today).events
    ensures forall e :: e in SendRunAsWritten(recipients, exchanges, message, phoneNumber, contacts).events ==> !e.Recorded?
  {
    var turn := TurnOf(message, phoneNumber, ledger, today);
    RunExtends(recipients, exchanges, 1, |recipients|, contacts, turn);
    var first := RunThrough(recipients, exchanges, 1, contacts, turn).events;
    var r := RunThrough(recipients, exchanges, |recipients|, contacts, turn);
    assert Recorded(recipients[0]) in first;
    assert r.events[..|first|] == first;
    AsWrittenHalts(recipients, exchanges, message, phoneNumber, contacts);
  }

  lemma AppendAssoc(a: seq<Event>, b: seq<Event>, c: seq<Event>)
    ensures a + b + c == a + (b + c)
  {
  }

  /** Appending a turn's events to the trace appends them to the events of the batch. */
  lemma AppendTurn(prior: seq<Event>, events: seq<Event>, attempt: seq<Event>, tail: seq<Event>)
    ensures prior + events + attempt + tail == prior + (events + attempt + tail)
  {
  }

  class MessagingService {
    var recipients: Option<seq<string>>
    var phoneNumber: Option<string>
    var message: Option<string>
    var username: Option<string>
    var password: Option<string>
    /** The events the notifier and the clock have seen. */
    var trace: seq<Event>

    constructor()
      ensures recipients.None? && phoneNumber.None? && message.None? && username.None? && password.None?
      ensures trace == []
    {
      recipients, phoneNumber, message, username, password := None, None, None, None, None;
      trace := [];
    }

    /**
     * One turn of the loop of `send_messages` for the recipient at `position`
     * of `count`, with the notifications and posts appended to the trace as
     * they happen: the visit, then, unless it raised, the progress count and
     * the pause before the next recipient.
     */
    method ContactRecipient(recipient: string, position: nat, count: nat, x: Exchange, contacts: Read, ledger: Read, today: Date,
                            ghost text: string, ghost phone: string)
      returns (contactsAfter: Read, raised: Option<PyError>)
      requires PyDate(today) && message == Some(text) && phoneNumber == Some(phone)
      modifies this
      ensures unchanged(this`recipients, this`phoneNumber, this`message, this`username, this`password)
      ensures var v := VisitRecipient(recipient, x, text, phone, contacts, ledger, today);
        trace == old(trace) + v.attempt + (if v.raised.None? then Tail(position, count) else []) &&
        contactsAfter == v.contacts && raised == v.raised
    {
      contactsAfter, raised := VisitOne(recipient, x, contacts, ledger, today);
      if raised.None? {
        trace := trace + [Progress(position + 1)];
        if position + 1 != count {
          trace := trace + [Pause];
        }
      }
    }

    /** The visit part of one turn: the checks, the post, the confirmation and the contact record. */
    method VisitOne(recipient: string, x: Exchange, contacts: Read, ledger: Read, today: Date)
      returns (contactsAfter: Read, raised: Option<PyError>)
      requires PyDate(today) && message.Some? && phoneNumber.Some?
      modifies this
      ensures unchanged(this`recipients, this`phoneNumber, this`message, this`username, this`password)
      ensures var v := VisitRecipient(recipient, x, message.value, phoneNumber.value, contacts, ledger, today);
        trace == old(trace) + v.attempt && contactsAfter == v.contacts && raised == v.raised
    {
      contactsAfter, raised := contacts, None;
      var allowed := PreSendMessageCheck(recipient, contacts, ledger, today);
      if allowed.Fail? {
        raised := Some(allowed.error);
      } else if allowed.value {
        contactsAfter, raised := DeliverTo(recipient, x, contacts, today);
      }
    }

    /** A recipient the pre-check allows: `__send_message`, then the confirmation and the contact record. */
    method DeliverTo(recipient: string, x: Exchange, contacts: Read, today: Date)
      returns (contactsAfter: Read, raised: Option<PyError>)
      requires PyDate(today) && message.Some? && phoneNumber.Some?
      modifies this
      ensures unchanged(this`recipients, this`phoneNumber, this`message, this`username, this`password)
      ensures var v := TurnFromPost(recipient, x, message.value, phoneNumber.value, contacts,
                                    ContactOutcome(recipient, contacts, today));
        trace == old(trace) + v.attempt && contactsAfter == v.contacts && raised == v.raised
    {
      ghost var posted := PostedEvents(recipient, SendMessage(message.value, phoneNumber.value, x.page, x.post));
      var sent := PostMessage(recipient, x.page, x.post);
      contactsAfter, raised := contacts, None;
      if sent {
        contactsAfter, raised := ConfirmAndRecord(recipient, x, contacts, today, posted, old(trace));
      }
    }

    /**
     * After a successful post: the confirmation, and the contact record when it
     * finds the message; `prior` is the trace before the turn.
     */
    method ConfirmAndRecord(recipient: string, x: Exchange, contacts: Read, today: Date,
                            ghost posted: seq<Event>, ghost prior: seq<Event>)
      returns (contactsAfter: Read, raised: Option<PyError>)
      requires PyDate(today) && trace == prior + posted
      modifies this
      ensures unchanged(this`recipients, this`phoneNumber, this`message, this`username, this`password)
      ensures var v := TurnFromConfirm(posted, recipient, x, contacts, ContactOutcome(recipient, contacts, today));
        trace == prior + v.attempt && contactsAfter == v.contacts && raised == v.raised
    {
      ghost var c := CheckIfMessageWasSent(recipient, x.inbox);
      ghost var notified := if c.notifiedNotSent then [NotSent(recipient)] else [];
      var found := ConfirmSent(recipient, x.inbox);
      AppendAssoc(prior, posted, notified);
      contactsAfter, raised := contacts, None;
      if found {
        contactsAfter, raised := RecordContact(recipient, contacts, today, posted + notified, prior);
      }
    }

    /** `contact_date_to_csv` for a confirmed recipient; `prior` is the trace before the turn. */
    method RecordContact(recipient: string, contacts: Read, today: Date, ghost tried: seq<Event>, ghost prior: seq<Event>)
      returns (contactsAfter: Read, raised: Option<PyError>)
      requires PyDate(today) && trace == prior + tried
      modifies this
      ensures unchanged(this`recipients, this`phoneNumber, this`message, this`username, this`password)
      ensures var v := TurnFromRecord(tried, recipient, contacts, ContactOutcome(recipient, contacts, today));
        trace == prior + v.attempt && contactsAfter == v.contacts && raised == v.raised
    {
      var written := ContactDateToCsv(recipient, contacts, today);
      if written.Fail? {
        contactsAfter, raised := contacts, Some(written.error);
      } else {
        contactsAfter, raised := Present(written.value), None;
        AppendAssoc(prior, tried, [Recorded(recipient)]);
        trace := trace + [Recorded(recipient)];
      }
    }

    /**
     * `check_if_message_was_sent`: reads the messages page, notifies "not
     * sent" when the page shows the first conversation is someone else's, and
     * answers whether the message was found.
     */
    method ConfirmSent(recipient: string, inbox: Inbox) returns (found: bool)
      modifies this
      ensures unchanged(this`recipients, this`phoneNumber, this`message, this`username, this`password)
      ensures var c := CheckIfMessageWasSent(recipient, inbox);
        found == c.found && trace == old(trace) + (if c.notifiedNotSent then [NotSent(recipient)] else [])
    {
      var confirmation := CheckIfMessageWasSent(recipient, inbox);
      if confirmation.notifiedNotSent {
        trace := trace + [NotSent(recipient)];
      }
      found := confirmation.found;
    }

    /** `__send_message`: posts the form when the message page carries it; true only for a 200 reply to the post. */
    method PostMessage(recipient: string, page: MessagePage, post: PostReply) returns (sent: bool)
      requires message.Some? && phoneNumber.Some?
      modifies this
      ensures unchanged(this`recipients, this`phoneNumber, this`message, this`username, this`password)
      ensures var a := SendMessage(message.value, phoneNumber.value, page, post);
        sent == a.sent && trace == old(trace) + PostedEvents(recipient, a)
    {
      var attempt := SendMessage(message.value, phoneNumber.value, page, post);
      if attempt.posted.Some? {
        trace := trace + [Posted(recipient, attempt.posted.value)];
      }
      sent := attempt.sent;
    }

    /**
     * `send_messages`, with the contacts and ledger tables passed to the
     * checks: stores its arguments in the fields, then handles each recipient
     * once, in order. Returns the contacts table as stored afterwards and the
     * exception that ended the batch, if any.
     */
    method SendMessages(username: string, password: string, message: string, phoneNumber: string,
                        recipients: seq<string>, exchanges: seq<Exchange>, contacts: Read, ledger: Read, today: Date)
      returns (contactsAfter: Read, raised: Option<PyError>)
      requires PyDate(today) && |exchanges| == |recipients|
      modifies this
      ensures this.username == Some(username) && this.password == Some(password) && this.message == Some(message)
      ensures this.phoneNumber == Some(phoneNumber) && this.recipients == Some(recipients)
      ensures var run := SendRun(recipients, exchanges, message, phoneNumber, contacts, ledger, today);
        trace == old(trace) + run.events && contactsAfter == run.contacts && raised == run.raised
    {
      this.username, this.password, this.message := Some(username), Some(password), Some(message);
      this.phoneNumber, this.recipients := Some(phoneNumber), Some(recipients);
      contactsAfter, raised := RunBatch(recipients, exchanges, contacts, ledger, today, message, phoneNumber);
    }

    /**
     * The body of `send_messages` once its arguments are stored: the start
     * notification, then each recipient in turn until one raises.
     */
    method RunBatch(recipients: seq<string>, exchanges: seq<Exchange>, contacts: Read, ledger: Read, today: Date,
                    ghost text: string, ghost phone: string)
      returns (contactsAfter: Read, raised: Option<PyError>)
      requires PyDate(today) && |exchanges| == |recipients| && message == Some(text) && phoneNumber == Some(phone)
      modifies this
      ensures unchanged(this`recipients, this`phoneNumber, this`message, this`username, this`password)
      ensures var run := SendRun(recipients, exchanges, text, phone, contacts, ledger, today);
        trace == old(trace) + run.events && contactsAfter == run.contacts && raised == run.raised
    {
      var currentRecipient := 0;
      trace := trace + [Starting];
      ghost var log: seq<Event> := [Starting];
      ghost var turn := TurnOf(text, phone, ledger, today);
      contactsAfter, raised := contacts, None;
      while currentRecipient < |recipients| && raised.None?
        invariant 0 <= currentRecipient <= |recipients|
        invariant unchanged(this`recipients, this`phoneNumber, this`message, this`username, this`password)
        invariant message == Some(text) && phoneNumber == Some(phone)
        invariant trace == old(trace) + log
        invariant RunThrough(recipients, exchanges, currentRecipient, contacts, turn) == Run(log, contactsAfter, raised)
      {
        contactsAfter, raised, log := AdvanceBatch(recipients, exchanges, currentRecipient, contacts, ledger, today,
                                                   text, phone, old(trace), log, contactsAfter);
        currentRecipient := currentRecipient + 1;
      }
      if raised.Some? {
        RaisedStays(recipients, exchanges, currentRecipient, |recipients|, contacts, turn);
      }
    }

    /**
     * One iteration of the loop of `send_messages`: the turn for the
     * recipient at position `k`, whose events extend the trace and the batch.
     */
    method AdvanceBatch(recipients: seq<string>, exchanges: seq<Exchange>, k: nat, contacts: Read, ledger: Read, today: Date,
                        ghost text: string, ghost phone: string, ghost prior: seq<Event>, ghost log: seq<Event>,
                        contactsNow: Read)
      returns (contactsAfter: Read, raised: Option<PyError>, ghost logAfter: seq<Event>)
      requires PyDate(today) && |exchanges| == |recipients| && k < |recipients|
      requires message == Some(text) && phoneNumber == Some(phone) && trace == prior + log
      requires RunThrough(recipients, exchanges, k, contacts, TurnOf(text, phone, ledger, today)) == Run(log, contactsNow, None)
      modifies this
      ensures unchanged(this`recipients, this`phoneNumber, this`message, this`username, this`password)
      ensures trace == prior + logAfter
      ensures RunThrough(recipients, exchanges, k + 1, contacts, TurnOf(text, phone, ledger, today)) ==
              Run(logAfter, contactsAfter, raised)
    {
      ghost var turn := TurnOf(text, phone, ledger, today);
      ghost var v := VisitRecipient(recipients[k], exchanges[k], text, phone, contactsNow, ledger, today);
      assert turn(recipients[k], exchanges[k], contactsNow) == v;
      RunStep(recipients, exchanges, k, contacts, turn);
      contactsAfter, raised := ContactRecipient(recipients[k], k, |recipients|, exchanges[k], contactsNow, ledger, today,
                                                text, phone);
      ghost var tail := if v.raised.None? then Tail(k, |recipients|) else [];
      AppendTurn(prior, log, v.attempt, tail);
      logAfter := log + v.attempt + tail;
    }
  }
}
