/**
 * The decisions of `ReminderService` around the ledger tick
 * (services/reminderservice.py): which chats count as unanswered, how the
 * frequency and message are resolved, and the guard that keeps `send_reminder`
 * away from blacklisted or unknown volunteers.
 */
module ReminderService {
  import opened Wrappers
  import opened Dates
  import opened Text
  import opened Store
  import opened Blacklist

  /**
   * One message meta of a chat page: the first word of its text (the author)
   * and the date `strptime(text[-16:-6], '%d.%m.%Y')` reads from it, `None`
   * when that raises.
   */
  datatype Meta = Meta(author: string, sent: Option<Day>)

  /** The dates `strptime` can produce. */
  type Day = d: Date | PyDate(d) witness Date(1, 1, 1)

  /** `check_last_message_date`: the last message is at least `frequency` days old; no messages or no date is false. */
  function CheckLastMessageDate(metas: seq<Meta>, frequency: int, today: Date): (r: bool)
    requires PyDate(today)
    ensures r <==> |metas| > 0 && metas[|metas| - 1].sent.Some? &&
                   DaysBetween(metas[|metas| - 1].sent.value, today) >= frequency
  {
    if |metas| == 0 then false
    else match metas[|metas| - 1].sent
      case None => false
      case Some(last) => DaysBetween(last, today) >= frequency
  }

  /** `check_60_days`: the message is at least 60 days old; a message without a date is false. */
  function Check60Days(meta: Meta, today: Date): (r: bool)
    requires PyDate(today)
    ensures r <==> meta.sent.Some? && DaysBetween(meta.sent.value, today) >= 60
  {
    match meta.sent
    case None => false
    case Some(d) => DaysBetween(d, today) >= 60
  }

  /** The authors of `message_authors`: known volunteers whose message is not shown to be 60 days old. */
  function RecentReplies(metas: seq<Meta>, names: seq<string>, today: Date): seq<string>
    requires PyDate(today)
    decreases |metas|
  {
    if |metas| == 0 then []
    else
      var rest := RecentReplies(metas[..|metas| - 1], names, today);
      var m := metas[|metas| - 1];
      if m.author in names && !Check60Days(m, today) then rest + [m.author] else rest
  }

  /** The loop over the metas of one chat page that collects `message_authors`. */
  method ResponseAuthors(metas: seq<Meta>, names: seq<string>, today: Date) returns (authors: seq<string>)
    requires PyDate(today)
    ensures authors == RecentReplies(metas, names, today)
  {
    authors := [];
    var i := 0;
    while i < |metas|
      invariant 0 <= i <= |metas|
      invariant authors == RecentReplies(metas[..i], names, today)
    {
      var author := metas[i].author;
      if author in names && !Check60Days(metas[i], today) {
        authors := authors + [author];
      }
      assert metas[..i + 1][..i] == metas[..i];
      i := i + 1;
    }
    assert metas[..i] == metas;
  }

  /** No known volunteer wrote a message that is recent or has no date. */
  lemma {:induction false} NoRecentReplyIff(metas: seq<Meta>, names: seq<string>, today: Date)
    requires PyDate(today)
    ensures |RecentReplies(metas, names, today)| == 0 <==>
      forall i :: 0 <= i < |metas| && metas[i].author in names ==> Check60Days(metas[i], today)
    decreases |metas|
  {
    if |metas| > 0 {
      var init := metas[..|metas| - 1];
      NoRecentReplyIff(init, names, today);
      assert forall i :: 0 <= i < |init| ==> init[i] == metas[i];
    }
  }

  /** A chat counts as unanswered: its last message is old enough and no known volunteer replied recently. */
  predicate Unanswered(metas: seq<Meta>, names: seq<string>, frequency: int, today: Date)
    requires PyDate(today)
  {
    CheckLastMessageDate(metas, frequency, today) && |RecentReplies(metas, names, today)| == 0
  }

  /** The chat list item of a messages page: the href of its detail button, if any, and the metas of the chat. */
  datatype Chat = Chat(href: Option<string>, metas: seq<Meta>)

  /** A fetched messages page: a non-200 response, or the chats listed on it. */
  datatype Page = Failed | Listing(chats: seq<Chat>)

  /** What `get_all_contacted_names` gives: the volunteer names and the messages pages. */
  datatype Contacted = Contacted(names: seq<string>, pages: seq<Page>)

  const Site: string := "https://www.nlvoorelkaar.nl"

  /** The chats found unanswered on one page. */
  function UnansweredOnPage(chats: seq<Chat>, names: seq<string>, frequency: int, today: Date): set<string>
    requires PyDate(today)
    decreases |chats|
  {
    if |chats| == 0 then {}
    else
      var c := chats[|chats| - 1];
      var rest := UnansweredOnPage(chats[..|chats| - 1], names, frequency, today);
      if c.href.Some? && Unanswered(c.metas, names, frequency, today) then rest + {Site + c.href.value} else rest
  }

  function UnansweredOnPages(pages: seq<Page>, names: seq<string>, frequency: int, today: Date): set<string>
    requires PyDate(today)
    decreases |pages|
  {
    if |pages| == 0 then {}
    else
      var p := pages[|pages| - 1];
      var rest := UnansweredOnPages(pages[..|pages| - 1], names, frequency, today);
      if p.Listing? then rest + UnansweredOnPage(p.chats, names, frequency, today) else rest
  }

  predicate HasLinkedChat(pages: seq<Page>) {
    exists i, j :: 0 <= i < |pages| && pages[i].Listing? && 0 <= j < |pages[i].chats| && pages[i].chats[j].href.Some?
  }

  /**
   * `get_unanswered_chats`: `None` stands for its `False`, returned when the
   * names could not be collected, when a messages page is not 200, or when
   * `int(reminder_frequency)` raises at the first chat with a link.
   */
  function UnansweredChats(contacted: Option<Contacted>, frequency: string, today: Date): (r: Option<set<string>>)
    requires PyDate(today)
    ensures contacted.None? ==> r.None?
    ensures contacted.Some? ==>
      (r.None? <==> (exists i :: 0 <= i < |contacted.value.pages| && contacted.value.pages[i].Failed?) ||
                    (ParseInt(frequency).None? && HasLinkedChat(contacted.value.pages)))
  {
    if contacted.None? then None
    else
      var pages := contacted.value.pages;
      if exists i :: 0 <= i < |pages| && pages[i].Failed? then None
      else if ParseInt(frequency).None? then (if HasLinkedChat(pages) then None else Some({}))
      else Some(UnansweredOnPages(pages, contacted.value.names, ParseInt(frequency).value, today))
  }

  /** A url is unanswered exactly when some listed chat links to it and the chat is unanswered. */
  lemma {:induction false} UnansweredOnPageMembers(chats: seq<Chat>, names: seq<string>, frequency: int, today: Date, url: string)
    requires PyDate(today)
    ensures url in UnansweredOnPage(chats, names, frequency, today) <==>
      exists j :: 0 <= j < |chats| && chats[j].href.Some? && Site + chats[j].href.value == url &&
                  Unanswered(chats[j].metas, names, frequency, today)
    decreases |chats|
  {
    if |chats| > 0 {
      var init := chats[..|chats| - 1];
      UnansweredOnPageMembers(init, names, frequency, today, url);
      assert forall j :: 0 <= j < |init| ==> init[j] == chats[j];
    }
  }

  lemma {:induction false} UnansweredOnPagesMembers(pages: seq<Page>, names: seq<string>, frequency: int, today: Date, url: string)
    requires PyDate(today)
    ensures url in UnansweredOnPages(pages, names, frequency, today) <==>
      exists i, j :: 0 <= i < |pages| && pages[i].Listing? && 0 <= j < |pages[i].chats| &&
                     pages[i].chats[j].href.Some? && Site + pages[i].chats[j].href.value == url &&
                     Unanswered(pages[i].chats[j].metas, names, frequency, today)
    decreases |pages|
  {
    if |pages| > 0 {
      var init := pages[..|pages| - 1];
      UnansweredOnPagesMembers(init, names, frequency, today, url);
      assert forall i :: 0 <= i < |init| ==> init[i] == pages[i];
      if pages[|pages| - 1].Listing? {
        UnansweredOnPageMembers(pages[|pages| - 1].chats, names, frequency, today, url);
      }
    }
  }

  /**
   * The loops of `get_unanswered_chats` over the pages and their chats, adding
   * a chat's url when its last message is due and no known volunteer replied
   * within 60 days.
   */
  method GetUnansweredChats(contacted: Option<Contacted>, frequency: string, today: Date) returns (r: Option<set<string>>)
    requires PyDate(today)
    ensures r == UnansweredChats(contacted, frequency, today)
  {
    if contacted.None? {
      return None;
    }
    var names := contacted.value.names;
    var pages := contacted.value.pages;
    var chatsWithNoResponse: set<string> := {};
    var p := 0;
    while p < |pages|
      invariant 0 <= p <= |pages|
      invariant forall i :: 0 <= i < p ==> pages[i].Listing?
      invariant ParseInt(frequency).None? ==>
        chatsWithNoResponse == {} &&
        (forall i, j :: 0 <= i < p && 0 <= j < |pages[i].chats| ==> pages[i].chats[j].href.None?)
      invariant ParseInt(frequency).Some? ==>
        chatsWithNoResponse == UnansweredOnPages(pages[..p], names, ParseInt(frequency).value, today)
    {
      if pages[p].Failed? {
        return None;
      }
      var found := CollectUnanswered(pages[p].chats, names, frequency, today, chatsWithNoResponse);
      if found.None? {
        var j :| 0 <= j < |pages[p].chats| && pages[p].chats[j].href.Some?;
        assert pages[p].Listing? && pages[p].chats[j].href.Some?;
        return None;
      }
      chatsWithNoResponse := found.value;
      assert pages[..p + 1][..p] == pages[..p];
      p := p + 1;
    }
    assert pages[..p] == pages;
    return Some(chatsWithNoResponse);
  }

  /**
   * The inner loop of `get_unanswered_chats` over the chats of one page, adding
   * to `seen`; `None` when `int(reminder_frequency)` raises at a chat with a link.
   */
  method CollectUnanswered(chats: seq<Chat>, names: seq<string>, frequency: string, today: Date, seen: set<string>)
    returns (r: Option<set<string>>)
    requires PyDate(today)
    ensures ParseInt(frequency).None? ==>
      (r.None? <==> exists j :: 0 <= j < |chats| && chats[j].href.Some?) && (r.Some? ==> r.value == seen)
    ensures ParseInt(frequency).Some? ==> r == Some(seen + UnansweredOnPage(chats, names, ParseInt(frequency).value, today))
  {
    var chatsWithNoResponse := seen;
    var c := 0;
    while c < |chats|
      invariant 0 <= c <= |chats|
      invariant ParseInt(frequency).None? ==> chatsWithNoResponse == seen && forall j :: 0 <= j < c ==> chats[j].href.None?
      invariant ParseInt(frequency).Some? ==>
        chatsWithNoResponse == seen + UnansweredOnPage(chats[..c], names, ParseInt(frequency).value, today)
    {
      var chat := chats[c];
      if chat.href.Some? {
        var chatUrl := Site + chat.href.value;
        var n := ParseInt(frequency);
        if n.None? {
          return None;
        }
        if CheckLastMessageDate(chat.metas, n.value, today) {
          var messageAuthors := ResponseAuthors(chat.metas, names, today);
          if |messageAuthors| == 0 {
            chatsWithNoResponse := chatsWithNoResponse + {chatUrl};
          }
        }
      }
      assert chats[..c + 1][..c] == chats[..c];
      c := c + 1;
    }
    assert chats[..c] == chats;
    return Some(chatsWithNoResponse);
  }

  const DefaultFrequency: string := "3"
  /** The 32-space indent each line of the default message's triple-quoted literal carries. */
  const MessageIndent: string := "                                "

  /** The default message exactly as the triple-quoted literal spells it, indents and closing 26 spaces included. */
  const DefaultMessage: string :=
    "\n" + MessageIndent + "Hello,\n" + MessageIndent + "\n" +
    MessageIndent + "Were you able to check my request and if so, could you tell me if you are interested?\n" +
    MessageIndent + "I am looking forward to your response,\n" + MessageIndent + "\n" +
    "                          "

  /** Python truthiness of an optional string: present and non-empty. */
  predicate Truthy(s: Option<string>) {
    s.Some? && s.value != ""
  }

  /** `a or b` on optional strings whose result is known to be truthy when `b` is a non-empty string. */
  function OrElse(a: Option<string>, b: Option<string>, fallback: string): string {
    if Truthy(a) then a.value else if Truthy(b) then b.value else fallback
  }

  /** The frequency and message a run uses, whether the stored pair was read, and the pair written back. */
  datatype Settings = Settings(frequency: string, message: string, readStore: bool, written: (string, string))

  /**
   * The defaulting of `run_reminder_service`: a given value wins, then the
   * stored one, then the default; the stored pair is read only when a value is
   * missing, and the resolved pair (never empty) is always written back.
   */
  function ResolveSettings(givenFrequency: Option<string>, givenMessage: Option<string>,
                           stored: (Option<string>, Option<string>)): (r: Settings)
    ensures r.readStore <==> !Truthy(givenFrequency) || !Truthy(givenMessage)
    ensures r.frequency != "" && r.message != ""
    ensures Truthy(givenFrequency) ==> r.frequency == givenFrequency.value
    ensures !Truthy(givenFrequency) ==> r.frequency == (if Truthy(stored.0) then stored.0.value else DefaultFrequency)
    ensures Truthy(givenMessage) ==> r.message == givenMessage.value
    ensures !Truthy(givenMessage) ==> r.message == (if Truthy(stored.1) then stored.1.value else DefaultMessage)
    ensures r.written == (r.frequency, r.message)
  {
    if Truthy(givenFrequency) && Truthy(givenMessage) then
      Settings(givenFrequency.value, givenMessage.value, false, (givenFrequency.value, givenMessage.value))
    else
      var frequency := OrElse(givenFrequency, stored.0, DefaultFrequency);
      var message := OrElse(givenMessage, stored.1, DefaultMessage);
      Settings(frequency, message, true, (frequency, message))
  }

  /** When both values are given, what is stored makes no difference. */
  lemma GivenSettingsIgnoreStore(f: Option<string>, m: Option<string>, s1: (Option<string>, Option<string>),
                                 s2: (Option<string>, Option<string>))
    requires Truthy(f) && Truthy(m)
    ensures ResolveSettings(f, m, s1) == ResolveSettings(f, m, s2)
  {
  }

  /** A later run with nothing given reads back and uses exactly the pair this run wrote. */
  lemma ResolvedSettingsPersist(f: Option<string>, m: Option<string>, stored: (Option<string>, Option<string>))
    ensures var first := ResolveSettings(f, m, stored);
      var next := ResolveSettings(None, None, (Some(first.written.0), Some(first.written.1)));
      next.frequency == first.frequency && next.message == first.message && next.written == first.written
  {
  }

  /**
   * The guard at the top of `send_reminder` as written: the blacklist test runs
   * first, on a possibly missing profile id. `Ok(true)` means the reminder is
   * not sent.
   */
  function SendReminderGuardAsWritten(blacklist: Read, profileId: Option<string>): (r: Result<bool>)
    ensures profileId.None? && GetBlacklistedUsers(blacklist).Ok? && |GetBlacklistedUsers(blacklist).value| > 0 ==>
      r == Fail(TypeError)
  {
    match WasBlacklisted(blacklist, profileId)
    case Fail(e) => Fail(e)
    case Ok(listed) => Ok(listed || !Truthy(profileId))
  }

  /** With one blacklisted entry and no profile id, the guard as written raises instead of skipping. */
  lemma GuardRaisesOnMissingId()
    ensures SendReminderGuardAsWritten(Present([["x"]]), None) == Fail(TypeError)
    ensures SendReminderGuard(Present([["x"]]), None) == Ok(true)
  {
    assert GetBlacklistedUsers(Present([["x"]])).Ok? && |GetBlacklistedUsers(Present([["x"]])).value| == 1;
  }

  /**
   * The guard with the missing-id test first: a reminder goes out only for a
   * non-empty profile id that no blacklist entry contains, and the guard never
   * raises `TypeError`.
   */
  function SendReminderGuard(blacklist: Read, profileId: Option<string>): (r: Result<bool>)
    ensures r != Fail(TypeError)
    ensures r == Ok(false) <==> Truthy(profileId) && WasBlacklisted(blacklist, profileId) == Ok(false)
    ensures !Truthy(profileId) ==> r == Ok(true)
  {
    if !Truthy(profileId) then Ok(true) else WasBlacklisted(blacklist, profileId)
  }

  /** Wherever the guard as written returns, the corrected guard returns the same. */
  lemma GuardCorrectionAgrees(blacklist: Read, profileId: Option<string>)
    requires SendReminderGuardAsWritten(blacklist, profileId).Ok?
    ensures SendReminderGuard(blacklist, profileId) == SendReminderGuardAsWritten(blacklist, profileId)
  {
    if profileId.Some? && profileId.value == "" {
      var users := GetBlacklistedUsers(blacklist).value;
      if |users| > 0 {
        assert IsSubstring(profileId.value, users[0]);
      }
    }
  }
}
