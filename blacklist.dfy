/**
 * The blacklist service: a one-column table of blacklisted offer urls or
 * profile ids (services/blacklistservice.py).
 */
module Blacklist {
  import opened Wrappers
  import opened Store
  import opened Text

  /** `[row[0] for row in rows]`, which raises `IndexError` on an empty row. */
  function FirstFields(rows: Table): (r: Result<seq<string>>)
    ensures r.Fail? <==> exists i :: 0 <= i < |rows| && |rows[i]| == 0
    ensures r.Fail? ==> r.error == IndexError
    ensures r.Ok? ==> |r.value| == |rows| && forall i :: 0 <= i < |rows| ==> r.value[i] == rows[i][0]
    decreases |rows|
  {
    if |rows| == 0 then Ok([])
    else if |rows[0]| == 0 then Fail(IndexError)
    else match FirstFields(rows[1..])
      case Fail(e) => Fail(e)
      case Ok(rest) =>
        assert forall i :: 1 <= i < |rows| ==> rows[i] == rows[1..][i - 1];
        Ok([rows[0][0]] + rest)
  }

  /** The rows the service starts from: a missing file is an empty list, a failed download raises. */
  function StoredRows(stored: Read): (r: Result<Table>)
    ensures stored.Missing? ==> r == Ok([])
    ensures stored.Unavailable? ==> r == Fail(StoreError)
    ensures stored.Present? ==> r == Ok(stored.rows)
  {
    match stored
    case Missing => Ok([])
    case Unavailable => Fail(StoreError)
    case Present(rows) => Ok(rows)
  }

  /** `get_blacklisted_users`: the first field of every row, in row order. */
  function GetBlacklistedUsers(stored: Read): (r: Result<seq<string>>)
    ensures stored.Missing? ==> r == Ok([])
    ensures stored.Unavailable? ==> r == Fail(StoreError)
    ensures stored.Present? ==> (r.Ok? <==> forall i :: 0 <= i < |stored.rows| ==> |stored.rows[i]| > 0)
    ensures stored.Present? && r.Ok? ==>
      |r.value| == |stored.rows| && forall i :: 0 <= i < |r.value| ==> r.value[i] == stored.rows[i][0]
  {
    match StoredRows(stored)
    case Fail(e) => Fail(e)
    case Ok(rows) => FirstFields(rows)
  }

  /** Some blacklist entry contains `id` as a substring. */
  predicate BlacklistedBy(users: seq<string>, id: string) {
    exists i :: 0 <= i < |users| && IsSubstring(id, users[i])
  }

  /**
   * What `check_if_was_blacklisted(id)` returns. A `None` id raises `TypeError`
   * (`None in url`) as soon as there is one entry to test it against.
   */
  function WasBlacklisted(stored: Read, id: Option<string>): Result<bool> {
    match GetBlacklistedUsers(stored)
    case Fail(e) => Fail(e)
    case Ok(users) =>
      if id.None? then (if |users| == 0 then Ok(false) else Fail(TypeError))
      else Ok(BlacklistedBy(users, id.value))
  }

  /** `check_if_was_blacklisted`: a search of the entries that stops at the first one containing `id`. */
  method CheckIfWasBlacklisted(stored: Read, id: Option<string>) returns (r: Result<bool>)
    ensures r == WasBlacklisted(stored, id)
  {
    var urls := GetBlacklistedUsers(stored);
    if urls.Fail? {
      return Fail(urls.error);
    }
    var users := urls.value;
    var i := 0;
    while i < |users|
      invariant 0 <= i <= |users|
      invariant id.None? ==> i == 0
      invariant id.Some? ==> forall j :: 0 <= j < i ==> !IsSubstring(id.value, users[j])
    {
      if id.None? {
        return Fail(TypeError);
      }
      if IsSubstring(id.value, users[i]) {
        return Ok(true);
      }
      i := i + 1;
    }
    return Ok(false);
  }

  /**
   * An id occurring anywhere inside a stored entry counts as blacklisted, so a
   * part of an offer url (such as its trailing profile id) matches it.
   */
  lemma PartOfEntryIsBlacklisted(rows: Table, id: string, i: nat, k: nat)
    requires FirstFields(rows).Ok? && i < |rows| && OccursAt(id, rows[i][0], k)
    ensures WasBlacklisted(Present(rows), Some(id)) == Ok(true)
  {
    SubstringAt(id, rows[i][0], k);
    assert FirstFields(rows).value[i] == rows[i][0];
  }

  /**
   * `add_to_blacklist`: nothing is written when the url is already the first
   * field of some row; otherwise the list grows by the one-field row `[offerUrl]`
   * and is written once. `Ok(None)` means no write, `Ok(Some(t))` the table written.
   */
  method AddToBlacklist(stored: Read, offerUrl: string) returns (r: Result<Option<Table>>)
    ensures GetBlacklistedUsers(stored).Fail? ==> r == Fail(GetBlacklistedUsers(stored).error)
    ensures GetBlacklistedUsers(stored).Ok? && offerUrl in GetBlacklistedUsers(stored).value ==> r == Ok(None)
    ensures GetBlacklistedUsers(stored).Ok? && offerUrl !in GetBlacklistedUsers(stored).value ==>
      r == Ok(Some(StoredRows(stored).value + [[offerUrl]]))
  {
    var existing := StoredRows(stored);
    if existing.Fail? {
      return Fail(existing.error);
    }
    var blacklist := existing.value;
    var urls := FirstFields(blacklist);
    if urls.Fail? {
      return Fail(urls.error);
    }
    if offerUrl in urls.value {
      return Ok(None);
    }
    blacklist := blacklist + [[offerUrl]];
    return Ok(Some(blacklist));
  }

  /**
   * The table `add_to_blacklist` writes lists the old entries and then the new
   * one, so a second add of the same url finds it and writes nothing.
   */
  lemma AddedRowIsListed(rows: Table, offerUrl: string)
    requires FirstFields(rows).Ok?
    ensures GetBlacklistedUsers(Present(rows + [[offerUrl]])) == Ok(FirstFields(rows).value + [offerUrl])
    ensures offerUrl in GetBlacklistedUsers(Present(rows + [[offerUrl]])).value
  {
    var after := rows + [[offerUrl]];
    assert forall i :: 0 <= i < |rows| ==> after[i] == rows[i];
    assert FirstFields(after).Ok?;
    var listed, before := FirstFields(after).value, FirstFields(rows).value;
    assert forall i :: 0 <= i < |after| ==> listed[i] == (before + [offerUrl])[i];
    assert listed == before + [offerUrl];
    assert GetBlacklistedUsers(Present(after)) == FirstFields(after);
  }

  /** After `add_to_blacklist(x)` has written its table, `check_if_was_blacklisted(x)` is true. */
  lemma AddedUrlIsBlacklisted(rows: Table, offerUrl: string)
    requires FirstFields(rows).Ok?
    ensures WasBlacklisted(Present(rows + [[offerUrl]]), Some(offerUrl)) == Ok(true)
  {
    AddedRowIsListed(rows, offerUrl);
    var users := GetBlacklistedUsers(Present(rows + [[offerUrl]])).value;
    assert users[|users| - 1] == offerUrl;
    assert IsSubstring(offerUrl, offerUrl);
  }

  /**
   * When `add_to_blacklist(x)` writes nothing because `x` is already the first
   * field of a row, `check_if_was_blacklisted(x)` on the unchanged table is true.
   */
  lemma ListedUrlIsBlacklisted(stored: Read, offerUrl: string)
    requires GetBlacklistedUsers(stored).Ok? && offerUrl in GetBlacklistedUsers(stored).value
    ensures WasBlacklisted(stored, Some(offerUrl)) == Ok(true)
  {
  }
}
