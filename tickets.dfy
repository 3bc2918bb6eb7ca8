/** The `requests` table (one row per ticket the bot created), the writes the
    handlers make to it, and what "My requests" shows: which rows are listed,
    in what order, and the rows, navigation and callbacks of one page. */
module Tickets {
  import opened Wrappers
  import opened Text
  import opened Counting
  import opened Ordering
  import opened Paging
  import opened Tokens

  type UserId = int

  /** A row of `requests`; `status` is SQL `NULL` when `None`. */
  datatype Ticket = Ticket(userId: UserId, issueKey: string, title: string, status: Option<string>, createdAt: int)

  /** The status a new row gets. */
  const NewStatus: string := "To Do"
  /** The status whose rows drop out of the list once older than the cutoff. */
  const DoneStatus: string := "Done"

  /** The `issue_key` column is the table's unique key. */
  ghost predicate KeysUnique(rs: seq<Ticket>) {
    forall i, j :: 0 <= i < j < |rs| ==> rs[i].issueKey != rs[j].issueKey
  }

  /** `SELECT ... FROM requests WHERE issue_key = %s`. */
  function FindTicket(rs: seq<Ticket>, key: string): (r: Option<Ticket>)
    ensures r.Some? ==> r.value in rs && r.value.issueKey == key
    ensures r.None? ==> forall t :: t in rs ==> t.issueKey != key
  {
    if rs == [] then None
    else if rs[0].issueKey == key then Some(rs[0])
    else FindTicket(rs[1..], key)
  }

  /** `INSERT ... ON DUPLICATE KEY UPDATE title = %s, status = 'To Do'`. */
  function Upsert(rs: seq<Ticket>, u: UserId, key: string, title: string, now: int): (r: seq<Ticket>)
    ensures FindTicket(rs, key).None? ==> FindTicket(r, key) == Some(Ticket(u, key, title, Some(NewStatus), now))
    ensures FindTicket(rs, key).Some? ==>
              FindTicket(r, key) == Some(FindTicket(rs, key).value.(title := title, status := Some(NewStatus)))
    ensures forall k :: k != key ==> FindTicket(r, k) == FindTicket(rs, k)
    ensures |r| == |rs| + (if FindTicket(rs, key).None? then 1 else 0)
  {
    if rs == [] then [Ticket(u, key, title, Some(NewStatus), now)]
    else if rs[0].issueKey == key then [rs[0].(title := title, status := Some(NewStatus))] + rs[1..]
    else [rs[0]] + Upsert(rs[1..], u, key, title, now)
  }

  /** Rows of an upsert keep their keys, except the one row it adds. */
  lemma {:induction false} UpsertKeys(rs: seq<Ticket>, u: UserId, key: string, title: string, now: int)
    ensures var r := Upsert(rs, u, key, title, now);
            forall i :: 0 <= i < |r| ==> (i < |rs| && r[i].issueKey == rs[i].issueKey) || (i == |rs| && r[i].issueKey == key)
  {
    if rs != [] && rs[0].issueKey != key {
      UpsertKeys(rs[1..], u, key, title, now);
    }
  }

  lemma UpsertKeepsKeysUnique(rs: seq<Ticket>, u: UserId, key: string, title: string, now: int)
    requires KeysUnique(rs)
    ensures KeysUnique(Upsert(rs, u, key, title, now))
  {
    var r := Upsert(rs, u, key, title, now);
    UpsertKeys(rs, u, key, title, now);
    if |r| > |rs| {
      forall i | 0 <= i < |rs| ensures rs[i].issueKey != key {
        assert rs[i] in rs;
      }
    }
  }

  /** `UPDATE requests SET status = %s WHERE issue_key = %s`. */
  function SetStatus(rs: seq<Ticket>, key: string, status: Option<string>): (r: seq<Ticket>)
    ensures |r| == |rs|
    ensures FindTicket(rs, key).Some? ==> FindTicket(r, key) == Some(FindTicket(rs, key).value.(status := status))
    ensures FindTicket(rs, key).None? ==> r == rs
    ensures forall k :: k != key ==> FindTicket(r, k) == FindTicket(rs, k)
    ensures forall i :: 0 <= i < |rs| ==> r[i].issueKey == rs[i].issueKey && r[i].userId == rs[i].userId
  {
    if rs == [] then []
    else
      var rest := SetStatus(rs[1..], key, status);
      [if rs[0].issueKey == key then rs[0].(status := status) else rs[0]] + rest
  }

  lemma SetStatusKeepsKeysUnique(rs: seq<Ticket>, key: string, status: Option<string>)
    requires KeysUnique(rs)
    ensures KeysUnique(SetStatus(rs, key, status))
  {
  }

  // ---------------------------------------------------------------------
  // The list

  /** `WHERE user_id = %s AND (status != 'Done' OR created_at >= cutoff)`:
      with a `NULL` status the first disjunct is unknown, so only the date
      decides. */
  predicate Listed(t: Ticket, u: UserId, cutoff: int) {
    t.userId == u && ((t.status.Some? && t.status.value != DoneStatus) || t.createdAt >= cutoff)
  }

  function ListedBy(u: UserId, cutoff: int): Ticket -> bool {
    (t: Ticket) => Listed(t, u, cutoff)
  }

  /** `ORDER BY created_at DESC`. */
  function NewestFirst(): (Ticket, Ticket) -> bool {
    (a: Ticket, b: Ticket) => a.createdAt >= b.createdAt
  }

  lemma NewestFirstIsOrder()
    ensures Total(NewestFirst()) && Transitive(NewestFirst())
  {
  }

  /** The user's listed tickets, newest first. */
  function Listing(rs: seq<Ticket>, u: UserId, cutoff: int): (r: seq<Ticket>)
    ensures SortedBy(r, NewestFirst())
    ensures multiset(r) == multiset(Filter(rs, ListedBy(u, cutoff)))
    ensures forall t :: t in r <==> t in rs && Listed(t, u, cutoff)
  {
    NewestFirstIsOrder();
    var listed := Filter(rs, ListedBy(u, cutoff));
    var r := SortBy(listed, NewestFirst());
    assert forall t :: t in r <==> t in multiset(r);
    assert forall t :: t in listed <==> t in multiset(listed);
    r
  }

  /** One button of the list. */
  datatype RequestRow = RequestRow(issueKey: string, shortTitle: string, status: Option<string>, createdAt: int, callback: string)

  function RowFor(t: Ticket, now: nat, page: nat): RequestRow {
    RequestRow(t.issueKey, ShortTitle(t.title), t.status, t.createdAt, TaskToken(t.issueKey, now, page))
  }

  /** What "My requests" shows. */
  datatype RequestsView =
    | RequestsNotRegistered
    | NoRequests
    | RequestsPage(window: Window, rows: seq<RequestRow>, nav: seq<string>, withInfo: bool)

  /** The rows of the page: `LIMIT 5 OFFSET offset` over the uncapped listing. */
  function PageOf<T>(listing: seq<T>, offset: nat, perPage: nat): (r: seq<T>)
    requires offset <= |listing|
    ensures |r| <= perPage && offset + |r| <= |listing|
    ensures forall i :: 0 <= i < |r| ==> r[i] == listing[offset + i]
  {
    listing[offset..Min(offset + perPage, |listing|)]
  }

  /** The buttons of a page, one per ticket. */
  function RequestRows(ts: seq<Ticket>, now: nat, page: nat): (r: seq<RequestRow>)
    ensures |r| == |ts|
    ensures forall i :: 0 <= i < |ts| ==> r[i] == RowFor(ts[i], now, page)
  {
    if ts == [] then [] else [RowFor(ts[0], now, page)] + RequestRows(ts[1..], now, page)
  }

  function PageTokens(targets: seq<nat>): (r: seq<string>)
    ensures |r| == |targets|
    ensures forall i :: 0 <= i < |targets| ==> r[i] == RequestPageToken(targets[i])
  {
    if targets == [] then [] else [RequestPageToken(targets[0])] + PageTokens(targets[1..])
  }

  /** `show_my_requests` for a user with the given verification flag. */
  function RequestsViewOf(verified: bool, rs: seq<Ticket>, u: UserId, page: int, now: nat, cutoff: int): RequestsView
  {
    if !verified then RequestsNotRegistered
    else
      var listing := Listing(rs, u, cutoff);
      var count := Min(|listing|, RequestsCap);
      if count == 0 then NoRequests
      else
        var w := Paginate(count, RequestsPerPage, page);
        RequestsPage(w,
          RequestRows(PageOf(listing, w.offset, RequestsPerPage), now, w.page),
          PageTokens(NavTargets(count, RequestsPerPage, w)),
          w.page == 1)
  }

  /** What a page of "My requests" holds: at most five of the user's listed
      tickets, consecutive in the newest-first listing and all among its first
      30; each button's title is shortened and its callback carries the
      ticket, the time and the page. */
  lemma RequestsPageShowsListing(verified: bool, rs: seq<Ticket>, u: UserId, page: int, now: nat, cutoff: int, i: nat)
    requires RequestsViewOf(verified, rs, u, page, now, cutoff).RequestsPage?
    requires i < |RequestsViewOf(verified, rs, u, page, now, cutoff).rows|
    ensures var v := RequestsViewOf(verified, rs, u, page, now, cutoff);
            var listing := Listing(rs, u, cutoff);
            && verified
            && |v.rows| <= RequestsPerPage
            && v.window.offset + i < |listing|
            && v.window.offset + i < RequestsCap
            && Listed(listing[v.window.offset + i], u, cutoff)
            && v.rows[i] == RowFor(listing[v.window.offset + i], now, v.window.page)
  {
    var listing := Listing(rs, u, cutoff);
    var v := RequestsViewOf(verified, rs, u, page, now, cutoff);
    assert listing[v.window.offset + i] in listing;
    RequestWindowBelowCap(|listing|, page, i);
  }

  /** A row's callback gives back its ticket and page to `handle_task_click`
      when the key has no underscore (Jira keys such as `ORTP-12` do not). */
  lemma RequestRowCallback(t: Ticket, now: nat, page: nat)
    requires '_' !in t.issueKey
    ensures ParseTask(RowFor(t, now, page).callback) == Some(TaskPick(t.issueKey, now, page))
    ensures Route(RowFor(t, now, page).callback) == TaskClick
  {
    ParseTaskToken(t.issueKey, now, page);
    RouteTaskToken(t.issueKey, now, page);
  }

  /** The view is empty exactly when the user is verified and no ticket is
      listed; the first page carries the info button. */
  lemma RequestsViewCases(verified: bool, rs: seq<Ticket>, u: UserId, page: int, now: nat, cutoff: int)
    ensures var v := RequestsViewOf(verified, rs, u, page, now, cutoff);
            && (v == RequestsNotRegistered <==> !verified)
            && (v == NoRequests <==> verified && forall t :: t in rs ==> !Listed(t, u, cutoff))
            && (v.RequestsPage? ==> (v.withInfo <==> v.window.page == 1) && v.rows != [])
  {
    var listing := Listing(rs, u, cutoff);
    if verified && listing != [] {
      assert listing[0] in listing;
    }
  }
}
