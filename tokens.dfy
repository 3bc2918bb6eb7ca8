/** Callback data: the strings the bot's inline buttons carry, how the
    handlers take them apart with `split("_")`, the 60-second staleness test,
    and which handler the dispatcher gives a string to (the first registered
    one whose filter matches). */
module Tokens {
  import opened Wrappers
  import opened Text

  /** A timestamped button is refused once more than this many seconds have passed. */
  const StaleAfter: nat := 60

  /** `time.time() - timestamp > 60`. */
  predicate IsStale(now: nat, issuedAt: int) {
    now - issuedAt > StaleAfter
  }

  // ---------------------------------------------------------------------
  // Builders (f-strings of the source)

  function PriorityToken(priorityId: string, issuedAt: nat): string {
    "priority_" + priorityId + "_" + NatToString(issuedAt)
  }

  function TaskToken(issueKey: string, issuedAt: nat, page: nat): string {
    "task_" + issueKey + "_" + NatToString(issuedAt) + "_" + NatToString(page)
  }

  function NotifToken(id: nat, issuedAt: nat, page: nat): string {
    "notif_" + NatToString(id) + "_" + NatToString(issuedAt) + "_" + NatToString(page)
  }

  /** Built from the raw id and page texts of the detail token that was opened. */
  function DeleteToken(idText: string, pageText: string): string {
    "notif_delete_" + idText + "_" + pageText
  }

  function RequestPageToken(page: nat): string {
    "request_page_" + NatToString(page)
  }

  function NotifPageToken(pageText: string): string {
    "notif_page_" + pageText
  }

  // ---------------------------------------------------------------------
  // Parsers: indexing a too-short split or `int()` of a non-number raises,
  // which is `None` here.

  datatype PriorityPick = PriorityPick(priorityId: string, issuedAt: int)
  datatype TaskPick = TaskPick(issueKey: string, issuedAt: int, page: int)
  datatype NotifPick = NotifPick(idText: string, issuedAt: int, pageText: string)
  datatype DeletePick = DeletePick(idText: string, page: int)

  /** `parts[1]`, `int(parts[2])`. */
  function ParsePriority(data: string): Option<PriorityPick> {
    var parts := Split(data, '_');
    if |parts| < 3 then None
    else match ParseInt(parts[2])
      case None => None
      case Some(t) => Some(PriorityPick(parts[1], t))
  }

  /** `parts[1]`, `int(parts[2])`, `int(parts[3])`. */
  function ParseTask(data: string): Option<TaskPick> {
    var parts := Split(data, '_');
    if |parts| < 4 then None
    else match (ParseInt(parts[2]), ParseInt(parts[3]))
      case (Some(t), Some(p)) => Some(TaskPick(parts[1], t, p))
      case _ => None
  }

  /** `parts[1], parts[2], parts[3]`; only the timestamp goes through `int()`. */
  function ParseNotif(data: string): Option<NotifPick> {
    var parts := Split(data, '_');
    if |parts| < 4 then None
    else match ParseInt(parts[2])
      case None => None
      case Some(t) => Some(NotifPick(parts[1], t, parts[3]))
  }

  /** `parts[2]`, `int(parts[3])`. */
  function ParseDelete(data: string): Option<DeletePick> {
    var parts := Split(data, '_');
    if |parts| < 4 then None
    else match ParseInt(parts[3])
      case None => None
      case Some(p) => Some(DeletePick(parts[2], p))
  }

  /** `int(callback.data.split("_")[2])` of the two page handlers. */
  function ParsePage(data: string): Option<int> {
    var parts := Split(data, '_');
    if |parts| < 3 then None else ParseInt(parts[2])
  }

  // ---------------------------------------------------------------------
  // Round trips

  /** A priority button's data splits back into the id and time it was built from. */
  lemma ParsePriorityToken(priorityId: string, issuedAt: nat)
    requires '_' !in priorityId
    ensures ParsePriority(PriorityToken(priorityId, issuedAt)) == Some(PriorityPick(priorityId, issuedAt))
  {
    var t := NatToString(issuedAt);
    assert PriorityToken(priorityId, issuedAt) == "priority" + ['_'] + priorityId + ['_'] + t;
    NatToStringHasNoUnderscore(issuedAt);
    SplitThree("priority", priorityId, t, '_');
    ParseIntNatToString(issuedAt);
  }

  lemma ParseTaskToken(issueKey: string, issuedAt: nat, page: nat)
    requires '_' !in issueKey
    ensures ParseTask(TaskToken(issueKey, issuedAt, page)) == Some(TaskPick(issueKey, issuedAt, page))
  {
    var t, p := NatToString(issuedAt), NatToString(page);
    assert TaskToken(issueKey, issuedAt, page) == "task" + ['_'] + issueKey + ['_'] + t + ['_'] + p;
    NatToStringHasNoUnderscore(issuedAt);
    NatToStringHasNoUnderscore(page);
    SplitFour("task", issueKey, t, p, '_');
    ParseIntNatToString(issuedAt);
    ParseIntNatToString(page);
  }

  lemma ParseNotifToken(id: nat, issuedAt: nat, page: nat)
    ensures ParseNotif(NotifToken(id, issuedAt, page))
         == Some(NotifPick(NatToString(id), issuedAt, NatToString(page)))
  {
    var i, t, p := NatToString(id), NatToString(issuedAt), NatToString(page);
    assert NotifToken(id, issuedAt, page) == "notif" + ['_'] + i + ['_'] + t + ['_'] + p;
    NatToStringHasNoUnderscore(id);
    NatToStringHasNoUnderscore(issuedAt);
    NatToStringHasNoUnderscore(page);
    SplitFour("notif", i, t, p, '_');
    ParseIntNatToString(issuedAt);
  }

  /** The delete button built from a detail token gives back that token's id and page. */
  lemma ParseDeleteToken(id: nat, page: nat)
    ensures ParseDelete(DeleteToken(NatToString(id), NatToString(page)))
         == Some(DeletePick(NatToString(id), page))
  {
    var i, p := NatToString(id), NatToString(page);
    assert DeleteToken(i, p) == "notif" + ['_'] + "delete" + ['_'] + i + ['_'] + p;
    NatToStringHasNoUnderscore(id);
    NatToStringHasNoUnderscore(page);
    SplitFour("notif", "delete", i, p, '_');
    ParseIntNatToString(page);
  }

  lemma ParsePageTokens(page: nat)
    ensures ParsePage(RequestPageToken(page)) == Some(page)
    ensures ParsePage(NotifPageToken(NatToString(page))) == Some(page)
  {
    var p := NatToString(page);
    NatToStringHasNoUnderscore(page);
    ParseIntNatToString(page);
    assert RequestPageToken(page) == "request" + ['_'] + "page" + ['_'] + p;
    SplitThree("request", "page", p, '_');
    assert NotifPageToken(p) == "notif" + ['_'] + "page" + ['_'] + p;
    SplitThree("notif", "page", p, '_');
  }

  // ---------------------------------------------------------------------
  // Dispatch of callback queries, in the order the handlers are registered

  datatype CallbackHandler =
    | ResendCode | CreateRequest | Priority | MyRequests | InfoButton | RequestPage
    | TaskClick | Notifications | NotifPage | NotifDelete | NotifDetails
    | Back | BackToRequests | BackToTitle | BackToDescription | Cancel | HideNotification
    | Unhandled

  function Route(data: string): CallbackHandler {
    if data == "resend_code" then ResendCode
    else if data == "create_request" then CreateRequest
    else if StartsWith(data, "priority_") then Priority
    else if data == "my_requests" then MyRequests
    else if data == "info_button" then InfoButton
    else if StartsWith(data, "request_page_") then RequestPage
    else if StartsWith(data, "task_") then TaskClick
    else if data == "notifications" then Notifications
    else if StartsWith(data, "notif_page_") then NotifPage
    else if StartsWith(data, "notif_delete_") then NotifDelete
    else if StartsWith(data, "notif_") then NotifDetails
    else if data == "back" then Back
    else if data == "back_to_requests" then BackToRequests
    else if data == "back_to_title" then BackToTitle
    else if data == "back_to_description" then BackToDescription
    else if data == "cancel" then Cancel
    else if data == "hide_notification" then HideNotification
    else Unhandled
  }

  /** A detail token reaches `show_notification_details` although `notif_`
      is also a prefix of the page and delete tokens: those two handlers are
      registered first, and a detail token's id starts with a digit. */
  lemma RouteNotifToken(id: nat, issuedAt: nat, page: nat)
    ensures Route(NotifToken(id, issuedAt, page)) == NotifDetails
  {
    var d := NotifToken(id, issuedAt, page);
    assert d[..6] == "notif_";
    assert d[6] == NatToString(id)[0];
    RouteDigitAfterNotif(d);
  }

  /** Any data of the form `notif_` and a digit goes to the details handler. */
  lemma RouteDigitAfterNotif(d: string)
    requires |d| > 6 && d[..6] == "notif_" && IsDigit(d[6])
    ensures Route(d) == NotifDetails
  {
    assert d[0] == 'n' && d[1] == 'o' && d[5] == '_';
    assert d != "notifications" by { assert "notifications"[6] == 'c'; }
    assert !StartsWith(d, "notif_page_") by { assert "notif_page_"[6] == 'p'; }
    assert !StartsWith(d, "notif_delete_") by { assert "notif_delete_"[6] == 'd'; }
    assert StartsWith(d, "notif_");
  }

  lemma RouteDeleteToken(idText: string, pageText: string)
    ensures Route(DeleteToken(idText, pageText)) == NotifDelete
  {
    var x := DeleteToken(idText, pageText);
    assert x[..13] == "notif_delete_";
    assert x[0] == 'n' && x[6] == 'd';
    assert !StartsWith(x, "notif_page_") by { assert x[6] != "notif_page_"[6]; }
  }

  lemma RouteNotifPageToken(pageText: string)
    ensures Route(NotifPageToken(pageText)) == NotifPage
  {
    var p := NotifPageToken(pageText);
    assert p[..11] == "notif_page_";
    assert p[0] == 'n' && p[6] == 'p';
  }

  lemma RoutePriorityToken(priorityId: string, issuedAt: nat)
    ensures Route(PriorityToken(priorityId, issuedAt)) == Priority
  {
    var a := PriorityToken(priorityId, issuedAt);
    assert a[..9] == "priority_";
    assert a[0] == 'p' && a[1] == 'r';
  }

  lemma RouteTaskToken(issueKey: string, issuedAt: nat, page: nat)
    ensures Route(TaskToken(issueKey, issuedAt, page)) == TaskClick
  {
    var b := TaskToken(issueKey, issuedAt, page);
    assert b[..5] == "task_";
    assert b[0] == 't';
  }

  lemma RouteRequestPageToken(page: nat)
    ensures Route(RequestPageToken(page)) == RequestPage
  {
    var c := RequestPageToken(page);
    assert c[..13] == "request_page_";
    assert c[0] == 'r';
  }
}
