/** The decision part of `jira_webhook_handler`: from the signature header,
    the parsed payload and the outcomes of the two outside calls (the tracker
    status fetch and the Telegram send) to the HTTP status and the one write
    the handler makes, if any. */
module Webhook {
  import opened Wrappers
  import opened Text
  import opened Tickets
  import opened Notices

  /** A payload field: missing, JSON `null`, or a string. */
  datatype JsonField = Absent | Null | Str(s: string)

  /** The `status` / `assignee` member: an object with `from` and `to` (an
      absent member reads as `{}`, that is both fields absent), or anything
      else, on which `.get` raises. */
  datatype Change = NotObject | Change(from: JsonField, to: JsonField)

  datatype Payload = Payload(
    event: JsonField, issueKey: JsonField, status: Change,
    initiator: JsonField, initiatorName: JsonField, comment: JsonField,
    assignee: Change)

  const StatusChanged: string := "status_changed"
  const CommentAdded: string := "comment_added"
  const AssigneeChanged: string := "assignee_changed"
  /** The tracker login of the bot's own account. */
  const BotLogin: string := "ortp_bot"
  const UnknownStatus: string := "Неизвестно"
  const Unassigned: string := "Не назначен"
  const UnknownAuthor: string := "Неизвестный"
  const NoCommentText: string := "Нет текста"

  /** `.get(key, default)`: `None` is JSON `null`. */
  function Get(f: JsonField, default: string): (r: Option<string>)
  {
    match f
    case Absent => Some(default)
    case Null => None
    case Str(s) => Some(s)
  }

  /** Python truth of a field: a non-empty string. */
  predicate Truthy(f: JsonField) {
    f.Str? && f.s != ""
  }

  // ---------------------------------------------------------------------
  // Signature

  datatype SignatureCheck = SignatureOk | SignatureMismatch | SignatureMalformed

  predicate IsAscii(s: string) {
    forall i :: 0 <= i < |s| ==> s[i] as int < 128
  }

  /** The `X-Hub-Signature` header against the expected hex digest (the HMAC
      itself is computed outside the model). A missing or empty header is not
      checked; `method, signature = header.split('=')` raises unless there is
      exactly one `=`; `hmac.compare_digest` raises on a non-ASCII string. */
  function CheckSignature(header: Option<string>, expected: string): (c: SignatureCheck)
    requires IsAscii(expected)
    ensures header.None? || header == Some("") ==> c == SignatureOk
    ensures header.Some? && header.value != "" && '=' !in header.value ==> c == SignatureMalformed
    ensures c == SignatureOk && header.Some? && header.value != "" ==>
              exists m :: header.value == m + "=" + expected
  {
    if header.None? || header.value == "" then SignatureOk
    else
      var parts := Split(header.value, '=');
      NoSeparatorOnePart(header.value);
      if |parts| != 2 then SignatureMalformed
      else if !IsAscii(parts[1]) then SignatureMalformed
      else if parts[1] != expected then SignatureMismatch
      else
        JoinSplitTwo(header.value);
        SignatureOk
  }

  lemma NoSeparatorOnePart(h: string)
    ensures '=' !in h ==> |Split(h, '=')| == 1
  {
    if '=' !in h {
      SplitNoSeparator(h, '=');
    }
  }

  lemma JoinSplitTwo(h: string)
    requires |Split(h, '=')| == 2
    ensures h == Split(h, '=')[0] + "=" + Split(h, '=')[1]
  {
    var parts := Split(h, '=');
    JoinSplit(h, '=');
    assert parts[1..] == [parts[1]];
  }

  // ---------------------------------------------------------------------
  // Decision

  /** The write the handler makes: one notification for the ticket's owner,
      and for a status change the new status of the ticket. */
  datatype Effect =
    | NoEffect
    | Notify(owner: UserId, issueKey: string, eventType: string, message: Message,
             setsStatus: bool, newStatus: Option<string>)

  datatype Response = Response(httpStatus: int, effect: Effect)

  const Unchanged := Response(200, NoEffect)
  const Failed := Response(500, NoEffect)

  /** The handler for a parsed body (`None` when `request.json()` raises or
      the body is not a JSON object), given whether the tracker fetch and
      the Telegram send succeed. */
  function Decide(sig: SignatureCheck, body: Option<Payload>, requests: seq<Ticket>,
                  fetchOk: bool, sendOk: bool): (r: Response)
    ensures r.httpStatus != 200 ==> r.effect == NoEffect
    ensures sig == SignatureMismatch ==> r == Response(401, NoEffect)
    ensures r.effect.Notify? ==>
              && sig == SignatureOk && body.Some? && fetchOk && sendOk
              && Truthy(body.value.event) && Truthy(body.value.issueKey)
              && r.effect.issueKey == body.value.issueKey.s
              && r.effect.eventType == body.value.event.s
              && FindTicket(requests, r.effect.issueKey).Some?
              && r.effect.owner == FindTicket(requests, r.effect.issueKey).value.userId
    ensures r.effect.Notify? && r.effect.setsStatus ==>
              && r.effect.eventType == StatusChanged
              && r.effect.newStatus != FindTicket(requests, r.effect.issueKey).value.status
  {
    match sig
    case SignatureMismatch => Response(401, NoEffect)
    case SignatureMalformed => Failed
    case SignatureOk =>
      match body
      case None => Failed
      case Some(p) =>
        if !Truthy(p.event) then Unchanged
        else if !Truthy(p.issueKey) then Unchanged
        else
          var key := p.issueKey.s;
          match FindTicket(requests, key)
          case None => Unchanged
          case Some(t) =>
            if !fetchOk then Unchanged
            else DecideEvent(p.event.s, key, t, p, sendOk)
  }

  /** The three event kinds, once the ticket is known. */
  function DecideEvent(event: string, key: string, t: Ticket, p: Payload, sendOk: bool): (r: Response)
    ensures r.httpStatus != 200 ==> r.effect == NoEffect
    ensures r.effect.Notify? ==> r.effect.owner == t.userId && r.effect.issueKey == key && r.effect.eventType == event && sendOk
    ensures r.effect.Notify? && r.effect.setsStatus ==> event == StatusChanged && r.effect.newStatus != t.status
    ensures r.effect.Notify? && !r.effect.setsStatus ==> event == CommentAdded || event == AssigneeChanged
  {
    if event == StatusChanged then
      match p.status
      case NotObject => Failed
      case Change(from, to) =>
        var fromStatus := Get(from, UnknownStatus);
        var toStatus := Get(to, UnknownStatus);
        if toStatus == t.status then Unchanged
        else if !sendOk then Failed
        else Response(200, Notify(t.userId, key, event, StatusMessage(key, fromStatus, toStatus), true, toStatus))
    else if event == CommentAdded then
      var initiator := Get(p.initiator, UnknownAuthor);
      if initiator == Some(BotLogin) then Unchanged
      else if !sendOk then Failed
      else Response(200, Notify(t.userId, key, event,
             CommentMessage(key, Get(p.initiatorName, UnknownAuthor), Get(p.comment, NoCommentText)), false, None))
    else if event == AssigneeChanged then
      match p.assignee
      case NotObject => Failed
      case Change(_, to) =>
        var assignee := if Truthy(to) then to.s else Unassigned;
        if !sendOk then Failed
        else Response(200, Notify(t.userId, key, event, AssigneeMessage(key, assignee), false, None))
    else Unchanged
  }

  /** The cases in which the handler answers 200 and writes nothing. */
  lemma WebhookNoOps(sig: SignatureCheck, p: Payload, requests: seq<Ticket>, fetchOk: bool, sendOk: bool)
    requires sig == SignatureOk
    ensures !Truthy(p.event) ==> Decide(sig, Some(p), requests, fetchOk, sendOk) == Unchanged
    ensures !Truthy(p.issueKey) ==> Decide(sig, Some(p), requests, fetchOk, sendOk) == Unchanged
    ensures p.issueKey.Str? && FindTicket(requests, p.issueKey.s).None? ==>
              Decide(sig, Some(p), requests, fetchOk, sendOk) == Unchanged
    ensures !fetchOk ==> Decide(sig, Some(p), requests, fetchOk, sendOk) == Unchanged
    ensures p.event.Str? && p.event.s !in {StatusChanged, CommentAdded, AssigneeChanged} ==>
              Decide(sig, Some(p), requests, fetchOk, sendOk) == Unchanged
    ensures p.event == Str(StatusChanged) && p.issueKey.Str? && FindTicket(requests, p.issueKey.s).Some?
            && p.status.Change? && Get(p.status.to, UnknownStatus) == FindTicket(requests, p.issueKey.s).value.status ==>
              Decide(sig, Some(p), requests, fetchOk, sendOk) == Unchanged
    ensures p.event == Str(CommentAdded) && p.initiator == Str(BotLogin) ==>
              Decide(sig, Some(p), requests, fetchOk, sendOk) == Unchanged
  {
  }

  /** Every other event is a notification for the ticket's owner; a status
      change also sets the ticket's status to the payload's `to`, and an
      assignee change without a usable `to` names nobody. */
  lemma WebhookNotifies(p: Payload, requests: seq<Ticket>)
    requires Truthy(p.event) && Truthy(p.issueKey)
    requires FindTicket(requests, p.issueKey.s).Some?
    ensures var t := FindTicket(requests, p.issueKey.s).value;
            var r := Decide(SignatureOk, Some(p), requests, true, true);
            && (p.event.s == StatusChanged && p.status.Change? && Get(p.status.to, UnknownStatus) != t.status ==>
                  r.effect.Notify? && r.effect.setsStatus && r.effect.newStatus == Get(p.status.to, UnknownStatus)
                  && r.effect.owner == t.userId)
            && (p.event.s == StatusChanged && p.status.Change? && p.status.to == Absent && t.status != Some(UnknownStatus) ==>
                  r.effect.Notify? && r.effect.newStatus == Some(UnknownStatus))
            && (p.event.s == StatusChanged && p.status.Change? && p.status.to == Null && t.status.Some? ==>
                  r.effect.Notify? && r.effect.newStatus.None?)
            && (p.event.s == CommentAdded && p.initiator != Str(BotLogin) ==>
                  r.effect.Notify? && !r.effect.setsStatus && r.effect.owner == t.userId)
            && (p.event.s == AssigneeChanged && p.assignee.Change? ==>
                  r.effect.Notify? && r.effect.owner == t.userId
                  && r.effect.message == AssigneeMessage(p.issueKey.s, if Truthy(p.assignee.to) then p.assignee.to.s else Unassigned))
  {
  }
}
