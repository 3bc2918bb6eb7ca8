/** The bot as one object: the five tables it keeps (`users`,
    `verification_codes`, `requests`, `notifications` and the per-user FSM
    sessions) and one method per handler, each taking the outcomes of the
    outside calls it makes (mail sent, tracker answers, message ids, the
    clock) as parameters. */
module Bot {
  import opened Wrappers
  import opened Text
  import opened Paging
  import opened Counting
  import opened Identity
  import opened Conversation
  import opened Tickets
  import opened Notices
  import opened Webhook
  import opened Drafts
  import Tokens
  import Comments

  datatype EmailReply = EmailNotText | EmailNoPrompt | EmailRejected(decision: EmailDecision) | EmailRegistered(mailSent: bool)
  datatype CodeReply = CodeNotText | CodeNoPrompt | CodeAccepted | CodeRefused(outcome: CodeOutcome, downgradeAfter: Option<int>)
  datatype ResendReply = ResendNoPrompt | ResendNoUser | ResendTooSoon | ResendIssued(mailSent: bool)
  datatype PriorityReply = PriorityRefused | PriorityStale | IssueFailed | IssueCreated(issueKey: string)
  /** What the ticket-details fetch of `handle_task_click` gives: no ticket,
      an error while reading comments or dates, or the details shown (in the
      message with this id, if one could be shown). */
  datatype TaskLookup = TaskMissing | TaskLookupFailed | TaskShown(taskMessage: Option<MessageId>)
  datatype TaskReply = TaskRefused | TaskStale | TaskNotFound(view: RequestsView) | TaskFailed | TaskOpened(issueKey: string)
  datatype DetailReply = DetailRefused | DetailStale | DetailMissing | DetailShown(message: Message, deleteCallback: string, backCallback: string)

  class OrtpBot {
    var users: map<UserId, User>
    var codes: map<UserId, Challenge>
    var requests: seq<Ticket>
    var notifications: seq<Notification>
    /** The next `AUTO_INCREMENT` value of `notifications.id`. */
    var nextNotificationId: nat
    var sessions: map<UserId, Session>

    ghost predicate Valid()
      reads this
    {
      && EmailsUnique(users)
      && codes.Keys <= users.Keys
      && KeysUnique(requests)
      && IdsIncreasing(notifications)
      && (forall x :: x in notifications ==> x.id < nextNotificationId)
      && WithinRetention(notifications)
      && (forall u :: u in sessions ==> WellFormed(sessions[u]))
    }

    /** The session of `u`; a user the bot has not talked to has a cleared one. */
    function SessionOf(u: UserId): (s: Session)
      reads this
      ensures u in sessions ==> s == sessions[u]
      ensures u !in sessions ==> s == Cleared
    {
      if u in sessions then sessions[u] else Cleared
    }

    predicate IsVerified(u: UserId)
      reads this
    {
      u in users && users[u].isVerified
    }

    twostate predicate TablesUnchanged()
      reads this
    {
      && users == old(users) && codes == old(codes) && requests == old(requests)
      && notifications == old(notifications) && nextNotificationId == old(nextNotificationId)
    }

    /** `state.update_data(bot_message_id=...)` alone. */
    function WithPrompt(u: UserId, sent: MessageId): Session
      reads this
    {
      SessionOf(u).(data := SessionOf(u).data.(botMessageId := Some(sent)))
    }

    constructor ()
      ensures Valid()
      ensures users == map[] && codes == map[] && requests == [] && notifications == [] && sessions == map[]
    {
      users := map[];
      codes := map[];
      requests := [];
      notifications := [];
      nextNotificationId := 1;
      sessions := map[];
    }

    // -------------------------------------------------------------------
    // E-mail verification

    /** `/start`: a verified user just gets the menu; anyone else is asked
        for an e-mail, in the message `sent`. */
    method Start(u: UserId, sent: MessageId)
      requires Valid()
      modifies this
      ensures Valid() && TablesUnchanged()
      ensures KeepsVerified(old(users), users)
      ensures old(IsVerified(u)) ==> sessions == old(sessions)
      ensures !old(IsVerified(u)) ==>
                sessions == old(sessions)[u := Session(Some(VerifyEmail), old(SessionOf(u)).data.(botMessageId := Some(sent)))]
    {
      if !IsVerified(u) {
        var s := SetState(SessionOf(u), VerifyEmail);
        sessions := sessions[u := s.(data := s.data.(botMessageId := Some(sent)))];
      }
    }

    /** `process_email`: `sent` is the id of the error message sent when the
        prompt is unknown; `mailOk` the result of sending the code. */
    method ProcessEmail(u: UserId, input: Input, code: nat, now: int, sent: MessageId, mailOk: bool) returns (reply: EmailReply)
      requires Valid()
      requires MinCode <= code <= MaxCode
      modifies this
      ensures Valid()
      ensures requests == old(requests) && notifications == old(notifications) && nextNotificationId == old(nextNotificationId)
      ensures input.NonText? ==> reply == EmailNotText && TablesUnchanged() && sessions == old(sessions)
      ensures input.Text? && old(SessionOf(u)).data.botMessageId.None? ==>
                reply == EmailNoPrompt && TablesUnchanged() && sessions == old(sessions)[u := old(WithPrompt(u, sent))]
      ensures input.Text? && old(SessionOf(u)).data.botMessageId.Some? ==>
                var d := DecideEmail(old(users), u, input.text);
                && (!d.Accepted? ==> reply == EmailRejected(d) && TablesUnchanged() && sessions == old(sessions))
                && (d.Accepted? ==>
                      && reply == EmailRegistered(mailOk)
                      && users == old(users)[u := User(d.email, false)]
                      && codes == old(codes)[u := NewChallenge(code, now)]
                      && sessions == (if mailOk then old(sessions)[u := SetState(old(SessionOf(u)), VerifyCode)] else old(sessions)))
    {
      if input.NonText? {
        return EmailNotText;
      }
      var s := SessionOf(u);
      if s.data.botMessageId.None? {
        sessions := sessions[u := WithPrompt(u, sent)];
        return EmailNoPrompt;
      }
      var d := DecideEmail(users, u, input.text);
      if !d.Accepted? {
        return EmailRejected(d);
      }
      AcceptedKeepsEmailsUnique(users, u, input.text);
      Register(u, d.email, code, now);
      if mailOk {
        sessions := sessions[u := SetState(s, VerifyCode)];
      }
      reply := EmailRegistered(mailOk);
    }

    /** The two upserts of an accepted address: the user row, unverified, and
        a fresh challenge. */
    method Register(u: UserId, email: string, code: nat, now: int)
      requires Valid()
      requires MinCode <= code <= MaxCode
      requires EmailsUnique(users[u := User(email, false)])
      modifies this
      ensures Valid()
      ensures users == old(users)[u := User(email, false)]
      ensures codes == old(codes)[u := NewChallenge(code, now)]
      ensures sessions == old(sessions) && requests == old(requests)
      ensures notifications == old(notifications) && nextNotificationId == old(nextNotificationId)
    {
      users := users[u := User(email, false)];
      codes := codes[u := NewChallenge(code, now)];
    }

    /** `process_code`. A refused code reports when the deferred downgrade of
        the prompt is scheduled: after the remaining cooldown, if any. */
    method ProcessCode(u: UserId, input: Input, now: int, sent: MessageId) returns (reply: CodeReply)
      requires Valid()
      modifies this
      ensures Valid()
      ensures KeepsVerified(old(users), users)
      ensures codes == old(codes) && requests == old(requests)
      ensures notifications == old(notifications) && nextNotificationId == old(nextNotificationId)
      ensures input.NonText? ==> reply == CodeNotText && TablesUnchanged() && sessions == old(sessions)
      ensures input.Text? && old(SessionOf(u)).data.botMessageId.None? ==>
                reply == CodeNoPrompt && TablesUnchanged() && sessions == old(sessions)[u := old(WithPrompt(u, sent))]
      ensures input.Text? && old(SessionOf(u)).data.botMessageId.Some? ==>
                var o := CheckCode(old(codes), u, input.text, now);
                var cd := CooldownStatus(old(codes), u, now);
                && (o == Verified ==>
                      && reply == CodeAccepted
                      && !DowngradeFires(users, u)
                      && users == old(users)[u := old(users)[u].(isVerified := true)]
                      && sessions == old(sessions)[u := Cleared])
                && (o != Verified ==>
                      && reply == CodeRefused(o, if cd.inCooldown then Some(cd.remaining) else None)
                      && TablesUnchanged() && sessions == old(sessions))
    {
      if input.NonText? {
        return CodeNotText;
      }
      if SessionOf(u).data.botMessageId.None? {
        sessions := sessions[u := WithPrompt(u, sent)];
        return CodeNoPrompt;
      }
      var o := CheckCode(codes, u, input.text, now);
      if o == Verified {
        users := users[u := users[u].(isVerified := true)];
        sessions := sessions[u := Cleared];
        return CodeAccepted;
      }
      var cd := CooldownStatus(codes, u, now);
      reply := CodeRefused(o, if cd.inCooldown then Some(cd.remaining) else None);
    }

    /** `resend_verification_code`. */
    method ResendCode(u: UserId, code: nat, now: int, sent: MessageId, mailOk: bool) returns (reply: ResendReply)
      requires Valid()
      requires MinCode <= code <= MaxCode
      modifies this
      ensures Valid()
      ensures KeepsVerified(old(users), users)
      ensures users == old(users) && requests == old(requests)
      ensures notifications == old(notifications) && nextNotificationId == old(nextNotificationId)
      ensures old(SessionOf(u)).data.botMessageId.None? ==>
                reply == ResendNoPrompt && codes == old(codes) && sessions == old(sessions)[u := old(WithPrompt(u, sent))]
      ensures old(SessionOf(u)).data.botMessageId.Some? ==>
                && sessions == old(sessions)
                && (u !in old(users) || u !in old(codes) ==> reply == ResendNoUser && codes == old(codes))
                && (u in old(users) && u in old(codes) && CooldownStatus(old(codes), u, now).inCooldown ==>
                      reply == ResendTooSoon && codes == old(codes))
                && (u in old(users) && u in old(codes) && !CooldownStatus(old(codes), u, now).inCooldown ==>
                      reply == ResendIssued(mailOk) && codes == old(codes)[u := NewChallenge(code, now)])
    {
      if SessionOf(u).data.botMessageId.None? {
        sessions := sessions[u := WithPrompt(u, sent)];
        return ResendNoPrompt;
      }
      if u !in users || u !in codes {
        return ResendNoUser;
      }
      if now - codes[u].lastRequestAt < ResendCooldown {
        return ResendTooSoon;
      }
      codes := codes[u := NewChallenge(code, now)];
      reply := ResendIssued(mailOk);
    }

    // -------------------------------------------------------------------
    // The request form

    /** `create_request_start`: `menu` is the message the button was on. */
    method CreateRequestStart(u: UserId, menu: MessageId) returns (started: bool)
      requires Valid()
      modifies this
      ensures Valid() && TablesUnchanged()
      ensures KeepsVerified(old(users), users)
      ensures started == old(IsVerified(u))
      ensures started ==> sessions == old(sessions)[u := Session(Some(CreateTitle), old(SessionOf(u)).data.(botMessageId := Some(menu)))]
      ensures !started ==> sessions == old(sessions)
    {
      started := IsVerified(u);
      if started {
        sessions := sessions[u := SetState(WithPrompt(u, menu), CreateTitle)];
      }
    }

    /** `process_title`; without a prompt id in the data it raises first. */
    method ProcessTitle(u: UserId, text: string)
      requires Valid()
      modifies this
      ensures Valid() && TablesUnchanged()
      ensures KeepsVerified(old(users), users)
      ensures old(SessionOf(u)).data.botMessageId.None? ==> sessions == old(sessions)
      ensures old(SessionOf(u)).data.botMessageId.Some? ==>
                sessions == old(sessions)[u := Session(Some(CreateDescription), old(SessionOf(u)).data.(title := Some(text)))]
    {
      var s := SessionOf(u);
      if s.data.botMessageId.Some? {
        sessions := sessions[u := Session(Some(CreateDescription), s.data.(title := Some(text)))];
      }
    }

    /** `process_description`: the state moves on before the priorities are
        fetched, so a failed fetch (`None`) leaves it moved and offers no
        buttons. */
    method ProcessDescription(u: UserId, text: string, priorities: Option<seq<PriorityEntry>>, now: nat)
      returns (buttons: Option<seq<PriorityButton>>)
      requires Valid()
      modifies this
      ensures Valid() && TablesUnchanged()
      ensures KeepsVerified(old(users), users)
      ensures old(SessionOf(u)).data.botMessageId.None? ==> sessions == old(sessions) && buttons.None?
      ensures old(SessionOf(u)).data.botMessageId.Some? ==>
                && sessions == old(sessions)[u := Session(Some(CreatePriority), old(SessionOf(u)).data.(description := Some(text)))]
                && buttons == (if priorities.Some? then Some(PriorityButtons(priorities.value, now)) else None)
    {
      var s := SessionOf(u);
      if s.data.botMessageId.None? {
        return None;
      }
      sessions := sessions[u := Session(Some(CreatePriority), s.data.(description := Some(text)))];
      buttons := if priorities.Some? then Some(PriorityButtons(priorities.value, now)) else None;
    }

    /** The address `process_priority` signs the description with. */
    function EmailOf(u: UserId): (e: string)
      reads this
    {
      if u in users then users[u].email else UnknownEmail
    }

    /** `process_priority`. It has no state filter. `priorities` is the second
        fetch of the tracker's priorities and `created` the key `create_issue`
        returns (`None` when it raises). Once the priority is found, the
        session is cleared whatever happens next. */
    method ProcessPriority(u: UserId, callback: string, now: nat, priorities: Option<seq<PriorityEntry>>, created: Option<string>)
      returns (reply: PriorityReply, draft: Option<IssueDraft>)
      requires Valid()
      modifies this
      ensures Valid()
      ensures KeepsVerified(old(users), users)
      ensures users == old(users) && codes == old(codes)
      ensures notifications == old(notifications) && nextNotificationId == old(nextNotificationId)
      ensures var pick := Tokens.ParsePriority(callback);
              var found := pick.Some? && !Tokens.IsStale(now, pick.value.issuedAt) && priorities.Some?
                           && FindPriorityName(priorities.value, pick.value.priorityId).Some?;
              var d := old(SessionOf(u)).data;
              && (!found ==> TablesUnchanged() && sessions == old(sessions) && draft.None?
                             && reply == (if pick.Some? && Tokens.IsStale(now, pick.value.issuedAt) then PriorityStale else PriorityRefused))
              && (found ==> sessions == old(sessions)[u := Cleared])
              && (found && (d.title.None? || d.description.None?) ==>
                    reply == IssueFailed && draft.None? && requests == old(requests))
              && (found && d.title.Some? && d.description.Some? ==>
                    && draft == Some(IssueDraft(d.title.value, SignedDescription(d.description.value, old(EmailOf(u))),
                                                FindPriorityName(priorities.value, pick.value.priorityId).value))
                    && (created.None? ==> reply == IssueFailed && requests == old(requests))
                    && (created.Some? ==> reply == IssueCreated(created.value)
                                          && requests == Upsert(old(requests), u, created.value, d.title.value, now)))
    {
      var pick := Tokens.ParsePriority(callback);
      if pick.None? {
        return PriorityRefused, None;
      }
      if Tokens.IsStale(now, pick.value.issuedAt) {
        return PriorityStale, None;
      }
      if priorities.None? {
        return PriorityRefused, None;
      }
      var name := FindPriorityName(priorities.value, pick.value.priorityId);
      if name.None? {
        return PriorityRefused, None;
      }
      var d := SessionOf(u).data.(priority := Some(name.value));
      if d.title.None? || d.description.None? {
        reply, draft := IssueFailed, None;
      } else {
        draft := Some(IssueDraft(d.title.value, SignedDescription(d.description.value, EmailOf(u)), name.value));
        if created.None? {
          reply := IssueFailed;
        } else {
          UpsertKeepsKeysUnique(requests, u, created.value, d.title.value, now);
          requests := Upsert(requests, u, created.value, d.title.value, now);
          reply := IssueCreated(created.value);
        }
      }
      sessions := sessions[u := Cleared];
    }

    // -------------------------------------------------------------------
    // Back and cancel

    method HandleBack(u: UserId)
      requires Valid()
      modifies this
      ensures Valid() && TablesUnchanged()
      ensures KeepsVerified(old(users), users)
      ensures sessions == old(sessions)[u := Back(old(SessionOf(u)))]
    {
      BackCancelKeepWellFormed(SessionOf(u));
      sessions := sessions[u := Back(SessionOf(u))];
    }

    method CancelButton(u: UserId)
      requires Valid()
      modifies this
      ensures Valid() && TablesUnchanged()
      ensures KeepsVerified(old(users), users)
      ensures sessions == old(sessions)[u := Conversation.Cancel(old(SessionOf(u)))]
    {
      BackCancelKeepWellFormed(SessionOf(u));
      sessions := sessions[u := Conversation.Cancel(SessionOf(u))];
    }

    /** `back_to_title` re-enters the title prompt from any state, keeping the data. */
    method BackToTitle(u: UserId)
      requires Valid()
      modifies this
      ensures Valid() && TablesUnchanged()
      ensures KeepsVerified(old(users), users)
      ensures sessions == old(sessions)[u := Session(Some(CreateTitle), old(SessionOf(u)).data)]
    {
      sessions := sessions[u := SetState(SessionOf(u), CreateTitle)];
    }

    method BackToDescription(u: UserId)
      requires Valid()
      modifies this
      ensures Valid() && TablesUnchanged()
      ensures KeepsVerified(old(users), users)
      ensures sessions == old(sessions)[u := Session(Some(CreateDescription), old(SessionOf(u)).data)]
    {
      sessions := sessions[u := SetState(SessionOf(u), CreateDescription)];
    }

    /** `back_to_requests`: clear, then the first page of the list. */
    method BackToRequests(u: UserId, now: nat, cutoff: int) returns (view: RequestsView)
      requires Valid()
      modifies this
      ensures Valid() && TablesUnchanged()
      ensures KeepsVerified(old(users), users)
      ensures sessions == old(sessions)[u := Cleared]
      ensures view == RequestsViewOf(IsVerified(u), requests, u, 1, now, cutoff)
    {
      sessions := sessions[u := Cleared];
      view := ShowMyRequests(u, 1, now, cutoff);
    }

    // -------------------------------------------------------------------
    // Tickets and comments

    /** `show_my_requests`: the rows are built one ticket at a time. */
    method ShowMyRequests(u: UserId, page: int, now: nat, cutoff: int) returns (view: RequestsView)
      ensures view == RequestsViewOf(IsVerified(u), requests, u, page, now, cutoff)
    {
      if !IsVerified(u) {
        return RequestsNotRegistered;
      }
      var listing := Listing(requests, u, cutoff);
      var count := Min(|listing|, RequestsCap);
      if count == 0 {
        return NoRequests;
      }
      var w := Paginate(count, RequestsPerPage, page);
      var shown := PageOf(listing, w.offset, RequestsPerPage);
      var rows: seq<RequestRow> := [];
      var i := 0;
      while i < |shown|
        invariant 0 <= i <= |shown|
        invariant |rows| == i
        invariant forall j :: 0 <= j < i ==> rows[j] == RowFor(shown[j], now, w.page)
      {
        rows := rows + [RowFor(shown[i], now, w.page)];
        i := i + 1;
      }
      var nav := RequestNav(count, w);
      view := RequestsPage(w, rows, nav, w.page == 1);
    }

    /** The pagination row of "My requests", button by button. */
    static method RequestNav(count: nat, w: Window) returns (nav: seq<string>)
      ensures nav == PageTokens(NavTargets(count, RequestsPerPage, w))
    {
      nav := [];
      if count > RequestsPerPage {
        if w.page > 1 {
          nav := nav + [Tokens.RequestPageToken(w.page - 1)];
        }
        nav := nav + [Tokens.RequestPageToken(w.page)];
        if w.page < w.totalPages {
          nav := nav + [Tokens.RequestPageToken(w.page + 1)];
        }
      }
    }

    /** `request_page_handler`: `None` when the page number does not parse. */
    method RequestPage(u: UserId, callback: string, now: nat, cutoff: int) returns (view: Option<RequestsView>)
      ensures Tokens.ParsePage(callback).None? ==> view.None?
      ensures Tokens.ParsePage(callback).Some? ==>
                view == Some(RequestsViewOf(IsVerified(u), requests, u, Tokens.ParsePage(callback).value, now, cutoff))
    {
      var page := Tokens.ParsePage(callback);
      if page.None? {
        return None;
      }
      var v := ShowMyRequests(u, page.value, now, cutoff);
      view := Some(v);
    }

    /** `handle_task_click`. */
    method HandleTaskClick(u: UserId, callback: string, now: nat, cutoff: int, lookup: TaskLookup) returns (reply: TaskReply)
      requires Valid()
      modifies this
      ensures Valid() && TablesUnchanged()
      ensures KeepsVerified(old(users), users)
      ensures var pick := Tokens.ParseTask(callback);
              var d := old(SessionOf(u)).data;
              && (pick.None? ==> reply == TaskRefused && sessions == old(sessions))
              && (pick.Some? && Tokens.IsStale(now, pick.value.issuedAt) ==> reply == TaskStale && sessions == old(sessions))
              && (pick.Some? && !Tokens.IsStale(now, pick.value.issuedAt) ==>
                    && (lookup == TaskMissing ==>
                          reply == TaskNotFound(RequestsViewOf(IsVerified(u), requests, u, pick.value.page, now, cutoff))
                          && sessions == old(sessions))
                    && (lookup == TaskLookupFailed ==> reply == TaskFailed && sessions == old(sessions))
                    && (lookup.TaskShown? ==>
                          && reply == TaskOpened(pick.value.issueKey)
                          && sessions == old(sessions)[u := Session(Some(BotState.AddComment),
                               d.(taskMessageId := if lookup.taskMessage.Some? then lookup.taskMessage else d.taskMessageId,
                                  issueKey := Some(pick.value.issueKey)))]))
    {
      var pick := Tokens.ParseTask(callback);
      if pick.None? {
        return TaskRefused;
      }
      if Tokens.IsStale(now, pick.value.issuedAt) {
        return TaskStale;
      }
      match lookup
      case TaskMissing =>
        var v := ShowMyRequests(u, pick.value.page, now, cutoff);
        reply := TaskNotFound(v);
      case TaskLookupFailed =>
        reply := TaskFailed;
      case TaskShown(tm) =>
        var d := SessionOf(u).data;
        if tm.Some? {
          d := d.(taskMessageId := tm);
        }
        d := d.(issueKey := Some(pick.value.issueKey));
        sessions := sessions[u := Session(Some(BotState.AddComment), d)];
        reply := TaskOpened(pick.value.issueKey);
    }

    /** `process_comment`; `None` when the data has no ticket key and the
        handler raises before anything happens. Whatever the tracker says,
        the session is cleared. */
    method ProcessComment(u: UserId, lookup: Comments.IssueLookup, post: Comments.PostResult) returns (report: Option<Comments.Report>)
      requires Valid()
      modifies this
      ensures Valid() && TablesUnchanged()
      ensures KeepsVerified(old(users), users)
      ensures old(SessionOf(u)).data.issueKey.None? ==> report.None? && sessions == old(sessions)
      ensures old(SessionOf(u)).data.issueKey.Some? ==>
                && report == Some(Comments.CommentReport(Comments.AddComment(lookup, post)))
                && sessions == old(sessions)[u := Cleared]
    {
      if SessionOf(u).data.issueKey.None? {
        return None;
      }
      report := Some(Comments.CommentReport(Comments.AddComment(lookup, post)));
      sessions := sessions[u := Cleared];
    }

    // -------------------------------------------------------------------
    // Notifications

    /** `delete_notification`: deletes by id whoever owns the row, then shows
        the caller's list on a page that still has rows. `None` when the
        callback does not parse. */
    method DeleteNotification(u: UserId, callback: string, now: nat) returns (view: Option<NoticesView>)
      requires Valid()
      modifies this
      ensures Valid()
      ensures KeepsVerified(old(users), users)
      ensures users == old(users) && codes == old(codes) && requests == old(requests)
      ensures sessions == old(sessions) && nextNotificationId == old(nextNotificationId)
      ensures var pick := Tokens.ParseDelete(callback);
              && (pick.None? ==> view.None? && notifications == old(notifications))
              && (pick.Some? ==>
                    var count := |Filter(notifications, OfUser(u))|;
                    && notifications == DeleteNotice(old(notifications), pick.value.idText)
                    && view == Some(if count == 0 then NoNotices
                                    else NoticesViewOf(IsVerified(u), notifications, u, PageAfterDelete(pick.value.page, count), now)))
    {
      var pick := Tokens.ParseDelete(callback);
      if pick.None? {
        return None;
      }
      DeleteKeepsInvariant(notifications, pick.value.idText);
      notifications := DeleteNotice(notifications, pick.value.idText);
      var count := |Filter(notifications, OfUser(u))|;
      if count == 0 {
        view := Some(NoNotices);
      } else {
        view := Some(NoticesViewOf(IsVerified(u), notifications, u, PageAfterDelete(pick.value.page, count), now));
      }
    }

    /** `show_notification_details`: marks the row read only when the button
        is fresh and the row exists. */
    method ShowNotificationDetails(u: UserId, callback: string, now: nat) returns (reply: DetailReply)
      requires Valid()
      modifies this
      ensures Valid()
      ensures KeepsVerified(old(users), users)
      ensures users == old(users) && codes == old(codes) && requests == old(requests)
      ensures sessions == old(sessions) && nextNotificationId == old(nextNotificationId)
      ensures var pick := Tokens.ParseNotif(callback);
              && (pick.None? ==> reply == DetailRefused && notifications == old(notifications))
              && (pick.Some? && Tokens.IsStale(now, pick.value.issuedAt) ==>
                    reply == DetailStale && notifications == old(notifications))
              && (pick.Some? && !Tokens.IsStale(now, pick.value.issuedAt) ==>
                    var found := FindNotice(old(notifications), pick.value.idText);
                    && (found.None? ==> reply == DetailMissing && notifications == old(notifications))
                    && (found.Some? ==>
                          && notifications == MarkRead(old(notifications), pick.value.idText)
                          && reply == DetailShown(found.value.message,
                                                  Tokens.DeleteToken(pick.value.idText, pick.value.pageText),
                                                  Tokens.NotifPageToken(pick.value.pageText))))
    {
      var pick := Tokens.ParseNotif(callback);
      if pick.None? {
        return DetailRefused;
      }
      if Tokens.IsStale(now, pick.value.issuedAt) {
        return DetailStale;
      }
      var found := FindNotice(notifications, pick.value.idText);
      if found.None? {
        return DetailMissing;
      }
      MarkReadKeepsInvariant(notifications, pick.value.idText);
      notifications := MarkRead(notifications, pick.value.idText);
      reply := DetailShown(found.value.message,
                           Tokens.DeleteToken(pick.value.idText, pick.value.pageText),
                           Tokens.NotifPageToken(pick.value.pageText));
    }

    // -------------------------------------------------------------------
    // The webhook

    /** `jira_webhook_handler`: `expected` is the HMAC of the body, `body`
        the parsed payload, `fetchOk` and `sendOk` the outcomes of the
        tracker fetch and the Telegram send. */
    method HandleWebhook(header: Option<string>, expected: string, body: Option<Payload>,
                         fetchOk: bool, sendOk: bool, now: int) returns (status: int)
      requires Valid()
      requires IsAscii(expected)
      modifies this
      ensures Valid()
      ensures KeepsVerified(old(users), users)
      ensures users == old(users) && codes == old(codes) && sessions == old(sessions)
      ensures var r := Decide(CheckSignature(header, expected), body, old(requests), fetchOk, sendOk);
              && status == r.httpStatus
              && (r.effect == NoEffect ==> TablesUnchanged())
              && (r.effect.Notify? ==>
                    var e := r.effect;
                    var n := Notification(old(nextNotificationId), e.owner, e.issueKey, e.eventType, e.message, now, false);
                    && notifications == Prune(old(notifications) + [n], e.owner)
                    && nextNotificationId == old(nextNotificationId) + 1
                    && requests == (if e.setsStatus then SetStatus(old(requests), e.issueKey, e.newStatus) else old(requests))
                    && |Filter(notifications, OfUser(e.owner))| <= Retention
                    && ((forall x :: x in old(notifications) ==> x.timestamp <= now) ==> n in notifications))
    {
      var r := Decide(CheckSignature(header, expected), body, requests, fetchOk, sendOk);
      status := r.httpStatus;
      if r.effect.Notify? {
        Record(r.effect, now);
      }
    }

    /** The writes of a notifying webhook: the row, pruned to the owner's
        newest hundred, and for a status change the ticket's new status. */
    method Record(e: Effect, now: int)
      requires Valid()
      requires e.Notify?
      modifies this
      ensures Valid()
      ensures KeepsVerified(old(users), users)
      ensures users == old(users) && codes == old(codes) && sessions == old(sessions)
      ensures var n := Notification(old(nextNotificationId), e.owner, e.issueKey, e.eventType, e.message, now, false);
              && notifications == Prune(old(notifications) + [n], e.owner)
              && nextNotificationId == old(nextNotificationId) + 1
              && requests == (if e.setsStatus then SetStatus(old(requests), e.issueKey, e.newStatus) else old(requests))
              && |Filter(notifications, OfUser(e.owner))| <= Retention
              && ((forall x :: x in old(notifications) ==> x.timestamp <= now) ==> n in notifications)
    {
      Insert(Notification(nextNotificationId, e.owner, e.issueKey, e.eventType, e.message, now, false));
      if e.setsStatus {
        SetTicketStatus(e.issueKey, e.newStatus);
      }
    }

    /** `INSERT INTO notifications` with the next id, then the prune of the
        owner's rows. */
    method Insert(n: Notification)
      requires Valid()
      requires n.id == nextNotificationId
      modifies this
      ensures Valid()
      ensures KeepsVerified(old(users), users)
      ensures users == old(users) && codes == old(codes) && sessions == old(sessions) && requests == old(requests)
      ensures notifications == Prune(old(notifications) + [n], n.userId)
      ensures nextNotificationId == old(nextNotificationId) + 1
      ensures |Filter(notifications, OfUser(n.userId))| <= Retention
      ensures (forall x :: x in old(notifications) ==> x.timestamp <= n.timestamp) ==> n in notifications
    {
      var kept := Prune(notifications + [n], n.userId);
      InsertPruneKeepsInvariant(notifications, n);
      PruneIdsBelow(notifications, n, nextNotificationId + 1);
      NewestRowSurvives(notifications, n);
      notifications := kept;
      nextNotificationId := nextNotificationId + 1;
    }

    /** `UPDATE requests SET status = ... WHERE issue_key = ...`. */
    method SetTicketStatus(key: string, status: Option<string>)
      requires Valid()
      modifies this
      ensures Valid()
      ensures KeepsVerified(old(users), users)
      ensures users == old(users) && codes == old(codes) && sessions == old(sessions)
      ensures notifications == old(notifications) && nextNotificationId == old(nextNotificationId)
      ensures requests == SetStatus(old(requests), key, status)
    {
      SetStatusKeepsKeysUnique(requests, key, status);
      requests := SetStatus(requests, key, status);
    }
  }
}
