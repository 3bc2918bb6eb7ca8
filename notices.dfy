/** The `notifications` table: its rows, the retention prune the webhook runs
    after every insert (each user keeps the 100 newest rows), and the facts
    about counting rows that the prune's properties rest on. */
module Notices {
  import opened Wrappers
  import opened Counting
  import opened Text
  import opened Ordering
  import opened Paging
  import opened Tokens

  type UserId = int

  /** What a notification says, kept structured; the source renders it into
      `message_text` when it is inserted. */
  datatype Message =
    | StatusMessage(issueKey: string, fromStatus: Option<string>, toStatus: Option<string>)
    | CommentMessage(issueKey: string, author: Option<string>, comment: Option<string>)
    | AssigneeMessage(issueKey: string, assignee: string)

  /** A row of `notifications`; `id` is the auto-increment key and
      `timestamp` the insertion time in seconds. */
  datatype Notification = Notification(
    id: nat, userId: UserId, issueKey: string, eventType: string,
    message: Message, timestamp: int, isRead: bool)

  /** How many rows each user keeps. */
  const Retention: nat := 100

  // ---------------------------------------------------------------------
  // Ids

  ghost predicate IdsIncreasing(t: seq<Notification>) {
    forall i, j :: 0 <= i < j < |t| ==> t[i].id < t[j].id
  }

  function WithId(id: nat): Notification -> bool {
    (x: Notification) => x.id == id
  }

  /** With distinct ids, at most one row carries a given id. */
  lemma {:induction false} AtMostOneWithId(t: seq<Notification>, id: nat)
    requires IdsIncreasing(t)
    ensures |Filter(t, WithId(id))| <= 1
  {
    if t != [] {
      AtMostOneWithId(t[1..], id);
      if t[0].id == id {
        assert forall x :: x in t[1..] ==> x.id > id by {
          forall x | x in t[1..] ensures x.id > id {
            var k :| 0 <= k < |t[1..]| && t[1..][k] == x;
            assert t[k + 1] == x;
          }
        }
        FilterNone(t[1..], WithId(id));
      }
    }
  }

  /** Rows matching `p` that all share one id number at most one. */
  lemma OnlyOneIdCounts(t: seq<Notification>, p: Notification -> bool, id: nat)
    requires IdsIncreasing(t)
    requires forall x :: x in t && p(x) ==> x.id == id
    ensures |Filter(t, p)| <= 1
  {
    CountMono(t, p, WithId(id));
    AtMostOneWithId(t, id);
  }

  // ---------------------------------------------------------------------
  // Age and the prune

  /** `ORDER BY timestamp DESC`, ties broken by the larger (later) id. */
  predicate Newer(a: Notification, b: Notification) {
    a.timestamp > b.timestamp || (a.timestamp == b.timestamp && a.id > b.id)
  }

  function OfUser(u: UserId): Notification -> bool {
    (x: Notification) => x.userId == u
  }

  function NewerOf(u: UserId, r: Notification): Notification -> bool {
    (x: Notification) => x.userId == u && Newer(x, r)
  }

  /** The rows of `u` that are newer than `r`: `r`'s position in `u`'s list. */
  function Rank(t: seq<Notification>, u: UserId, r: Notification): nat {
    |Filter(t, NewerOf(u, r))|
  }

  /** A row survives the prune when it belongs to another user or fewer than
      100 of its user's rows are newer. */
  function KeptBy(t: seq<Notification>, u: UserId): Notification -> bool {
    (x: Notification) => x.userId != u || Rank(t, u, x) < Retention
  }

  /** The `DELETE ... LEFT JOIN (... ORDER BY timestamp DESC LIMIT 100)` run for `u`. */
  function Prune(t: seq<Notification>, u: UserId): (r: seq<Notification>)
    ensures |r| <= |t|
    ensures forall x :: x in r <==> x in t && (x.userId != u || Rank(t, u, x) < Retention)
  {
    Filter(t, KeptBy(t, u))
  }

  function KeptOfUser(t: seq<Notification>, u: UserId): Notification -> bool {
    (x: Notification) => x.userId == u && Rank(t, u, x) < Retention
  }

  /** The prune does not touch another user's rows. */
  lemma PruneKeepsOthers(t: seq<Notification>, u: UserId, v: UserId)
    requires v != u
    ensures Filter(Prune(t, u), OfUser(v)) == Filter(t, OfUser(v))
  {
    FilterFilter(t, KeptBy(t, u), OfUser(v), OfUser(v));
  }

  /** A subsequence of a table with increasing ids has increasing ids. */
  lemma {:induction false} FilterKeepsIds(t: seq<Notification>, p: Notification -> bool)
    requires IdsIncreasing(t)
    ensures IdsIncreasing(Filter(t, p))
  {
    if t != [] {
      FilterKeepsIds(t[1..], p);
      var rest := Filter(t[1..], p);
      if p(t[0]) {
        forall j | 0 <= j < |rest| ensures t[0].id < rest[j].id {
          assert rest[j] in t[1..];
          var k :| 0 <= k < |t[1..]| && t[1..][k] == rest[j];
          assert t[k + 1] == rest[j];
        }
      }
    }
  }

  /** The oldest of a non-empty set of rows. */
  function Oldest(s: seq<Notification>): (o: Notification)
    requires s != []
    ensures o in s
    ensures forall x :: x in s ==> !Newer(o, x)
  {
    if |s| == 1 then s[0]
    else
      var o := Oldest(s[1..]);
      assert forall x :: x in s ==> x == s[0] || x in s[1..];
      if Newer(o, s[0]) then s[0] else o
  }

  /** After the prune, `u` has at most 100 rows. */
  lemma PruneBound(t: seq<Notification>, u: UserId)
    requires IdsIncreasing(t)
    ensures |Filter(Prune(t, u), OfUser(u))| <= Retention
  {
    var keep := KeptOfUser(t, u);
    FilterFilter(t, KeptBy(t, u), OfUser(u), keep);
    var kept := Filter(t, keep);
    if kept != [] {
      var o := Oldest(kept);
      assert keep(o);
      CountUnion(t, keep, NewerOf(u, o), WithId(o.id));
      AtMostOneWithId(t, o.id);
    }
  }

  /** A kept row's newer siblings are kept too: the prune keeps the newest rows. */
  lemma PruneKeepsNewest(t: seq<Notification>, u: UserId, x: Notification, y: Notification)
    requires x in Prune(t, u) && x.userId == u
    requires y in t && y.userId == u && Newer(y, x)
    ensures y in Prune(t, u)
  {
    CountStrict(t, NewerOf(u, y), NewerOf(u, x), y);
  }

  /** A user with at most 100 rows loses none of them. */
  lemma PruneNoOp(t: seq<Notification>, u: UserId)
    requires |Filter(t, OfUser(u))| <= Retention
    ensures Prune(t, u) == t
  {
    forall x | x in t ensures KeptBy(t, u)(x) {
      if x.userId == u {
        CountStrict(t, NewerOf(u, x), OfUser(u), x);
      }
    }
    FilterAll(t, KeptBy(t, u));
  }

  /** A user at 101 rows (the insert that crossed the limit) loses exactly
      one: the oldest. */
  lemma PruneDropsOldest(t: seq<Notification>, u: UserId)
    requires IdsIncreasing(t)
    requires |Filter(t, OfUser(u))| == Retention + 1
    ensures |Filter(Prune(t, u), OfUser(u))| == Retention
    ensures Oldest(Filter(t, OfUser(u))) !in Prune(t, u)
  {
    var mine := Filter(t, OfUser(u));
    var o := Oldest(mine);
    // The oldest row has every other row of u newer than it.
    CountUnion(t, OfUser(u), NewerOf(u, o), WithId(o.id));
    AtMostOneWithId(t, o.id);
    assert Rank(t, u, o) >= Retention;
    // At most one row of u is dropped.
    var dropped := (x: Notification) => x.userId == u && Rank(t, u, x) >= Retention;
    forall x | x in t && dropped(x) ensures x.id == o.id {
      if x.id != o.id {
        assert Newer(x, o) by {
          assert x in mine;
        }
        CountStrict(t, NewerOf(u, x), NewerOf(u, o), x);
        CountStrict(t, NewerOf(u, o), OfUser(u), o);
        assert false;
      }
    }
    OnlyOneIdCounts(t, dropped, o.id);
    var keep := KeptOfUser(t, u);
    CountSplit(t, OfUser(u), keep, dropped);
    FilterFilter(t, KeptBy(t, u), OfUser(u), keep);
    PruneBound(t, u);
  }

  /** A row inserted after every other row (a larger id, no earlier
      timestamp) is the newest of its user and survives the prune. */
  lemma NewRowSurvives(t: seq<Notification>, n: Notification)
    requires forall x :: x in t ==> x.id < n.id && x.timestamp <= n.timestamp
    ensures n in Prune(t + [n], n.userId)
  {
    assert forall x :: x in t + [n] ==> x in t || x == n;
    FilterNone(t + [n], NewerOf(n.userId, n));
  }

  /** The insert: a larger id keeps the ids increasing. */
  lemma AppendKeepsIds(t: seq<Notification>, n: Notification)
    requires IdsIncreasing(t)
    requires forall x :: x in t ==> x.id < n.id
    ensures IdsIncreasing(t + [n])
  {
    forall i, j | 0 <= i < j < |t + [n]| ensures (t + [n])[i].id < (t + [n])[j].id {
      if j == |t| {
        assert (t + [n])[i] == t[i] && t[i] in t;
      }
    }
  }

  /** The insert adds one row to its user's count and none to anyone else's. */
  lemma AppendCounts(t: seq<Notification>, n: Notification, v: UserId)
    ensures Filter(t + [n], OfUser(v)) == Filter(t, OfUser(v)) + (if n.userId == v then [n] else [])
  {
    FilterAppend(t, [n], OfUser(v));
    assert Filter([n], OfUser(v)) == (if n.userId == v then [n] else []) + Filter([n][1..], OfUser(v));
  }

  // ---------------------------------------------------------------------
  // The notification list and the notification itself

  /** `ORDER BY timestamp DESC` as a "may come before" relation. */
  function NewestNoticeFirst(): (Notification, Notification) -> bool {
    (a: Notification, b: Notification) => !Newer(b, a)
  }

  lemma NewestNoticeFirstIsOrder()
    ensures Total(NewestNoticeFirst()) && Transitive(NewestNoticeFirst())
  {
  }

  /** All of the user's notifications, newest first. */
  function NoticeListing(t: seq<Notification>, u: UserId): (r: seq<Notification>)
    ensures SortedBy(r, NewestNoticeFirst())
    ensures multiset(r) == multiset(Filter(t, OfUser(u)))
    ensures |r| == |Filter(t, OfUser(u))|
    ensures forall x :: x in r <==> x in t && x.userId == u
  {
    NewestNoticeFirstIsOrder();
    var mine := Filter(t, OfUser(u));
    var r := SortBy(mine, NewestNoticeFirst());
    assert forall x :: x in r <==> x in multiset(r);
    assert forall x :: x in mine <==> x in multiset(mine);
    r
  }

  /** One button of the list: unread rows are marked. */
  datatype NoticeRow = NoticeRow(id: nat, issueKey: string, eventType: string, timestamp: int, unread: bool, callback: string)

  function NoticeRowFor(n: Notification, now: nat, page: nat): NoticeRow {
    NoticeRow(n.id, n.issueKey, n.eventType, n.timestamp, !n.isRead, NotifToken(n.id, now, page))
  }

  function NoticeRows(ns: seq<Notification>, now: nat, page: nat): (r: seq<NoticeRow>)
    ensures |r| == |ns|
    ensures forall i :: 0 <= i < |ns| ==> r[i] == NoticeRowFor(ns[i], now, page)
  {
    if ns == [] then [] else [NoticeRowFor(ns[0], now, page)] + NoticeRows(ns[1..], now, page)
  }

  function NoticePageTokens(targets: seq<nat>): (r: seq<string>)
    ensures |r| == |targets|
    ensures forall i :: 0 <= i < |targets| ==> r[i] == NotifPageToken(NatToString(targets[i]))
  {
    if targets == [] then [] else [NotifPageToken(NatToString(targets[0]))] + NoticePageTokens(targets[1..])
  }

  datatype NoticesView =
    | NoticesNotRegistered
    | NoNotices
    | NoticesPage(window: Window, rows: seq<NoticeRow>, nav: seq<string>)

  /** `show_notifications` for a user with the given verification flag. */
  function NoticesViewOf(verified: bool, t: seq<Notification>, u: UserId, page: int, now: nat): NoticesView {
    if !verified then NoticesNotRegistered
    else
      var listing := NoticeListing(t, u);
      if |listing| == 0 then NoNotices
      else
        var w := Paginate(|listing|, NotificationsPerPage, page);
        var shown := listing[w.offset..Min(w.offset + NotificationsPerPage, |listing|)];
        NoticesPage(w, NoticeRows(shown, now, w.page), NoticePageTokens(NavTargets(|listing|, NotificationsPerPage, w)))
  }

  /** A page of notifications holds up to eight of the user's rows, in
      newest-first order from the page's offset, each with a callback that
      `show_notification_details` takes apart into its id, time and page. */
  lemma NoticesPageShowsListing(verified: bool, t: seq<Notification>, u: UserId, page: int, now: nat, i: nat)
    requires NoticesViewOf(verified, t, u, page, now).NoticesPage?
    requires i < |NoticesViewOf(verified, t, u, page, now).rows|
    ensures var v := NoticesViewOf(verified, t, u, page, now);
            var listing := NoticeListing(t, u);
            && verified
            && |v.rows| <= NotificationsPerPage
            && v.window.offset + i < |listing|
            && listing[v.window.offset + i] in t && listing[v.window.offset + i].userId == u
            && v.rows[i] == NoticeRowFor(listing[v.window.offset + i], now, v.window.page)
            && ParseNotif(v.rows[i].callback) == Some(NotifPick(NatToString(v.rows[i].id), now, NatToString(v.window.page)))
            && Route(v.rows[i].callback) == NotifDetails
  {
    var listing := NoticeListing(t, u);
    var v := NoticesViewOf(verified, t, u, page, now);
    assert listing[v.window.offset + i] in listing;
    ParseNotifToken(v.rows[i].id, now, v.window.page);
    RouteNotifToken(v.rows[i].id, now, v.window.page);
  }

  /** `WHERE id = %s` with the id text of a callback. */
  predicate IdMatches(n: Notification, idText: string) {
    ParseInt(idText) == Some(n.id)
  }

  /** `SELECT message_text FROM notifications WHERE id = %s`. */
  function FindNotice(t: seq<Notification>, idText: string): (r: Option<Notification>)
    ensures r.Some? ==> r.value in t && IdMatches(r.value, idText)
    ensures r.None? ==> forall x :: x in t ==> !IdMatches(x, idText)
  {
    if t == [] then None
    else if IdMatches(t[0], idText) then Some(t[0])
    else FindNotice(t[1..], idText)
  }

  /** `UPDATE notifications SET is_read = TRUE WHERE id = %s`. */
  function MarkRead(t: seq<Notification>, idText: string): (r: seq<Notification>)
    ensures |r| == |t|
    ensures forall i :: 0 <= i < |t| ==> r[i] == (if IdMatches(t[i], idText) then t[i].(isRead := true) else t[i])
  {
    if t == [] then [] else [if IdMatches(t[0], idText) then t[0].(isRead := true) else t[0]] + MarkRead(t[1..], idText)
  }

  function NotMatching(idText: string): Notification -> bool {
    (x: Notification) => !IdMatches(x, idText)
  }

  /** `DELETE FROM notifications WHERE id = %s`, whoever owns the row. */
  function DeleteNotice(t: seq<Notification>, idText: string): (r: seq<Notification>)
    ensures forall x :: x in r <==> x in t && !IdMatches(x, idText)
  {
    Filter(t, NotMatching(idText))
  }

  // ---------------------------------------------------------------------
  // The table invariant: increasing ids, at most 100 rows a user

  ghost predicate WithinRetention(t: seq<Notification>) {
    forall v :: |Filter(t, OfUser(v))| <= Retention
  }

  /** `NewRowSurvives` as an implication, for callers that do not know the clock. */
  lemma NewestRowSurvives(t: seq<Notification>, n: Notification)
    requires forall x :: x in t ==> x.id < n.id
    ensures (forall x :: x in t ==> x.timestamp <= n.timestamp) ==> n in Prune(t + [n], n.userId)
  {
    if forall x :: x in t ==> x.timestamp <= n.timestamp {
      NewRowSurvives(t, n);
    }
  }

  /** A bound on the ids of the table and the new row bounds the ids after the prune. */
  lemma PruneIdsBelow(t: seq<Notification>, n: Notification, bound: int)
    requires forall x :: x in t ==> x.id < bound
    requires n.id < bound
    ensures forall x :: x in Prune(t + [n], n.userId) ==> x.id < bound
  {
    forall x | x in Prune(t + [n], n.userId)
      ensures x.id < bound
    {
      assert x in t + [n];
    }
  }

  /** The webhook's insert followed by its prune keeps both invariants. */
  lemma InsertPruneKeepsInvariant(t: seq<Notification>, n: Notification)
    requires IdsIncreasing(t) && WithinRetention(t)
    requires forall x :: x in t ==> x.id < n.id
    ensures IdsIncreasing(Prune(t + [n], n.userId))
    ensures WithinRetention(Prune(t + [n], n.userId))
  {
    var u := n.userId;
    AppendKeepsIds(t, n);
    FilterKeepsIds(t + [n], KeptBy(t + [n], u));
    forall v ensures |Filter(Prune(t + [n], u), OfUser(v))| <= Retention {
      if v == u {
        PruneBound(t + [n], u);
      } else {
        PruneKeepsOthers(t + [n], u, v);
        AppendCounts(t, n, v);
      }
    }
  }

  function UserNotMatching(v: UserId, idText: string): Notification -> bool {
    (x: Notification) => x.userId == v && !IdMatches(x, idText)
  }

  lemma DeleteKeepsInvariant(t: seq<Notification>, idText: string)
    requires IdsIncreasing(t) && WithinRetention(t)
    ensures IdsIncreasing(DeleteNotice(t, idText)) && WithinRetention(DeleteNotice(t, idText))
  {
    FilterKeepsIds(t, NotMatching(idText));
    forall v ensures |Filter(DeleteNotice(t, idText), OfUser(v))| <= Retention {
      FilterFilter(t, NotMatching(idText), OfUser(v), UserNotMatching(v, idText));
      CountMono(t, UserNotMatching(v, idText), OfUser(v));
    }
  }

  lemma {:induction false} MarkReadCounts(t: seq<Notification>, idText: string, v: UserId)
    ensures |Filter(MarkRead(t, idText), OfUser(v))| == |Filter(t, OfUser(v))|
  {
    if t != [] {
      MarkReadCounts(t[1..], idText, v);
      assert MarkRead(t, idText)[1..] == MarkRead(t[1..], idText);
    }
  }

  lemma MarkReadKeepsInvariant(t: seq<Notification>, idText: string)
    requires IdsIncreasing(t) && WithinRetention(t)
    ensures IdsIncreasing(MarkRead(t, idText)) && WithinRetention(MarkRead(t, idText))
  {
    forall v ensures |Filter(MarkRead(t, idText), OfUser(v))| <= Retention {
      MarkReadCounts(t, idText, v);
    }
  }
}
