/** The identity store (`users`, `verification_codes`) and the decisions the
    verification engine takes over it: whether an e-mail may be claimed, how a
    submitted code is judged, and the 60-second resend cooldown. */
module Identity {
  import opened Wrappers
  import opened Text

  type UserId = int

  /** A row of `users`. */
  datatype User = User(email: string, isVerified: bool)

  /** A row of `verification_codes`; times are integer seconds. */
  datatype Challenge = Challenge(code: string, expiresAt: int, lastRequestAt: int)

  /** `timedelta(minutes=10)`. */
  const CodeLifetime: nat := 600
  /** The resend cooldown. */
  const ResendCooldown: nat := 60
  /** `random.randint(100000, 999999)`. */
  const MinCode: nat := 100000
  const MaxCode: nat := 999999

  /** The `UNIQUE` constraint on `users.email`. */
  ghost predicate EmailsUnique(users: map<UserId, User>) {
    forall a, b :: a in users && b in users && a != b ==> users[a].email != users[b].email
  }

  /** `SELECT user_id FROM users WHERE email = %s` found a row of another user. */
  predicate TakenByOther(users: map<UserId, User>, u: UserId, email: string) {
    exists v :: v in users && v != u && users[v].email == email
  }

  // ---------------------------------------------------------------------
  // process_email

  datatype EmailDecision = InvalidEmail | EmailTaken | Accepted(email: string)

  /** What `process_email` decides about the text the user sent. */
  function DecideEmail(users: map<UserId, User>, u: UserId, text: string): (d: EmailDecision)
    ensures d.Accepted? <==> IsValidEmail(Strip(text)) && !TakenByOther(users, u, Strip(text))
    ensures d.Accepted? ==> d.email == Strip(text)
    ensures d == InvalidEmail <==> !IsValidEmail(Strip(text))
  {
    var email := Strip(text);
    if !IsValidEmail(email) then InvalidEmail
    else if TakenByOther(users, u, email) then EmailTaken
    else Accepted(email)
  }

  /** Binding an accepted address keeps every address owned by one user only. */
  lemma AcceptedKeepsEmailsUnique(users: map<UserId, User>, u: UserId, text: string)
    requires EmailsUnique(users)
    requires DecideEmail(users, u, text).Accepted?
    ensures EmailsUnique(users[u := User(DecideEmail(users, u, text).email, false)])
  {
  }

  /** The code as stored and mailed: `str(random.randint(100000, 999999))`. */
  function CodeText(code: nat): (s: string)
    requires MinCode <= code <= MaxCode
    ensures |s| == 6 && AllDigits(s)
    ensures ParseInt(s) == Some(code)
  {
    SixDigits(code);
    ParseIntNatToString(code);
    NatToString(code)
  }

  function Pow10(k: nat): (p: nat)
    ensures p >= 1
  {
    if k == 0 then 1 else 10 * Pow10(k - 1)
  }

  lemma {:induction false} DigitCount(n: nat, k: nat)
    requires Pow10(k) <= n < Pow10(k + 1)
    ensures |NatToString(n)| == k + 1
  {
    if k > 0 {
      assert Pow10(k) == 10 * Pow10(k - 1);
      assert Pow10(k + 1) == 10 * Pow10(k);
      DigitCount(n / 10, k - 1);
    }
  }

  lemma SixDigits(code: nat)
    requires MinCode <= code <= MaxCode
    ensures |NatToString(code)| == 6
  {
    assert Pow10(5) == 100000 && Pow10(6) == 1000000;
    DigitCount(code, 5);
  }

  /** The challenge `process_email` and `resend_verification_code` write. */
  function NewChallenge(code: nat, now: int): (c: Challenge)
    requires MinCode <= code <= MaxCode
    ensures c.expiresAt - c.lastRequestAt == CodeLifetime
    ensures c.lastRequestAt == now
  {
    Challenge(CodeText(code), now + CodeLifetime, now)
  }

  // ---------------------------------------------------------------------
  // process_code

  datatype CodeOutcome = Expired | Verified | Mismatch

  /** `SELECT code ... WHERE user_id = %s AND expires_at > NOW()`, then a
      string comparison with the stripped input. */
  function CheckCode(codes: map<UserId, Challenge>, u: UserId, input: string, now: int): (o: CodeOutcome)
    ensures o == Expired <==> u !in codes || codes[u].expiresAt <= now
    ensures o == Verified <==> u in codes && now < codes[u].expiresAt && codes[u].code == Strip(input)
  {
    if u !in codes || !(codes[u].expiresAt > now) then Expired
    else if Strip(input) == codes[u].code then Verified
    else Mismatch
  }

  /** A challenge is good for exactly 600 seconds after it was issued. */
  lemma ChallengeLifetime(code: nat, issuedAt: int, u: UserId, now: int)
    requires MinCode <= code <= MaxCode
    ensures var codes := map[u := NewChallenge(code, issuedAt)];
            CheckCode(codes, u, CodeText(code), now) == (if now < issuedAt + CodeLifetime then Verified else Expired)
  {
    var c := CodeText(code);
    assert LeadingSpaces(c) == 0 && TrailingSpaces(c) == 0;
    assert c[0..][..|c|] == c;
  }

  // ---------------------------------------------------------------------
  // get_resend_keyboard_and_status

  datatype Cooldown = Cooldown(inCooldown: bool, remaining: int)

  function CooldownStatus(codes: map<UserId, Challenge>, u: UserId, now: int): (c: Cooldown)
    ensures c.inCooldown <==> u in codes && now - codes[u].lastRequestAt < ResendCooldown
    ensures c.inCooldown ==> c.remaining > 0 && c.remaining == ResendCooldown - (now - codes[u].lastRequestAt)
    ensures c.inCooldown && codes[u].lastRequestAt <= now ==> c.remaining <= ResendCooldown
    ensures !c.inCooldown ==> c.remaining == 0
  {
    if u in codes then
      var elapsed := now - codes[u].lastRequestAt;
      if elapsed < ResendCooldown then Cooldown(true, ResendCooldown - elapsed) else Cooldown(false, 0)
    else Cooldown(false, 0)
  }

  /** While the cooldown lasts, the remaining time falls second for second. */
  lemma CooldownCountsDown(codes: map<UserId, Challenge>, u: UserId, t1: int, t2: int)
    requires t1 <= t2
    requires CooldownStatus(codes, u, t2).inCooldown
    ensures CooldownStatus(codes, u, t1).inCooldown
    ensures CooldownStatus(codes, u, t2).remaining == CooldownStatus(codes, u, t1).remaining - (t2 - t1)
  {
  }

  // ---------------------------------------------------------------------
  // delayed_edit_message

  /** The deferred "code expired / wrong code" edit re-reads `users` when it
      fires and does nothing for a user who is verified by then. */
  function DowngradeFires(users: map<UserId, User>, u: UserId): (fires: bool)
  {
    !(u in users && users[u].isVerified)
  }

  /** Nobody verified in `before` is unverified in `after`. */
  predicate KeepsVerified(before: map<UserId, User>, after: map<UserId, User>) {
    forall v :: v in before && before[v].isVerified ==> v in after && after[v].isVerified
  }

  /** Once the user is verified, a downgrade scheduled earlier stays a no-op
      through any run of updates that unverify nobody: every handler except
      `process_email`, which re-registers the address. */
  lemma {:induction false} DowngradeStaysDisarmed(run: seq<map<UserId, User>>, u: UserId)
    requires |run| > 0 && !DowngradeFires(run[0], u)
    requires forall i :: 0 <= i < |run| - 1 ==> KeepsVerified(run[i], run[i + 1])
    ensures !DowngradeFires(run[|run| - 1], u)
  {
    if |run| > 1 {
      DowngradeStaysDisarmed(run[..|run| - 1], u);
      assert KeepsVerified(run[|run| - 2], run[|run| - 1]);
    }
  }
}
