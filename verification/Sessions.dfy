/**
  Session tokens: the payload `<username>|<expiry>` printed when a user logs
  in and parsed when the cookie comes back. Encryption is an inverse pair, so
  what is opened is what was sealed.
*/
module Sessions {
  import opened Options
  import opened Decimals

  const SESSION_SECONDS := 7 * 24 * 3600

  // ---------------------------------------------------------------- tokens

  type Sealer = string -> string
  type Opener = string -> Option<string>

  /** Opening undoes sealing, under the same key. */
  ghost predicate Inverse(seal: Sealer, open: Opener) { forall p :: open(seal(p)) == Some(p) }

  function Payload(user: string, expiry: int): string { user + "|" + Decimal(expiry) }

  function SetSessionCookie(seal: Sealer, user: string, now: int): string { seal(Payload(user, now + SESSION_SECONDS)) }

  /** The first separator, or the length of the payload. */
  function Bar(s: string): (n: nat)
    ensures n <= |s| && (forall i :: 0 <= i < n ==> s[i] != '|') && (n < |s| ==> s[n] == '|')
  {
    if s == "" || s[0] == '|' then 0 else 1 + Bar(s[1..])
  }

  predicate ValidSession(open: Opener, user: string, cookie: string, now: int) {
    match open(cookie)
    case None => false
    case Some(payload) =>
      var cut := Bar(payload);
      if cut == |payload| then false
      else match ParseInt(payload[cut + 1..])
        case None => false
        case Some(expiry) => now <= expiry && payload[..cut] == user
  }

  /**
    A token issued at a time is accepted at exactly the times up to seven days
    later, by a user name without the separator; with it, never.
  */
  lemma TokenLifetime(seal: Sealer, open: Opener, user: string, issued: int, now: int)
    requires Inverse(seal, open) && -MAX_INT64 - 1 <= issued + SESSION_SECONDS <= MAX_INT64
    ensures ValidSession(open, user, SetSessionCookie(seal, user, issued), now)
      <==> '|' !in user && now <= issued + 7 * 24 * 3600
  {
    var expiry := issued + SESSION_SECONDS;
    var p := Payload(user, expiry);
    var cut := Bar(p);
    assert open(seal(p)) == Some(p);
    assert p[|user|] == '|';
    DecimalRoundTrip(expiry);
    if '|' in user {
      var i :| 0 <= i < |user| && user[i] == '|';
      assert p[i] == '|' && cut <= i;
      assert |p[..cut]| < |user|;
    } else {
      assert forall i :: 0 <= i < |user| ==> p[i] == user[i] && user[i] in user;
      assert cut == |user| && p[..cut] == user && p[cut + 1..] == Decimal(expiry);
    }
  }

  /** A token is good for one user only. */
  lemma TokenIsPersonal(seal: Sealer, open: Opener, user: string, other: string, issued: int, now: int)
    requires Inverse(seal, open)
    requires ValidSession(open, other, SetSessionCookie(seal, user, issued), now)
    ensures other == user
  {
    var p := Payload(user, issued + SESSION_SECONDS);
    assert open(seal(p)) == Some(p);
    assert p[|user|] == '|';
    assert forall i :: 0 <= i < |user| ==> p[i] == user[i] && user[i] in user;
    assert Bar(p) == |user| && p[..|user|] == user;
  }
}
