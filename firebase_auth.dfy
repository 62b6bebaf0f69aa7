/**
 * The server session from a Firebase session cookie: the cookie's verified
 * claims are matched to a user row by e-mail, the row is created or brought
 * up to date with the claims, and the session names that row.
 */
module FirebaseAuth {
  import opened Calendar
  import opened Common
  import opened Text

  /** The decoded claims of a verified session cookie. */
  datatype Claims = Claims(uid: string, email: Option<string>, name: Option<string>, emailVerified: bool)

  /** The session returned: `{user: {id, email, name}}`. */
  datatype SessionUser = SessionUser(id: Id, email: string, name: Option<string>)

  /** A string JavaScript treats as true: present and non-empty. */
  predicate Truthy(s: Option<string>) {
    s.Some? && s.value != ""
  }

  /** The name of a new user: the claims' name, else the part of the e-mail before '@'. */
  function NewUserName(c: Claims, email: string): (n: string)
    ensures Truthy(c.name) ==> n == c.name.value
    ensures !Truthy(c.name) ==> |n| <= |email| && n == email[..|n|] && '@' !in n
    ensures !Truthy(c.name) && |n| < |email| ==> email[|n|] == '@'
  {
    if Truthy(c.name) then c.name.value else PrefixBefore(email, '@')
  }

  /** The row created for an e-mail seen for the first time. */
  function NewUser(id: Id, email: string, c: Claims, now: Instant): (u: User)
    ensures u.id == id && u.email == email && u.name == Some(NewUserName(c, email))
    ensures u.emailVerified.Some? <==> c.emailVerified
    ensures u.emailVerified.Some? ==> u.emailVerified.value == now
  {
    User(id, email, Some(NewUserName(c, email)), if c.emailVerified then Some(now) else None)
  }

  /** The verification date is set when the row has none and the claims say the e-mail is verified. */
  predicate SetsVerified(u: User, c: Claims) {
    u.emailVerified.None? && c.emailVerified
  }

  /** The name is replaced when the claims carry a non-empty one that differs from the stored one. */
  predicate SetsName(u: User, c: Claims) {
    Truthy(c.name) && c.name != u.name
  }

  /** Whether `updateData` has any key, that is whether an update is written. */
  predicate NeedsUpdate(u: User, c: Claims) {
    SetsVerified(u, c) || SetsName(u, c)
  }

  /** An existing row after the update, or unchanged when no update is written. */
  function Reconciled(u: User, c: Claims, now: Instant): (r: User)
    ensures r.id == u.id && r.email == u.email
    ensures r.emailVerified == if SetsVerified(u, c) then Some(now) else u.emailVerified
    ensures r.name == if SetsName(u, c) then c.name else u.name
    ensures !NeedsUpdate(u, c) ==> r == u
  {
    var verified := if SetsVerified(u, c) then Some(now) else u.emailVerified;
    var name := if SetsName(u, c) then c.name else u.name;
    u.(emailVerified := verified, name := name)
  }

  /** A verification date once set is never cleared or moved, and a verified e-mail stays verified. */
  lemma VerifiedIsKept(u: User, c: Claims, now: Instant)
    ensures u.emailVerified.Some? ==> Reconciled(u, c, now).emailVerified == u.emailVerified
    ensures u.emailVerified.Some? || c.emailVerified ==> Reconciled(u, c, now).emailVerified.Some?
  {
  }

  /** Signing in again with the same claims writes nothing: the reconciled row is already up to date. */
  lemma ReconcileSettles(u: User, c: Claims, now: Instant, later: Instant)
    ensures !NeedsUpdate(Reconciled(u, c, now), c)
    ensures Reconciled(Reconciled(u, c, now), c, later) == Reconciled(u, c, now)
  {
  }

  /** A row created from the claims needs no update when the same claims come back. */
  lemma NewUserSettled(id: Id, email: string, c: Claims, now: Instant)
    ensures !NeedsUpdate(NewUser(id, email, c, now), c)
  {
  }

  /**
   * `getServerSession`. `cookie` is the `__session` cookie, `verified` what
   * `verifySessionCookie` gave (null when the verifier throws), `now` the clock, `newId` the id the store gives a new
   * row, and `storeFails` whether a call to the store throws (the error is
   * logged and the session is null).
   */
  method GetServerSession(db: Database, cookie: Option<string>, verified: Option<Claims>, now: Instant,
                          newId: Id, storeFails: bool)
    returns (session: Option<SessionUser>)
    requires db.Valid()
    requires forall e | e in db.users :: db.users[e].id != newId
    modifies db
    ensures db.Valid() && db.reminders == old(db.reminders) && db.categories == old(db.categories)
    ensures session.None? <==>
      !Truthy(cookie) || verified.None? || !Truthy(verified.value.email) || storeFails
    ensures session.None? ==> db.users == old(db.users)
    ensures session.Some? ==>
      var email := verified.value.email.value;
      var row := if email in old(db.users) then Reconciled(old(db.users)[email], verified.value, now)
                 else NewUser(newId, email, verified.value, now);
      && db.users == old(db.users)[email := row]
      && session.value == SessionUser(row.id, row.email, row.name)
    ensures (session.Some? && verified.value.email.value in old(db.users)
             && !NeedsUpdate(old(db.users)[verified.value.email.value], verified.value)) ==> db.users == old(db.users)
  {
    if !Truthy(cookie) {
      return None;
    }
    if verified.None? {
      return None;
    }
    var c := verified.value;
    if !Truthy(c.email) {
      return None;
    }
    if storeFails {
      return None;
    }
    var email := c.email.value;
    var user: User;
    if email !in db.users {
      user := NewUser(newId, email, c, now);
      db.users := db.users[email := user];
    } else {
      user := db.users[email];
      if NeedsUpdate(user, c) {
        user := Reconciled(user, c, now);
        db.users := db.users[email := user];
      }
    }
    session := Some(SessionUser(user.id, user.email, user.name));
  }
}
