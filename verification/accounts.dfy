/**
 * The admin accounts and their invitations: `Invitation#check_expiration`
 * and `generate_token`, the `create`, `accept` and `register_invited_user`
 * actions of the invitations controller, and the activate, deactivate and
 * delete actions of the dashboard controller.
 *
 * Each action is a step on a `Db` value (the users by email and the
 * invitations by token) returning the new state and the response; the
 * class `Store` holds the two tables and applies the steps in place.
 * Times are integers counting seconds.
 */
module Accounts {
  import opened Wrappers
  import opened Strings

  const DAY: int := 86400

  const ALREADY_ADMIN: string := "This email is already associated with an admin."
  const INVALID_INVITATION: string := "Invalid or expired invitation"
  const NOT_ACCEPTED_YET: string := "Invite has not been accepted for this admin yet."
  const ACCEPT_INVITE_URL: string := "https://app.pinkcollar.live/accept-invite/"

  /** `users.invite_status`; `NoInvite` is a NULL column. */
  datatype InviteStatus = NoInvite | InvitePending | InviteAccepted | InviteDeactivated

  datatype User = User(
    email: string, firstName: string, lastName: string, contact: string,
    password: string, inviteStatus: InviteStatus, isActive: bool)

  /** `enum status: { pending: 0, accepted: 1, expired: 2 }` */
  datatype Status = Pending | Accepted | Expired

  datatype Invitation = Invitation(email: string, token: string, status: Status, expiresAt: int)

  /** The two tables: users keyed by email, invitations keyed by token. */
  datatype Db = Db(users: map<string, User>, invitations: map<string, Invitation>)

  /**
   * What an action renders: a success or error envelope with its message, a
   * redirect, or the envelopes of the exception handler for a missing
   * record (404), a failed validation (422) and an unhandled fault (500).
   */
  datatype Response =
    | Success(message: string)
    | Failure(message: string)
    | RedirectTo(url: string)
    | NotFound
    | Unprocessable
    | InternalError

  // ---------------------------------------------------------------------
  // Invariants of the tables

  /**
   * The table constraints: keys agree with the records, tokens are present,
   * invitation emails are unique, and a pending invitation's placeholder
   * user exists.
   */
  predicate Valid(db: Db)
  {
    (forall e :: e in db.users ==> db.users[e].email == e)
    && (forall t :: t in db.invitations ==> db.invitations[t].token == t && Present(t))
    && (forall t, u :: t in db.invitations && u in db.invitations && db.invitations[t].email == db.invitations[u].email ==> t == u)
    && (forall t :: t in db.invitations && db.invitations[t].status == Pending ==> db.invitations[t].email in db.users)
  }

  lemma EmptyValid()
    ensures Valid(Db(map[], map[]))
  {
  }

  // ---------------------------------------------------------------------
  // Invitation model

  /** `self.token ||= SecureRandom.hex(16)`, with the random value as a parameter. */
  function GenerateToken(token: Option<string>, random: string): (r: string)
    ensures token.Some? ==> r == token.value
    ensures token.None? ==> r == random
  {
    if token.Some? then token.value else random
  }

  /** A token once set is never replaced. */
  lemma GenerateTokenKeepsToken(token: Option<string>, random: string, again: string)
    ensures GenerateToken(Some(GenerateToken(token, random)), again) == GenerateToken(token, random)
  {
  }

  /**
   * `check_expiration` on the invitation with `token`: a pending invitation
   * past `expires_at` becomes expired, and its user is destroyed when that
   * user is still pending. Anything else is left as it is.
   */
  function ExpireStep(db: Db, token: string, now: int): (r: Db)
    requires token in db.invitations
    ensures token in r.invitations
    ensures var inv := db.invitations[token];
      !(inv.status == Pending && inv.expiresAt < now) ==> r == db
    ensures var inv := db.invitations[token];
      inv.status == Pending && inv.expiresAt < now ==>
        r.invitations == db.invitations[token := inv.(status := Expired)]
        && (inv.email in db.users && db.users[inv.email].inviteStatus == InvitePending ==> r.users == db.users - {inv.email})
        && (inv.email !in db.users || db.users[inv.email].inviteStatus != InvitePending ==> r.users == db.users)
  {
    var inv := db.invitations[token];
    if inv.status == Pending && inv.expiresAt < now then
      var users := if inv.email in db.users && db.users[inv.email].inviteStatus == InvitePending
        then db.users - {inv.email} else db.users;
      Db(users, db.invitations[token := inv.(status := Expired)])
    else db
  }

  /** A second check at the same time changes nothing, and after an expiry no later check does. */
  lemma ExpireIdempotent(db: Db, token: string, now: int, later: int)
    requires token in db.invitations
    ensures ExpireStep(ExpireStep(db, token, now), token, now) == ExpireStep(db, token, now)
    ensures ExpireStep(db, token, now).invitations[token].status == Expired ==>
      ExpireStep(ExpireStep(db, token, now), token, later) == ExpireStep(db, token, now)
  {
  }

  /** Expiry keeps the tables valid: the user it removes only had the invitation it expires. */
  lemma {:induction false} ExpirePreservesValid(db: Db, token: string, now: int)
    requires Valid(db) && token in db.invitations
    ensures Valid(ExpireStep(db, token, now))
  {
    var r := ExpireStep(db, token, now);
    var inv := db.invitations[token];
    forall t | t in r.invitations && r.invitations[t].status == Pending
      ensures r.invitations[t].email in r.users
    {
      if t != token && inv.status == Pending && inv.expiresAt < now {
        assert db.invitations[t].email != inv.email;
      }
    }
  }

  // ---------------------------------------------------------------------
  // Invitations controller

  /** The placeholder user `create` builds. */
  function PlaceholderUser(email: string, tempPassword: string): User
  {
    User(email, "", "", "", tempPassword, InvitePending, true)
  }

  /** The validations `user.save!` runs on the placeholder (the email format and uniqueness). */
  predicate UserSavable(db: Db, email: string)
  {
    Present(email) && MailtoEmail(email) && email !in db.users
  }

  /** The validations `@invitation.save!` runs: email format and uniqueness, token presence and uniqueness. */
  predicate InvitationSavable(db: Db, email: string, token: string)
  {
    Present(email) && MailtoEmail(email)
    && (forall t :: t in db.invitations ==> db.invitations[t].email != email)
    && Present(token) && token !in db.invitations
  }

  /**
   * `create` as written: the existence check and the invitation use the
   * email as typed, while Devise lower-cases and strips the placeholder
   * user's email before saving it. Either both records are stored or
   * neither is.
   */
  function CreateStepAsWritten(db: Db, email: string, now: int, random: string, tempPassword: string): (r: (Db, Response))
    ensures email in db.users ==> r == (db, Failure(ALREADY_ADMIN))
    ensures !r.1.Success? ==> r.0 == db
    ensures r.1.Success? <==>
      email !in db.users && UserSavable(db, NormalizedEmail(email)) && InvitationSavable(db, email, random)
    ensures r.1.Success? ==>
      r.0.users == db.users[NormalizedEmail(email) := PlaceholderUser(NormalizedEmail(email), tempPassword)]
      && r.0.invitations == db.invitations[random := Invitation(email, random, Pending, now + DAY)]
  {
    if email in db.users then (db, Failure(ALREADY_ADMIN))
    else
      var stored := NormalizedEmail(email);
      if !UserSavable(db, stored) then (db, Unprocessable)
      else
        var token := GenerateToken(None, random);
        if !InvitationSavable(db, email, token) then (db, Unprocessable)
        else
          (Db(db.users[stored := PlaceholderUser(stored, tempPassword)],
              db.invitations[token := Invitation(email, token, Pending, now + DAY)]),
           Success("Invitation sent successfully"))
  }

  /**
   * An invitation typed with an upper-case letter: the placeholder user is
   * stored as "a@x.io" while the invitation keeps "A@x.io", so
   * `invited_user` finds nobody. Registration then calls `reset_password`
   * on nil and ends in the 500 envelope, and the expiry check never
   * removes the placeholder.
   */
  lemma MixedCaseInvitationOrphansUser(form: Registration)
    ensures var r := CreateStepAsWritten(Db(map[], map[]), "A@x.io", 0, "t", "p");
      r.1.Success? && !Valid(r.0)
      && RegisterStep(r.0, "t", 0, form, ResetAccepted).1 == InternalError
      && "a@x.io" in ExpireStep(r.0, "t", DAY + 1).users
  {
    MixedCaseInvitationCreated();
    var db := MixedCaseDb();
    assert "A@x.io" !in db.users by { assert "A@x.io"[0] != "a@x.io"[0]; }
    assert ExpireStep(db, "t", 0) == db;
  }

  /** The tables after inviting "A@x.io" into empty tables. */
  function MixedCaseDb(): Db
  {
    Db(map["a@x.io" := PlaceholderUser("a@x.io", "p")], map["t" := Invitation("A@x.io", "t", Pending, DAY)])
  }

  lemma MixedCaseInvitationCreated()
    ensures CreateStepAsWritten(Db(map[], map[]), "A@x.io", 0, "t", "p") == (MixedCaseDb(), Success("Invitation sent successfully"))
  {
    UppercaseEmailNormalized();
    MailtoExamples();
    assert Present("t") by { assert !IsBlankSpace("t"[0]); }
    assert Present("a@x.io") by { assert !IsBlankSpace("a@x.io"[0]); }
  }

  /** Both spellings of the example address pass `URI::MailTo::EMAIL_REGEXP`. */
  lemma MailtoExamples()
    ensures MailtoEmail("A@x.io") && MailtoEmail("a@x.io")
  {
    assert "A@x.io"[1..] == "@x.io" && "a@x.io"[1..] == "@x.io";
    assert "@x.io"[1..] == "x.io" && "x.io"[1..] == ".io" && ".io"[1..] == "io" && "io"[1..] == "o";
    assert ScanLabel("o"[1..], 2, true);
  }

  /**
   * The corrected `create`: the invitation takes the email in the form
   * Devise stores the user's, so `invited_user` finds the placeholder.
   * An email that already has a user is refused; otherwise both records
   * are stored or neither is.
   */
  function CreateStep(db: Db, email: string, now: int, random: string, tempPassword: string): (r: (Db, Response))
    ensures NormalizedEmail(email) in db.users ==> r == (db, Failure(ALREADY_ADMIN))
    ensures !r.1.Success? ==> r.0 == db
    ensures var stored := NormalizedEmail(email);
      r.1.Success? <==> stored !in db.users && UserSavable(db, stored) && InvitationSavable(db, stored, random)
    ensures var stored := NormalizedEmail(email);
      r.1.Success? ==>
        r.0.users == db.users[stored := PlaceholderUser(stored, tempPassword)]
        && r.0.invitations == db.invitations[random := Invitation(stored, random, Pending, now + DAY)]
  {
    var stored := NormalizedEmail(email);
    if stored in db.users then (db, Failure(ALREADY_ADMIN))
    else if !UserSavable(db, stored) then (db, Unprocessable)
    else
      var token := GenerateToken(None, random);
      if !InvitationSavable(db, stored, token) then (db, Unprocessable)
      else
        (Db(db.users[stored := PlaceholderUser(stored, tempPassword)],
            db.invitations[token := Invitation(stored, token, Pending, now + DAY)]),
         Success("Invitation sent successfully"))
  }

  /** On an email already in its stored form the correction changes nothing. */
  lemma CreateAgreesOnNormalizedEmail(db: Db, email: string, now: int, random: string, tempPassword: string)
    requires NormalizedEmail(email) == email
    ensures CreateStepAsWritten(db, email, now, random, tempPassword) == CreateStep(db, email, now, random, tempPassword)
  {
  }

  lemma CreatePreservesValid(db: Db, email: string, now: int, random: string, tempPassword: string)
    requires Valid(db)
    ensures Valid(CreateStep(db, email, now, random, tempPassword).0)
  {
    var r := CreateStep(db, email, now, random, tempPassword);
    if r.1.Success? {
      var stored := NormalizedEmail(email);
      var users := db.users[stored := PlaceholderUser(stored, tempPassword)];
      var invitations := db.invitations[random := Invitation(stored, random, Pending, now + DAY)];
      assert r.0 == Db(users, invitations);
      forall t | t in invitations && invitations[t].status == Pending ensures invitations[t].email in users {
        if t != random {
          assert db.invitations[t].email in db.users;
        }
      }
    }
  }

  /**
   * An email whose invitation has expired, and whose placeholder was
   * destroyed with it, cannot be invited again in any letter case: the old
   * invitation still holds the email.
   */
  lemma ExpiredEmailCannotBeReinvited(db: Db, token: string, email: string, now: int, random: string, tempPassword: string)
    requires Valid(db) && token in db.invitations && db.invitations[token].status == Expired
    requires NormalizedEmail(email) == db.invitations[token].email
    ensures !CreateStep(db, email, now, random, tempPassword).1.Success?
    ensures CreateStep(db, email, now, random, tempPassword).0 == db
  {
  }

  /** `accept`: check expiry, then redirect to the front end only if the invitation is still pending. */
  function AcceptStep(db: Db, token: string, now: int): (r: (Db, Response))
    ensures token !in db.invitations ==> r == (db, NotFound)
    ensures token in db.invitations ==> r.0 == ExpireStep(db, token, now)
    ensures r.1.RedirectTo? <==>
      token in db.invitations && ExpireStep(db, token, now).invitations[token].status == Pending
    ensures r.1.RedirectTo? ==> r.1.url == ACCEPT_INVITE_URL + token
    ensures token in db.invitations && !r.1.RedirectTo? ==> r.1 == Failure(INVALID_INVITATION)
  {
    if token !in db.invitations then (db, NotFound)
    else
      var d := ExpireStep(db, token, now);
      if d.invitations[token].status == Pending then (d, RedirectTo(ACCEPT_INVITE_URL + token))
      else (d, Failure(INVALID_INVITATION))
  }

  /** A redirect means the invitation was pending and not yet past its expiry time. */
  lemma AcceptRedirectsOnlyLiveInvitations(db: Db, token: string, now: int)
    ensures AcceptStep(db, token, now).1.RedirectTo? <==>
      token in db.invitations && db.invitations[token].status == Pending && now <= db.invitations[token].expiresAt
  {
  }

  /** What the registration form carries besides the password pair. */
  datatype Registration = Registration(firstName: string, lastName: string, contact: string, password: string)

  /**
   * Devise's `reset_password` outcome for the form's password and its
   * confirmation: accepted, or rejected with the sentence built from the
   * user's error messages.
   */
  datatype PasswordReset = ResetAccepted | ResetRejected(sentence: string)

  /**
   * `register_invited_user`: check expiry; on a pending invitation reset the
   * placeholder's password (`reset` is what Devise answered for the new
   * password and its confirmation), then mark the user and the
   * invitation accepted.
   */
  function RegisterStep(db: Db, token: string, now: int, form: Registration, reset: PasswordReset): (r: (Db, Response))
    ensures token !in db.invitations ==> r == (db, NotFound)
    ensures token in db.invitations && ExpireStep(db, token, now).invitations[token].status != Pending ==>
      r == (ExpireStep(db, token, now), Failure(INVALID_INVITATION))
    ensures r.1.Success? ==>
      var d := ExpireStep(db, token, now);
      var inv := d.invitations[token];
      reset.ResetAccepted? && inv.status == Pending && inv.email in d.users
      && r.0.users == d.users[inv.email := d.users[inv.email].(
           firstName := form.firstName, lastName := form.lastName, contact := form.contact,
           password := form.password, inviteStatus := InviteAccepted)]
      && r.0.invitations == d.invitations[token := inv.(status := Accepted)]
    ensures token in db.invitations && reset.ResetAccepted? ==>
      var d := ExpireStep(db, token, now);
      d.invitations[token].status == Pending && d.invitations[token].email in d.users ==> r.1.Success?
    ensures token in db.invitations && !r.1.Success? ==> r.0 == ExpireStep(db, token, now)
    ensures reset.ResetRejected? && r.1.Failure? && r.1.message != INVALID_INVITATION ==>
      r.1.message == reset.sentence
    ensures token in db.invitations && reset.ResetRejected? ==>
      var d := ExpireStep(db, token, now);
      d.invitations[token].status == Pending && d.invitations[token].email in d.users ==> r.1 == Failure(reset.sentence)
  {
    if token !in db.invitations then (db, NotFound)
    else
      var d := ExpireStep(db, token, now);
      var inv := d.invitations[token];
      if inv.status != Pending then (d, Failure(INVALID_INVITATION))
      else if inv.email !in d.users then (d, InternalError)
      else if reset.ResetRejected? then (d, Failure(reset.sentence))
      else
        var u := d.users[inv.email];
        var registered := u.(firstName := form.firstName, lastName := form.lastName, contact := form.contact,
                             password := form.password, inviteStatus := InviteAccepted);
        (Db(d.users[inv.email := registered], d.invitations[token := inv.(status := Accepted)]),
         Success("User registered successfully"))
  }

  /** An invitation that is no longer pending is refused by both actions, and nothing changes. */
  lemma NonPendingInvitationChangesNothing(db: Db, token: string, now: int, form: Registration, reset: PasswordReset)
    requires token in db.invitations && db.invitations[token].status != Pending
    ensures RegisterStep(db, token, now, form, reset) == (db, Failure(INVALID_INVITATION))
    ensures AcceptStep(db, token, now) == (db, Failure(INVALID_INVITATION))
  {
  }

  /** In a valid store a live invitation always has its user, so registration never faults. */
  lemma RegisterNeverFaults(db: Db, token: string, now: int, form: Registration, reset: PasswordReset)
    requires Valid(db)
    ensures RegisterStep(db, token, now, form, reset).1 != InternalError
  {
    if token in db.invitations {
      ExpirePreservesValid(db, token, now);
    }
  }

  /** A rejected password leaves the invitation pending. */
  lemma RejectedPasswordKeepsInvitationPending(db: Db, token: string, now: int, form: Registration, sentence: string)
    requires token in db.invitations && ExpireStep(db, token, now).invitations[token].status == Pending
    ensures var r := RegisterStep(db, token, now, form, ResetRejected(sentence));
      token in r.0.invitations && r.0.invitations[token].status == Pending && !r.1.Success?
  {
  }

  lemma {:induction false} RegisterPreservesValid(db: Db, token: string, now: int, form: Registration, reset: PasswordReset)
    requires Valid(db)
    ensures Valid(RegisterStep(db, token, now, form, reset).0)
  {
    if token in db.invitations {
      ExpirePreservesValid(db, token, now);
    }
  }

  lemma {:induction false} AcceptPreservesValid(db: Db, token: string, now: int)
    requires Valid(db)
    ensures Valid(AcceptStep(db, token, now).0)
  {
    if token in db.invitations {
      ExpirePreservesValid(db, token, now);
    }
  }

  // ---------------------------------------------------------------------
  // Admin actions of the dashboard controller

  /** `deactivate_admin`: inactive and "deactivated", whatever the previous status. */
  function DeactivateStep(db: Db, email: string): (r: (Db, Response))
    ensures email !in db.users ==> r == (db, NotFound)
    ensures email in db.users ==>
      r.0 == Db(db.users[email := db.users[email].(isActive := false, inviteStatus := InviteDeactivated)], db.invitations)
      && r.1 == Success("Admin deactivated successfully")
  {
    if email !in db.users then (db, NotFound)
    else
      (Db(db.users[email := db.users[email].(isActive := false, inviteStatus := InviteDeactivated)], db.invitations),
       Success("Admin deactivated successfully"))
  }

  /** `activate_admin`: refused while the invite is pending; otherwise active and "accepted". */
  function ActivateStep(db: Db, email: string): (r: (Db, Response))
    ensures email !in db.users ==> r == (db, NotFound)
    ensures email in db.users && db.users[email].inviteStatus == InvitePending ==> r == (db, Failure(NOT_ACCEPTED_YET))
    ensures email in db.users && db.users[email].inviteStatus != InvitePending ==>
      r.0 == Db(db.users[email := db.users[email].(isActive := true, inviteStatus := InviteAccepted)], db.invitations)
      && r.1 == Success("Admin activated successfully")
  {
    if email !in db.users then (db, NotFound)
    else if db.users[email].inviteStatus == InvitePending then (db, Failure(NOT_ACCEPTED_YET))
    else
      (Db(db.users[email := db.users[email].(isActive := true, inviteStatus := InviteAccepted)], db.invitations),
       Success("Admin activated successfully"))
  }

  /**
   * Deactivating an admin whose invite is still pending and activating it
   * again marks it accepted, although it never registered and its
   * invitation stays pending.
   */
  lemma DeactivateThenActivateSkipsRegistration(db: Db, email: string, token: string)
    requires email in db.users && db.users[email].inviteStatus == InvitePending
    requires token in db.invitations && db.invitations[token].status == Pending
    ensures var r := ActivateStep(DeactivateStep(db, email).0, email).0;
      r.users[email].inviteStatus == InviteAccepted && r.users[email].isActive
      && r.invitations[token].status == Pending
  {
  }

  /** `delete_admin`: destroy the user and the invitation sent to the same email. */
  function DeleteStep(db: Db, email: string): (r: (Db, Response))
    ensures email !in db.users ==> r == (db, NotFound)
    ensures email in db.users ==>
      r.0.users == db.users - {email}
      && (forall t :: t in r.0.invitations <==> t in db.invitations && db.invitations[t].email != email)
      && (forall t :: t in r.0.invitations ==> r.0.invitations[t] == db.invitations[t])
      && r.1 == Success("Admin deleted successfully")
  {
    if email !in db.users then (db, NotFound)
    else
      (Db(db.users - {email}, map t | t in db.invitations && db.invitations[t].email != email :: db.invitations[t]),
       Success("Admin deleted successfully"))
  }

  /** In a valid store at most one invitation goes with the admin: every other token survives. */
  lemma DeleteRemovesAtMostOneInvitation(db: Db, email: string, t: string, u: string)
    requires Valid(db) && email in db.users
    requires t in db.invitations && u in db.invitations && t != u
    ensures t in DeleteStep(db, email).0.invitations || u in DeleteStep(db, email).0.invitations
  {
  }

  lemma ActivatePreservesValid(db: Db, email: string)
    requires Valid(db)
    ensures Valid(ActivateStep(db, email).0)
  {
  }

  lemma DeactivatePreservesValid(db: Db, email: string)
    requires Valid(db)
    ensures Valid(DeactivateStep(db, email).0)
  {
  }

  lemma DeletePreservesValid(db: Db, email: string)
    requires Valid(db)
    ensures Valid(DeleteStep(db, email).0)
  {
  }

  /** The sessions controller lets a user sign in only while active. */
  predicate CanSignIn(db: Db, email: string)
  {
    email in db.users && db.users[email].isActive
  }

  lemma DeactivatedCannotSignIn(db: Db, email: string)
    requires email in db.users
    ensures !CanSignIn(DeactivateStep(db, email).0, email)
    ensures CanSignIn(ActivateStep(DeactivateStep(db, email).0, email).0, email)
  {
  }

  // ---------------------------------------------------------------------
  // The store

  /** The `users` and `invitations` tables, updated in place by the actions. */
  class Store {
    var users: map<string, User>
    var invitations: map<string, Invitation>

    function State(): Db
      reads this
    {
      Db(users, invitations)
    }

    constructor()
      ensures State() == Db(map[], map[])
    {
      users := map[];
      invitations := map[];
    }

    /** `Invitation#check_expiration` on the invitation with `token`. */
    method CheckExpiration(token: string, now: int)
      requires token in invitations
      modifies this
      ensures State() == ExpireStep(old(State()), token, now)
    {
      var inv := invitations[token];
      if inv.status == Pending && inv.expiresAt < now {
        if inv.email in users && users[inv.email].inviteStatus == InvitePending {
          users := users - {inv.email};
        }
        invitations := invitations[token := inv.(status := Expired)];
      }
    }

    /** The corrected `InvitationsController#create`, with the user save rolled back when the invitation save fails. */
    method Create(email: string, now: int, random: string, tempPassword: string) returns (response: Response)
      modifies this
      ensures (State(), response) == CreateStep(old(State()), email, now, random, tempPassword)
    {
      var stored := NormalizedEmail(email);
      if stored in users {
        return Failure(ALREADY_ADMIN);
      }
      if !UserSavable(State(), stored) {
        return Unprocessable;
      }
      var before := users;
      users := users[stored := PlaceholderUser(stored, tempPassword)];
      var token := GenerateToken(None, random);
      if !InvitationSavable(Db(before, invitations), stored, token) {
        users := before;
        return Unprocessable;
      }
      invitations := invitations[token := Invitation(stored, token, Pending, now + DAY)];
      response := Success("Invitation sent successfully");
    }

    /** `InvitationsController#accept` */
    method Accept(token: string, now: int) returns (response: Response)
      modifies this
      ensures (State(), response) == AcceptStep(old(State()), token, now)
    {
      if token !in invitations {
        return NotFound;
      }
      CheckExpiration(token, now);
      if invitations[token].status == Pending {
        response := RedirectTo(ACCEPT_INVITE_URL + token);
      } else {
        response := Failure(INVALID_INVITATION);
      }
    }

    /** `InvitationsController#register_invited_user` */
    method RegisterInvitedUser(token: string, now: int, form: Registration, reset: PasswordReset) returns (response: Response)
      modifies this
      ensures (State(), response) == RegisterStep(old(State()), token, now, form, reset)
    {
      if token !in invitations {
        return NotFound;
      }
      CheckExpiration(token, now);
      var inv := invitations[token];
      if inv.status != Pending {
        return Failure(INVALID_INVITATION);
      }
      if inv.email !in users {
        return InternalError;
      }
      if reset.ResetRejected? {
        return Failure(reset.sentence);
      }
      var u := users[inv.email];
      users := users[inv.email := u.(firstName := form.firstName, lastName := form.lastName,
                                    contact := form.contact, password := form.password,
                                    inviteStatus := InviteAccepted)];
      invitations := invitations[token := inv.(status := Accepted)];
      response := Success("User registered successfully");
    }

    /** `DashboardController#activate_admin` */
    method ActivateAdmin(email: string) returns (response: Response)
      modifies this
      ensures (State(), response) == ActivateStep(old(State()), email)
    {
      if email !in users {
        return NotFound;
      }
      if users[email].inviteStatus == InvitePending {
        return Failure(NOT_ACCEPTED_YET);
      }
      users := users[email := users[email].(isActive := true, inviteStatus := InviteAccepted)];
      response := Success("Admin activated successfully");
    }

    /** `DashboardController#deactivate_admin` */
    method DeactivateAdmin(email: string) returns (response: Response)
      modifies this
      ensures (State(), response) == DeactivateStep(old(State()), email)
    {
      if email !in users {
        return NotFound;
      }
      users := users[email := users[email].(isActive := false, inviteStatus := InviteDeactivated)];
      response := Success("Admin deactivated successfully");
    }

    /** `DashboardController#delete_admin`: the invitation and the user go together. */
    method DeleteAdmin(email: string) returns (response: Response)
      modifies this
      ensures (State(), response) == DeleteStep(old(State()), email)
    {
      if email !in users {
        return NotFound;
      }
      invitations := map t | t in invitations && invitations[t].email != email :: invitations[t];
      users := users - {email};
      response := Success("Admin deleted successfully");
    }
  }
}
