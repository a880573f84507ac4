/**
 * The account rules of routes/users.js: the isPrivate form field, the password-reset
 * token (issued by POST /sendPasswordResetEmail, checked by GET /resetPassword,
 * cleared by PUT /resetPassword) and the email and username tests of PUT /settings.
 *
 * Foreign calls are parameters: sha256 is a function from the token to its hex digest,
 * bcrypt.compare is the boolean it resolves to, bcrypt.hash the string it resolves to,
 * Date.now() an integer of milliseconds, isAlphaNumeric the boolean it returns, and
 * sendPasswordResetEmail the (success, message) pair it resolves to.
 */
module AccountRules {
  import opened Wrappers
  import opened CustomErrors
  import opened Models

  // ---------------------------------------------------------------- isPrivate

  /** `req.body.isPrivate === "false" ? false : true`: only the string "false" makes an account public. */
  function IsPrivateFromForm(value: Option<string>): (r: bool)
    ensures !r <==> value == Some("false")
  {
    value != Some("false")
  }

  /** The value a form posts for a privacy choice. */
  function PrivacyFormValue(isPrivate: bool): string {
    if isPrivate then "true" else "false"
  }

  /** Posting either choice reads back as that choice; a form without the field makes the account private. */
  lemma PrivacyFormRoundTrip(isPrivate: bool)
    ensures IsPrivateFromForm(Some(PrivacyFormValue(isPrivate))) == isPrivate
    ensures IsPrivateFromForm(None)
  {
  }

  // ---------------------------------------------------------------- reset token

  /** A reset token is valid for one hour after it is issued. */
  const ResetTokenLifetime := 3600000

  const InvalidEmail := "Invalid Email"
  const InvalidToken := "Invalid token: resend verification email to continue"
  const ExpiredToken := "Expired token: resend verification email to continue"
  const PasswordsMustMatch := "Passwords must match"

  /** What hashing an absent token query parameter throws. */
  const HashOfUndefined := Unexpected("TypeError", "The \"data\" argument must be of type string")

  /** Lines 59-63: the stored digest of the new token and its expiry, now plus one hour. */
  function IssueResetToken(u: UserRecord, tokenHash: string, now: int): UserRecord {
    u.(passwordResetToken := Some(tokenHash), passwordResetTokenExpires := Some(now + ResetTokenLifetime))
  }

  /** `Date.now() > user.passwordResetTokenExpires` compares a null expiry as 0. */
  function ExpiryOf(u: UserRecord): int {
    if u.passwordResetTokenExpires.Some? then u.passwordResetTokenExpires.value else 0
  }

  /** The user document findById(req.query.user) resolves to. */
  function UserById(w: World, id: Option<Id>): (r: Option<UserRecord>)
    ensures r.Some? <==> id.Some? && id.value in w.users
    ensures r.Some? ==> r.value == w.users[id.value]
  {
    if id.Some? && id.value in w.users then Some(w.users[id.value]) else None
  }

  /**
   * GET /resetPassword: the error its checks throw, in the order they run, or None
   * when the reset page is rendered.
   */
  function ResetTokenError(user: Option<UserRecord>, token: Option<string>, sha256: string -> string, now: int)
    : (r: Option<Error>)
    ensures r.None? <==> user.Some? && token.Some?
                         && user.value.passwordResetToken == Some(sha256(token.value))
                         && now <= ExpiryOf(user.value)
    ensures r == Some(CustomErr(InvalidToken))
            <==> user.Some? && token.Some? && user.value.passwordResetToken != Some(sha256(token.value))
    ensures r == Some(CustomErr(ExpiredToken))
            <==> user.Some? && token.Some? && user.value.passwordResetToken == Some(sha256(token.value))
                 && now > ExpiryOf(user.value)
    ensures (user.None? || token.None?) ==> r.Some? && !r.value.CustomErr?
  {
    if token.None? then Some(HashOfUndefined)
    else if user.None? then Some(NullDereference)
    else if Some(sha256(token.value)) != user.value.passwordResetToken then Some(CustomErr(InvalidToken))
    else if now > ExpiryOf(user.value) then Some(CustomErr(ExpiredToken))
    else None
  }

  /** Where GET /resetPassword sends a request it rejects; None means the page is rendered. */
  function ResetPageRedirect(w: World, userId: Option<Id>, token: Option<string>, sha256: string -> string, now: int)
    : (r: Option<string>)
    ensures r.None? <==> ResetTokenError(UserById(w, userId), token, sha256, now).None?
    ensures r.Some? ==> r.value == ErrorRedirect("/users/forgotPassword",
                                                 ResetTokenError(UserById(w, userId), token, sha256, now).value,
                                                 "Error validating token: resend verification email to continue")
  {
    var e := ResetTokenError(UserById(w, userId), token, sha256, now);
    if e.None? then None
    else Some(ErrorRedirect("/users/forgotPassword", e.value,
                            "Error validating token: resend verification email to continue"))
  }

  /**
   * A token issued at time issued is accepted exactly until issued + 3600000 ms, and
   * any token with a different digest is rejected as invalid.
   */
  lemma IssuedTokenAccepted(u: UserRecord, token: string, other: string, sha256: string -> string, issued: int, now: int)
    ensures var v := IssueResetToken(u, sha256(token), issued);
            && (ResetTokenError(Some(v), Some(token), sha256, now).None? <==> now <= issued + ResetTokenLifetime)
            && (now > issued + ResetTokenLifetime ==>
                  ResetTokenError(Some(v), Some(token), sha256, now) == Some(CustomErr(ExpiredToken)))
            && (sha256(other) != sha256(token) ==>
                  ResetTokenError(Some(v), Some(other), sha256, now) == Some(CustomErr(InvalidToken)))
  {
  }

  /**
   * POST /sendPasswordResetEmail. found is the user findOne({email}) returned; the mail
   * call's outcome is (mailSent, mailMessage).
   */
  function SendResetOutcome(w: World, found: Option<Id>, resetToken: string, sha256: string -> string, now: int,
                            mailSent: bool, mailMessage: string): (o: Outcome)
    requires found.Some? ==> found.value in w.users
    ensures found.None? ==> o == Outcome(w, Some(CustomErr(InvalidEmail)))
    ensures o.err.None? <==> found.Some? && mailSent
    ensures found.Some? && !mailSent ==> o.err == Some(CustomErr(mailMessage))
    ensures o.world.folders == w.folders && o.world.files == w.files && o.world.users.Keys == w.users.Keys
    ensures forall id :: id in w.users && Some(id) != found ==> o.world.users[id] == w.users[id]
    ensures found.Some? ==>
              o.world.users[found.value]
              == w.users[found.value].(passwordResetToken := Some(sha256(resetToken)),
                                       passwordResetTokenExpires := Some(now + ResetTokenLifetime))
  {
    if found.None? then Outcome(w, Some(CustomErr(InvalidEmail)))
    else
      var w1 := w.(users := w.users[found.value := IssueResetToken(w.users[found.value], sha256(resetToken), now)]);
      if !mailSent then Outcome(w1, Some(CustomErr(mailMessage))) else Outcome(w1, None)
  }

  /** The redirect of POST /sendPasswordResetEmail; the success message goes into the query unencoded. */
  function SendResetLocation(o: Outcome, mailMessage: string): string {
    if o.err.None? then "/users/forgotPassword?successMessage=" + mailMessage
    else ErrorRedirect("/users/forgotPassword", o.err.value, "Error sending email")
  }

  /**
   * The link the mail carries (the user's id and the raw token) opens the reset page
   * until one hour after it was issued, even when the mail could not be sent.
   */
  lemma SentLinkValidForAnHour(w: World, id: Id, resetToken: string, sha256: string -> string, issued: int,
                               mailSent: bool, mailMessage: string, now: int)
    requires id in w.users
    ensures var o := SendResetOutcome(w, Some(id), resetToken, sha256, issued, mailSent, mailMessage);
            ResetPageRedirect(o.world, Some(id), Some(resetToken), sha256, now).None?
            <==> now <= issued + ResetTokenLifetime
  {
    IssuedTokenAccepted(w.users[id], resetToken, resetToken, sha256, issued, now);
  }

  /**
   * PUT /resetPassword: the passwords must match and the user must exist; the new hash
   * replaces the password and both reset fields become null. The token in the query is
   * never looked at.
   */
  function ResetPasswordOutcome(w: World, userId: Option<Id>, newPassword: string, confirmPassword: string,
                                newHash: string): (o: Outcome)
    ensures newPassword != confirmPassword ==> o == Outcome(w, Some(CustomErr(PasswordsMustMatch)))
    ensures newPassword == confirmPassword && UserById(w, userId).None? ==> o == Outcome(w, Some(NullDereference))
    ensures o.err.Some? ==> o.world == w
    ensures o.world.folders == w.folders && o.world.files == w.files && o.world.users.Keys == w.users.Keys
    ensures forall id :: id in w.users && Some(id) != userId ==> o.world.users[id] == w.users[id]
  {
    if newPassword != confirmPassword then Outcome(w, Some(CustomErr(PasswordsMustMatch)))
    else if userId.None? || userId.value !in w.users then Outcome(w, Some(NullDereference))
    else
      var u := w.users[userId.value].(password := newHash, passwordResetToken := None,
                                      passwordResetTokenExpires := None);
      if !UserSchemaValid(u) then Outcome(w, Some(SchemaViolation))
      else Outcome(w.(users := w.users[userId.value := u]), None)
  }

  /** Where PUT /resetPassword redirects; its error query is built by hand, without encoding. */
  function ResetPasswordLocation(o: Outcome, userParam: string, tokenParam: string): string {
    if o.err.None? then "/users/login"
    else "/users/resetPassword?user=" + userParam + "&token=" + tokenParam
         + "&errorMessage=" + SetWildcardError(o.err.value, "Error Resetting Password").message
  }

  /**
   * After a successful reset the stored user has the new hash and no token, so every
   * token is rejected as invalid from then on.
   */
  lemma ResetPasswordRevokesToken(w: World, id: Id, newPassword: string, newHash: string,
                                  token: string, sha256: string -> string, now: int)
    requires ResetPasswordOutcome(w, Some(id), newPassword, newPassword, newHash).err.None?
    ensures var u := ResetPasswordOutcome(w, Some(id), newPassword, newPassword, newHash).world.users[id];
            && u == w.users[id].(password := newHash, passwordResetToken := None, passwordResetTokenExpires := None)
            && ResetTokenError(Some(u), Some(token), sha256, now) == Some(CustomErr(InvalidToken))
  {
  }

  /**
   * The reset itself asks for no token: for any valid stored user, matching passwords
   * and a non-empty hash reset the password, whether or not a token was ever issued.
   */
  lemma ResetPasswordNeedsNoToken(w: World, id: Id, newPassword: string, newHash: string)
    requires id in w.users && UserSchemaValid(w.users[id]) && newHash != ""
    ensures ResetPasswordOutcome(w, Some(id), newPassword, newPassword, newHash).err.None?
  {
  }

  // ---------------------------------------------------------------- settings

  const UsernameNotAlphanumeric := "Username must contain only alphanumeric characters"
  const EmailTaken := "Account with inputted email already exists"
  const UsernameTaken := "Account with inputted username already exists"
  const SettingsPasswordIncorrect := "Password incorrect: Cannot edit user information"

  datatype SettingsForm = SettingsForm(action: Option<string>, username: string, email: string, isPrivate: Option<string>)

  /**
   * The test at lines 250-251 on what findOne({email}) returned: a record was found and
   * its email is not the signed-in user's.
   */
  predicate EmailConflict(w: World, found: Option<Id>, user: UserRecord)
    requires found.Some? ==> found.value in w.users
  {
    found.Some? && w.users[found.value].email != user.email
  }

  predicate UsernameConflict(w: World, found: Option<Id>, user: UserRecord)
    requires found.Some? ==> found.value in w.users
  {
    found.Some? && w.users[found.value].username != user.username
  }

  /** found is a possible result of findOne({email}): null exactly when no user has the email. */
  predicate FoundByEmail(w: World, email: string, found: Option<Id>) {
    (found.None? <==> !HasUserWithEmail(w, email))
    && (found.Some? ==> found.value in w.users && w.users[found.value].email == email)
  }

  predicate FoundByUsername(w: World, username: string, found: Option<Id>) {
    (found.None? <==> !HasUserWithUsername(w, username))
    && (found.Some? ==> found.value in w.users && w.users[found.value].username == username)
  }

  /**
   * Whichever user findOne returns, the email test fails exactly when some user has the
   * submitted email and it is not the signed-in user's own; that user is then another
   * record. Keeping one's own email is always allowed.
   */
  lemma EmailConflictRule(w: World, me: Id, email: string, found: Option<Id>)
    requires me in w.users && FoundByEmail(w, email, found)
    ensures EmailConflict(w, found, w.users[me]) <==> HasUserWithEmail(w, email) && email != w.users[me].email
    ensures EmailConflict(w, found, w.users[me]) ==> found.value != me
    ensures email == w.users[me].email ==> !EmailConflict(w, found, w.users[me])
  {
  }

  lemma UsernameConflictRule(w: World, me: Id, username: string, found: Option<Id>)
    requires me in w.users && FoundByUsername(w, username, found)
    ensures UsernameConflict(w, found, w.users[me])
            <==> HasUserWithUsername(w, username) && username != w.users[me].username
    ensures UsernameConflict(w, found, w.users[me]) ==> found.value != me
    ensures username == w.users[me].username ==> !UsernameConflict(w, found, w.users[me])
  {
  }

  /** The email and username tests of PUT /settings, in their order, stated on the collections. */
  function IdentityError(w: World, user: UserRecord, form: SettingsForm): (r: Option<Error>)
    ensures r.None? || r == Some(CustomErr(EmailTaken)) || r == Some(CustomErr(UsernameTaken))
  {
    if HasUserWithEmail(w, form.email) && form.email != user.email then Some(CustomErr(EmailTaken))
    else if HasUserWithUsername(w, form.username) && form.username != user.username then
      Some(CustomErr(UsernameTaken))
    else None
  }

  /** The user record PUT /settings saves. */
  function EditedUser(u: UserRecord, form: SettingsForm, newHash: string): UserRecord {
    u.(email := form.email, username := form.username, password := newHash,
       isPrivate := IsPrivateFromForm(form.isPrivate))
  }

  /**
   * PUT /settings, signed in as me. usernameOk is isAlphaNumeric(username),
   * passwordMatches what bcrypt.compare resolves to, newHash the hash of the new password.
   * The "delete" action only redirects.
   */
  function SettingsOutcome(w: World, me: Id, form: SettingsForm, usernameOk: bool, passwordMatches: bool,
                           newHash: string): (o: Outcome)
    ensures o.err.None? && form.action != Some("delete") ==> me in w.users
    ensures o.err.Some? || form.action == Some("delete") ==> o.world == w
    ensures o.world.folders == w.folders && o.world.files == w.files && o.world.users.Keys == w.users.Keys
    ensures forall id :: id in w.users && id != me ==> o.world.users[id] == w.users[id]
  {
    if form.action == Some("delete") then Outcome(w, None)
    else if !usernameOk then Outcome(w, Some(CustomErr(UsernameNotAlphanumeric)))
    else if me !in w.users then Outcome(w, Some(NullDereference))
    else
      var user := w.users[me];
      var identity := IdentityError(w, user, form);
      if identity.Some? then Outcome(w, identity)
      else if !passwordMatches then Outcome(w, Some(CustomErr(SettingsPasswordIncorrect)))
      else
        var u := EditedUser(user, form, newHash);
        if !UserSchemaValid(u) then Outcome(w, Some(SchemaViolation))
        else Outcome(w.(users := w.users[me := u]), None)
  }

  function SettingsLocation(o: Outcome, form: SettingsForm): string {
    if form.action == Some("delete") then "/users/delete"
    else Location(o, "/", "/users/settings", "Error updating user")
  }

  /**
   * The checks of PUT /settings in their order, and the saved record: the submitted
   * email and username, the new hash, and isPrivate read from the form.
   */
  lemma SettingsChecks(w: World, me: Id, form: SettingsForm, usernameOk: bool, passwordMatches: bool, newHash: string)
    requires form.action != Some("delete") && me in w.users
    ensures var o, u := SettingsOutcome(w, me, form, usernameOk, passwordMatches, newHash), w.users[me];
            && (!usernameOk ==> o.err == Some(CustomErr(UsernameNotAlphanumeric)))
            && ((usernameOk && HasUserWithEmail(w, form.email) && form.email != u.email)
                ==> o.err == Some(CustomErr(EmailTaken)))
            && (o.err == Some(CustomErr(UsernameTaken))
                <==> (usernameOk && !(HasUserWithEmail(w, form.email) && form.email != u.email)
                      && HasUserWithUsername(w, form.username) && form.username != u.username))
            && (o.err.None? <==> usernameOk && passwordMatches
                                 && !(HasUserWithEmail(w, form.email) && form.email != u.email)
                                 && !(HasUserWithUsername(w, form.username) && form.username != u.username)
                                 && UserSchemaValid(EditedUser(u, form, newHash)))
            && (o.err.None? ==> o.world.users[me] == EditedUser(u, form, newHash)
                                && (o.world.users[me].isPrivate <==> form.isPrivate != Some("false")))
  {
  }

  /**
   * Resubmitting one's own email and username never conflicts, even when other
   * accounts share them: with the password right and the fields valid, the edit is saved.
   */
  lemma SettingsKeepOwnIdentity(w: World, me: Id, isPrivate: Option<string>, newHash: string)
    requires me in w.users
    requires var u := w.users[me];
             UserSchemaValid(EditedUser(u, SettingsForm(None, u.username, u.email, isPrivate), newHash))
    ensures var u := w.users[me];
            SettingsOutcome(w, me, SettingsForm(None, u.username, u.email, isPrivate), true, true, newHash).err.None?
  {
  }
}
