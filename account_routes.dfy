/**
 * The account handlers of routes/users.js that change documents: each loads its
 * documents, edits them in place and saves them, and is proved to leave the
 * collections its Outcome function in module AccountRules describes.
 */
module AccountRoutes {
  import opened Wrappers
  import opened CustomErrors
  import opened Models
  import opened AccountRules

  /**
   * POST /sendPasswordResetEmail. The user findOne picked is returned as the ghost
   * chosen, so the effect can be stated whichever user it was.
   */
  method SendPasswordResetEmail(db: Database, email: string, resetToken: string, sha256: string -> string, now: int,
                                mailSent: bool, mailMessage: string)
    returns (location: string, ghost chosen: Option<Id>)
    modifies db
    ensures FoundByEmail(old(db.Snapshot()), email, chosen)
    ensures var o := SendResetOutcome(old(db.Snapshot()), chosen, resetToken, sha256, now, mailSent, mailMessage);
            db.Snapshot() == o.world && location == SendResetLocation(o, mailMessage)
  {
    var user := db.FindUserByEmail(email);
    if user.None? {
      chosen := None;
      return ErrorRedirect("/users/forgotPassword", CustomErr(InvalidEmail), "Error sending email"), chosen;
    }
    var u := user.value;
    chosen := Some(u.id);
    u.passwordResetToken := Some(sha256(resetToken));
    u.passwordResetTokenExpires := Some(now + ResetTokenLifetime);
    db.SaveUser(u);
    if !mailSent {
      return ErrorRedirect("/users/forgotPassword", CustomErr(mailMessage), "Error sending email"), chosen;
    }
    location := "/users/forgotPassword?successMessage=" + mailMessage;
  }

  /** PUT /resetPassword?user=userParam&token=tokenParam; userId is the document userParam names, if any. */
  method ResetPassword(db: Database, userParam: string, tokenParam: string, userId: Option<Id>,
                       newPassword: string, confirmPassword: string, newHash: string)
    returns (location: string)
    modifies db
    ensures var o := ResetPasswordOutcome(old(db.Snapshot()), userId, newPassword, confirmPassword, newHash);
            db.Snapshot() == o.world && location == ResetPasswordLocation(o, userParam, tokenParam)
  {
    if newPassword != confirmPassword {
      return ResetPasswordLocation(Outcome(db.Snapshot(), Some(CustomErr(PasswordsMustMatch))), userParam, tokenParam);
    }
    var user: Option<UserDoc> := None;
    if userId.Some? {
      user := db.FindUser(userId.value);
    }
    if user.None? {
      return ResetPasswordLocation(Outcome(db.Snapshot(), Some(NullDereference)), userParam, tokenParam);
    }
    var u := user.value;
    u.password := newHash;
    u.passwordResetToken := None;
    u.passwordResetTokenExpires := None;
    if !UserSchemaValid(u.Record()) {
      return ResetPasswordLocation(Outcome(db.Snapshot(), Some(SchemaViolation)), userParam, tokenParam);
    }
    db.SaveUser(u);
    location := "/users/login";
  }

  /** Lines 247-260: the two findOne lookups and their tests against the signed-in user. */
  method CheckIdentity(db: Database, user: UserDoc, form: SettingsForm) returns (err: Option<Error>)
    ensures err == IdentityError(db.Snapshot(), user.Record(), form)
  {
    var existingUserByEmail := db.FindUserByEmail(form.email);
    if existingUserByEmail.Some? && existingUserByEmail.value.email != user.email {
      return Some(CustomErr(EmailTaken));
    }
    var existingUserByUsername := db.FindUserByUsername(form.username);
    if existingUserByUsername.Some? && existingUserByUsername.value.username != user.username {
      return Some(CustomErr(UsernameTaken));
    }
    return None;
  }

  /** The try block of PUT /settings for any action but "delete": the error it throws, if any. */
  method EditUser(db: Database, me: Id, form: SettingsForm, usernameOk: bool, passwordMatches: bool, newHash: string)
    returns (err: Option<Error>)
    requires form.action != Some("delete")
    modifies db
    ensures var o := SettingsOutcome(old(db.Snapshot()), me, form, usernameOk, passwordMatches, newHash);
            db.Snapshot() == o.world && err == o.err
  {
    ghost var w := db.Snapshot();
    if !usernameOk {
      return Some(CustomErr(UsernameNotAlphanumeric));
    }
    var user := db.FindUser(me);
    if user.None? {
      // Every path below reads a field of the missing user.
      return Some(NullDereference);
    }
    var u := user.value;
    err := CheckIdentity(db, u, form);
    if err.Some? {
      return;
    }
    if !passwordMatches {
      return Some(CustomErr(SettingsPasswordIncorrect));
    }
    u.email := form.email;
    u.username := form.username;
    u.password := newHash;
    u.isPrivate := IsPrivateFromForm(form.isPrivate);
    assert u.Record() == EditedUser(w.users[me], form, newHash);
    if !UserSchemaValid(u.Record()) {
      return Some(SchemaViolation);
    }
    db.SaveUser(u);
  }

  /** PUT /settings, signed in as me. */
  method UpdateSettings(db: Database, me: Id, form: SettingsForm, usernameOk: bool, passwordMatches: bool,
                        newHash: string)
    returns (location: string)
    modifies db
    ensures var o := SettingsOutcome(old(db.Snapshot()), me, form, usernameOk, passwordMatches, newHash);
            db.Snapshot() == o.world && location == SettingsLocation(o, form)
  {
    if form.action == Some("delete") {
      return "/users/delete";
    }
    var err := EditUser(db, me, form, usernameOk, passwordMatches, newHash);
    if err.Some? {
      return ErrorRedirect("/users/settings", err.value, "Error updating user");
    }
    location := "/";
  }
}
