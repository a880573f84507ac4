# TripSync folder sharing, notifications and account cascade, in Dafny

TripSync is an Express/Mongoose web application where users keep trip folders of
uploaded files. A user can share a folder with another user. The owner sends a
request, which the invited user accepts or declines in the *activity center*. The
requester can also cancel it. Every response pushes a notification onto the other
user's document and raises their unread-badge counter. This project models:

- the four state-changing handlers of `routes/activityCenter.js` and its
  `removeRequestsAndNotifications` helper;
- the activity-center feed, which formats notifications newest first with live or
  fallback names, resets the badge, and offers deletion by display index;
- from `routes/users.js`:
  - the account-deletion cascade;
  - the password-reset token (issue, check, reset);
  - the e-mail and username conflict tests of the settings form;
  - the parsing of the `isPrivate` form field;
- the documents of `models/user.js` and `models/tripFolder.js`;
- the error helpers of `public/javascripts/customErrors.js`: `CustomErr`,
  `setWildcardError` and `queryAppendError`.

## How the model is built

- **Collections** are `Models.World`, three maps from an id to a record: users,
  folders and files.
- **The store** is a `Models.Database` object.
  - `findById` returns a *fresh* copy of a stored document (`UserDoc`, `FolderDoc`).
  - Handlers change those copies field by field.
  - `save()` writes the copy's current record back, so the last save of an id wins.
  - Two loads of one id are two independent objects, as they are in Mongoose.
- **Handler methods.** Each handler is an imperative method on the database, in
  `ActivityCenterRoutes`, `AccountRoutes` or `AccountDeletionRoutes`. It is proved to
  leave exactly the collections given by a pure `...Outcome` function in
  `ActivityCenter`, `AccountRules` or `AccountDeletion`. It is also proved to
  redirect where that outcome says.
- **Properties** are lemmas about those functions.
- **Errors.** A caught error is either a `CustomErr(message)` or an `Unexpected` error.
  - Reading a field of a document that `findById` resolved to `null` is the
    `NullDereference` TypeError.
  - A failed validation on save is `SchemaViolation`.
  - Every error redirect that a catch block builds with `queryAppendError` goes through
    `ErrorRedirect`. Its contract states that the query decodes, via
    `decodeURIComponent`, to the `CustomErr`'s own message or to the handler's fallback.
    Three redirects are built by hand instead, without encoding, and are modelled as
    written: the error redirect of `PUT /users/resetPassword` (`ResetPasswordLocation`),
    the success redirect of `POST /users/sendPasswordResetEmail` (`SendResetLocation`),
    and the delete action of `PUT /users/settings` (`SettingsLocation`).

### Quirks of the code that the model keeps

- **`removeRequestsAndNotifications` is not awaited.** It is `async`, never awaited,
  and contains no `await`.
  - Its splices happen at the call.
  - Its "not found" errors become unobserved promise rejections.
  - Accept therefore joins the folder even without a pending request (`AcceptWithoutRequest`).
  - This assumes a runtime where an unhandled rejection does not end the process.
    Since Node 15 the default `--unhandled-rejections=throw` ends it at the handler's
    next `await`, and server.js installs no `unhandledRejection` handler. Under that
    default the saves that `AcceptWithoutRequest` describes need not happen.
- **Accept does not check membership.** It pushes the acceptor onto the member list
  even when they are already a member.
- **`deleteNotification` has no upper bound.** It checks only `revIndex > -1`.
  - An index past the end splices a position counted from the end, or the oldest
    entry (`DeleteNotificationPastEnd`).
  - With no notifications at all, it still succeeds.
- **The deletion cascade purges inside the folder loop.** It withdraws the user's
  outgoing requests once per folder, inside that loop.
  - A user in no folder leaves every request they sent behind (`NoFoldersNoCleanup`).
  - Its notification search compares a notification object with a string, so it never
    removes a notification.
  - When a requested folder no longer exists, the request search dereferences `null`
    on the first request from the deleted user, and the notification search on the
    first notification. So the cascade stops only when the invited user holds a request
    from the deleted user or has any notification at all (`Withdrawn`); otherwise that
    request is skipped.
- **`PUT /users/resetPassword` never checks the token.** It needs only matching
  passwords and an existing user (`ResetPasswordNeedsNoToken`).
  - Its error redirect builds the query by hand, without encoding.
  - The success redirect of `POST /users/sendPasswordResetEmail` is also unencoded.
- **`isPrivate` defaults to private.** Only the exact string `"false"` makes an
  account public; a missing field makes it private.
- **Some fields are not in the schemas.** The routes read and write four fields that
  `models/user.js` does not declare:
  - `newNotificationCount`;
  - `passwordResetToken` and `passwordResetTokenExpires`;
  - the notifications' `fallbackUsername` and `fallbackFolderName`.

  Under Mongoose's default strict mode these would not be stored. The model follows the
  routes and stores them as ordinary fields.
- **The activity-center router is not mounted.** `server.js` mounts only the index and
  users routers, so none of the `routes/activityCenter.js` handlers can be reached as
  the repository stands. They are modelled as written.

## Model

| member | source | states |
|---|---|---|
| CustomErrors.SetWildcardError | public/javascripts/customErrors.js:8-11 | the result is always a CustomErr; a CustomErr passes through unchanged; any other error becomes one carrying the fallback message |
| CustomErrors.SetWildcardErrorIdempotent | public/javascripts/customErrors.js:8-11 | applying setWildcardError to its own result changes nothing, whatever the second fallback |
| CustomErrors.QueryAppendError | public/javascripts/customErrors.js:13-15 | the URL is `path?errorMessage=` followed by text that decodes back to exactly the error's message and contains none of `& # = + ?` or space |
| CustomErrors.ErrorRedirect | public/javascripts/customErrors.js:8-15 | a catch block's redirect: path plus the query, which decodes to the CustomErr's own message or else to the handler's fallback |
| UriComponent.Encode | public/javascripts/customErrors.js:14 | encodeURIComponent writes only unreserved characters, `%` and hexadecimal digits |
| UriComponent.DecodeEncode | public/javascripts/customErrors.js:14 | decodeURIComponent(encodeURIComponent(s)) is s for every string |
| UriComponent.Decode | public/javascripts/customErrors.js:14 | no contract; decodeURIComponent, None where it throws a URIError; its properties are in DecodeEncode and DecodeEncodedChar |
| UriComponent.EncodeUnreserved | public/javascripts/customErrors.js:14 | a message of unreserved characters is encoded as itself |
| UriComponent.DecodeEncodedChar | public/javascripts/customErrors.js:14 | decoding one encoded character followed by any text yields the character and then the decoding of the rest |
| UriComponent.Utf8RoundTrip | public/javascripts/customErrors.js:14 | the UTF-8 bytes written for a multi-byte character announce their own length and decode to that character |
| UriComponent.ReadTriplet | public/javascripts/customErrors.js:14 | the `%XY` triplet written for one byte, whatever follows it, reads back as that byte |
| UriComponent.ReadBytesPercentEncode | public/javascripts/customErrors.js:14 | the `%XY` triplets written for a byte string read back as those bytes, whatever follows |
| JsParseInt.TrimStart | routes/activityCenter.js:102 | parseInt skips exactly the leading white space and line terminators |
| JsParseInt.ParseInt | routes/activityCenter.js:102 | no contract; defined by its body (white space, sign, then ParseUnsigned); its properties are in TrimStart, ParseIntDecimal, ParseIntOfNumeral, ParseIntAfterMinus and ParseIntNotANumber |
| JsParseInt.ParseUnsigned | routes/activityCenter.js:102 | no contract; the digits after the sign, hexadecimal after `0x`; its properties are in UnsignedOfNumeral and UnsignedOfDecimal |
| JsParseInt.ParseIntDecimal | routes/activityCenter.js:102 | parseInt(String(i)) is i for every integer i |
| JsParseInt.ParseIntOfNumeral | routes/activityCenter.js:102 | a plain decimal numeral is read whole, as the number its digits denote |
| JsParseInt.UnsignedOfNumeral | routes/activityCenter.js:102 | the digits after the sign, when all decimal, are read whole as the number they denote |
| JsParseInt.ParseIntAfterMinus | routes/activityCenter.js:102 | a leading minus sign negates whatever the digits after it read as, and NaN stays NaN |
| JsParseInt.ParseIntOfNegated | routes/activityCenter.js:102 | digits read as m, after a minus sign, give -m |
| JsParseInt.UnsignedOfDecimal | routes/activityCenter.js:102 | the decimal numeral of n, as String writes it, is read back as n |
| JsParseInt.ParseIntOfDecimal | routes/activityCenter.js:102 | parseInt(String(i)) is i for non-negative i |
| JsParseInt.ParseIntOfNegativeDecimal | routes/activityCenter.js:102 | parseInt(String(i)) is i for negative i, whose string is a minus sign before the numeral of -i |
| JsParseInt.ParseIntNotANumber | routes/activityCenter.js:102-103 | text starting with neither a sign nor a digit is NaN, so `revIndex > -1` fails |
| Sequences.IndexOf | routes/users.js:328 | indexOf: -1 exactly when absent; otherwise an index holding x with no earlier x |
| Sequences.RemoveAt | routes/activityCenter.js:223 | splice(i, 1) inside the array removes entry i and keeps every other entry in order |
| Sequences.SpliceOne | routes/activityCenter.js:105 | splice(start, 1) for any integer start: a negative start counts from the end, clamped to 0; a start past the end removes nothing |
| Sequences.SpliceStart | routes/activityCenter.js:105 | the start position splice uses, in each of the four clamping cases |
| Sequences.SpliceOneFromEnd | routes/activityCenter.js:104-105 | for revIndex r at or past the length n, `splice(n - r - 1, 1)` removes storage entry 2n - 1 - r while r < 2n, and the oldest entry from then on; an empty list stays empty |
| Sequences.Reverse | routes/activityCenter.js:86-88 | reverse puts entry k at position length - 1 - k |
| Sequences.RemoveFirst | routes/users.js:328-329 | no change when x is absent, otherwise exactly one entry fewer |
| Sequences.RemoveFirstAtIndexOf | routes/activityCenter.js:128-130 | removing the first x is splice(indexOf(x), 1) |
| Sequences.SpliceFirst | routes/users.js:340-341 | the `i = indexOf(x); if (i > -1) splice(i, 1)` pattern removes the first x, if any |
| Sequences.RemoveFirstAtFirst | routes/users.js:333-334 | splicing out the position of the first x removes the first x and keeps everything else in order |
| Sequences.RemoveFirstMultiset | routes/users.js:333-334 | removing the first x takes away one copy of x when there is one, and nothing else |
| Sequences.RemoveAll | routes/users.js:327-331 | removing a list of files one by one never lengthens the list |
| Sequences.RemoveAllMultiset | routes/users.js:327-331 | the file loop takes away one copy per removed file, as far as there are copies |
| Sequences.RemoveAllNoDuplicates | routes/users.js:327-331 | on a list without duplicates, the file loop filters out the removed files |
| Sequences.RemoveFirstCommutes | routes/users.js:327-331 | removing the first occurrences of two values gives the same list in either order |
| Sequences.RemoveAllRemoveFirst | routes/users.js:327-331 | one more removal gives the same list before or after a run of removals |
| Sequences.RemoveAllExtract | routes/users.js:327-331 | any one removal of the run can be moved to its end |
| Sequences.RemoveAllPermutation | routes/users.js:322-331 | removing the same files, as a multiset, in any order leaves the same list |
| Sequences.RemoveFirstClears | routes/activityCenter.js:216-234 | when x occurs at most once, removing its first occurrence leaves none |
| Sequences.ReverseRemoveAt | routes/activityCenter.js:86-105 | removing display entry i of the reversed list is removing storage entry length - 1 - i |
| Sequences.RemoveFirstNoDuplicates | routes/users.js:333-334 | on a list without duplicates, removing the first x filters x out and keeps the list duplicate-free |
| Sequences.Without | routes/users.js:322-325 | filtering keeps exactly the entries outside the set, never lengthening the list |
| Sequences.WithoutWithout | routes/users.js:322-325 | filtering by two sets one after the other is filtering by their union |
| Sequences.WithoutNoDuplicates | routes/users.js:322-325 | filtering keeps a list duplicate-free |
| Sequences.MultisetDifferenceSum | routes/users.js:357-379 | taking away two multisets one after the other is taking away their sum |
| Models.NewUser | models/user.js:3-79 | a new user has the given strings, isPrivate false unless given true, every list empty, badge 0 and no reset token |
| Models.NewUserValid | models/user.js:3-79 | a new user passes validation exactly when username, email and password are non-empty |
| Models.NewTripFolder | models/tripFolder.js:3-33 | a new folder is unshared, has no members and no files, and both dates are the creation time |
| Models.NewTripFolderConsistent | models/tripFolder.js:3-33 | a new folder's sharing flag agrees with its member count; it is valid exactly when it has a name |
| Models.PushNotification | routes/activityCenter.js:145-146 | the notification is appended, the badge goes up by one, and no other field changes |
| Models.PushNotificationValid | models/user.js:60-78 | pushing a notification with a non-empty kind keeps a user valid |
| Models.Location | routes/activityCenter.js:151-154 | the success location when nothing was caught, else the error redirect carrying the caught error's user message |
| Models.UserDoc.Notify | routes/activityCenter.js:145-146 | the loaded user's record becomes PushNotification of its old record |
| Models.Database.FindUser | routes/activityCenter.js:123 | findById: a fresh copy of the stored user when the id is stored, null otherwise |
| Models.Database.FindFolder | routes/activityCenter.js:122 | findById on trip folders, likewise |
| Models.Database.FindUserByEmail | routes/users.js:54 | findOne({email}): null exactly when no stored user has the email, otherwise a fresh copy of one that has it |
| Models.Database.FindUserByUsername | routes/users.js:253-255 | findOne({username}): the same, for usernames |
| Models.Database.SaveUser | routes/activityCenter.js:148 | save(): the stored user becomes the document's current record; nothing else changes |
| Models.Database.SaveFolder | routes/activityCenter.js:149 | save() on a folder, likewise |
| Models.Database.DeleteUser | routes/users.js:384 | deleteOne(): the user leaves its collection; nothing else changes |
| Models.Database.DeleteFile | routes/users.js:330 | deleteOne() on a file, likewise |
| ActivityCenter.InviteIndex | routes/activityCenter.js:236-241 | the index of the first incomingRequest notification from sentBy about the folder, or -1 when there is none |
| ActivityCenter.OfKind | routes/activityCenter.js:236-243 | the notifications of one kind, each of that kind |
| ActivityCenter.Resolve | routes/activityCenter.js:216-244 | only incomingRequests and notifications of the user and outgoingRequests of the sender can change |
| ActivityCenter.ResolveContract | routes/activityCenter.js:216-244 | the two "not found" errors, exactly when and in the order the code throws them; nothing changes before the incoming entry is found; on success the first matching entry leaves each list and the first matching invite leaves the notifications; notifications of other kinds are untouched |
| ActivityCenter.OfKindRemoveAt | routes/activityCenter.js:243 | removing a notification of one kind leaves the notifications of every other kind as they were |
| ActivityCenter.ResolveClearsRequest | routes/activityCenter.js:216-244 | a request stored once on each side resolves without error and leaves no trace on either side |
| ActivityCenter.AcceptOutcome | routes/activityCenter.js:116-157 | accept fails, changing nothing, exactly when one of the three documents is missing |
| ActivityCenter.DeclineOutcome | routes/activityCenter.js:160-190 | decline fails, changing nothing, exactly when one of the three documents is missing |
| ActivityCenter.CancelOutcome | routes/activityCenter.js:193-214 | cancel fails, changing nothing, exactly when one of the three documents is missing |
| ActivityCenter.ResponseNotification | routes/activityCenter.js:138-144 | no contract; the response notification with the responder's and folder's current names; what it holds is stated in AcceptEffect and DeclineEffect |
| ActivityCenter.AcceptDocuments | routes/activityCenter.js:125-146 | no contract; the three records accept saves; AcceptOnDocuments is proved to compute it and AcceptEffect states what it holds |
| ActivityCenter.AcceptEffect | routes/activityCenter.js:116-157 | the acceptor joins the member list and the folder is shared; the folder moves from the requester's private to shared folders and is added to the acceptor's; the request is resolved on the edited documents: a pending incoming entry goes, and when the mirrored outgoing entry is there too it goes with the first matching invite notification, otherwise neither the outgoing list nor the notifications change; the requester's notifications are the old ones plus one acceptIncomingRequest notification with the current names, and its badge goes up by one; other documents and files are unchanged |
| ActivityCenter.AcceptWithoutRequest | routes/activityCenter.js:135 | with no pending request, accept still adds the acceptor to the folder and succeeds; both request lists stay as they were |
| ActivityCenter.AcceptKeepsSharingConsistent | routes/activityCenter.js:126-127 | accepting into a folder that already had a member keeps every folder's sharing flag consistent with its member count |
| ActivityCenter.AcceptClearsRequest | routes/activityCenter.js:116-157 | accepting a request stored once on each side removes it from both sides |
| ActivityCenter.DeclineEffect | routes/activityCenter.js:160-190 | folders and files are unchanged; the decliner's record is the resolution's; the requester's record is the resolution's plus one declineIncomingRequest notification and +1 badge, so its notifications are the old ones plus that one; neither side's folder lists change |
| ActivityCenter.CancelEffect | routes/activityCenter.js:193-214 | no folder or file changes and no notification or badge is added; the two users' records are the resolution's |
| ActivityCenter.AcceptKeepsBadges | routes/activityCenter.js:116-157 | accept lowers no user's badge count, even when both ids are the same user |
| ActivityCenter.DeclineKeepsBadges | routes/activityCenter.js:160-190 | decline lowers no user's badge count |
| ActivityCenter.CancelKeepsBadges | routes/activityCenter.js:193-214 | cancel changes no user's badge count |
| ActivityCenter.DeleteNotificationOutcome | routes/activityCenter.js:99-113 | success needs the user; only that user's record can change |
| ActivityCenter.ParseIndex | routes/activityCenter.js:102 | no contract; parseInt(req.query.index), NaN when the parameter is missing; its properties are in DeleteNotificationRejectsIndex and DeleteNotificationAtParsedIndex |
| ActivityCenter.DeleteNotificationByDisplayIndex | routes/activityCenter.js:99-113 | any index parseInt reads as r < n (String(r) among them) removes storage entry n-1-r, which is display entry r of the reversed list, and changes nothing else |
| ActivityCenter.DeleteNotificationRejectsIndex | routes/activityCenter.js:102-107 | a negative or unparsable index throws "Invalid notification index" and changes nothing |
| ActivityCenter.DeleteNotificationPastEnd | routes/activityCenter.js:103-106 | any index parseInt reads as r >= n still succeeds, removing storage entry 2n-1-r or the oldest entry, or nothing when there are none |
| ActivityCenter.Connective | routes/activityCenter.js:62-73 | there is a text exactly for the four known kinds |
| ActivityCenter.Template | routes/activityCenter.js:62-73 | text exactly for the four known kinds; it starts with the user name and ends with the folder name |
| ActivityCenter.TemplateDeterminesKind | routes/activityCenter.js:62-73 | two texts with the same names are equal only for the same kind |
| ActivityCenter.ActorName | routes/activityCenter.js:55-57 | the live username, shortened to 16, while the user exists; otherwise the stored fallback |
| ActivityCenter.FolderName | routes/activityCenter.js:58-60 | the live folder name, shortened to 16, while the folder exists; otherwise the fallback |
| ActivityCenter.FormatNotification | routes/activityCenter.js:50-77 | text exactly for a known kind, starting with the actor's name; null (the caught error) otherwise |
| ActivityCenter.FormatAll | routes/activityCenter.js:49-78 | one entry per notification, in order, each formatted on its own |
| ActivityCenter.ViewRequest | routes/activityCenter.js:27-31 | findById on both references: each is null exactly when its document is gone, and otherwise the stored document |
| ActivityCenter.ViewRequests | routes/activityCenter.js:25-47 | one view per request, in storage order, each the ViewRequest of that request |
| ActivityCenter.FeedView | routes/activityCenter.js:21-96 | a page is rendered exactly when the user exists; otherwise nothing changes and the error is the null dereference |
| ActivityCenter.FeedViewEffect | routes/activityCenter.js:21-96 | viewing sets the user's badge to 0 and changes nothing else; the page has one entry per notification, newest first; an entry is null exactly for an unknown kind; a deleted user shows its fallback name; both request lists keep their lengths |
| ActivityCenter.FeedShowsRequests | routes/activityCenter.js:25-88 | both request lists on the page are the looked-up lists reversed: entry i shows storage entry length - 1 - i, its user and folder null exactly when they no longer exist |
| ActivityCenter.FeedAfterDelete | routes/activityCenter.js:21-113 | deleting display entry r and viewing again shows the previous feed without entry r |
| ActivityCenter.FormatSameNames | routes/activityCenter.js:50-60 | formatting reads only usernames and folder names |
| ActivityCenter.FormatAllRemoveAt | routes/activityCenter.js:49-78 | formatting a list without entry k is the formatted list without entry k |
| ActivityCenter.FeedShowsNotifications | routes/activityCenter.js:49-91 | a signed-in user's feed is their formatted notifications, newest first |
| ActivityCenter.FeedAfterRemoval | routes/activityCenter.js:21-113 | when only storage entry length - 1 - r of my notifications goes, my next feed is the previous one without display entry r |
| ActivityCenter.FormatAfterRemove | routes/activityCenter.js:49-105 | with usernames and folders unchanged, formatting the list without storage entry length - 1 - r and reversing is the old display without entry r |
| ActivityCenter.DeleteNotificationAtParsedIndex | routes/activityCenter.js:99-113 | any index that parses to revIndex >= 0 applies splice(length - revIndex - 1, 1), negative start included, to the user's notifications, raises nothing and changes nothing else |
| ActivityCenterRoutes.RemoveRequestsAndNotifications | routes/activityCenter.js:216-244 | the two loaded users become the Resolve result, and the returned rejection is Resolve's |
| ActivityCenterRoutes.ShareFolder | routes/activityCenter.js:128-132 | the requester loses the first private copy of the folder and gains a shared one; the acceptor gains a shared one |
| ActivityCenterRoutes.AcceptOnDocuments | routes/activityCenter.js:125-146 | the three loaded documents become AcceptDocuments of their old records |
| ActivityCenterRoutes.AcceptIncomingRequest | routes/activityCenter.js:116-157 | the collections become AcceptOutcome's, and the redirect is its Location |
| ActivityCenterRoutes.DeclineIncomingRequest | routes/activityCenter.js:160-190 | the collections become DeclineOutcome's, and the redirect is its Location |
| ActivityCenterRoutes.CancelOutgoingRequest | routes/activityCenter.js:193-214 | the collections become CancelOutcome's, and the redirect is its Location |
| ActivityCenterRoutes.DeleteNotification | routes/activityCenter.js:99-113 | the collections become DeleteNotificationOutcome's, and the redirect is its Location |
| ActivityCenterRoutes.ActivityCenterPage | routes/activityCenter.js:21-96 | the collections become FeedView's; it renders FeedView's page, or redirects to / with the fallback message |
| AccountRules.IsPrivateFromForm | routes/users.js:206 | an account is public exactly when the form posts the string "false" |
| AccountRules.PrivacyFormRoundTrip | routes/users.js:273 | either posted choice reads back as that choice; a missing field means private |
| AccountRules.UserById | routes/users.js:91 | findById(req.query.user): the stored user when the id names one |
| AccountRules.IssueResetToken | routes/users.js:59-63 | no contract; stores the token's digest and an expiry one hour ahead; its properties are in IssuedTokenAccepted and SentLinkValidForAnHour |
| AccountRules.ExpiryOf | routes/users.js:102 | no contract; the expiry as the comparison reads it, a null expiry being 0; its properties are in ResetTokenError |
| AccountRules.ResetTokenError | routes/users.js:88-119 | the page renders exactly when the user exists, the token's digest is the stored one and the expiry has not passed; "Invalid token" exactly for a digest mismatch; "Expired token" exactly for a matching digest past its expiry; a missing token or user throws an error that is not a CustomErr, so the redirect shows the fallback message |
| AccountRules.ResetPageRedirect | routes/users.js:88-119 | no redirect exactly when the checks pass; otherwise the forgot-password error redirect for the error they throw |
| AccountRules.IssuedTokenAccepted | routes/users.js:57-63 | an issued token is accepted exactly until 3600000 ms after issue and expired after; any token with another digest is invalid |
| AccountRules.SendResetOutcome | routes/users.js:52-85 | an unknown email fails with "Invalid Email" and changes nothing; success exactly when a user is found and the mail is sent; a failed mail reports its message; the found user differs from its old record only in the stored token digest and an expiry one hour from now, whether or not the mail is sent, and no other user changes |
| AccountRules.SendResetLocation | routes/users.js:78-83 | no contract; the success redirect with the mail message unencoded, else ErrorRedirect, whose contract states the query |
| AccountRules.SentLinkValidForAnHour | routes/users.js:52-119 | the mailed link opens the reset page exactly until one hour after issue |
| AccountRules.ResetPasswordOutcome | routes/users.js:122-141 | mismatched passwords fail first and a missing user fails next, both changing nothing; any error changes nothing; only the named user changes |
| AccountRules.ResetPasswordLocation | routes/users.js:135-140 | no contract; the hand-built error redirect, with the query parameters and the message unencoded |
| AccountRules.ResetPasswordRevokesToken | routes/users.js:130-133 | after a reset the user has the new hash and no token, and every token is then invalid |
| AccountRules.ResetPasswordNeedsNoToken | routes/users.js:122-134 | for a valid user, matching passwords and a non-empty hash reset the password whether or not a token was issued |
| AccountRules.EmailConflictRule | routes/users.js:247-251 | whichever user findOne returns, the email test fails exactly when some user has the new email and it is not one's own; the one found is then another user; one's own email never conflicts |
| AccountRules.UsernameConflictRule | routes/users.js:253-260 | the same for usernames |
| AccountRules.IdentityError | routes/users.js:247-260 | the tests can only end in no error, the email error or the username error |
| AccountRules.SettingsOutcome | routes/users.js:238-281 | success needs the user; an error or the delete action changes nothing; only the user's record can change |
| AccountRules.EditedUser | routes/users.js:270-273 | no contract; the record the settings form saves; SettingsChecks states it |
| AccountRules.SettingsLocation | routes/users.js:240-279 | no contract; `/users/delete` for the delete action, otherwise Location, whose contract states the redirect |
| AccountRules.SettingsChecks | routes/users.js:238-281 | the checks in the code's order: alphanumeric username, email taken, username taken, password, validation; on success the saved record has the new email, username, hash and the isPrivate the form selects |
| AccountRules.SettingsKeepOwnIdentity | routes/users.js:247-275 | resubmitting one's own email and username with the right password succeeds even when other accounts share them |
| AccountRoutes.SendPasswordResetEmail | routes/users.js:52-85 | the user chosen is a possible findOne result; the collections become SendResetOutcome's; the redirect is SendResetLocation |
| AccountRoutes.ResetPassword | routes/users.js:122-141 | the collections become ResetPasswordOutcome's; the redirect is ResetPasswordLocation |
| AccountRoutes.CheckIdentity | routes/users.js:247-260 | the two findOne tests throw exactly the error IdentityError states on the collections |
| AccountRoutes.EditUser | routes/users.js:243-275 | the try block leaves the collections and the error of SettingsOutcome |
| AccountRoutes.UpdateSettings | routes/users.js:238-281 | the collections become SettingsOutcome's; the redirect is SettingsLocation |
| AccountDeletion.RemovalNotice | routes/users.js:314-320 | a removeUser notification from the user about the folder, with the user's and folder's current names as fallbacks |
| AccountDeletion.UploadsBy | routes/users.js:322-325 | the stored files listed in the folder that the user uploaded, each once |
| AccountDeletion.UploadOrderImmaterial | routes/users.js:322-331 | whatever order TripFile.find returns the matching files in, each once, the folder's file list and the files collection end as DropMember says |
| AccountDeletion.DropMember | routes/users.js:322-334 | no contract; defined by its body; its properties are in DropMemberEffect, DropMemberKeepsOthersFiles and UploadOrderImmaterial |
| AccountDeletion.DropMemberEffect | routes/users.js:322-334 | the user's first occurrence leaves the member list; each stored, listed file the user uploaded leaves the files collection and loses one copy in the folder; every other file keeps its record and copies |
| AccountDeletion.NoDuplicatesCount | routes/users.js:322-325 | in a list without duplicates each element occurs once |
| AccountDeletion.DropMemberKeepsOthersFiles | routes/users.js:322-331 | on a duplicate-free folder, the files left are exactly the ones the user did not upload |
| AccountDeletion.HandOver | routes/users.js:336-345 | only the remaining member's record can change |
| AccountDeletion.NotifyAll | routes/users.js:346-354 | the only error is the null dereference; only listed members can change |
| AccountDeletion.NotifyAllEffect | routes/users.js:346-354 | on a duplicate-free list the loop succeeds exactly when every member exists; then each member has the notice and +1 badge and everyone else is unchanged |
| AccountDeletion.Withdrawn | routes/users.js:362-376 | the search throws exactly when the folder is gone and there is a request from the user or any notification; otherwise only incoming requests change |
| AccountDeletion.PurgeRequest | routes/users.js:357-379 | an error changes nothing; only the requested user can change |
| AccountDeletion.PurgeAll | routes/users.js:357-379 | the only error is the null dereference; folders and files are untouched |
| AccountDeletion.NoticesKeepRequests | routes/users.js:336-354 | handing over and notifying change no user's incoming requests |
| AccountDeletion.MirroredRequests | routes/users.js:362-368 | every mirrored request is from the deleted user |
| AccountDeletion.PurgeAllOnlyRequests | routes/users.js:357-379 | the purge changes no notification and no field but incoming requests, whether it finishes or stops early |
| AccountDeletion.PurgeAllEffect | routes/users.js:357-379 | after any purge that succeeds, even one that skipped a request whose folder is gone, each invited user loses one copy of (user, folder) per request addressed to it, as far as it holds copies |
| AccountDeletion.PurgeAllSucceeds | routes/users.js:357-379 | when every invited user and requested folder exists, no search dereferences null and the purge succeeds |
| AccountDeletion.NoRequestFrom | routes/users.js:362-369 | a list holding no request from the user holds no request (user, folder) for any folder |
| AccountDeletion.PurgeRequestMultiset | routes/users.js:357-379 | one request of the purge removes its mirrored copy from the invited user's requests |
| AccountDeletion.FolderStep | routes/users.js:313-382 | a pass can end only in the null dereference or "Error removing folder from user data"; no user is added or removed; the user's files found in the folder are deleted whether or not the pass then fails; the folder is saved, as DropMember leaves it and private when one member remains, only when the pass succeeds |
| AccountDeletion.Demoted | routes/users.js:336-337 | no contract; defined by its body; its properties are in FolderStepKeepsSharingConsistent and FolderStepHandOver |
| AccountDeletion.FolderStepKeepsSharingConsistent | routes/users.js:333-381 | a folder whose flag agreed with its member count still agrees when saved |
| AccountDeletion.FolderStepHandOver | routes/users.js:336-345 | with one member left, the folder is saved private with that member alone; the member swaps the folder from shared to private and gets the notice and +1 badge; a folder missing from its shared list fails without saving either |
| AccountDeletion.FolderStepBroadcast | routes/users.js:346-354 | with any other number of members left, each gets the notice and +1 badge and the folder's flag is kept |
| AccountDeletion.FolderStepPurges | routes/users.js:356-381 | a successful pass withdraws the user's outgoing requests: every user, remaining member or not, loses one copy of the mirrored request per outgoing request to it |
| AccountDeletion.Cascade | routes/users.js:312-382 | the folder loop can end only in a step error; no user is added or removed |
| AccountDeletion.ListedIn | routes/users.js:322-325 | exactly the file ids listed in one of the loaded folders |
| AccountDeletion.CascadeKeepsOtherFolders | routes/users.js:312-382 | no folder is removed, and only the folders of the query are saved |
| AccountDeletion.CascadeSavesFolders | routes/users.js:312-382 | after a successful loop over folders listed once, each is saved without the user, private when one member remains, and otherwise as loaded but for its file list |
| AccountDeletion.CascadeKeepsSharingConsistent | routes/users.js:312-382 | whether the loop succeeds or stops, every folder's flag agrees with its member count |
| AccountDeletion.CascadeKeepsFiles | routes/users.js:322-331 | the loop only deletes: the files left are stored as before, and every file that is not the user's upload listed in a queried folder is left |
| AccountDeletion.CascadeDeletesUploads | routes/users.js:322-331 | after a successful loop, every upload of the user listed in a queried folder is gone |
| AccountDeletion.DeleteAccountOutcome | routes/users.js:301-390 | a missing user, a wrong email and a wrong password fail in that order, changing nothing; success needs all three right; after success the user is gone and no other user is |
| AccountDeletion.DeleteAccountLocation | routes/users.js:385-388 | no contract; Location, whose contract states the redirect |
| AccountDeletion.DeleteAccountEffect | routes/users.js:301-390 | after a successful deletion, each of the user's folders has lost the user, is private when one member remains and is otherwise as loaded except for its file list, and every other folder is unchanged; the files left are exactly those that are not the user's uploads listed in the user's folders, unchanged |
| AccountDeletion.DeleteAccountKeepsSharingConsistent | routes/users.js:301-390 | a deletion, whether it succeeds or stops part-way, keeps every folder's flag in agreement with its member count |
| AccountDeletion.DeleteChecksFirst | routes/users.js:304-309 | "Email Incorrect" exactly for a wrong email and "Password Incorrect" exactly for a wrong password alone |
| AccountDeletion.NoFoldersNoCleanup | routes/users.js:312-384 | a user in no folder is deleted with every other document untouched |
| AccountDeletion.RemovalNoticeShowsFallback | routes/users.js:314-320 | after the deletion, the removal notice names the deleted user by the fallback username |
| AccountDeletionRoutes.RemoveUploads | routes/users.js:327-331 | the folder's list becomes RemoveAll of the uploads and the files collection loses them all; nothing else changes |
| AccountDeletionRoutes.RemoveKeysStep | routes/users.js:330 | deleting one more file removes exactly the keys of the uploads handled so far |
| AccountDeletionRoutes.RemoveMemberAndUploads | routes/users.js:322-334 | the collections and folder become DropMember's |
| AccountDeletionRoutes.HandOverToLastMember | routes/users.js:338-345 | the collections and error become HandOver's |
| AccountDeletionRoutes.NotifyMembers | routes/users.js:348-353 | the collections and error become NotifyAll's |
| AccountDeletionRoutes.WithdrawFromUser | routes/users.js:362-376 | throws exactly when Withdrawn is None; otherwise the loaded user becomes Withdrawn's record |
| AccountDeletionRoutes.WithdrawRequest | routes/users.js:358-378 | the collections and error become PurgeRequest's |
| AccountDeletionRoutes.WithdrawRequests | routes/users.js:357-379 | the collections and error become PurgeAll's |
| AccountDeletionRoutes.RemoveFromFolder | routes/users.js:314-381 | the collections and error become FolderStep's for the loaded folder |
| AccountDeletionRoutes.RunCascade | routes/users.js:314-381 | the collections and error become Cascade's: one folder step per folder of the query, stopping at the first error |
| AccountDeletionRoutes.DeleteAccount | routes/users.js:301-390 | the collections become DeleteAccountOutcome's, and the redirect is DeleteAccountLocation |

## Left out

- Image uploads and file storage are left out: `routes/tripFolders.js`, multer, cloud storage. Files appear only as the uploader field the cascade reads.
- Cryptographic calls are parameters of the operations, because their algorithms are outside the scope:
  - `crypto.randomBytes` becomes the token argument, and `sha256` a function from token to digest;
  - the result of `bcrypt.compare` becomes a boolean, and `bcrypt.hash` the resulting string;
  - `Date.now()` becomes an integer.
- JWT login, `POST /users/login` and most of `POST /users/register` are not part of this model, since they are session plumbing. Only the register route's `isPrivate` parsing is modelled.
- `retrieveUser` and `verifyToken` are replaced by the signed-in user's id given as a parameter.
- The mail call is its resolved `(success, message)` pair. The mail text and the reset URL are not built.
- `isAlphaNumeric` and `shortenWordEllipsis` are parameters of the model, standing for the helpers the routes mean to call. `routes/users.js:10-15` and `routes/activityCenter.js:6-10` import them from `public/javascripts/userOperations.js`, but that file exports only `verifyToken`, `retrieveUser` and `handleVerifyTokenError` (`public/javascripts/userOperations.js:46-50`). As written, both names are `undefined`. The call at `routes/users.js:243` then throws a TypeError, so every settings update that is not the delete action ends in "Error updating user". The calls at `routes/activityCenter.js:56-60` throw inside the per-entry `try`, so every feed entry is null. The model does not capture that failure. It takes the helpers as the functions the routes evidently intend: a boolean for `isAlphaNumeric`, and a total shortening function. That way the checks and formatting after them can be stated.
- Rendering is left out: templates and the GET pages that only render. The feed is modelled up to the values passed to the template.
- Persistence is whole-record, last save wins. Mongoose's per-path change tracking and version keys are not modelled, so its `VersionError` on concurrent array edits cannot occur.
- Schema validation is checked only where the model's saves can break it: the settings and password-reset saves. Other saves only add notifications with non-empty kinds or change lists (`PushNotificationValid`).
- An id that is not a valid ObjectId would make Mongoose throw a CastError. The model treats every id as well-formed, so a missing document is always `null`.
- `parseInt` results are mathematical integers. The loss of precision above 2^53 is not modelled.
- Models.Database.FindUserByEmail: findOne returns some matching user; which one is left open, as MongoDB leaves it.
- Models.Database.FindUserByUsername: the same choice is left open for usernames.
- AccountDeletion.UploadsBy: `TripFile.find` returns documents in storage order. The model uses the order of first appearance in the folder. `UploadOrderImmaterial` shows that any order of the matching files, each once, leaves the same file list and files collection. It rests on `RemoveAllPermutation`, which is proved from `RemoveFirstCommutes`.
- AccountDeletion.DeleteAccountOutcome: the order in which `TripFolder.find` returns the user's folders is a parameter. `IsFolderQuery` states what the query returns.
- ActivityCenter.AcceptWithoutRequest: describes a runtime where an unhandled promise rejection does not end the process. Under Node's default since version 15, `--unhandled-rejections=throw`, the rejection from `removeRequestsAndNotifications` ends the process at the handler's next `await`, and `server.js` installs no handler for it, so those saves need not happen. Process termination is not modelled.
- `Promise.all` runs the lookups concurrently; the model performs them one after another. They only read, so the page is the same.
- A missing email field in the reset and settings forms is not modelled: the submitted email is always a string.
- Missing form fields are not modelled, except where the code tests them (`isPrivate`, the delete form's email, the reset token). Other fields are always strings.
- ActivityCenter.AcceptEffect: stated for two distinct users only. When both ids name one user, the handler saves two copies of one document and the second replaces the first. AcceptOutcome models that case, and AcceptKeepsBadges covers it.
- ActivityCenter.DeclineEffect: stated for two distinct users only, for the same reason. DeclineKeepsBadges covers the shared case.
- ActivityCenter.CancelEffect: stated for two distinct users only, for the same reason. CancelKeepsBadges covers the shared case.
- AccountDeletion.FolderStepBroadcast: stated for a member list without duplicates. A duplicated member is notified once per occurrence, as NotifyAll models.
- AccountDeletion.CascadeSavesFolders: states the saved folders' member lists and flags, not their file lists. A file listed in two of the user's folders is deleted at the first one, so `TripFile.find` no longer returns it at the second, and its id stays in that folder's list. DropMember models this, and CascadeDeletesUploads states which files are gone.
