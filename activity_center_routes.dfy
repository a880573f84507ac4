/**
 * The handlers of routes/activityCenter.js on loaded documents: each finds its
 * documents, changes their fields in place, saves them in the source's order and
 * returns the redirect; each is proved to leave the collections its Outcome function
 * in module ActivityCenter describes.
 */
module ActivityCenterRoutes {
  import opened Wrappers
  import opened CustomErrors
  import opened Sequences
  import opened Models
  import opened ActivityCenter

  const ActivityCenterPath := "/activityCenter"

  /**
   * removeRequestsAndNotifications(user, sentByUser, tripFolder): splices the two
   * documents in place and returns the error its promise is rejected with.
   */
  method RemoveRequestsAndNotifications(user: UserDoc, sentByUser: UserDoc, tripFolderId: Id)
    returns (rejection: Option<Error>)
    requires user != sentByUser
    modifies user, sentByUser
    ensures var r := Resolve(old(user.Record()), user.id, old(sentByUser.Record()), sentByUser.id, tripFolderId);
            user.Record() == r.user && sentByUser.Record() == r.sentByUser && rejection == r.rejection
  {
    var inRequestIndex := IndexOf(user.incomingRequests, Request(sentByUser.id, tripFolderId));
    if inRequestIndex > -1 {
      user.incomingRequests := RemoveAt(user.incomingRequests, inRequestIndex);
    } else {
      return Some(CustomErr(IncomingNotFound));
    }

    var outRequestIndex := IndexOf(sentByUser.outgoingRequests, Request(user.id, tripFolderId));
    if outRequestIndex > -1 {
      sentByUser.outgoingRequests := RemoveAt(sentByUser.outgoingRequests, outRequestIndex);
    } else {
      return Some(CustomErr(OutgoingNotFound));
    }

    var notificationIndex := InviteIndex(user.notifications, sentByUser.id, tripFolderId);
    if notificationIndex > -1 {
      user.notifications := RemoveAt(user.notifications, notificationIndex);
    }
    return None;
  }

  /** The folder-list half of accepting: the requester's copy moves to shared, the acceptor gains one. */
  method ShareFolder(user: UserDoc, sentByUser: UserDoc, folderId: Id)
    requires user != sentByUser
    modifies user, sentByUser
    ensures var s, u := old(sentByUser.Record()), old(user.Record());
            && sentByUser.Record() == s.(privateFolders := RemoveFirst(s.privateFolders, folderId),
                                         sharedFolders := s.sharedFolders + [folderId])
            && user.Record() == u.(sharedFolders := u.sharedFolders + [folderId])
  {
    sentByUser.privateFolders := SpliceFirst(sentByUser.privateFolders, folderId);
    sentByUser.sharedFolders := sentByUser.sharedFolders + [folderId];
    user.sharedFolders := user.sharedFolders + [folderId];
  }

  /** Lines 126-146 of the accept handler, on the three loaded documents. */
  method AcceptOnDocuments(user: UserDoc, tripFolder: FolderDoc, sentByUser: UserDoc)
    requires user != sentByUser
    modifies user, tripFolder, sentByUser
    ensures (user.Record(), tripFolder.Record(), sentByUser.Record())
            == AcceptDocuments(old(user.Record()), user.id, old(tripFolder.Record()), tripFolder.id,
                               old(sentByUser.Record()), sentByUser.id)
  {
    // The acceptor joins the folder, which becomes shared.
    tripFolder.users := tripFolder.users + [user.id];
    tripFolder.isShared := true;
    ShareFolder(user, sentByUser, tripFolder.id);

    // The call is not awaited: its rejection is dropped.
    var ignored := RemoveRequestsAndNotifications(user, sentByUser, tripFolder.id);

    sentByUser.Notify(Notification(user.id, tripFolder.id, AcceptIncomingRequestKind, user.username, tripFolder.folderName));
  }

  /** PUT /:tripID/:userID/acceptIncomingRequest, signed in as me. */
  method AcceptIncomingRequest(db: Database, me: Id, tripId: Id, userId: Id) returns (location: string)
    modifies db
    ensures var o := AcceptOutcome(old(db.Snapshot()), me, tripId, userId);
            db.Snapshot() == o.world
            && location == Location(o, ActivityCenterPath, ActivityCenterPath, "Error accepting incoming request")
  {
    ghost var w := db.Snapshot();
    var user := db.FindUser(me);
    var tripFolder := db.FindFolder(tripId);
    var sentByUser := db.FindUser(userId);
    if user.None? || tripFolder.None? || sentByUser.None? {
      return ErrorRedirect(ActivityCenterPath, NullDereference, "Error accepting incoming request");
    }
    var u, f, s := user.value, tripFolder.value, sentByUser.value;
    AcceptOnDocuments(u, f, s);
    ghost var docs := AcceptDocuments(w.users[me], me, w.folders[tripId], tripId, w.users[userId], userId);
    assert AcceptOutcome(w, me, tripId, userId).world
        == w.(users := w.users[me := docs.0][userId := docs.2], folders := w.folders[tripId := docs.1]);
    db.SaveUser(u);
    db.SaveFolder(f);
    db.SaveUser(s);
    location := ActivityCenterPath;
  }

  /** PUT /:tripID/:userID/declineIncomingRequest. */
  method DeclineIncomingRequest(db: Database, me: Id, tripId: Id, userId: Id) returns (location: string)
    modifies db
    ensures var o := DeclineOutcome(old(db.Snapshot()), me, tripId, userId);
            db.Snapshot() == o.world
            && location == Location(o, ActivityCenterPath, ActivityCenterPath, "Error rejecting incoming request")
  {
    var user := db.FindUser(me);
    var tripFolder := db.FindFolder(tripId);
    var sentByUser := db.FindUser(userId);
    if user.None? || tripFolder.None? || sentByUser.None? {
      // A null sentByUser or folder only fails inside the ignored call, which changes
      // nothing; the handler then fails reading the folder's or requester's fields.
      return ErrorRedirect(ActivityCenterPath, NullDereference, "Error rejecting incoming request");
    }
    var u, f, s := user.value, tripFolder.value, sentByUser.value;

    var ignored := RemoveRequestsAndNotifications(u, s, f.id);
    s.Notify(Notification(u.id, f.id, DeclineIncomingRequestKind, u.username, f.folderName));

    db.SaveUser(u);
    db.SaveFolder(f);
    db.SaveUser(s);
    location := ActivityCenterPath;
  }

  /** PUT /:tripID/:userID/cancelOutgoingRequest: me withdraws its request to userId. */
  method CancelOutgoingRequest(db: Database, me: Id, tripId: Id, userId: Id) returns (location: string)
    modifies db
    ensures var o := CancelOutcome(old(db.Snapshot()), me, tripId, userId);
            db.Snapshot() == o.world
            && location == Location(o, ActivityCenterPath, ActivityCenterPath, "Error cancelling outgoing request")
  {
    ghost var w := db.Snapshot();
    var user := db.FindUser(me);
    var tripFolder := db.FindFolder(tripId);
    var requestedUser := db.FindUser(userId);
    if user.Some? && tripFolder.Some? && requestedUser.Some? {
      var ignored := RemoveRequestsAndNotifications(requestedUser.value, user.value, tripId);
    }
    // With a null argument the call above fails at its first dereference, before any
    // splice; the saves below then reach the null document and throw.
    if user.None? {
      return ErrorRedirect(ActivityCenterPath, NullDereference, "Error cancelling outgoing request");
    }
    db.SaveUser(user.value);
    if tripFolder.None? {
      assert db.Snapshot() == w;
      return ErrorRedirect(ActivityCenterPath, NullDereference, "Error cancelling outgoing request");
    }
    db.SaveFolder(tripFolder.value);
    if requestedUser.None? {
      assert db.Snapshot() == w;
      return ErrorRedirect(ActivityCenterPath, NullDereference, "Error cancelling outgoing request");
    }
    db.SaveUser(requestedUser.value);
    location := ActivityCenterPath;
  }

  /** PUT /deleteNotification?index=revIndex. */
  method DeleteNotification(db: Database, me: Id, index: Option<string>) returns (location: string)
    modifies db
    ensures var o := DeleteNotificationOutcome(old(db.Snapshot()), me, index);
            db.Snapshot() == o.world
            && location == Location(o, ActivityCenterPath, ActivityCenterPath, "Error deleting notification")
  {
    ghost var w := db.Snapshot();
    var err: Option<Error> := None;
    var user := db.FindUser(me);
    var revIndex := ParseIndex(index);
    if revIndex.Some? && revIndex.value > -1 {
      if user.None? {
        err := Some(NullDereference);
      } else {
        var u := user.value;
        var storageIndex := |u.notifications| - revIndex.value - 1;
        u.notifications := SpliceOne(u.notifications, storageIndex);
        DeleteNotificationAtParsedIndex(w, me, index, revIndex.value);
        db.SaveUser(u);
      }
    } else {
      DeleteNotificationRejectsIndex(w, me, index);
      err := Some(CustomErr(InvalidNotificationIndex));
    }
    location := if err.None? then ActivityCenterPath
                else ErrorRedirect(ActivityCenterPath, err.value, "Error deleting notification");
  }

  datatype Response = Render(page: FeedPage) | Redirect(location: string)

  /** GET /: the activity center page; resets the badge before rendering. */
  method ActivityCenterPage(db: Database, me: Id, errorMessage: Option<string>, shorten: (string, int) -> string)
    returns (response: Response)
    modifies db
    ensures var r := FeedView(old(db.Snapshot()), me, errorMessage, shorten);
            db.Snapshot() == r.outcome.world
            && response == if r.page.Some? then Render(r.page.value)
                           else Redirect(ErrorRedirect("/", NullDereference, "Error displaying activity center"))
  {
    var user := db.FindUser(me);
    if user.None? {
      return Redirect(ErrorRedirect("/", NullDereference, "Error displaying activity center"));
    }
    var u := user.value;
    var w := db.Snapshot();
    var incomingRequests := ViewRequests(w, u.incomingRequests);
    var outgoingRequests := ViewRequests(w, u.outgoingRequests);
    var formattedNotifications := FormatAll(w, u.notifications, shorten);

    // Viewing the feed clears the badge.
    u.newNotificationCount := 0;
    db.SaveUser(u);

    var shownError := if errorMessage.Some? && errorMessage.value != "" then errorMessage else None;
    response := Render(FeedPage(u.Record(), Reverse(incomingRequests), Reverse(outgoingRequests),
                                Reverse(formattedNotifications), shownError));
  }
}
