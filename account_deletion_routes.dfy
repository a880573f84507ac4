/**
 * DELETE /users/delete on loaded documents: the loops of the cascade, each proved to
 * leave the collections the matching function of module AccountDeletion describes.
 */
module AccountDeletionRoutes {
  import opened Wrappers
  import opened CustomErrors
  import opened Sequences
  import opened Models
  import opened AccountDeletion

  /** Lines 327-331: each file of uploads leaves the folder's list (its first copy) and the files collection. */
  method RemoveUploads(db: Database, folder: FolderDoc, uploads: seq<Id>)
    modifies db, folder
    ensures folder.Record() == old(folder.Record()).(tripFiles := RemoveAll(old(folder.tripFiles), uploads))
    ensures db.Snapshot() == old(db.Snapshot()).(files := old(db.files) - Elements(uploads))
  {
    var i := 0;
    while i < |uploads|
      invariant 0 <= i <= |uploads|
      invariant db.files == old(db.files) - Elements(uploads[..i])
      invariant db.users == old(db.users) && db.folders == old(db.folders)
      invariant RemoveAll(folder.tripFiles, uploads[i..]) == RemoveAll(old(folder.tripFiles), uploads)
      invariant folder.Record() == old(folder.Record()).(tripFiles := folder.tripFiles)
    {
      var file := uploads[i];
      folder.tripFiles := SpliceFirst(folder.tripFiles, file);
      db.DeleteFile(file);
      assert uploads[i..][1..] == uploads[i + 1..];
      RemoveKeysStep(old(db.files), uploads, i);
      i := i + 1;
    }
    assert uploads[..i] == uploads;
  }

  /** Deleting one more key: the keys of the first i + 1 uploads are gone. */
  lemma RemoveKeysStep(files: map<Id, TripFileRecord>, uploads: seq<Id>, i: nat)
    requires i < |uploads|
    ensures files - Elements(uploads[..i]) - {uploads[i]} == files - Elements(uploads[..i + 1])
  {
    assert uploads[..i + 1] == uploads[..i] + [uploads[i]];
    assert Elements(uploads[..i + 1]) == Elements(uploads[..i]) + {uploads[i]};
  }

  /** Lines 322-334 on the loaded folder: delete me's files, then take me out of the member list. */
  method RemoveMemberAndUploads(db: Database, folder: FolderDoc, me: Id)
    modifies db, folder
    ensures var d := DropMember(old(db.Snapshot()), me, old(folder.Record()));
            db.Snapshot() == d.0 && folder.Record() == d.1
  {
    var userFilesInFolder := UploadsBy(folder.tripFiles, db.files, me);
    RemoveUploads(db, folder, userFilesInFolder);
    folder.users := SpliceFirst(folder.users, me);
  }

  /** Lines 338-345: load the remaining member, move the folder to its private folders, notify, save. */
  method HandOverToLastMember(db: Database, remId: Id, folderId: Id, notification: Notification)
    returns (err: Option<Error>)
    modifies db
    ensures var o := HandOver(old(db.Snapshot()), remId, folderId, notification);
            db.Snapshot() == o.world && err == o.err
  {
    var remUser := db.FindUser(remId);
    if remUser.None? {
      return Some(NullDereference);
    }
    var u := remUser.value;
    u.privateFolders := u.privateFolders + [folderId];
    var indexOfFolder := IndexOf(u.sharedFolders, folderId);
    if indexOfFolder > -1 {
      RemoveFirstAtIndexOf(u.sharedFolders, folderId);
      u.sharedFolders := RemoveAt(u.sharedFolders, indexOfFolder);
    } else {
      return Some(CustomErr(FolderNotShared));
    }
    u.Notify(notification);
    db.SaveUser(u);
    return None;
  }

  /** Lines 348-353: send the notification to each remaining member. */
  method NotifyMembers(db: Database, members: seq<Id>, notification: Notification) returns (err: Option<Error>)
    modifies db
    ensures var o := NotifyAll(old(db.Snapshot()), members, notification);
            db.Snapshot() == o.world && err == o.err
  {
    var i := 0;
    while i < |members|
      invariant 0 <= i <= |members|
      invariant NotifyAll(old(db.Snapshot()), members, notification) == NotifyAll(db.Snapshot(), members[i..], notification)
    {
      assert members[i..][1..] == members[i + 1..];
      var remainingUser := db.FindUser(members[i]);
      if remainingUser.None? {
        return Some(NullDereference);
      }
      var u := remainingUser.value;
      u.Notify(notification);
      db.SaveUser(u);
      i := i + 1;
    }
    return None;
  }

  /** Lines 362-376 on the loaded invited user; thrown when a search callback reads the missing folder. */
  method WithdrawFromUser(u: UserDoc, me: Id, folderId: Id, folderExists: bool) returns (thrown: bool)
    modifies u
    ensures var x := Withdrawn(old(u.Record()), me, folderId, folderExists);
            thrown == x.None? && (x.Some? ==> u.Record() == x.value)
  {
    if !folderExists {
      // The callbacks read tripFolder.id for a request from me, and tripFolder.folderName for any notification.
      thrown := HasRequestFrom(u.incomingRequests, me) || u.notifications != [];
    } else {
      u.incomingRequests := SpliceFirst(u.incomingRequests, Request(me, folderId));
      // The notification search compares each notification with a string: no index is ever found.
      thrown := false;
    }
  }

  /** Lines 358-378 for one outgoing request of me. */
  method WithdrawRequest(db: Database, me: Id, outgoingRequest: Request) returns (err: Option<Error>)
    modifies db
    ensures var o := PurgeRequest(old(db.Snapshot()), me, outgoingRequest);
            db.Snapshot() == o.world && err == o.err
  {
    var requestedUser := db.FindUser(outgoingRequest.user);
    var tripFolder := db.FindFolder(outgoingRequest.tripFolder);
    if requestedUser.None? {
      return Some(NullDereference);
    }
    var u := requestedUser.value;
    var thrown := WithdrawFromUser(u, me, outgoingRequest.tripFolder, tripFolder.Some?);
    if thrown {
      return Some(NullDereference);
    }
    db.SaveUser(u);
    return None;
  }

  /** Lines 357-379: withdraw each outgoing request in order. */
  method WithdrawRequests(db: Database, me: Id, outgoingRequests: seq<Request>) returns (err: Option<Error>)
    modifies db
    ensures var o := PurgeAll(old(db.Snapshot()), me, outgoingRequests);
            db.Snapshot() == o.world && err == o.err
  {
    var i := 0;
    while i < |outgoingRequests|
      invariant 0 <= i <= |outgoingRequests|
      invariant PurgeAll(old(db.Snapshot()), me, outgoingRequests) == PurgeAll(db.Snapshot(), me, outgoingRequests[i..])
    {
      assert outgoingRequests[i..][1..] == outgoingRequests[i + 1..];
      err := WithdrawRequest(db, me, outgoingRequests[i]);
      if err.Some? {
        return;
      }
      i := i + 1;
    }
    return None;
  }

  /** One pass of the folder loop, lines 314-381, on the loaded folder. */
  method RemoveFromFolder(db: Database, me: Id, user: UserRecord, folder: FolderDoc) returns (err: Option<Error>)
    modifies db, folder
    ensures var o := FolderStep(old(db.Snapshot()), me, user, folder.id, old(folder.Record()));
            db.Snapshot() == o.world && err == o.err
  {
    ghost var w := db.Snapshot();
    ghost var f := folder.Record();
    var notification := Notification(me, folder.id, RemoveUserKind, user.username, folder.folderName);
    RemoveMemberAndUploads(db, folder, me);
    ghost var f1 := folder.Record();
    if |folder.users| == 1 {
      folder.isShared := false;
      err := HandOverToLastMember(db, folder.users[0], folder.id, notification);
    } else {
      err := NotifyMembers(db, folder.users, notification);
    }
    if err.Some? {
      return;
    }
    err := WithdrawRequests(db, me, user.outgoingRequests);
    if err.Some? {
      return;
    }
    assert folder.Record() == Demoted(f1);
    db.SaveFolder(folder);
  }

  /** Lines 314-381: one folder step per folder of order, stopping at the first error. */
  method RunCascade(db: Database, me: Id, user: UserRecord, userFolders: map<Id, TripFolderRecord>, order: seq<Id>)
    returns (err: Option<Error>)
    requires AllLoaded(order, userFolders)
    modifies db
    ensures var o := Cascade(old(db.Snapshot()), me, user, userFolders, order);
            db.Snapshot() == o.world && err == o.err
  {
    var i := 0;
    while i < |order|
      invariant 0 <= i <= |order|
      invariant Cascade(old(db.Snapshot()), me, user, userFolders, order)
                == Cascade(db.Snapshot(), me, user, userFolders, order[i..])
    {
      assert order[i..][1..] == order[i + 1..];
      var folder := new FolderDoc(order[i], userFolders[order[i]]);
      err := RemoveFromFolder(db, me, user, folder);
      if err.Some? {
        return;
      }
      i := i + 1;
    }
    return None;
  }

  /**
   * DELETE /users/delete, signed in as me; order is the order in which
   * TripFolder.find({users: me}) returns me's folders.
   */
  method DeleteAccount(db: Database, me: Id, email: Option<string>, passwordMatches: bool, order: seq<Id>)
    returns (location: string)
    requires IsFolderQuery(db.Snapshot(), me, order)
    modifies db
    ensures var o := DeleteAccountOutcome(old(db.Snapshot()), me, email, passwordMatches, order);
            db.Snapshot() == o.world && location == DeleteAccountLocation(o)
  {
    var err: Option<Error> := None;
    var found := db.FindUser(me);
    if found.None? {
      err := Some(NullDereference);
    } else {
      var user := found.value.Record();
      if email != Some(user.email) {
        err := Some(CustomErr(EmailIncorrect));
      } else if !passwordMatches {
        err := Some(CustomErr(PasswordIncorrect));
      } else {
        // TripFolder.find loads every folder of the query at once, before the loop.
        var userFolders := db.folders;
        assert AllLoaded(order, userFolders);
        err := RunCascade(db, me, user, userFolders, order);
        if err.None? {
          db.DeleteUser(me);
        }
      }
    }
    location := if err.None? then "/users/logout" else ErrorRedirect("/users/delete", err.value, "Error deleting user");
  }
}
