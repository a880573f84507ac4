/**
 * DELETE /users/delete (routes/users.js): after the email and password checks, each of
 * the user's folders loses the user's files and the user; a folder left with one
 * member is handed to that member as a private folder, otherwise every remaining
 * member is told; the user's outgoing requests are withdrawn from the invited users;
 * the folder is saved; at the end the user document is deleted. The first error stops
 * the cascade with everything saved so far kept.
 *
 * Each step is a function from the collections to an Outcome, in the order the
 * handler performs it.
 */
module AccountDeletion {
  import opened Wrappers
  import opened CustomErrors
  import opened Sequences
  import opened Models
  import ActivityCenter

  const EmailIncorrect := "Email Incorrect"
  const PasswordIncorrect := "Password Incorrect"
  const FolderNotShared := "Error removing folder from user data"

  /** The errors a cascade step can end with. */
  predicate IsStepError(e: Error) {
    e == NullDereference || e == CustomErr(FolderNotShared)
  }

  /**
   * What TripFolder.find({users: me}) returns: every folder that has me as a member,
   * once each, in an order the store chooses.
   */
  ghost predicate IsFolderQuery(w: World, me: Id, order: seq<Id>) {
    NoDuplicates(order)
    && (forall i :: 0 <= i < |order| ==> order[i] in w.folders && me in w.folders[order[i]].users)
    && (forall id :: id in w.folders && me in w.folders[id].users ==> id in order)
  }

  predicate AllLoaded(order: seq<Id>, loaded: map<Id, TripFolderRecord>) {
    forall i :: 0 <= i < |order| ==> order[i] in loaded
  }

  /** The removeUser notification every member that stays receives, with the snapshot names. */
  function RemovalNotice(me: Id, user: UserRecord, folderId: Id, folder: TripFolderRecord): (n: Notification)
    ensures n.user == me && n.tripFolder == folderId && n.notifType == RemoveUserKind
    ensures n.fallbackUsername == user.username && n.fallbackFolderName == folder.folderName
  {
    Notification(me, folderId, RemoveUserKind, user.username, folder.folderName)
  }

  /**
   * TripFile.find({_id: {$in: tripFiles}, uploadedBy: me}): the stored files listed in
   * tripFiles that me uploaded, each once, in the order they first appear.
   */
  function UploadsBy(tripFiles: seq<Id>, files: map<Id, TripFileRecord>, me: Id): (r: seq<Id>)
    ensures NoDuplicates(r)
    ensures forall x :: x in r <==> x in tripFiles && x in files && files[x].uploadedBy == me
  {
    if tripFiles == [] then []
    else
      var x, rest := tripFiles[0], UploadsBy(tripFiles[1..], files, me);
      assert forall y :: y in tripFiles <==> y == x || y in tripFiles[1..];
      if x in files && files[x].uploadedBy == me then
        WithoutNoDuplicates(rest, {x});
        [x] + Without(rest, {x})
      else rest
  }

  /**
   * Lines 322-334: me's files leave the folder and the files collection, then the
   * first occurrence of me leaves the member list.
   */
  function DropMember(w: World, me: Id, folder: TripFolderRecord): (World, TripFolderRecord) {
    var mine := UploadsBy(folder.tripFiles, w.files, me);
    (w.(files := w.files - Elements(mine)),
     folder.(tripFiles := RemoveAll(folder.tripFiles, mine), users := RemoveFirst(folder.users, me)))
  }

  /**
   * Lines 338-345: the one remaining member gets the folder as a private folder and
   * the notice; the folder must be among its shared folders, or nothing is saved.
   */
  function HandOver(w: World, rem: Id, folderId: Id, n: Notification): (o: Outcome)
    ensures o.world.folders == w.folders && o.world.files == w.files && o.world.users.Keys == w.users.Keys
    ensures forall id :: id in w.users && id != rem ==> o.world.users[id] == w.users[id]
  {
    if rem !in w.users then Outcome(w, Some(NullDereference))
    else
      var r := w.users[rem];
      var r1 := r.(privateFolders := r.privateFolders + [folderId]);
      if folderId !in r1.sharedFolders then Outcome(w, Some(CustomErr(FolderNotShared)))
      else
        var r2 := r1.(sharedFolders := RemoveFirst(r1.sharedFolders, folderId));
        Outcome(w.(users := w.users[rem := PushNotification(r2, n)]), None)
  }

  /** Lines 348-353: each listed member, in order, is loaded, notified and saved. */
  function NotifyAll(w: World, members: seq<Id>, n: Notification): (o: Outcome)
    ensures o.err.Some? ==> o.err == Some(NullDereference)
    ensures o.world.folders == w.folders && o.world.files == w.files && o.world.users.Keys == w.users.Keys
    ensures forall id :: id in w.users && id !in members ==> o.world.users[id] == w.users[id]
    decreases |members|
  {
    if members == [] then Outcome(w, None)
    else if members[0] !in w.users then Outcome(w, Some(NullDereference))
    else NotifyAll(w.(users := w.users[members[0] := PushNotification(w.users[members[0]], n)]), members[1..], n)
  }

  /** Some request of rs comes from me: the findIndex callback reaches its second test. */
  predicate HasRequestFrom(rs: seq<Request>, me: Id) {
    rs != [] && (rs[0].user == me || HasRequestFrom(rs[1..], me))
  }

  /**
   * Lines 362-376 on the invited user r: None when a search callback throws. When the
   * folder is gone, the findIndex callback throws on the first request from me and the
   * notification search throws on the first notification. The notification search
   * compares a notification to a string and never matches, so notifications never change.
   */
  function Withdrawn(r: UserRecord, me: Id, folderId: Id, folderExists: bool): (x: Option<UserRecord>)
    ensures x.Some? ==> x.value == r.(incomingRequests := x.value.incomingRequests)
    ensures x.None? <==> !folderExists && (HasRequestFrom(r.incomingRequests, me) || r.notifications != [])
  {
    if !folderExists then
      if HasRequestFrom(r.incomingRequests, me) || r.notifications != [] then None else Some(r)
    else Some(r.(incomingRequests := RemoveFirst(r.incomingRequests, Request(me, folderId))))
  }

  /** Lines 358-378 for one outgoing request: the invited user must exist. */
  function PurgeRequest(w: World, me: Id, request: Request): (o: Outcome)
    ensures o.err.Some? ==> o == Outcome(w, Some(NullDereference))
    ensures o.world.folders == w.folders && o.world.files == w.files && o.world.users.Keys == w.users.Keys
    ensures forall id :: id in w.users && id != request.user ==> o.world.users[id] == w.users[id]
  {
    if request.user !in w.users then Outcome(w, Some(NullDereference))
    else
      var x := Withdrawn(w.users[request.user], me, request.tripFolder, request.tripFolder in w.folders);
      if x.None? then Outcome(w, Some(NullDereference))
      else Outcome(w.(users := w.users[request.user := x.value]), None)
  }

  /** Lines 357-379: the outgoing requests in order; the first error stops the loop. */
  function PurgeAll(w: World, me: Id, requests: seq<Request>): (o: Outcome)
    ensures o.err.Some? ==> o.err == Some(NullDereference)
    ensures o.world.folders == w.folders && o.world.files == w.files && o.world.users.Keys == w.users.Keys
    decreases |requests|
  {
    if requests == [] then Outcome(w, None)
    else
      var o := PurgeRequest(w, me, requests[0]);
      if o.err.Some? then o else PurgeAll(o.world, me, requests[1..])
  }

  /** The folder as it is saved: one remaining member makes it private again. */
  function Demoted(f: TripFolderRecord): TripFolderRecord {
    if |f.users| == 1 then f.(isShared := false) else f
  }

  /**
   * One pass of the folder loop, lines 314-381, for the folder loaded as folder. The
   * outgoing requests are purged inside the loop, once per folder.
   */
  function FolderStep(w: World, me: Id, user: UserRecord, folderId: Id, folder: TripFolderRecord): (o: Outcome)
    ensures o.err.Some? ==> IsStepError(o.err.value)
    ensures o.world.users.Keys == w.users.Keys
    // The user's files are deleted before anything can fail; the folder is saved only at the end.
    ensures o.world.files == DropMember(w, me, folder).0.files
    ensures o.world.folders == if o.err.None? then w.folders[folderId := Demoted(DropMember(w, me, folder).1)]
                               else w.folders
  {
    var n := RemovalNotice(me, user, folderId, folder);
    var dropped := DropMember(w, me, folder);
    var w1, f1 := dropped.0, dropped.1;
    var o2 := if |f1.users| == 1 then HandOver(w1, f1.users[0], folderId, n) else NotifyAll(w1, f1.users, n);
    if o2.err.Some? then o2
    else
      var o3 := PurgeAll(o2.world, me, user.outgoingRequests);
      if o3.err.Some? then o3
      else Outcome(o3.world.(folders := o3.world.folders[folderId := Demoted(f1)]), None)
  }

  /** The folder loop over the loaded folders in query order. */
  function Cascade(w: World, me: Id, user: UserRecord, loaded: map<Id, TripFolderRecord>, order: seq<Id>): (o: Outcome)
    requires AllLoaded(order, loaded)
    ensures o.err.Some? ==> IsStepError(o.err.value)
    ensures o.world.users.Keys == w.users.Keys
    decreases |order|
  {
    if order == [] then Outcome(w, None)
    else
      var o := FolderStep(w, me, user, order[0], loaded[order[0]]);
      if o.err.Some? then o else Cascade(o.world, me, user, loaded, order[1..])
  }

  /**
   * DELETE /users/delete, signed in as me. email is the submitted email (None when the
   * form has none), passwordMatches what bcrypt.compare resolves to, order the order in
   * which find returns the user's folders.
   */
  function DeleteAccountOutcome(w: World, me: Id, email: Option<string>, passwordMatches: bool, order: seq<Id>)
    : (o: Outcome)
    requires AllLoaded(order, w.folders)
    ensures me !in w.users ==> o == Outcome(w, Some(NullDereference))
    ensures me in w.users && email != Some(w.users[me].email) ==> o == Outcome(w, Some(CustomErr(EmailIncorrect)))
    ensures me in w.users && email == Some(w.users[me].email) && !passwordMatches
            ==> o == Outcome(w, Some(CustomErr(PasswordIncorrect)))
    ensures o.err.None? ==> me in w.users && email == Some(w.users[me].email) && passwordMatches
    ensures o.err.None? ==> me !in o.world.users && o.world.users.Keys == w.users.Keys - {me}
  {
    if me !in w.users then Outcome(w, Some(NullDereference))
    else
      var user := w.users[me];
      if email != Some(user.email) then Outcome(w, Some(CustomErr(EmailIncorrect)))
      else if !passwordMatches then Outcome(w, Some(CustomErr(PasswordIncorrect)))
      else
        var o := Cascade(w, me, user, w.folders, order);
        if o.err.Some? then o else Outcome(o.world.(users := o.world.users - {me}), None)
  }

  /** The file ids listed in the loaded folders of order. */
  function ListedIn(loaded: map<Id, TripFolderRecord>, order: seq<Id>): (r: set<Id>)
    requires AllLoaded(order, loaded)
    ensures forall x :: x in r <==> exists i :: 0 <= i < |order| && x in loaded[order[i]].tripFiles
    decreases |order|
  {
    if order == [] then {}
    else
      var rest := ListedIn(loaded, order[1..]);
      assert forall x :: x in rest <==> exists i :: 1 <= i < |order| && x in loaded[order[i]].tripFiles by {
        forall x | x in rest
          ensures exists i :: 1 <= i < |order| && x in loaded[order[i]].tripFiles
        {
          var j :| 0 <= j < |order[1..]| && x in loaded[order[1..][j]].tripFiles;
          assert order[1..][j] == order[j + 1];
        }
        forall x, i | 1 <= i < |order| && x in loaded[order[i]].tripFiles
          ensures x in rest
        {
          assert order[i] == order[1..][i - 1];
        }
      }
      Elements(loaded[order[0]].tripFiles) + rest
  }

  function DeleteAccountLocation(o: Outcome): string {
    Location(o, "/users/logout", "/users/delete", "Error deleting user")
  }

  // ---------------------------------------------------------------- lemmas

  /**
   * "Email Incorrect" is reported exactly when the email differs, and "Password
   * Incorrect" exactly when only the password is wrong: no later step can end with
   * either, and both leave the collections as they were.
   */
  lemma DeleteChecksFirst(w: World, me: Id, email: Option<string>, passwordMatches: bool, order: seq<Id>)
    requires AllLoaded(order, w.folders)
    ensures var o := DeleteAccountOutcome(w, me, email, passwordMatches, order);
            && (o.err == Some(CustomErr(EmailIncorrect)) <==> me in w.users && email != Some(w.users[me].email))
            && (o.err == Some(CustomErr(PasswordIncorrect))
                <==> (me in w.users && email == Some(w.users[me].email) && !passwordMatches))
  {
  }

  /**
   * Dropping a member: me's first occurrence leaves the member list; every stored file
   * listed in the folder that me uploaded leaves the files collection and loses one
   * copy in the folder's list; every other listed file keeps its copies and its record.
   */
  lemma DropMemberEffect(w: World, me: Id, folder: TripFolderRecord)
    ensures var d := DropMember(w, me, folder);
            var mine := UploadsBy(folder.tripFiles, w.files, me);
            && d.1.users == RemoveFirst(folder.users, me)
            && multiset(d.1.tripFiles) == multiset(folder.tripFiles) - multiset(mine)
            && (forall x :: x in folder.tripFiles && x in w.files && w.files[x].uploadedBy == me
                  ==> x !in d.0.files && multiset(d.1.tripFiles)[x] == multiset(folder.tripFiles)[x] - 1)
            && (forall x :: x in w.files && !(x in folder.tripFiles && w.files[x].uploadedBy == me)
                  ==> x in d.0.files && d.0.files[x] == w.files[x])
            && (forall x :: x in folder.tripFiles && !(x in w.files && w.files[x].uploadedBy == me)
                  ==> multiset(d.1.tripFiles)[x] == multiset(folder.tripFiles)[x])
            && d.0.users == w.users && d.0.folders == w.folders
            && d.1 == folder.(tripFiles := d.1.tripFiles, users := d.1.users)
  {
    var mine := UploadsBy(folder.tripFiles, w.files, me);
    RemoveAllMultiset(folder.tripFiles, mine);
    forall x | x in mine
      ensures multiset(mine)[x] == 1
    {
      NoDuplicatesCount(mine, x);
    }
  }

  /** In a sequence without duplicates each element occurs once. */
  lemma {:induction false} NoDuplicatesCount<T>(s: seq<T>, x: T)
    requires NoDuplicates(s) && x in s
    ensures multiset(s)[x] == 1
  {
    assert s == [s[0]] + s[1..];
    if s[0] == x {
      assert x !in s[1..];
    } else {
      assert NoDuplicates(s[1..]);
      NoDuplicatesCount(s[1..], x);
    }
  }

  /** When the folder lists no duplicates, its files are exactly those me did not upload. */
  lemma DropMemberKeepsOthersFiles(w: World, me: Id, folder: TripFolderRecord)
    requires NoDuplicates(folder.tripFiles)
    ensures var mine := UploadsBy(folder.tripFiles, w.files, me);
            DropMember(w, me, folder).1.tripFiles == Without(folder.tripFiles, Elements(mine))
  {
    RemoveAllNoDuplicates(folder.tripFiles, UploadsBy(folder.tripFiles, w.files, me));
  }

  /**
   * Lines 322-331 in any order TripFile.find may return: removing the found files from
   * the folder one after the other, in any enumeration of the matching files without
   * repeats, leaves the same file list as DropMember.
   */
  lemma UploadOrderImmaterial(w: World, me: Id, folder: TripFolderRecord, found: seq<Id>)
    requires NoDuplicates(found)
    requires forall x :: x in found <==> x in folder.tripFiles && x in w.files && w.files[x].uploadedBy == me
    ensures var mine := UploadsBy(folder.tripFiles, w.files, me);
            && RemoveAll(folder.tripFiles, found) == DropMember(w, me, folder).1.tripFiles
            && w.files - Elements(found) == DropMember(w, me, folder).0.files
  {
    var mine := UploadsBy(folder.tripFiles, w.files, me);
    forall x
      ensures multiset(found)[x] == multiset(mine)[x]
    {
      if x in found {
        NoDuplicatesCount(found, x);
        NoDuplicatesCount(mine, x);
      }
    }
    assert multiset(found) == multiset(mine);
    RemoveAllPermutation(folder.tripFiles, found, mine);
    assert Elements(found) == Elements(mine);
  }

  /** A folder whose flag agreed with its member count still agrees when it is saved. */
  lemma FolderStepKeepsSharingConsistent(w: World, me: Id, user: UserRecord, folderId: Id, folder: TripFolderRecord)
    requires me in folder.users && SharingConsistent(folder)
    requires FolderStep(w, me, user, folderId, folder).err.None?
    ensures var o := FolderStep(w, me, user, folderId, folder);
            folderId in o.world.folders && SharingConsistent(o.world.folders[folderId])
  {
    var f1 := DropMember(w, me, folder).1;
    assert |f1.users| == |folder.users| - 1;
  }

  /** Every folder's flag agrees with its member count. */
  ghost predicate AllSharingConsistent(folders: map<Id, TripFolderRecord>) {
    forall id :: id in folders ==> SharingConsistent(folders[id])
  }

  /** The cascade saves only folders of order: every other folder is as it was. */
  lemma {:induction false} CascadeKeepsOtherFolders(w: World, me: Id, user: UserRecord,
                                                    loaded: map<Id, TripFolderRecord>, order: seq<Id>)
    requires AllLoaded(order, loaded)
    ensures var o := Cascade(w, me, user, loaded, order);
            && w.folders.Keys <= o.world.folders.Keys
            && forall id :: id in o.world.folders && id !in order ==> id in w.folders && o.world.folders[id] == w.folders[id]
    decreases |order|
  {
    if order != [] {
      var o1 := FolderStep(w, me, user, order[0], loaded[order[0]]);
      if o1.err.None? {
        assert AllLoaded(order[1..], loaded);
        CascadeKeepsOtherFolders(o1.world, me, user, loaded, order[1..]);
        assert forall id :: id !in order ==> id != order[0] && id !in order[1..];
      }
    }
  }

  /**
   * A successful cascade over folders listed once each saves every one of them without
   * me and, when one member is left, private; nothing else in them changes but the file list.
   */
  lemma {:induction false} CascadeSavesFolders(w: World, me: Id, user: UserRecord,
                                               loaded: map<Id, TripFolderRecord>, order: seq<Id>)
    requires AllLoaded(order, loaded) && NoDuplicates(order)
    requires Cascade(w, me, user, loaded, order).err.None?
    ensures var o := Cascade(w, me, user, loaded, order);
            forall i :: 0 <= i < |order| ==>
              order[i] in o.world.folders &&
              var f, f' := loaded[order[i]], o.world.folders[order[i]];
              && f'.users == RemoveFirst(f.users, me)
              && f'.isShared == (|RemoveFirst(f.users, me)| != 1 && f.isShared)
              && f' == f.(tripFiles := f'.tripFiles, users := f'.users, isShared := f'.isShared)
    decreases |order|
  {
    if order != [] {
      var o1 := FolderStep(w, me, user, order[0], loaded[order[0]]);
      assert AllLoaded(order[1..], loaded);
      assert NoDuplicates(order[1..]);
      CascadeSavesFolders(o1.world, me, user, loaded, order[1..]);
      CascadeKeepsOtherFolders(o1.world, me, user, loaded, order[1..]);
      assert order[0] !in order[1..];
      forall i | 1 <= i < |order|
        ensures order[i] == order[1..][i - 1]
      {
      }
    }
  }

  /**
   * Whatever the cascade ends with, every folder agrees with its member count, when
   * every folder did and each loaded folder has me as a member: the failing step saves
   * no folder.
   */
  lemma {:induction false} CascadeKeepsSharingConsistent(w: World, me: Id, user: UserRecord,
                                                         loaded: map<Id, TripFolderRecord>, order: seq<Id>)
    requires AllLoaded(order, loaded)
    requires forall i :: 0 <= i < |order| ==> me in loaded[order[i]].users && SharingConsistent(loaded[order[i]])
    requires AllSharingConsistent(w.folders)
    ensures AllSharingConsistent(Cascade(w, me, user, loaded, order).world.folders)
    decreases |order|
  {
    if order != [] {
      var o1 := FolderStep(w, me, user, order[0], loaded[order[0]]);
      if o1.err.None? {
        FolderStepKeepsSharingConsistent(w, me, user, order[0], loaded[order[0]]);
        assert AllSharingConsistent(o1.world.folders);
        assert AllLoaded(order[1..], loaded);
        forall i | 0 <= i < |order[1..]|
          ensures me in loaded[order[1..][i]].users && SharingConsistent(loaded[order[1..][i]])
        {
          assert order[1..][i] == order[i + 1];
        }
        CascadeKeepsSharingConsistent(o1.world, me, user, loaded, order[1..]);
        assert Cascade(w, me, user, loaded, order) == Cascade(o1.world, me, user, loaded, order[1..]);
      }
    }
  }

  /**
   * The cascade only deletes files: whatever it ends with, what is left is stored as
   * it was, and every file that is not one of me's uploads listed in a folder of order is left.
   */
  lemma {:induction false} CascadeKeepsFiles(w: World, me: Id, user: UserRecord,
                                             loaded: map<Id, TripFolderRecord>, order: seq<Id>)
    requires AllLoaded(order, loaded)
    ensures var o := Cascade(w, me, user, loaded, order);
            && (forall x :: x in o.world.files ==> x in w.files && o.world.files[x] == w.files[x])
            && (forall x :: x in w.files && !(w.files[x].uploadedBy == me && x in ListedIn(loaded, order))
                  ==> x in o.world.files)
    decreases |order|
  {
    if order != [] {
      var o1 := FolderStep(w, me, user, order[0], loaded[order[0]]);
      if o1.err.None? {
        assert AllLoaded(order[1..], loaded);
        CascadeKeepsFiles(o1.world, me, user, loaded, order[1..]);
      }
    }
  }

  /** A successful cascade deletes every file me uploaded that a folder of order lists. */
  lemma {:induction false} CascadeDeletesUploads(w: World, me: Id, user: UserRecord,
                                                 loaded: map<Id, TripFolderRecord>, order: seq<Id>)
    requires AllLoaded(order, loaded)
    requires Cascade(w, me, user, loaded, order).err.None?
    ensures var o := Cascade(w, me, user, loaded, order);
            forall x :: x in w.files && w.files[x].uploadedBy == me && x in ListedIn(loaded, order)
              ==> x !in o.world.files
    decreases |order|
  {
    if order != [] {
      var o1 := FolderStep(w, me, user, order[0], loaded[order[0]]);
      assert AllLoaded(order[1..], loaded);
      CascadeDeletesUploads(o1.world, me, user, loaded, order[1..]);
      CascadeKeepsFiles(o1.world, me, user, loaded, order[1..]);
    }
  }

  /**
   * A successful deletion, with order what the folder query returns: every folder the
   * user belonged to has lost them (and is private when one member is left), every other
   * folder is as it was, and exactly the user's uploads listed in those folders are gone.
   */
  lemma DeleteAccountEffect(w: World, me: Id, email: Option<string>, passwordMatches: bool, order: seq<Id>)
    requires IsFolderQuery(w, me, order)
    requires DeleteAccountOutcome(w, me, email, passwordMatches, order).err.None?
    ensures var o := DeleteAccountOutcome(w, me, email, passwordMatches, order);
            && o.world.folders.Keys == w.folders.Keys
            && (forall id :: id in w.folders ==>
                  var f, f' := w.folders[id], o.world.folders[id];
                  if me in f.users then
                    && f'.users == RemoveFirst(f.users, me)
                    && f'.isShared == (|RemoveFirst(f.users, me)| != 1 && f.isShared)
                    && f' == f.(tripFiles := f'.tripFiles, users := f'.users, isShared := f'.isShared)
                  else f' == f)
            && (forall x :: x in o.world.files <==>
                  x in w.files && !(w.files[x].uploadedBy == me && x in ListedIn(w.folders, order)))
            && (forall x :: x in o.world.files ==> o.world.files[x] == w.files[x])
  {
    var user := w.users[me];
    CascadeKeepsOtherFolders(w, me, user, w.folders, order);
    CascadeSavesFolders(w, me, user, w.folders, order);
    CascadeKeepsFiles(w, me, user, w.folders, order);
    CascadeDeletesUploads(w, me, user, w.folders, order);
    var o := Cascade(w, me, user, w.folders, order);
    forall id | id in o.world.folders
      ensures id in w.folders
    {
      if id in order {
        var i :| 0 <= i < |order| && order[i] == id;
      }
    }
    forall id | id in w.folders && me in w.folders[id].users
      ensures o.world.folders[id].users == RemoveFirst(w.folders[id].users, me)
              && o.world.folders[id].isShared == (|RemoveFirst(w.folders[id].users, me)| != 1 && w.folders[id].isShared)
              && o.world.folders[id] == w.folders[id].(tripFiles := o.world.folders[id].tripFiles,
                                                       users := o.world.folders[id].users,
                                                       isShared := o.world.folders[id].isShared)
    {
      var i :| 0 <= i < |order| && order[i] == id;
    }
  }

  /**
   * Deleting an account keeps every folder's flag in agreement with its member count,
   * whether the deletion succeeds or stops part-way.
   */
  lemma DeleteAccountKeepsSharingConsistent(w: World, me: Id, email: Option<string>, passwordMatches: bool,
                                            order: seq<Id>)
    requires IsFolderQuery(w, me, order)
    requires AllSharingConsistent(w.folders)
    ensures AllSharingConsistent(DeleteAccountOutcome(w, me, email, passwordMatches, order).world.folders)
  {
    if me in w.users {
      CascadeKeepsSharingConsistent(w, me, w.users[me], w.folders, order);
    }
  }

  /**
   * The members that remain each get the notice and +1 badge, and nothing else changes,
   * when the list has no duplicates; a missing member stops the loop.
   */
  lemma {:induction false} NotifyAllEffect(w: World, members: seq<Id>, n: Notification)
    requires NoDuplicates(members)
    ensures var o := NotifyAll(w, members, n);
            && (o.err.None? <==> forall i :: 0 <= i < |members| ==> members[i] in w.users)
            && (o.err.None? ==> forall id :: id in w.users ==>
                  o.world.users[id] == if id in members then PushNotification(w.users[id], n) else w.users[id])
    decreases |members|
  {
    if members != [] {
      var m := members[0];
      assert NoDuplicates(members[1..]);
      assert forall i :: 1 <= i < |members| ==> members[i] == members[1..][i - 1];
      if m in w.users {
        var w1 := w.(users := w.users[m := PushNotification(w.users[m], n)]);
        NotifyAllEffect(w1, members[1..], n);
        assert m !in members[1..];
        assert forall id :: id in members <==> id == m || id in members[1..];
      }
    }
  }

  /** Handing over and notifying change no user's incoming requests. */
  lemma {:induction false} NoticesKeepRequests(w: World, rem: Id, folderId: Id, members: seq<Id>, n: Notification)
    ensures var o1, o2 := HandOver(w, rem, folderId, n), NotifyAll(w, members, n);
            forall id :: id in w.users ==>
              && o1.world.users[id].incomingRequests == w.users[id].incomingRequests
              && o2.world.users[id].incomingRequests == w.users[id].incomingRequests
    decreases |members|
  {
    if members != [] && members[0] in w.users {
      var m := members[0];
      NoticesKeepRequests(w.(users := w.users[m := PushNotification(w.users[m], n)]), rem, folderId, members[1..], n);
    }
  }

  /** The requests from me that purging rs removes from the user id: one per request to id. */
  function MirroredRequests(me: Id, id: Id, rs: seq<Request>): (r: seq<Request>)
    ensures forall i :: 0 <= i < |r| ==> r[i].user == me
  {
    if rs == [] then []
    else (if rs[0].user == id then [Request(me, rs[0].tripFolder)] else []) + MirroredRequests(me, id, rs[1..])
  }

  /** Each request's invited user exists, and so does its folder. */
  predicate RequestsResolve(w: World, rs: seq<Request>) {
    forall i :: 0 <= i < |rs| ==> rs[i].user in w.users && rs[i].tripFolder in w.folders
  }

  /** Purging never changes a notification or any field but incoming requests. */
  lemma {:induction false} PurgeAllOnlyRequests(w: World, me: Id, rs: seq<Request>)
    ensures var o := PurgeAll(w, me, rs);
            forall id :: id in w.users ==>
              o.world.users[id] == w.users[id].(incomingRequests := o.world.users[id].incomingRequests)
    decreases |rs|
  {
    if rs != [] {
      var o := PurgeRequest(w, me, rs[0]);
      if o.err.None? {
        PurgeAllOnlyRequests(o.world, me, rs[1..]);
      }
    }
  }

  /**
   * Every successful purge, whether or not each requested folder still exists: each user
   * loses one copy of the mirrored request (me, folder) per outgoing request to it, as
   * far as there are copies. When a folder is gone and the purge still goes on, the
   * invited user holds no request from me, so there is nothing to remove.
   */
  lemma {:induction false} PurgeAllEffect(w: World, me: Id, rs: seq<Request>)
    requires PurgeAll(w, me, rs).err.None?
    ensures var o := PurgeAll(w, me, rs);
            forall id :: id in w.users ==>
              multiset(o.world.users[id].incomingRequests)
              == multiset(w.users[id].incomingRequests) - multiset(MirroredRequests(me, id, rs))
    decreases |rs|
  {
    if rs != [] {
      var o := PurgeRequest(w, me, rs[0]);
      PurgeAllEffect(o.world, me, rs[1..]);
      forall id | id in w.users
        ensures multiset(PurgeAll(w, me, rs).world.users[id].incomingRequests)
                == multiset(w.users[id].incomingRequests) - multiset(MirroredRequests(me, id, rs))
      {
        PurgeRequestMultiset(w, me, rs, id);
      }
    }
  }

  /** When every invited user and folder exists, no search callback throws and the purge succeeds. */
  lemma {:induction false} PurgeAllSucceeds(w: World, me: Id, rs: seq<Request>)
    requires RequestsResolve(w, rs)
    ensures PurgeAll(w, me, rs).err.None?
    decreases |rs|
  {
    if rs != [] {
      var o := PurgeRequest(w, me, rs[0]);
      forall i | 0 <= i < |rs[1..]|
        ensures rs[1..][i].user in o.world.users && rs[1..][i].tripFolder in o.world.folders
      {
        assert rs[1..][i] == rs[i + 1];
      }
      PurgeAllSucceeds(o.world, me, rs[1..]);
    }
  }

  /** With no request from me in the list, no request (me, folder) is in it. */
  lemma {:induction false} NoRequestFrom(rs: seq<Request>, me: Id, folder: Id)
    requires !HasRequestFrom(rs, me)
    ensures Request(me, folder) !in rs
  {
    if rs != [] {
      NoRequestFrom(rs[1..], me, folder);
      assert rs == [rs[0]] + rs[1..];
    }
  }

  /** One step of PurgeAllEffect's induction, for the user id. */
  lemma PurgeRequestMultiset(w: World, me: Id, rs: seq<Request>, id: Id)
    requires rs != [] && id in w.users
    requires var o := PurgeRequest(w, me, rs[0]);
             o.err.None?
             && multiset(PurgeAll(o.world, me, rs[1..]).world.users[id].incomingRequests)
                == multiset(o.world.users[id].incomingRequests) - multiset(MirroredRequests(me, id, rs[1..]))
    ensures multiset(PurgeAll(w, me, rs).world.users[id].incomingRequests)
            == multiset(w.users[id].incomingRequests) - multiset(MirroredRequests(me, id, rs))
  {
    var o := PurgeRequest(w, me, rs[0]);
    var a := w.users[id].incomingRequests;
    var head := if rs[0].user == id then [Request(me, rs[0].tripFolder)] else [];
    assert MirroredRequests(me, id, rs) == head + MirroredRequests(me, id, rs[1..]);
    if rs[0].user == id {
      if rs[0].tripFolder in w.folders {
        RemoveFirstMultiset(a, Request(me, rs[0].tripFolder));
      } else {
        NoRequestFrom(a, me, rs[0].tripFolder);
        assert o.world.users[id].incomingRequests == a;
      }
      assert multiset(o.world.users[id].incomingRequests) == multiset(a) - multiset(head);
    } else {
      assert o.world.users[id].incomingRequests == a;
      assert multiset(head) == multiset{};
    }
    MultisetDifferenceSum(multiset(a), multiset(head), multiset(MirroredRequests(me, id, rs[1..])));
  }

  /**
   * One remaining member: the saved folder is private, and that member holds the folder
   * among its private folders instead of its shared ones and has the notice and +1
   * badge; when the folder is not among its shared folders the step fails and neither
   * the member nor the folder is saved.
   */
  lemma FolderStepHandOver(w: World, me: Id, user: UserRecord, folderId: Id, folder: TripFolderRecord)
    requires |RemoveFirst(folder.users, me)| == 1
    requires RemoveFirst(folder.users, me)[0] in w.users
    ensures var rem := RemoveFirst(folder.users, me)[0];
            var r := w.users[rem];
            var o := FolderStep(w, me, user, folderId, folder);
            && (folderId !in r.sharedFolders ==> o.err == Some(CustomErr(FolderNotShared)) && o.world.users == w.users
                                                 && o.world.folders == w.folders)
            && (o.err.None? ==>
                  && !o.world.folders[folderId].isShared
                  && o.world.folders[folderId].users == [rem]
                  && o.world.users[rem].privateFolders == r.privateFolders + [folderId]
                  && o.world.users[rem].sharedFolders == RemoveFirst(r.sharedFolders, folderId)
                  && o.world.users[rem].notifications == r.notifications + [RemovalNotice(me, user, folderId, folder)]
                  && o.world.users[rem].newNotificationCount == r.newNotificationCount + 1)
  {
    var o := FolderStep(w, me, user, folderId, folder);
    var n := RemovalNotice(me, user, folderId, folder);
    var d := DropMember(w, me, folder);
    var rem := RemoveFirst(folder.users, me)[0];
    var o2 := HandOver(d.0, rem, folderId, n);
    if o2.err.None? {
      PurgeAllOnlyRequests(o2.world, me, user.outgoingRequests);
    }
  }

  /**
   * Any other number of remaining members (none included): each of them, listed once,
   * ends the step with the notice appended and +1 badge, and the folder keeps its flag.
   */
  lemma FolderStepBroadcast(w: World, me: Id, user: UserRecord, folderId: Id, folder: TripFolderRecord)
    requires |RemoveFirst(folder.users, me)| != 1 && NoDuplicates(RemoveFirst(folder.users, me))
    requires FolderStep(w, me, user, folderId, folder).err.None?
    ensures var o := FolderStep(w, me, user, folderId, folder);
            && o.world.folders[folderId].isShared == folder.isShared
            && o.world.folders[folderId].users == RemoveFirst(folder.users, me)
            && forall id :: id in RemoveFirst(folder.users, me) ==>
                 && id in w.users
                 && o.world.users[id].notifications == w.users[id].notifications + [RemovalNotice(me, user, folderId, folder)]
                 && o.world.users[id].newNotificationCount == w.users[id].newNotificationCount + 1
  {
    var n := RemovalNotice(me, user, folderId, folder);
    var d := DropMember(w, me, folder);
    var members := RemoveFirst(folder.users, me);
    NotifyAllEffect(d.0, members, n);
    var o2 := NotifyAll(d.0, members, n);
    PurgeAllOnlyRequests(o2.world, me, user.outgoingRequests);
    forall id | id in members
      ensures id in w.users
    {
      var i :| 0 <= i < |members| && members[i] == id;
    }
  }

  /**
   * Each successful folder step withdraws the user's requests: every user, a remaining
   * member or not, loses one copy of the mirrored request per outgoing request
   * addressed to it.
   */
  lemma FolderStepPurges(w: World, me: Id, user: UserRecord, folderId: Id, folder: TripFolderRecord, id: Id)
    requires id in w.users
    requires FolderStep(w, me, user, folderId, folder).err.None?
    ensures var o := FolderStep(w, me, user, folderId, folder);
            multiset(o.world.users[id].incomingRequests)
            == multiset(w.users[id].incomingRequests) - multiset(MirroredRequests(me, id, user.outgoingRequests))
  {
    var n := RemovalNotice(me, user, folderId, folder);
    var d := DropMember(w, me, folder);
    var members := RemoveFirst(folder.users, me);
    var o2 := if |members| == 1 then HandOver(d.0, members[0], folderId, n) else NotifyAll(d.0, members, n);
    NoticesKeepRequests(d.0, if |members| == 1 then members[0] else me, folderId, members, n);
    assert o2.world.users[id].incomingRequests == w.users[id].incomingRequests;
    PurgeAllEffect(o2.world, me, user.outgoingRequests);
  }

  /**
   * The purge sits inside the folder loop: a user in no folder is deleted with every
   * other document untouched, so the invited users keep the requests from it.
   */
  lemma NoFoldersNoCleanup(w: World, me: Id, email: Option<string>, passwordMatches: bool)
    requires me in w.users && email == Some(w.users[me].email) && passwordMatches
    ensures DeleteAccountOutcome(w, me, email, passwordMatches, []) == Outcome(w.(users := w.users - {me}), None)
  {
  }

  /**
   * Once the account is gone, the feed of a member who received its removeUser notice
   * names the deleted user by the notice's fallback username.
   */
  lemma RemovalNoticeShowsFallback(w: World, me: Id, email: Option<string>, passwordMatches: bool, order: seq<Id>,
                                   folderId: Id, folder: TripFolderRecord, shorten: (string, int) -> string)
    requires AllLoaded(order, w.folders)
    requires DeleteAccountOutcome(w, me, email, passwordMatches, order).err.None?
    ensures var o := DeleteAccountOutcome(w, me, email, passwordMatches, order);
            var n := RemovalNotice(me, w.users[me], folderId, folder);
            ActivityCenter.ActorName(o.world, n, shorten) == shorten(w.users[me].username, ActivityCenter.MaxLen)
  {
  }
}
