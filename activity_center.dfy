/**
 * The request-resolution and notification logic of routes/activityCenter.js, as
 * functions of the stored collections. Each handler's effect is an Outcome: the
 * collections after its saves and the error its catch block received. The methods of
 * module ActivityCenterRoutes perform the same steps on loaded documents and are
 * proved to leave exactly these collections behind.
 *
 * removeRequestsAndNotifications is async and never awaited; it contains no await,
 * so its splices happen at the call and any error it throws becomes a promise
 * rejection nobody observes. The handlers therefore go on to push the response
 * notification and save, whatever it found.
 */
module ActivityCenter {
  import opened Wrappers
  import opened CustomErrors
  import opened Sequences
  import opened Models
  import JsParseInt

  const MaxLen := 16

  const IncomingNotFound := "Incoming request not found"
  const OutgoingNotFound := "Outgoing request not found"
  const InvalidNotificationIndex := "Invalid notification index"
  const InvalidNotificationType := "Error: invalid notification type detected"

  // ---------------------------------------------------------------- removeRequestsAndNotifications

  predicate IsInviteFrom(n: Notification, sentBy: Id, folder: Id) {
    n.user == sentBy && n.tripFolder == folder && n.notifType == IncomingRequestKind
  }

  /** The findIndex over notifications: the first invite from sentBy about folder, or -1. */
  function InviteIndex(ns: seq<Notification>, sentBy: Id, folder: Id): (r: int)
    ensures -1 <= r < |ns|
    ensures r == -1 <==> forall i :: 0 <= i < |ns| ==> !IsInviteFrom(ns[i], sentBy, folder)
    ensures 0 <= r ==> IsInviteFrom(ns[r], sentBy, folder)
    ensures 0 <= r ==> forall i :: 0 <= i < r ==> !IsInviteFrom(ns[i], sentBy, folder)
  {
    if ns == [] then -1
    else if IsInviteFrom(ns[0], sentBy, folder) then 0
    else
      var k := InviteIndex(ns[1..], sentBy, folder);
      if k == -1 then -1 else k + 1
  }

  /** The notifications of one kind, in order. */
  function OfKind(ns: seq<Notification>, kind: string): (r: seq<Notification>)
    ensures |r| <= |ns|
    ensures forall i :: 0 <= i < |r| ==> r[i].notifType == kind
  {
    if ns == [] then []
    else (if ns[0].notifType == kind then [ns[0]] else []) + OfKind(ns[1..], kind)
  }

  datatype Resolution = Resolution(user: UserRecord, sentByUser: UserRecord, rejection: Option<Error>)

  /**
   * removeRequestsAndNotifications(user, sentByUser, tripFolder) on two loaded users,
   * where userId and sentById are their ids: the updated documents and the error that
   * the returned promise is rejected with.
   */
  function Resolve(user: UserRecord, userId: Id, sentByUser: UserRecord, sentById: Id, folder: Id): (r: Resolution)
    // No field other than the three lists changes.
    ensures r.user == user.(incomingRequests := r.user.incomingRequests, notifications := r.user.notifications)
    ensures r.sentByUser == sentByUser.(outgoingRequests := r.sentByUser.outgoingRequests)
  {
    var inRequest := Request(sentById, folder);
    var inRequestIndex := IndexOf(user.incomingRequests, inRequest);
    if inRequestIndex == -1 then
      Resolution(user, sentByUser, Some(CustomErr(IncomingNotFound)))
    else
      var user1 := user.(incomingRequests := RemoveAt(user.incomingRequests, inRequestIndex));
      var outRequest := Request(userId, folder);
      var outRequestIndex := IndexOf(sentByUser.outgoingRequests, outRequest);
      if outRequestIndex == -1 then
        Resolution(user1, sentByUser, Some(CustomErr(OutgoingNotFound)))
      else
        var sentByUser1 := sentByUser.(outgoingRequests := RemoveAt(sentByUser.outgoingRequests, outRequestIndex));
        var notificationIndex := InviteIndex(user1.notifications, sentById, folder);
        if notificationIndex > -1 then
          Resolution(user1.(notifications := RemoveAt(user1.notifications, notificationIndex)), sentByUser1, None)
        else
          Resolution(user1, sentByUser1, None)
  }

  /**
   * What removeRequestsAndNotifications promises: the two "not found" errors in this
   * order, nothing changed before the incoming entry is found, the first matching entry
   * removed from each list and the first matching invite from the notifications, every
   * other entry kept in order.
   */
  lemma {:induction false} ResolveContract(user: UserRecord, userId: Id, sentByUser: UserRecord, sentById: Id, folder: Id)
    ensures var r := Resolve(user, userId, sentByUser, sentById, folder);
            var inRequest, outRequest := Request(sentById, folder), Request(userId, folder);
            // Only the two "not found" errors, in this order.
            && (r.rejection == Some(CustomErr(IncomingNotFound)) <==> inRequest !in user.incomingRequests)
            && (r.rejection == Some(CustomErr(OutgoingNotFound))
                <==> inRequest in user.incomingRequests && outRequest !in sentByUser.outgoingRequests)
            && (r.rejection.None? <==> inRequest in user.incomingRequests && outRequest in sentByUser.outgoingRequests)
            // Nothing changes before the incoming entry is found.
            && (inRequest !in user.incomingRequests ==> r.user == user && r.sentByUser == sentByUser)
            // Otherwise the first matching incoming entry goes, all others stay in order.
            && (inRequest in user.incomingRequests ==>
                  r.user.incomingRequests == RemoveFirst(user.incomingRequests, inRequest))
            // The outgoing list and the notifications change only when the whole resolution succeeds.
            && (r.rejection.Some? ==> r.sentByUser == sentByUser && r.user.notifications == user.notifications)
            && (r.rejection.None? ==>
                  r.sentByUser.outgoingRequests == RemoveFirst(sentByUser.outgoingRequests, outRequest))
            // On success the first matching invite notification goes, when there is one.
            && (r.rejection.None? ==>
                  var k := InviteIndex(user.notifications, sentById, folder);
                  r.user.notifications == if k == -1 then user.notifications else RemoveAt(user.notifications, k))
            // Notifications of every other kind are untouched.
            && (forall kind :: kind != IncomingRequestKind ==>
                  OfKind(r.user.notifications, kind) == OfKind(user.notifications, kind))
  {
    var inRequest, outRequest := Request(sentById, folder), Request(userId, folder);
    if inRequest in user.incomingRequests {
      RemoveFirstAtIndexOf(user.incomingRequests, inRequest);
      if outRequest in sentByUser.outgoingRequests {
        RemoveFirstAtIndexOf(sentByUser.outgoingRequests, outRequest);
        var k := InviteIndex(user.notifications, sentById, folder);
        if k > -1 {
          OfKindRemoveAt(user.notifications, k);
        }
      }
    }
  }

  /** Removing an entry of another kind leaves the entries of a kind as they were. */
  lemma {:induction false} OfKindRemoveAt(ns: seq<Notification>, i: nat)
    requires i < |ns|
    ensures forall kind :: kind != ns[i].notifType ==> OfKind(RemoveAt(ns, i), kind) == OfKind(ns, kind)
  {
    forall kind | kind != ns[i].notifType
      ensures OfKind(RemoveAt(ns, i), kind) == OfKind(ns, kind)
    {
      if i == 0 {
        assert RemoveAt(ns, i) == ns[1..];
      } else {
        OfKindRemoveAt(ns[1..], i - 1);
        assert RemoveAt(ns, i) == [ns[0]] + RemoveAt(ns[1..], i - 1);
        assert RemoveAt(ns, i)[1..] == RemoveAt(ns[1..], i - 1);
      }
    }
  }

  /**
   * When every request pair is unique, a successful resolution leaves no trace of the
   * request on either side: the mirrored pair and the invite are all gone.
   */
  lemma ResolveClearsRequest(user: UserRecord, userId: Id, sentByUser: UserRecord, sentById: Id, folder: Id)
    requires multiset(user.incomingRequests)[Request(sentById, folder)] == 1
    requires multiset(sentByUser.outgoingRequests)[Request(userId, folder)] == 1
    ensures var r := Resolve(user, userId, sentByUser, sentById, folder);
            r.rejection.None?
            && Request(sentById, folder) !in r.user.incomingRequests
            && Request(userId, folder) !in r.sentByUser.outgoingRequests
  {
    ResolveContract(user, userId, sentByUser, sentById, folder);
    RemoveFirstClears(user.incomingRequests, Request(sentById, folder));
    RemoveFirstClears(sentByUser.outgoingRequests, Request(userId, folder));
  }

  // ---------------------------------------------------------------- accept, decline, cancel

  function ResponseNotification(responderId: Id, responder: UserRecord, folderId: Id, folder: TripFolderRecord, kind: string): Notification {
    Notification(responderId, folderId, kind, responder.username, folder.folderName)
  }

  /** The three documents accept saves: the acceptor, the folder and the requester. */
  function AcceptDocuments(user: UserRecord, me: Id, tripFolder: TripFolderRecord, tripId: Id, sentByUser: UserRecord, userId: Id)
    : (UserRecord, TripFolderRecord, UserRecord)
  {
    var tripFolder1 := tripFolder.(users := tripFolder.users + [me], isShared := true);
    var sentByUser1 := sentByUser.(privateFolders := RemoveFirst(sentByUser.privateFolders, tripId),
                                   sharedFolders := sentByUser.sharedFolders + [tripId]);
    var user1 := user.(sharedFolders := user.sharedFolders + [tripId]);
    var r := Resolve(user1, me, sentByUser1, userId, tripId);
    var notification := ResponseNotification(me, r.user, tripId, tripFolder1, AcceptIncomingRequestKind);
    (r.user, tripFolder1, PushNotification(r.sentByUser, notification))
  }

  /** The accept handler (acceptIncomingRequest), the signed-in user being me. */
  function AcceptOutcome(w: World, me: Id, tripId: Id, userId: Id): (o: Outcome)
    ensures o.err.Some? <==> me !in w.users || tripId !in w.folders || userId !in w.users
    ensures o.err.Some? ==> o == Outcome(w, Some(NullDereference))
  {
    if me !in w.users || tripId !in w.folders || userId !in w.users then
      Outcome(w, Some(NullDereference))
    else
      var docs := AcceptDocuments(w.users[me], me, w.folders[tripId], tripId, w.users[userId], userId);
      var w1 := w.(users := w.users[me := docs.0]);
      var w2 := w1.(folders := w1.folders[tripId := docs.1]);
      Outcome(w2.(users := w2.users[userId := docs.2]), None)
  }

  /** The decline handler (declineIncomingRequest). */
  function DeclineOutcome(w: World, me: Id, tripId: Id, userId: Id): (o: Outcome)
    ensures o.err.Some? <==> me !in w.users || tripId !in w.folders || userId !in w.users
    ensures o.err.Some? ==> o == Outcome(w, Some(NullDereference))
  {
    if me !in w.users || tripId !in w.folders || userId !in w.users then
      Outcome(w, Some(NullDereference))
    else
      var user, tripFolder, sentByUser := w.users[me], w.folders[tripId], w.users[userId];
      var r := Resolve(user, me, sentByUser, userId, tripId);
      var notification := ResponseNotification(me, r.user, tripId, tripFolder, DeclineIncomingRequestKind);
      var sentByUser1 := PushNotification(r.sentByUser, notification);
      var w1 := w.(users := w.users[me := r.user]);
      var w2 := w1.(folders := w1.folders[tripId := tripFolder]);
      Outcome(w2.(users := w2.users[userId := sentByUser1]), None)
  }

  /**
   * The cancel handler (cancelOutgoingRequest): me withdraws the request it sent to
   * userId. When a document is missing nothing changes: the resolution stops at its
   * first step and only unchanged documents are saved before the failing save.
   */
  function CancelOutcome(w: World, me: Id, tripId: Id, userId: Id): (o: Outcome)
    ensures o.err.Some? <==> me !in w.users || tripId !in w.folders || userId !in w.users
    ensures o.err.Some? ==> o == Outcome(w, Some(NullDereference))
  {
    if me !in w.users || tripId !in w.folders || userId !in w.users then
      Outcome(w, Some(NullDereference))
    else
      var user, tripFolder, requestedUser := w.users[me], w.folders[tripId], w.users[userId];
      var r := Resolve(requestedUser, userId, user, me, tripId);
      var w1 := w.(users := w.users[me := r.sentByUser]);
      var w2 := w1.(folders := w1.folders[tripId := tripFolder]);
      Outcome(w2.(users := w2.users[userId := r.user]), None)
  }

  /** Every user's badge count in w' is at least what it was in w. */
  ghost predicate BadgesKept(w: World, w': World) {
    forall id :: id in w.users && id in w'.users ==>
      w.users[id].newNotificationCount <= w'.users[id].newNotificationCount
  }

  /**
   * Accepting when all three documents exist: the acceptor joins the folder (even when
   * already a member), the folder becomes shared, the folder moves from the
   * requester's private to shared folders and is added to the acceptor's shared
   * folders, and the requester gets one acceptIncomingRequest notification and +1 badge.
   * The request is resolved on the two edited documents: a pending incoming entry is
   * removed, and when the mirrored outgoing entry is there too, it is removed with the
   * first matching invite notification.
   */
  lemma {:induction false} AcceptEffect(w: World, me: Id, tripId: Id, userId: Id)
    requires me in w.users && tripId in w.folders && userId in w.users && me != userId
    ensures var o := AcceptOutcome(w, me, tripId, userId);
            var f, f' := w.folders[tripId], o.world.folders[tripId];
            var s, s' := w.users[userId], o.world.users[userId];
            var u, u' := w.users[me], o.world.users[me];
            var inRequest, outRequest := Request(userId, tripId), Request(me, tripId);
            var r := Resolve(u.(sharedFolders := u.sharedFolders + [tripId]), me,
                             s.(privateFolders := RemoveFirst(s.privateFolders, tripId),
                                sharedFolders := s.sharedFolders + [tripId]), userId, tripId);
            && o.err.None?
            && f' == f.(users := f.users + [me], isShared := true)
            && s'.privateFolders == RemoveFirst(s.privateFolders, tripId)
            && s'.sharedFolders == s.sharedFolders + [tripId]
            && u'.sharedFolders == u.sharedFolders + [tripId]
            && u' == r.user
            && s'.outgoingRequests == r.sentByUser.outgoingRequests
            && s'.notifications
               == s.notifications + [Notification(me, tripId, AcceptIncomingRequestKind, u.username, f.folderName)]
            && s'.newNotificationCount == s.newNotificationCount + 1
            && u'.newNotificationCount == u.newNotificationCount
            && (inRequest in u.incomingRequests ==>
                  u'.incomingRequests == RemoveFirst(u.incomingRequests, inRequest))
            && (inRequest in u.incomingRequests && outRequest in s.outgoingRequests ==>
                  var k := InviteIndex(u.notifications, userId, tripId);
                  && s'.outgoingRequests == RemoveFirst(s.outgoingRequests, outRequest)
                  && u'.notifications == if k == -1 then u.notifications else RemoveAt(u.notifications, k))
            && (inRequest !in u.incomingRequests || outRequest !in s.outgoingRequests ==>
                  s'.outgoingRequests == s.outgoingRequests && u'.notifications == u.notifications)
            && o.world.users.Keys == w.users.Keys && o.world.folders.Keys == w.folders.Keys
            && o.world.files == w.files
            && (forall id :: id in w.users && id != me && id != userId ==> o.world.users[id] == w.users[id])
            && (forall id :: id in w.folders && id != tripId ==> o.world.folders[id] == w.folders[id])
  {
    var s := w.users[userId];
    var s1 := s.(privateFolders := RemoveFirst(s.privateFolders, tripId), sharedFolders := s.sharedFolders + [tripId]);
    var u1 := w.users[me].(sharedFolders := w.users[me].sharedFolders + [tripId]);
    ResolveContract(u1, me, s1, userId, tripId);
  }

  /**
   * The unobserved rejection: accepting with no pending request still joins the folder
   * and succeeds; the acceptor's request list is left as it was.
   */
  lemma AcceptWithoutRequest(w: World, me: Id, tripId: Id, userId: Id)
    requires me in w.users && tripId in w.folders && userId in w.users && me != userId
    requires Request(userId, tripId) !in w.users[me].incomingRequests
    ensures var o := AcceptOutcome(w, me, tripId, userId);
            && o.err.None?
            && o.world.folders[tripId].users == w.folders[tripId].users + [me]
            && o.world.users[me].incomingRequests == w.users[me].incomingRequests
            && o.world.users[userId].outgoingRequests == w.users[userId].outgoingRequests
  {
    var s := w.users[userId];
    var s1 := s.(privateFolders := RemoveFirst(s.privateFolders, tripId), sharedFolders := s.sharedFolders + [tripId]);
    var u1 := w.users[me].(sharedFolders := w.users[me].sharedFolders + [tripId]);
    ResolveContract(u1, me, s1, userId, tripId);
  }

  /** Accept keeps the sharing flag consistent for a folder that already had a member. */
  lemma AcceptKeepsSharingConsistent(w: World, me: Id, tripId: Id, userId: Id)
    requires tripId in w.folders && |w.folders[tripId].users| >= 1
    requires forall id :: id in w.folders ==> SharingConsistent(w.folders[id])
    ensures var o := AcceptOutcome(w, me, tripId, userId);
            forall id :: id in o.world.folders ==> SharingConsistent(o.world.folders[id])
  {
  }

  /** A well-formed request (both pairs present, once each) is fully cleared by accepting it. */
  lemma AcceptClearsRequest(w: World, me: Id, tripId: Id, userId: Id)
    requires me in w.users && tripId in w.folders && userId in w.users && me != userId
    requires multiset(w.users[me].incomingRequests)[Request(userId, tripId)] == 1
    requires multiset(w.users[userId].outgoingRequests)[Request(me, tripId)] == 1
    ensures var o := AcceptOutcome(w, me, tripId, userId);
            && Request(userId, tripId) !in o.world.users[me].incomingRequests
            && Request(me, tripId) !in o.world.users[userId].outgoingRequests
  {
    var s := w.users[userId];
    var s1 := s.(privateFolders := RemoveFirst(s.privateFolders, tripId), sharedFolders := s.sharedFolders + [tripId]);
    var u1 := w.users[me].(sharedFolders := w.users[me].sharedFolders + [tripId]);
    ResolveClearsRequest(u1, me, s1, userId, tripId);
  }

  /**
   * Declining when all three documents exist: no membership changes; the requester
   * gets one declineIncomingRequest notification and +1 badge.
   */
  lemma {:induction false} DeclineEffect(w: World, me: Id, tripId: Id, userId: Id)
    requires me in w.users && tripId in w.folders && userId in w.users && me != userId
    ensures var o := DeclineOutcome(w, me, tripId, userId);
            var s, s' := w.users[userId], o.world.users[userId];
            var u, u' := w.users[me], o.world.users[me];
            var r := Resolve(u, me, s, userId, tripId);
            && o.err.None?
            && o.world.folders == w.folders && o.world.files == w.files
            && u' == r.user
            && s' == PushNotification(r.sentByUser,
                       Notification(me, tripId, DeclineIncomingRequestKind, u.username, w.folders[tripId].folderName))
            && s'.notifications == s.notifications
               + [Notification(me, tripId, DeclineIncomingRequestKind, u.username, w.folders[tripId].folderName)]
            && s'.newNotificationCount == s.newNotificationCount + 1
            && s'.privateFolders == s.privateFolders && s'.sharedFolders == s.sharedFolders
            && u'.newNotificationCount == u.newNotificationCount
            && (forall id :: id in w.users && id != me && id != userId ==> o.world.users[id] == w.users[id])
  {
  }

  /** Cancelling pushes no notification and changes no folder list and no badge. */
  lemma {:induction false} CancelEffect(w: World, me: Id, tripId: Id, userId: Id)
    requires me in w.users && tripId in w.folders && userId in w.users && me != userId
    ensures var o := CancelOutcome(w, me, tripId, userId);
            var r := Resolve(w.users[userId], userId, w.users[me], me, tripId);
            && o.err.None?
            && o.world.folders == w.folders && o.world.files == w.files
            && o.world.users == w.users[me := r.sentByUser][userId := r.user]
            && o.world.users[me].notifications == w.users[me].notifications
            && o.world.users[userId].notifications == r.user.notifications
            && |o.world.users[userId].notifications| <= |w.users[userId].notifications|
            && o.world.users[me].newNotificationCount == w.users[me].newNotificationCount
            && o.world.users[userId].newNotificationCount == w.users[userId].newNotificationCount
  {
    ResolveContract(w.users[userId], userId, w.users[me], me, tripId);
  }

  /** Accept lowers no badge count, even when me and userId coincide. */
  lemma AcceptKeepsBadges(w: World, me: Id, tripId: Id, userId: Id)
    ensures BadgesKept(w, AcceptOutcome(w, me, tripId, userId).world)
  {
    if me in w.users && tripId in w.folders && userId in w.users {
      var u, s := w.users[me], w.users[userId];
      var s1 := s.(privateFolders := RemoveFirst(s.privateFolders, tripId), sharedFolders := s.sharedFolders + [tripId]);
      var u1 := u.(sharedFolders := u.sharedFolders + [tripId]);
      var r := Resolve(u1, me, s1, userId, tripId);
      assert r.user.newNotificationCount == u.newNotificationCount;
      assert r.sentByUser.newNotificationCount == s.newNotificationCount;
    }
  }

  /** Decline lowers no badge count. */
  lemma DeclineKeepsBadges(w: World, me: Id, tripId: Id, userId: Id)
    ensures BadgesKept(w, DeclineOutcome(w, me, tripId, userId).world)
  {
    if me in w.users && tripId in w.folders && userId in w.users {
      var r := Resolve(w.users[me], me, w.users[userId], userId, tripId);
      assert r.user.newNotificationCount == w.users[me].newNotificationCount;
      assert r.sentByUser.newNotificationCount == w.users[userId].newNotificationCount;
    }
  }

  /** Cancel changes no badge count at all. */
  lemma CancelKeepsBadges(w: World, me: Id, tripId: Id, userId: Id)
    ensures var w' := CancelOutcome(w, me, tripId, userId).world;
            w'.users.Keys == w.users.Keys
            && forall id :: id in w.users ==> w'.users[id].newNotificationCount == w.users[id].newNotificationCount
  {
    if me in w.users && tripId in w.folders && userId in w.users {
      var r := Resolve(w.users[userId], userId, w.users[me], me, tripId);
      assert r.user.newNotificationCount == w.users[userId].newNotificationCount;
      assert r.sentByUser.newNotificationCount == w.users[me].newNotificationCount;
    }
  }

  // ---------------------------------------------------------------- deleteNotification

  /** The index query parameter as parseInt reads it (parseInt(undefined) is NaN). */
  function ParseIndex(index: Option<string>): Option<int> {
    if index.Some? then JsParseInt.ParseInt(index.value) else None
  }

  /**
   * deleteNotification with ?index=revIndex, an index into the reversed (newest first)
   * list the feed shows: it splices storage position length - revIndex - 1.
   */
  function DeleteNotificationOutcome(w: World, me: Id, index: Option<string>): (o: Outcome)
    ensures o.err.None? ==> me in w.users
    ensures o.world.folders == w.folders && o.world.files == w.files
    ensures o.world.users.Keys == w.users.Keys
    ensures forall id :: id in w.users && id != me ==> o.world.users[id] == w.users[id]
  {
    var revIndex := ParseIndex(index);
    if revIndex.None? || !(revIndex.value > -1) then
      Outcome(w, Some(CustomErr(InvalidNotificationIndex)))
    else if me !in w.users then
      Outcome(w, Some(NullDereference))
    else
      var user := w.users[me];
      var storageIndex := |user.notifications| - revIndex.value - 1;
      var user1 := user.(notifications := SpliceOne(user.notifications, storageIndex));
      Outcome(w.(users := w.users[me := user1]), None)
  }

  /**
   * Any index that parses to a number revIndex >= 0 succeeds and splices storage
   * position n - revIndex - 1, with splice's treatment of a negative start.
   */
  lemma DeleteNotificationAtParsedIndex(w: World, me: Id, index: Option<string>, revIndex: nat)
    requires me in w.users && ParseIndex(index) == Some(revIndex)
    ensures var ns := w.users[me].notifications;
            DeleteNotificationOutcome(w, me, index)
            == Outcome(w.(users := w.users[me := w.users[me].(notifications := SpliceOne(ns, |ns| - revIndex - 1))]), None)
  {
  }

  /**
   * For 0 <= r < n, an index parseInt reads as r (String(r) among them, by
   * JsParseInt.ParseIntDecimal) removes storage entry n-1-r: display entry r.
   */
  lemma DeleteNotificationByDisplayIndex(w: World, me: Id, index: Option<string>, r: nat)
    requires me in w.users && r < |w.users[me].notifications| && ParseIndex(index) == Some(r)
    ensures var o := DeleteNotificationOutcome(w, me, index);
            var ns, ns' := w.users[me].notifications, o.world.users[me].notifications;
            && o.err.None?
            && ns' == RemoveAt(ns, |ns| - 1 - r)
            && Reverse(ns') == RemoveAt(Reverse(ns), r)
            && o.world.users[me] == w.users[me].(notifications := ns')
  {
    DeleteNotificationAtParsedIndex(w, me, index, r);
    var ns := w.users[me].notifications;
    assert SpliceOne(ns, |ns| - r - 1) == RemoveAt(ns, |ns| - 1 - r);
    ReverseRemoveAt(ns, r);
  }

  /** A negative or unparsable index fails with "Invalid notification index" and changes nothing. */
  lemma DeleteNotificationRejectsIndex(w: World, me: Id, index: Option<string>)
    requires ParseIndex(index).None? || ParseIndex(index).value < 0
    ensures DeleteNotificationOutcome(w, me, index) == Outcome(w, Some(CustomErr(InvalidNotificationIndex)))
  {
  }

  /**
   * The missing upper bound: an index n <= r < 2n removes storage entry 2n-1-r (splice
   * counts a negative start from the end), a larger one the oldest entry, and with no
   * notifications at all the request still succeeds.
   */
  lemma DeleteNotificationPastEnd(w: World, me: Id, index: Option<string>, r: int)
    requires me in w.users && |w.users[me].notifications| <= r && ParseIndex(index) == Some(r)
    ensures var o := DeleteNotificationOutcome(w, me, index);
            var ns, ns' := w.users[me].notifications, o.world.users[me].notifications;
            && o.err.None?
            && (ns == [] ==> ns' == [])
            && (ns != [] && r < 2 * |ns| ==> ns' == RemoveAt(ns, 2 * |ns| - 1 - r))
            && (ns != [] && 2 * |ns| <= r ==> ns' == ns[1..])
  {
    DeleteNotificationAtParsedIndex(w, me, index, r);
    SpliceOneFromEnd(w.users[me].notifications, r);
  }

  // ---------------------------------------------------------------- the feed

  predicate IsKnownKind(kind: string) {
    kind == IncomingRequestKind || kind == RemoveUserKind
    || kind == AcceptIncomingRequestKind || kind == DeclineIncomingRequestKind
  }

  /** The text between the two names, per kind. */
  function Connective(kind: string): (r: Option<string>)
    ensures r.Some? <==> IsKnownKind(kind)
  {
    if kind == IncomingRequestKind then Some(" invited you to join: ")
    else if kind == RemoveUserKind then Some(" left shared folder: ")
    else if kind == AcceptIncomingRequestKind then Some(" has joined ")
    else if kind == DeclineIncomingRequestKind then Some(" declined to join ")
    else None
  }

  /** The switch: `${name}<connective>${folder}` per kind, None (the CustomErr, caught) otherwise. */
  function Template(kind: string, name: string, folder: string): (r: Option<string>)
    ensures r.Some? <==> IsKnownKind(kind)
    ensures r.Some? ==> |name| + |folder| <= |r.value|
    ensures r.Some? ==> r.value[..|name|] == name && r.value[|r.value| - |folder|..] == folder
  {
    match Connective(kind)
    case None => None
    case Some(c) =>
      var s := name + c + folder;
      assert s[..|name|] == name && s[|s| - |folder|..] == folder;
      Some(s)
  }

  /** The text names the kind: templates with the same names and different kinds differ. */
  lemma TemplateDeterminesKind(k1: string, k2: string, name: string, folder: string)
    requires Template(k1, name, folder).Some? && Template(k1, name, folder) == Template(k2, name, folder)
    ensures k1 == k2
  {
    var c1, c2 := Connective(k1).value, Connective(k2).value;
    var s := name + c1 + folder;
    assert s == name + c2 + folder;
    assert |c1| == |c2|;
    assert c1 == s[|name|..|name| + |c1|];
    assert c2 == s[|name|..|name| + |c2|];
  }

  /** The name shown for a notification's user: live if the user still exists, else the fallback. */
  function ActorName(w: World, n: Notification, shorten: (string, int) -> string): (r: string)
    ensures n.user in w.users ==> r == shorten(w.users[n.user].username, MaxLen)
    ensures n.user !in w.users ==> r == shorten(n.fallbackUsername, MaxLen)
  {
    shorten(if n.user in w.users then w.users[n.user].username else n.fallbackUsername, MaxLen)
  }

  function FolderName(w: World, n: Notification, shorten: (string, int) -> string): (r: string)
    ensures n.tripFolder in w.folders ==> r == shorten(w.folders[n.tripFolder].folderName, MaxLen)
    ensures n.tripFolder !in w.folders ==> r == shorten(n.fallbackFolderName, MaxLen)
  {
    shorten(if n.tripFolder in w.folders then w.folders[n.tripFolder].folderName else n.fallbackFolderName, MaxLen)
  }

  /** One formatted notification; None is the null that the per-entry catch returns. */
  function FormatNotification(w: World, n: Notification, shorten: (string, int) -> string): (r: Option<string>)
    ensures r.Some? <==> IsKnownKind(n.notifType)
    ensures r.Some? ==> |ActorName(w, n, shorten)| <= |r.value|
    ensures r.Some? ==> r.value[..|ActorName(w, n, shorten)|] == ActorName(w, n, shorten)
  {
    Template(n.notifType, ActorName(w, n, shorten), FolderName(w, n, shorten))
  }

  /** The formatted list, in storage order: one entry per notification, failures kept as None. */
  function FormatAll(w: World, ns: seq<Notification>, shorten: (string, int) -> string): (r: seq<Option<string>>)
    ensures |r| == |ns|
    ensures forall i :: 0 <= i < |ns| ==> r[i] == FormatNotification(w, ns[i], shorten)
  {
    if ns == [] then [] else [FormatNotification(w, ns[0], shorten)] + FormatAll(w, ns[1..], shorten)
  }

  /** An entry of incomingRequests or outgoingRequests with both references looked up. */
  datatype RequestView = RequestView(user: Option<UserRecord>, tripFolder: Option<TripFolderRecord>)

  /** findById on both references: null exactly when the document is gone, else the stored one. */
  function ViewRequest(w: World, r: Request): (v: RequestView)
    ensures v.user.Some? <==> r.user in w.users
    ensures v.user.Some? ==> v.user.value == w.users[r.user]
    ensures v.tripFolder.Some? <==> r.tripFolder in w.folders
    ensures v.tripFolder.Some? ==> v.tripFolder.value == w.folders[r.tripFolder]
  {
    RequestView(if r.user in w.users then Some(w.users[r.user]) else None,
                if r.tripFolder in w.folders then Some(w.folders[r.tripFolder]) else None)
  }

  /** The Promise.all over a request list: one view per entry, in storage order. */
  function ViewRequests(w: World, rs: seq<Request>): (r: seq<RequestView>)
    ensures |r| == |rs|
    ensures forall i :: 0 <= i < |rs| ==> r[i] == ViewRequest(w, rs[i])
  {
    if rs == [] then [] else [ViewRequest(w, rs[0])] + ViewRequests(w, rs[1..])
  }

  /** What the activity center page renders; every list newest first. */
  datatype FeedPage = FeedPage(
    user: UserRecord,
    incomingRequests: seq<RequestView>,
    outgoingRequests: seq<RequestView>,
    formattedNotifications: seq<Option<string>>,
    errorMessage: Option<string>)

  datatype FeedResult = FeedResult(outcome: Outcome, page: Option<FeedPage>)

  /** The page handler: look everything up, reset the badge, save, render the lists reversed. */
  function FeedView(w: World, me: Id, errorMessage: Option<string>, shorten: (string, int) -> string): (r: FeedResult)
    ensures r.page.Some? <==> r.outcome.err.None?
    ensures r.outcome.err.Some? ==> r.outcome == Outcome(w, Some(NullDereference))
  {
    if me !in w.users then FeedResult(Outcome(w, Some(NullDereference)), None)
    else
      var user := w.users[me];
      var incoming := ViewRequests(w, user.incomingRequests);
      var outgoing := ViewRequests(w, user.outgoingRequests);
      var formatted := FormatAll(w, user.notifications, shorten);
      var user1 := user.(newNotificationCount := 0);
      var page := FeedPage(user1, Reverse(incoming), Reverse(outgoing), Reverse(formatted),
                           if errorMessage.Some? && errorMessage.value != "" then errorMessage else None);
      FeedResult(Outcome(w.(users := w.users[me := user1]), None), Some(page))
  }

  /**
   * The page's request lists are the looked-up lists reversed: entry i is the request
   * |rs| - 1 - i, its user and folder shown exactly when they still exist.
   */
  lemma FeedShowsRequests(w: World, me: Id, errorMessage: Option<string>, shorten: (string, int) -> string)
    requires me in w.users
    ensures var p := FeedView(w, me, errorMessage, shorten).page.value;
            var ins, outs := w.users[me].incomingRequests, w.users[me].outgoingRequests;
            && p.incomingRequests == Reverse(ViewRequests(w, ins))
            && p.outgoingRequests == Reverse(ViewRequests(w, outs))
            && (forall i :: 0 <= i < |ins| ==>
                  && (p.incomingRequests[i].user.Some? <==> ins[|ins| - 1 - i].user in w.users)
                  && (p.incomingRequests[i].tripFolder.Some? <==> ins[|ins| - 1 - i].tripFolder in w.folders))
            && (forall i :: 0 <= i < |outs| ==>
                  && (p.outgoingRequests[i].user.Some? <==> outs[|outs| - 1 - i].user in w.users)
                  && (p.outgoingRequests[i].tripFolder.Some? <==> outs[|outs| - 1 - i].tripFolder in w.folders))
  {
    var p := FeedView(w, me, errorMessage, shorten).page.value;
    ReversedViews(w, w.users[me].incomingRequests, p.incomingRequests);
    ReversedViews(w, w.users[me].outgoingRequests, p.outgoingRequests);
  }

  /** Entry i of the reversed views is the view of request |rs| - 1 - i. */
  lemma ReversedViews(w: World, rs: seq<Request>, v: seq<RequestView>)
    requires v == Reverse(ViewRequests(w, rs))
    ensures forall i :: 0 <= i < |rs| ==>
              && (v[i].user.Some? <==> rs[|rs| - 1 - i].user in w.users)
              && (v[i].tripFolder.Some? <==> rs[|rs| - 1 - i].tripFolder in w.folders)
  {
  }

  /**
   * Viewing the feed sets me's badge to 0 and changes nothing else; the page shows one
   * entry per notification, newest first, None exactly for an unknown kind, and the
   * fallback names for a user or folder that no longer exists.
   */
  lemma {:induction false} FeedViewEffect(w: World, me: Id, errorMessage: Option<string>, shorten: (string, int) -> string)
    requires me in w.users
    ensures var r := FeedView(w, me, errorMessage, shorten);
            var ns := w.users[me].notifications;
            && r.outcome.err.None?
            && r.outcome.world == w.(users := w.users[me := w.users[me].(newNotificationCount := 0)])
            && r.page.value.user.newNotificationCount == 0
            && |r.page.value.formattedNotifications| == |ns|
            && (forall i :: 0 <= i < |ns| ==>
                  var n := ns[|ns| - 1 - i];
                  && (r.page.value.formattedNotifications[i].None? <==> !IsKnownKind(n.notifType))
                  && (n.user !in w.users ==>
                        r.page.value.formattedNotifications[i]
                        == Template(n.notifType, shorten(n.fallbackUsername, MaxLen), FolderName(w, n, shorten))))
            && |r.page.value.incomingRequests| == |w.users[me].incomingRequests|
            && |r.page.value.outgoingRequests| == |w.users[me].outgoingRequests|
  {
  }

  /**
   * Deleting display entry r and viewing the feed again shows the previous feed without
   * its entry r.
   */
  lemma {:induction false} FeedAfterDelete(w: World, me: Id, r: nat, shorten: (string, int) -> string)
    requires me in w.users && r < |w.users[me].notifications|
    ensures var before := FeedView(w, me, None, shorten).page.value.formattedNotifications;
            var w' := DeleteNotificationOutcome(w, me, Some(JsParseInt.IntToDecimal(r))).world;
            var after := FeedView(w', me, None, shorten).page.value.formattedNotifications;
            after == RemoveAt(before, r)
  {
    JsParseInt.ParseIntDecimal(r);
    DeleteNotificationByDisplayIndex(w, me, Some(JsParseInt.IntToDecimal(r)), r);
    var w' := DeleteNotificationOutcome(w, me, Some(JsParseInt.IntToDecimal(r))).world;
    FeedAfterRemoval(w, w', me, r, shorten);
  }

  /** The feed of a world where only me's display entry r was removed. */
  lemma FeedAfterRemoval(w: World, w': World, me: Id, r: nat, shorten: (string, int) -> string)
    requires me in w.users && r < |w.users[me].notifications|
    requires w'.users.Keys == w.users.Keys && w'.folders == w.folders
    requires forall id :: id in w.users && id != me ==> w'.users[id] == w.users[id]
    requires var ns := w.users[me].notifications;
             w'.users[me] == w.users[me].(notifications := RemoveAt(ns, |ns| - 1 - r))
    ensures FeedView(w', me, None, shorten).page.Some? && FeedView(w, me, None, shorten).page.Some?
    ensures FeedView(w', me, None, shorten).page.value.formattedNotifications
            == RemoveAt(FeedView(w, me, None, shorten).page.value.formattedNotifications, r)
  {
    var ns := w.users[me].notifications;
    var ns' := w'.users[me].notifications;
    assert ns' == RemoveAt(ns, |ns| - 1 - r);
    forall id | id in w.users
      ensures w'.users[id].username == w.users[id].username
    {
    }
    FeedShowsNotifications(w, me, shorten);
    FeedShowsNotifications(w', me, shorten);
    var before := Reverse(FormatAll(w, ns, shorten));
    var after := Reverse(FormatAll(w', ns', shorten));
    assert FeedView(w, me, None, shorten).page.value.formattedNotifications == before;
    assert FeedView(w', me, None, shorten).page.value.formattedNotifications == after;
    FormatAfterRemove(w, w', ns, r, shorten);
    assert after == RemoveAt(before, r);
  }

  /** Formatting after removing storage entry n-1-r, in a world with the same names, is removing display entry r. */
  lemma FormatAfterRemove(w: World, w': World, ns: seq<Notification>, r: nat, shorten: (string, int) -> string)
    requires r < |ns|
    requires w'.users.Keys == w.users.Keys && w'.folders == w.folders
    requires forall id :: id in w.users ==> w'.users[id].username == w.users[id].username
    ensures Reverse(FormatAll(w', RemoveAt(ns, |ns| - 1 - r), shorten)) == RemoveAt(Reverse(FormatAll(w, ns, shorten)), r)
  {
    var k := |ns| - 1 - r;
    FormatSameNames(w, w', ns, shorten);
    FormatAllRemoveAt(w', ns, k, shorten);
    ReverseRemoveAt(FormatAll(w, ns, shorten), r);
  }

  /** The feed shows the formatted notifications newest first. */
  lemma FeedShowsNotifications(w: World, me: Id, shorten: (string, int) -> string)
    requires me in w.users
    ensures FeedView(w, me, None, shorten).page.Some?
    ensures FeedView(w, me, None, shorten).page.value.formattedNotifications
            == Reverse(FormatAll(w, w.users[me].notifications, shorten))
  {
  }

  /** Formatting reads only usernames and folder names. */
  lemma FormatSameNames(w: World, w': World, ns: seq<Notification>, shorten: (string, int) -> string)
    requires w'.users.Keys == w.users.Keys && w'.folders == w.folders
    requires forall id :: id in w.users ==> w'.users[id].username == w.users[id].username
    ensures FormatAll(w', ns, shorten) == FormatAll(w, ns, shorten)
  {
    forall i | 0 <= i < |ns|
      ensures FormatNotification(w', ns[i], shorten) == FormatNotification(w, ns[i], shorten)
    {
      assert ActorName(w', ns[i], shorten) == ActorName(w, ns[i], shorten);
    }
  }

  lemma FormatAllRemoveAt(w: World, ns: seq<Notification>, k: nat, shorten: (string, int) -> string)
    requires k < |ns|
    ensures FormatAll(w, RemoveAt(ns, k), shorten) == RemoveAt(FormatAll(w, ns, shorten), k)
  {
  }
}
