/**
 * The MongoDB documents of models/user.js, models/tripFolder.js and the one field of
 * models/tripFile.js the account cascade needs, the collections that hold them, and a
 * loaded document as a mutable object that route handlers change and then save.
 *
 * Besides the declared schema paths, UserRecord carries newNotificationCount and the
 * two password-reset fields, and Notification carries the two fallback names: the
 * route handlers read and write them as document fields although models/user.js does
 * not declare them.
 */
module Models {
  import opened Wrappers
  import opened CustomErrors
  import UriComponent

  /** A document id (an ObjectId), compared by value. */
  type Id = nat

  // The notification kinds the routes push.
  const IncomingRequestKind := "incomingRequest"
  const RemoveUserKind := "removeUser"
  const AcceptIncomingRequestKind := "acceptIncomingRequest"
  const DeclineIncomingRequestKind := "declineIncomingRequest"

  /** An entry of incomingRequests or outgoingRequests: the other user and the folder. */
  datatype Request = Request(user: Id, tripFolder: Id)

  datatype Notification = Notification(
    user: Id,
    tripFolder: Id,
    notifType: string,
    fallbackUsername: string,
    fallbackFolderName: string)

  datatype UserRecord = UserRecord(
    username: string,
    email: string,
    password: string,
    isPrivate: bool,
    privateFolders: seq<Id>,
    sharedFolders: seq<Id>,
    incomingRequests: seq<Request>,
    outgoingRequests: seq<Request>,
    notifications: seq<Notification>,
    newNotificationCount: nat,
    passwordResetToken: Option<string>,
    passwordResetTokenExpires: Option<int>)

  /** Dates are milliseconds since the epoch. */
  datatype TripFolderRecord = TripFolderRecord(
    folderName: string,
    isShared: bool,
    users: seq<Id>,
    createdAtDate: int,
    tripDate: int,
    tripFiles: seq<Id>)

  datatype TripFileRecord = TripFileRecord(uploadedBy: Id)

  /** `new User({...})`: the given paths; isPrivate defaults to false, every list to empty. */
  function NewUser(username: string, email: string, password: string, isPrivate: Option<bool>): (u: UserRecord)
    ensures u.username == username && u.email == email && u.password == password
    ensures u.isPrivate <==> isPrivate == Some(true)
    ensures u.privateFolders == [] && u.sharedFolders == []
    ensures u.incomingRequests == [] && u.outgoingRequests == [] && u.notifications == []
    ensures u.newNotificationCount == 0 && u.passwordResetToken.None? && u.passwordResetTokenExpires.None?
  {
    UserRecord(username, email, password, if isPrivate.Some? then isPrivate.value else false,
               [], [], [], [], [], 0, None, None)
  }

  /** `new TripFolder({folderName})` at time now: private, no members, no files, both dates now. */
  function NewTripFolder(folderName: string, now: int): (f: TripFolderRecord)
    ensures f.folderName == folderName
    ensures !f.isShared && f.users == [] && f.tripFiles == []
    ensures f.createdAtDate == now && f.tripDate == now
  {
    TripFolderRecord(folderName, false, [], now, now, [])
  }

  /**
   * What validation on save demands of a user: the required strings present and not
   * empty, and a notifType on every notification. Ids, booleans and lists cannot be
   * missing in this model. No path is declared unique.
   */
  predicate UserSchemaValid(u: UserRecord) {
    u.username != "" && u.email != "" && u.password != ""
    && forall i :: 0 <= i < |u.notifications| ==> u.notifications[i].notifType != ""
  }

  predicate FolderSchemaValid(f: TripFolderRecord) {
    f.folderName != ""
  }

  /** The sharing flag agrees with the member count: shared exactly when two or more members. */
  predicate SharingConsistent(f: TripFolderRecord) {
    f.isShared <==> |f.users| > 1
  }

  /** The three collections. */
  datatype World = World(
    users: map<Id, UserRecord>,
    folders: map<Id, TripFolderRecord>,
    files: map<Id, TripFileRecord>)

  ghost predicate WorldValid(w: World) {
    (forall id :: id in w.users ==> UserSchemaValid(w.users[id]))
    && (forall id :: id in w.folders ==> FolderSchemaValid(w.folders[id]))
  }

  /** Some stored user has this email; no path is unique, so there may be several. */
  predicate HasUserWithEmail(w: World, email: string) {
    exists id :: id in w.users && w.users[id].email == email
  }

  predicate HasUserWithUsername(w: World, username: string) {
    exists id :: id in w.users && w.users[id].username == username
  }

  /** What a handler leaves behind: the collections, and the error it caught, if any. */
  datatype Outcome = Outcome(world: World, err: Option<Error>)

  /** The redirect a handler issues: its success location, or the error redirect from its catch block. */
  function Location(o: Outcome, success: string, errorPath: string, fallback: string): (r: string)
    ensures o.err.None? ==> r == success
    ensures o.err.Some? ==> |errorPath| + |ErrorQuery| <= |r| && r[..|errorPath| + |ErrorQuery|] == errorPath + ErrorQuery
    ensures o.err.Some? ==> UriComponent.Decode(r[|errorPath| + |ErrorQuery|..]) == Some(UserMessage(o.err.value, fallback))
  {
    if o.err.None? then success else ErrorRedirect(errorPath, o.err.value, fallback)
  }

  function PushNotification(u: UserRecord, n: Notification): (r: UserRecord)
    ensures r.notifications == u.notifications + [n]
    ensures r.newNotificationCount == u.newNotificationCount + 1
    ensures r == u.(notifications := r.notifications, newNotificationCount := r.newNotificationCount)
  {
    u.(notifications := u.notifications + [n], newNotificationCount := u.newNotificationCount + 1)
  }

  // ---------------------------------------------------------------- lemmas

  /** Of the user fields, only username, email and password can make a new user fail validation. */
  lemma NewUserValid(username: string, email: string, password: string, isPrivate: Option<bool>)
    ensures UserSchemaValid(NewUser(username, email, password, isPrivate))
            <==> username != "" && email != "" && password != ""
  {
  }

  lemma NewTripFolderConsistent(folderName: string, now: int)
    ensures SharingConsistent(NewTripFolder(folderName, now))
    ensures FolderSchemaValid(NewTripFolder(folderName, now)) <==> folderName != ""
  {
  }

  /** Pushing a notification of a non-empty kind keeps a user valid. */
  lemma PushNotificationValid(u: UserRecord, n: Notification)
    requires UserSchemaValid(u) && n.notifType != ""
    ensures UserSchemaValid(PushNotification(u, n))
  {
    var r := PushNotification(u, n);
    forall i | 0 <= i < |r.notifications|
      ensures r.notifications[i].notifType != ""
    {
      if i < |u.notifications| {
        assert r.notifications[i] == u.notifications[i];
      }
    }
  }

  // ---------------------------------------------------------------- loaded documents

  /** A user document loaded by findById: its fields are changed in place, then it is saved. */
  class UserDoc {
    const id: Id
    var username: string
    var email: string
    var password: string
    var isPrivate: bool
    var privateFolders: seq<Id>
    var sharedFolders: seq<Id>
    var incomingRequests: seq<Request>
    var outgoingRequests: seq<Request>
    var notifications: seq<Notification>
    var newNotificationCount: nat
    var passwordResetToken: Option<string>
    var passwordResetTokenExpires: Option<int>

    function Record(): UserRecord
      reads this
    {
      UserRecord(username, email, password, isPrivate, privateFolders, sharedFolders,
                 incomingRequests, outgoingRequests, notifications, newNotificationCount,
                 passwordResetToken, passwordResetTokenExpires)
    }

    /** `notifications.push(n)` followed by `newNotificationCount += 1`. */
    method Notify(n: Notification)
      modifies this
      ensures Record() == PushNotification(old(Record()), n)
    {
      notifications := notifications + [n];
      newNotificationCount := newNotificationCount + 1;
    }

    constructor (id: Id, r: UserRecord)
      ensures this.id == id && Record() == r
    {
      this.id := id;
      username, email, password, isPrivate := r.username, r.email, r.password, r.isPrivate;
      privateFolders, sharedFolders := r.privateFolders, r.sharedFolders;
      incomingRequests, outgoingRequests, notifications := r.incomingRequests, r.outgoingRequests, r.notifications;
      newNotificationCount := r.newNotificationCount;
      passwordResetToken, passwordResetTokenExpires := r.passwordResetToken, r.passwordResetTokenExpires;
    }
  }

  /** A trip folder document loaded by findById or find. */
  class FolderDoc {
    const id: Id
    var folderName: string
    var isShared: bool
    var users: seq<Id>
    var createdAtDate: int
    var tripDate: int
    var tripFiles: seq<Id>

    function Record(): TripFolderRecord
      reads this
    {
      TripFolderRecord(folderName, isShared, users, createdAtDate, tripDate, tripFiles)
    }

    constructor (id: Id, r: TripFolderRecord)
      ensures this.id == id && Record() == r
    {
      this.id := id;
      folderName, isShared, users := r.folderName, r.isShared, r.users;
      createdAtDate, tripDate, tripFiles := r.createdAtDate, r.tripDate, r.tripFiles;
    }
  }

  /** The users, tripfolders and tripfiles collections. */
  class Database {
    var users: map<Id, UserRecord>
    var folders: map<Id, TripFolderRecord>
    var files: map<Id, TripFileRecord>

    function Snapshot(): World
      reads this
    {
      World(users, folders, files)
    }

    constructor (w: World)
      ensures Snapshot() == w
    {
      users, folders, files := w.users, w.folders, w.files;
    }

    /** User.findById: a fresh copy of the stored document, or null. */
    method FindUser(id: Id) returns (r: Option<UserDoc>)
      ensures r.Some? <==> id in users
      ensures r.Some? ==> fresh(r.value) && r.value.id == id && r.value.Record() == users[id]
    {
      if id in users {
        var doc := new UserDoc(id, users[id]);
        r := Some(doc);
      } else {
        r := None;
      }
    }

    /** TripFolder.findById. */
    method FindFolder(id: Id) returns (r: Option<FolderDoc>)
      ensures r.Some? <==> id in folders
      ensures r.Some? ==> fresh(r.value) && r.value.id == id && r.value.Record() == folders[id]
    {
      if id in folders {
        var doc := new FolderDoc(id, folders[id]);
        r := Some(doc);
      } else {
        r := None;
      }
    }

    /** User.findOne({email}): a copy of some stored user with that email, or null; which one is the store's choice. */
    method FindUserByEmail(email: string) returns (r: Option<UserDoc>)
      ensures r.None? <==> !HasUserWithEmail(Snapshot(), email)
      ensures r.Some? ==> fresh(r.value) && r.value.id in users && r.value.Record() == users[r.value.id]
      ensures r.Some? ==> r.value.email == email
    {
      if id :| id in users.Keys && users[id].email == email {
        var doc := new UserDoc(id, users[id]);
        r := Some(doc);
      } else {
        r := None;
      }
    }

    /** User.findOne({username}). */
    method FindUserByUsername(username: string) returns (r: Option<UserDoc>)
      ensures r.None? <==> !HasUserWithUsername(Snapshot(), username)
      ensures r.Some? ==> fresh(r.value) && r.value.id in users && r.value.Record() == users[r.value.id]
      ensures r.Some? ==> r.value.username == username
    {
      if id :| id in users.Keys && users[id].username == username {
        var doc := new UserDoc(id, users[id]);
        r := Some(doc);
      } else {
        r := None;
      }
    }

    /** user.save(): the document's current fields become the stored record. */
    method SaveUser(doc: UserDoc)
      modifies this
      ensures users == old(users)[doc.id := doc.Record()]
      ensures folders == old(folders) && files == old(files)
    {
      users := users[doc.id := doc.Record()];
    }

    method SaveFolder(doc: FolderDoc)
      modifies this
      ensures folders == old(folders)[doc.id := doc.Record()]
      ensures users == old(users) && files == old(files)
    {
      folders := folders[doc.id := doc.Record()];
    }

    /** user.deleteOne(). */
    method DeleteUser(id: Id)
      modifies this
      ensures users == old(users) - {id}
      ensures folders == old(folders) && files == old(files)
    {
      users := users - {id};
    }

    /** file.deleteOne(). */
    method DeleteFile(id: Id)
      modifies this
      ensures files == old(files) - {id}
      ensures users == old(users) && folders == old(folders)
    {
      files := files - {id};
    }
  }
}
