/** The records of the three stores the transition works on (users, rooms,
    subscriptions), the collaborators whose code is not part of this model,
    the outcome of a call, and the events it leaves in the log. */
module Entities {

  type UserId = string
  type RoomId = string

  datatype Option<+T> = None | Some(value: T)

  datatype UserEmail = UserEmail(address: string)

  /** A user record. `username` is `None` when the record has no username
      (null or undefined); `emails` is `None` when the record holds no
      emails array. */
  datatype User = User(
    id: UserId,
    username: Option<string>,
    name: Option<string>,
    active: bool,
    roles: set<string>,
    emails: Option<seq<UserEmail>>,
    loginTokens: seq<string>,
    reason: Option<string>)

  /** A room: its id, its type code (`"d"` direct, `"l"` livechat, ...),
      its participants and its read-only flag. */
  datatype Room = Room(id: RoomId, t: string, uids: seq<UserId>, ro: bool)

  /** A subscription of the user called `username` to room `rid`. */
  datatype Subscription = Subscription(rid: RoomId, username: string, archived: bool)

  /** One entry of the subscribed-rooms-with-details list. */
  datatype SubscribedRoom = SubscribedRoom(rid: RoomId, t: string)

  /** The contents of the three stores at one point in time. */
  datatype Snapshot = Snapshot(users: map<UserId, User>, rooms: seq<Room>, subscriptions: seq<Subscription>)

  /** The rooms and subscriptions stores as a helper leaves them. */
  datatype RoomStores = RoomStores(rooms: seq<Room>, subscriptions: seq<Subscription>)

  /** Helpers whose code is not part of this model, as uninterpreted
      functions supplied per call. `closeOmnichannelConversations` and
      `relinquishRoomOwnerships` may read every store and may rewrite the
      rooms and the subscriptions in any way; room ownership and a room's
      open or closed state are not represented. They leave the users store
      alone. */
  datatype Collaborators = Collaborators(
    subscribedRoomsWithDetails: UserId -> seq<SubscribedRoom>,
    shouldRemoveOrChangeOwner: seq<SubscribedRoom> -> bool,
    userSingleOwnedRooms: seq<SubscribedRoom> -> seq<RoomId>,
    closeOmnichannelConversations: (User, seq<SubscribedRoom>, Snapshot) -> RoomStores,
    relinquishRoomOwnerships: (User, seq<SubscribedRoom>, bool, Snapshot) -> RoomStores)

  /** The two settings `Accounts_Send_Email_When_Activating` and
      `Accounts_Send_Email_When_Deactivating`. */
  datatype EmailSettings = EmailSettings(sendWhenActivating: bool, sendWhenDeactivating: bool)

  /** What a call ends in: the boolean it returns, or one of its two
      errors (`error-action-not-allowed`, `user-last-owner` with its rooms). */
  datatype Outcome = Ok(returned: bool) | NotAllowedLastAdmin | LastOwner(rooms: seq<RoomId>)

  /** Everything a call does outside its own computation, in order: calls of
      collaborators, hook runs, store writes and the email it sends. */
  datatype Event =
    | OmnichannelConversationsClosed(user: User, livechatRooms: seq<SubscribedRoom>)
    | RoomOwnershipsRelinquished(user: User, chatRooms: seq<SubscribedRoom>, removeDirectMessages: bool)
    | BeforeActivateUser(user: User)
    | AfterActivateUser(user: User)
    | AfterDeactivateUser(user: User)
    | ActiveFlagSet(userId: UserId, active: bool)
    | ArchivedSetByUsername(username: string, archived: bool)
    | LoginTokensUnset(userId: UserId)
    | ReasonUnset(userId: UserId)
    | DmReadOnlySet(userId: UserId, ids: Option<seq<RoomId>>, readOnly: bool)
    | EmailSent(to: string, active: bool, templateName: Option<string>, templateUsername: Option<string>)

  predicate IsHook(e: Event) {
    e.BeforeActivateUser? || e.AfterActivateUser? || e.AfterDeactivateUser?
  }

  /** A hook run or the write of the active flag: the events whose relative
      order the source fixes. */
  predicate IsHookOrActiveWrite(e: Event) {
    IsHook(e) || e.ActiveFlagSet?
  }

  predicate IsCollaboratorCall(e: Event) {
    e.OmnichannelConversationsClosed? || e.RoomOwnershipsRelinquished?
  }

  predicate IsWrite(e: Event) {
    e.ActiveFlagSet? || e.ArchivedSetByUsername? || e.LoginTokensUnset? || e.ReasonUnset? || e.DmReadOnlySet?
  }

  predicate IsEmail(e: Event) {
    e.EmailSent?
  }

  predicate IsAdmin(u: User) {
    "admin" in u.roles
  }

  /** The users that are active and hold the admin role. */
  function ActiveAdmins(users: map<UserId, User>): set<UserId> {
    set id | id in users && users[id].active && IsAdmin(users[id])
  }

  /** A direct room in which `userId` takes part. */
  predicate IsDirectWith(r: Room, userId: UserId) {
    r.t == "d" && userId in r.uids
  }

  /** The subscriptions store after setting `archived` on every subscription
      of `username`. */
  function ArchivedByUsername(subs: seq<Subscription>, username: string, archived: bool): seq<Subscription>
    decreases |subs|
  {
    if subs == [] then []
    else
      var s := subs[0];
      [if s.username == username then s.(archived := archived) else s] + ArchivedByUsername(subs[1..], username, archived)
  }

  /** The update touches the flag of exactly the subscriptions of `username`,
      in place, and nothing else. */
  lemma {:induction false} ArchivedByUsernameEffect(subs: seq<Subscription>, username: string, archived: bool)
    ensures var r := ArchivedByUsername(subs, username, archived);
      |r| == |subs| &&
      forall i :: 0 <= i < |subs| ==>
        r[i] == if subs[i].username == username then subs[i].(archived := archived) else subs[i]
    decreases |subs|
  {
    if subs != [] {
      ArchivedByUsernameEffect(subs[1..], username, archived);
      var r := ArchivedByUsername(subs, username, archived);
      forall i | 1 <= i < |subs|
        ensures r[i] == if subs[i].username == username then subs[i].(archived := archived) else subs[i]
      {
        assert r[i] == ArchivedByUsername(subs[1..], username, archived)[i - 1];
        assert subs[1..][i - 1] == subs[i];
      }
    }
  }

  /** The rooms store after setting the read-only flag of the direct rooms of
      `userId`; with `Some(ids)` only of those whose id is listed. */
  function DmReadOnlyByUserId(rooms: seq<Room>, userId: UserId, ids: Option<seq<RoomId>>, readOnly: bool): seq<Room>
    decreases |rooms|
  {
    if rooms == [] then []
    else
      var room := rooms[0];
      var hit := IsDirectWith(room, userId) && (ids.None? || room.id in ids.value);
      [if hit then room.(ro := readOnly) else room] + DmReadOnlyByUserId(rooms[1..], userId, ids, readOnly)
  }

  /** The update sets the flag of exactly the user's direct rooms that are
      selected, in place, and touches no other room. */
  lemma {:induction false} DmReadOnlyByUserIdEffect(rooms: seq<Room>, userId: UserId, ids: Option<seq<RoomId>>, readOnly: bool)
    ensures var r := DmReadOnlyByUserId(rooms, userId, ids, readOnly);
      |r| == |rooms| &&
      forall i :: 0 <= i < |rooms| ==>
        r[i] == if IsDirectWith(rooms[i], userId) && (ids.None? || rooms[i].id in ids.value)
                then rooms[i].(ro := readOnly) else rooms[i]
    decreases |rooms|
  {
    if rooms != [] {
      DmReadOnlyByUserIdEffect(rooms[1..], userId, ids, readOnly);
      var r := DmReadOnlyByUserId(rooms, userId, ids, readOnly);
      forall i | 1 <= i < |rooms|
        ensures r[i] == if IsDirectWith(rooms[i], userId) && (ids.None? || rooms[i].id in ids.value)
                        then rooms[i].(ro := readOnly) else rooms[i]
      {
        assert r[i] == DmReadOnlyByUserId(rooms[1..], userId, ids, readOnly)[i - 1];
        assert rooms[1..][i - 1] == rooms[i];
      }
    }
  }

  /** Setting the flag of a user's subscriptions to `false` after setting it to
      `true` gives back the original store when none of them was archived. */
  lemma {:induction false} ArchiveUnarchiveRestores(subs: seq<Subscription>, username: string)
    requires forall i :: 0 <= i < |subs| && subs[i].username == username ==> !subs[i].archived
    ensures ArchivedByUsername(ArchivedByUsername(subs, username, true), username, false) == subs
    decreases |subs|
  {
    if subs != [] {
      ArchiveUnarchiveRestores(subs[1..], username);
      assert subs == [subs[0]] + subs[1..];
    }
  }
}
