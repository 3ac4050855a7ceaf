/** The server side of a status change: the three stores and the log of
    what a call did, updated in place step by step as the source does, and
    proved to end where `StatusTransition.Transition` says. */
module Server {
  import opened Seqs
  import opened Entities
  import opened Reactivation
  import opened Notification
  import opened StatusTransition

  /** The users, rooms and subscriptions stores, plus the log of collaborator
      calls, hook runs, store writes and emails, in the order they happen. */
  class Models {
    var users: map<UserId, User>
    var rooms: seq<Room>
    var subscriptions: seq<Subscription>
    var log: seq<Event>

    constructor (s: Snapshot)
      ensures Snapshot(users, rooms, subscriptions) == s && log == []
    {
      users, rooms, subscriptions := s.users, s.rooms, s.subscriptions;
      log := [];
    }

    /** `Users.setUserActive`: sets the flag of the record, if there is one. */
    method SetUserActive(userId: UserId, active: bool)
      modifies this
      ensures users == if userId in old(users) then old(users)[userId := old(users)[userId].(active := active)] else old(users)
      ensures rooms == old(rooms) && subscriptions == old(subscriptions)
      ensures log == old(log) + [ActiveFlagSet(userId, active)]
    {
      if userId in users {
        users := users[userId := users[userId].(active := active)];
      }
      log := log + [ActiveFlagSet(userId, active)];
    }

    /** `Users.unsetLoginTokens`: forgets every login token of the record. */
    method UnsetLoginTokens(userId: UserId)
      modifies this
      ensures users == if userId in old(users) then old(users)[userId := old(users)[userId].(loginTokens := [])] else old(users)
      ensures rooms == old(rooms) && subscriptions == old(subscriptions)
      ensures log == old(log) + [LoginTokensUnset(userId)]
    {
      if userId in users {
        users := users[userId := users[userId].(loginTokens := [])];
      }
      log := log + [LoginTokensUnset(userId)];
    }

    /** `Users.unsetReason`: forgets the deactivation reason of the record. */
    method UnsetReason(userId: UserId)
      modifies this
      ensures users == if userId in old(users) then old(users)[userId := old(users)[userId].(reason := None)] else old(users)
      ensures rooms == old(rooms) && subscriptions == old(subscriptions)
      ensures log == old(log) + [ReasonUnset(userId)]
    {
      if userId in users {
        users := users[userId := users[userId].(reason := None)];
      }
      log := log + [ReasonUnset(userId)];
    }

    /** `Subscriptions.setArchivedByUsername`. */
    method SetArchivedByUsername(username: string, archived: bool)
      modifies this
      ensures subscriptions == ArchivedByUsername(old(subscriptions), username, archived)
      ensures users == old(users) && rooms == old(rooms)
      ensures log == old(log) + [ArchivedSetByUsername(username, archived)]
    {
      subscriptions := ArchivedByUsername(subscriptions, username, archived);
      log := log + [ArchivedSetByUsername(username, archived)];
    }

    /** `Rooms.setDmReadOnlyByUserId`: all direct rooms of the user with
        `None`, the listed ones with `Some(ids)`. */
    method SetDmReadOnlyByUserId(userId: UserId, ids: Option<seq<RoomId>>, readOnly: bool)
      modifies this
      ensures rooms == DmReadOnlyByUserId(old(rooms), userId, ids, readOnly)
      ensures users == old(users) && subscriptions == old(subscriptions)
      ensures log == old(log) + [DmReadOnlySet(userId, ids, readOnly)]
    {
      rooms := DmReadOnlyByUserId(rooms, userId, ids, readOnly);
      log := log + [DmReadOnlySet(userId, ids, readOnly)];
    }

    /** `callbacks.run`: the hooks' own effects are not part of this model,
        only the fact that they ran. */
    method RunHook(e: Event)
      requires IsHook(e)
      modifies this
      ensures Snapshot(users, rooms, subscriptions) == Snapshot(old(users), old(rooms), old(subscriptions))
      ensures log == old(log) + [e]
    {
      log := log + [e];
    }

    /** `closeOmnichannelConversations`: the rooms and subscriptions become
        those the helper leaves; the users store is untouched. */
    method CloseOmnichannelConversations(user: User, livechatRooms: seq<SubscribedRoom>, c: Collaborators)
      modifies this
      ensures users == old(users)
      ensures RoomStores(rooms, subscriptions) ==
        c.closeOmnichannelConversations(user, livechatRooms, Snapshot(old(users), old(rooms), old(subscriptions)))
      ensures log == old(log) + [OmnichannelConversationsClosed(user, livechatRooms)]
    {
      var r := c.closeOmnichannelConversations(user, livechatRooms, Snapshot(users, rooms, subscriptions));
      rooms, subscriptions := r.rooms, r.subscriptions;
      log := log + [OmnichannelConversationsClosed(user, livechatRooms)];
    }

    /** `relinquishRoomOwnerships`: the rooms and subscriptions become those
        the helper leaves; the users store is untouched. */
    method RelinquishRoomOwnerships(user: User, chatRooms: seq<SubscribedRoom>, removeDirectMessages: bool, c: Collaborators)
      modifies this
      ensures users == old(users)
      ensures RoomStores(rooms, subscriptions) ==
        c.relinquishRoomOwnerships(user, chatRooms, removeDirectMessages, Snapshot(old(users), old(rooms), old(subscriptions)))
      ensures log == old(log) + [RoomOwnershipsRelinquished(user, chatRooms, removeDirectMessages)]
    {
      var r := c.relinquishRoomOwnerships(user, chatRooms, removeDirectMessages, Snapshot(users, rooms, subscriptions));
      rooms, subscriptions := r.rooms, r.subscriptions;
      log := log + [RoomOwnershipsRelinquished(user, chatRooms, removeDirectMessages)];
    }

    /** `Mailer.sendNoWrap`, recorded in the log. */
    method SendEmail(to: string, active: bool, name: Option<string>, username: Option<string>)
      modifies this
      ensures Snapshot(users, rooms, subscriptions) == Snapshot(old(users), old(rooms), old(subscriptions))
      ensures log == old(log) + [EmailSent(to, active, name, username)]
    {
      log := log + [EmailSent(to, active, name, username)];
    }

    /** `Users.findActiveByUserIds`: the ids among `ids` of active users. */
    method FindActiveByUserIds(ids: set<UserId>) returns (active: set<UserId>)
      ensures forall id :: id in active <==> id in ids && id in users && users[id].active
    {
      active := set id | id in ids && id in users && users[id].active;
    }

    /** The `reduce` of `reactivateDirectConversations`: the rooms whose other
        participant is in `activeUserIds`, collected in store order. */
    method SelectRoomsToReactivate(direct: seq<Room>, userId: UserId, activeUserIds: set<UserId>) returns (acc: seq<RoomId>)
      ensures acc == RoomsToReactivate(direct, userId, activeUserIds)
    {
      acc := [];
      for i := 0 to |direct|
        invariant acc == RoomsToReactivate(direct[..i], userId, activeUserIds)
      {
        var room := direct[i];
        assert direct[..i + 1][..i] == direct[..i];
        var otherUserId := OtherParticipant(room.uids, userId);
        if otherUserId.Some? && otherUserId.value in activeUserIds {
          acc := acc + [room.id];
        }
      }
      assert direct[..|direct|] == direct;
    }

    /** `reactivateDirectConversations`: takes out of read-only mode the user's direct rooms
        whose other participant is active. */
    method ReactivateDirectConversations(userId: UserId)
      modifies this
      ensures rooms == DmReadOnlyByUserId(old(rooms), userId, Some(ReactivationTargets(old(users), old(rooms), userId)), false)
      ensures users == old(users) && subscriptions == old(subscriptions)
      ensures log == old(log) + [DmReadOnlySet(userId, Some(ReactivationTargets(old(users), old(rooms), userId)), false)]
    {
      var directConversations := DirectConversations(rooms, userId);
      var uniqueUserIds := set u | u in Participants(directConversations);
      var activeUserIds := FindActiveByUserIds(uniqueUserIds);
      assert activeUserIds == ActiveAmong(users, uniqueUserIds);
      var roomsToReactivate := SelectRoomsToReactivate(directConversations, userId, activeUserIds);
      SetDmReadOnlyByUserId(userId, Some(roomsToReactivate), false);
    }

    /** The `if (user.username != null && !active)` block: the checks made
        before deactivating a user with a username, and the two collaborator
        calls when they pass. */
    method CheckOwnerships(userId: UserId, active: bool, confirmRelinquish: bool, c: Collaborators) returns (g: Guarded)
      requires userId in users
      modifies this
      ensures g == Guard(Snapshot(old(users), old(rooms), old(subscriptions)), userId, active, confirmRelinquish, c)
      ensures Snapshot(users, rooms, subscriptions) ==
        if g.Proceed? then g.after else Snapshot(old(users), old(rooms), old(subscriptions))
      ensures log == old(log) + (if g.Proceed? then g.calls else [])
    {
      var user := users[userId];
      if user.username.Some? && !active {
        var userAdmin := IsAdmin(user);
        var adminsCount := |ActiveAdmins(users)|;
        if userAdmin && adminsCount == 1 {
          return Refused(NotAllowedLastAdmin);
        }
        var subscribedRooms := c.subscribedRoomsWithDetails(userId);
        var chatSubscribedRooms := Filter(IsChat, subscribedRooms);
        var livechatSubscribedRooms := Filter(IsLivechat, subscribedRooms);
        if c.shouldRemoveOrChangeOwner(chatSubscribedRooms) && !confirmRelinquish {
          return Refused(LastOwner(c.userSingleOwnedRooms(chatSubscribedRooms)));
        }
        CloseOmnichannelConversations(user, livechatSubscribedRooms, c);
        RelinquishRoomOwnerships(user, chatSubscribedRooms, false, c);
        return Proceed([OmnichannelConversationsClosed(user, livechatSubscribedRooms),
                        RoomOwnershipsRelinquished(user, chatSubscribedRooms, false)],
                       Snapshot(users, rooms, subscriptions));
      }
      return Proceed([], Snapshot(users, rooms, subscriptions));
    }

    /** `Users.setUserActive` with the hooks run around it. */
    method WriteActiveFlag(userId: UserId, active: bool)
      requires userId in users
      modifies this
      ensures users == old(users)[userId := old(users)[userId].(active := active)]
      ensures rooms == old(rooms) && subscriptions == old(subscriptions)
      ensures log == old(log) + FlagWrite(userId, old(users)[userId], active)
    {
      var user := users[userId];
      if active && !user.active {
        RunHook(BeforeActivateUser(user));
      }
      SetUserActive(userId, active);
      if active && !user.active {
        RunHook(AfterActivateUser(user));
      }
      if !active && user.active {
        RunHook(AfterDeactivateUser(user));
      }
    }

    /** The `if (user.username)` and `if (active === false)` blocks: the
        writes that follow the flag write. `user` is the
        record as read before the flag write. */
    method WriteAfterFlag(userId: UserId, user: User, active: bool)
      requires userId in users
      modifies this
      ensures users == old(users)[userId := if active then old(users)[userId].(reason := None)
                                            else old(users)[userId].(loginTokens := [])]
      ensures subscriptions == if UsernameTruthy(user) then ArchivedByUsername(old(subscriptions), user.username.value, !active)
                               else old(subscriptions)
      ensures rooms == DmReadOnlyByUserId(old(rooms), userId, DmTargets(users, old(rooms), userId, active), !active)
      ensures log == old(log) + StoreWrites(userId, user, active, DmTargets(users, old(rooms), userId, active))
    {
      if UsernameTruthy(user) {
        SetArchivedByUsername(user.username.value, !active);
      }
      if active == false {
        UnsetLoginTokens(userId);
        SetDmReadOnlyByUserId(userId, None, true);
      } else {
        UnsetReason(userId);
        ReactivateDirectConversations(userId);
      }
    }

    /** Every write of a call whose checks have passed: the flag write with
        its hooks, then the writes that follow it. */
    method WriteStatus(userId: UserId, active: bool)
      requires userId in users
      modifies this
      ensures Snapshot(users, rooms, subscriptions) == Written(Snapshot(old(users), old(rooms), old(subscriptions)), userId, active)
      ensures var u := old(users)[userId];
        log == old(log) + FlagWrite(userId, u, active) + StoreWrites(userId, u, active, DmTargets(users, old(rooms), userId, active))
    {
      ghost var s := Snapshot(users, rooms, subscriptions);
      var user := users[userId];
      WriteActiveFlag(userId, active);
      WriteAfterFlag(userId, user, active);
      ghost var after := Written(s, userId, active);
      assert users == after.users;
      assert rooms == after.rooms && subscriptions == after.subscriptions;
    }

    /** The part of `setUserActiveStatus` after the checks: the writes, then the
        email when the setting for this direction asks for one. */
    method ApplyStatus(userId: UserId, active: bool, settings: EmailSettings) returns (returned: bool)
      requires userId in users
      modifies this
      ensures var st := Proceeded(Snapshot(old(users), old(rooms), old(subscriptions)), userId, active, settings);
        Ok(returned) == st.outcome && Snapshot(users, rooms, subscriptions) == st.after && log == old(log) + st.events
    {
      var user := users[userId];
      WriteStatus(userId, active);
      if active && !settings.sendWhenActivating {
        return true;
      }
      if !active && !settings.sendWhenDeactivating {
        return true;
      }
      SendEmail(EmailTo(user), active, user.name, user.username);
      return false;
    }

    /** A known user's call: refused with the checks' error and nothing
        written, or the collaborator calls followed by `ApplyStatus`. */
    method SetKnownUserActiveStatus(userId: UserId, active: bool, confirmRelinquish: bool,
                                    settings: EmailSettings, c: Collaborators) returns (outcome: Outcome)
      requires userId in users
      modifies this
      ensures var g := Guard(Snapshot(old(users), old(rooms), old(subscriptions)), userId, active, confirmRelinquish, c);
        g.Refused? ==>
          outcome == g.error && Snapshot(users, rooms, subscriptions) == Snapshot(old(users), old(rooms), old(subscriptions)) &&
          log == old(log)
      ensures var g := Guard(Snapshot(old(users), old(rooms), old(subscriptions)), userId, active, confirmRelinquish, c);
        g.Proceed? ==> var rest := Proceeded(g.after, userId, active, settings);
          outcome == rest.outcome && Snapshot(users, rooms, subscriptions) == rest.after &&
          log == old(log) + (g.calls + rest.events)
    {
      ghost var log0 := log;
      var g := CheckOwnerships(userId, active, confirmRelinquish, c);
      if g.Refused? {
        return g.error;
      }
      ghost var log1 := log;
      var returned := ApplyStatus(userId, active, settings);
      ghost var rest := Proceeded(g.after, userId, active, settings);
      assert log == log1 + rest.events && log1 == log0 + g.calls;
      assert log == log0 + (g.calls + rest.events);
      outcome := Ok(returned);
    }

    /** `setUserActiveStatus`: the outcome, the stores and the log end as
        `Transition` of the stores before the call says. */
    method SetUserActiveStatus(userId: UserId, active: bool, confirmRelinquish: bool,
                               settings: EmailSettings, c: Collaborators) returns (outcome: Outcome)
      modifies this
      ensures var st := Transition(Snapshot(old(users), old(rooms), old(subscriptions)), userId, active, confirmRelinquish, settings, c);
        outcome == st.outcome && Snapshot(users, rooms, subscriptions) == st.after && log == old(log) + st.events
    {
      ghost var s := Snapshot(users, rooms, subscriptions);
      if userId !in users {
        return Ok(false);
      }
      TransitionOfGuard(s, userId, active, confirmRelinquish, settings, c, Guard(s, userId, active, confirmRelinquish, c));
      outcome := SetKnownUserActiveStatus(userId, active, confirmRelinquish, settings, c);
    }
  }
}
