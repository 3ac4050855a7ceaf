/** `setUserActiveStatus` as a function from the stores before a call to its
    outcome, the stores after it and the events it produced, with the
    properties the source promises proved about it. */
module StatusTransition {
  import opened Seqs
  import opened Entities
  import opened Reactivation
  import opened Notification

  predicate IsChat(r: SubscribedRoom) { r.t != "l" }
  predicate IsLivechat(r: SubscribedRoom) { r.t == "l" }

  /** The two `filter` calls on the subscribed rooms: the chat list and the
      livechat list split the subscribed rooms, each keeping their order. */
  lemma SubscribedRoomsPartition(rooms: seq<SubscribedRoom>)
    ensures multiset(Filter(IsChat, rooms)) + multiset(Filter(IsLivechat, rooms)) == multiset(rooms)
    ensures IsSubsequence(Filter(IsChat, rooms), rooms) && IsSubsequence(Filter(IsLivechat, rooms), rooms)
    ensures forall r :: r in Filter(IsChat, rooms) ==> r.t != "l"
    ensures forall r :: r in Filter(IsLivechat, rooms) ==> r.t == "l"
  {
    FilterPartition(IsChat, IsLivechat, rooms);
    FilterIsSubsequence(IsChat, rooms);
    FilterIsSubsequence(IsLivechat, rooms);
    FilterMembership(IsChat, rooms);
    FilterMembership(IsLivechat, rooms);
  }

  /** The result of the checks made before the active flag is written: go
      on after the given collaborator calls, from the stores they leave, or
      stop with an error. */
  datatype Guarded = Proceed(calls: seq<Event>, after: Snapshot) | Refused(error: Outcome)

  /** The stores after a helper: the rooms and subscriptions it leaves, the
      users as they were. */
  function WithRoomStores(s: Snapshot, r: RoomStores): Snapshot {
    Snapshot(s.users, r.rooms, r.subscriptions)
  }

  /** The checks of a deactivation of a user with a username (the last-admin
      check, then the last-owner check) and, when both pass, the calls of
      `closeOmnichannelConversations` and then `relinquishRoomOwnerships`. */
  function Guard(s: Snapshot, userId: UserId, active: bool, confirmRelinquish: bool, c: Collaborators): (g: Guarded)
    requires userId in s.users
    ensures g.Refused? ==> !active && s.users[userId].username.Some? && !g.error.Ok?
    ensures g.Proceed? ==> (g.calls == [] <==> s.users[userId].username.None? || active)
    ensures g.Proceed? ==> g.after.users == s.users && (g.calls == [] ==> g.after == s)
  {
    var user := s.users[userId];
    if user.username.None? || active then Proceed([], s)
    else if IsAdmin(user) && |ActiveAdmins(s.users)| == 1 then Refused(NotAllowedLastAdmin)
    else
      var subscribed := c.subscribedRoomsWithDetails(userId);
      var chat := Filter(IsChat, subscribed);
      var livechat := Filter(IsLivechat, subscribed);
      if c.shouldRemoveOrChangeOwner(chat) && !confirmRelinquish then Refused(LastOwner(c.userSingleOwnedRooms(chat)))
      else
        var closed := WithRoomStores(s, c.closeOmnichannelConversations(user, livechat, s));
        var relinquished := WithRoomStores(s, c.relinquishRoomOwnerships(user, chat, false, closed));
        Proceed([OmnichannelConversationsClosed(user, livechat), RoomOwnershipsRelinquished(user, chat, false)], relinquished)
  }

  /** The stores the writes start from: those the helpers leave when the
      checks pass, otherwise the stores before the call. Only a permitted
      deactivation of a user with a username can make them differ from the
      stores before the call, and never in the users store. */
  function BeforeWrites(s: Snapshot, userId: UserId, active: bool, confirmRelinquish: bool, c: Collaborators): (m: Snapshot)
    ensures m.users == s.users
    ensures userId !in s.users || active || s.users[userId].username.None? ==> m == s
  {
    if userId !in s.users then s
    else
      match Guard(s, userId, active, confirmRelinquish, c)
      case Refused(_) => s
      case Proceed(_, after) => after
  }

  /** `if (user.username)`: present and not the empty string. */
  predicate UsernameTruthy(u: User) {
    u.username.Some? && u.username.value != ""
  }

  datatype Step = Step(outcome: Outcome, after: Snapshot, events: seq<Event>)

  /** `Users.setUserActive` with the hooks run around it. */
  function FlagWrite(userId: UserId, user: User, active: bool): seq<Event> {
    (if active && !user.active then [BeforeActivateUser(user)] else [])
    + [ActiveFlagSet(userId, active)]
    + (if active && !user.active then [AfterActivateUser(user)] else [])
    + (if !active && user.active then [AfterDeactivateUser(user)] else [])
  }

  /** The rooms whose read-only flag `setDmReadOnlyByUserId` writes: all direct
      rooms of the user on deactivation, the selected ones on activation. */
  function DmTargets(users: map<UserId, User>, rooms: seq<Room>, userId: UserId, active: bool): Option<seq<RoomId>> {
    if active then Some(ReactivationTargets(users, rooms, userId)) else None
  }

  /** The stores after the flag write and the writes that follow it. */
  function Written(s: Snapshot, userId: UserId, active: bool): Snapshot
    requires userId in s.users
  {
    var user := s.users[userId];
    var flagged := user.(active := active);
    var users :=
      if active then s.users[userId := flagged.(reason := None)]
      else s.users[userId := flagged.(loginTokens := [])];
    var subscriptions :=
      if UsernameTruthy(user) then ArchivedByUsername(s.subscriptions, user.username.value, !active)
      else s.subscriptions;
    Snapshot(users, DmReadOnlyByUserId(s.rooms, userId, DmTargets(users, s.rooms, userId, active), !active), subscriptions)
  }

  /** The writes of the `if (user.username)` and `if (active === false)`
      blocks, in order. */
  function StoreWrites(userId: UserId, user: User, active: bool, ids: Option<seq<RoomId>>): seq<Event> {
    (if UsernameTruthy(user) then [ArchivedSetByUsername(user.username.value, !active)] else [])
    + [if active then ReasonUnset(userId) else LoginTokensUnset(userId)]
    + [DmReadOnlySet(userId, ids, !active)]
  }

  /** The `Mailer.sendNoWrap` call, when the setting asks for it. */
  function EmailEvents(user: User, active: bool, settings: EmailSettings): seq<Event> {
    if EmailDue(settings, active) then [EmailSent(EmailTo(user), active, user.name, user.username)] else []
  }

  /** The rest of `setUserActiveStatus` once the checks have passed. */
  function Proceeded(s: Snapshot, userId: UserId, active: bool, settings: EmailSettings): Step
    requires userId in s.users
  {
    var user := s.users[userId];
    var after := Written(s, userId, active);
    var ids := DmTargets(after.users, s.rooms, userId, active);
    Step(Ok(!EmailDue(settings, active)), after,
         FlagWrite(userId, user, active) + StoreWrites(userId, user, active, ids) + EmailEvents(user, active, settings))
  }

  /** `setUserActiveStatus`: the outcome, the stores after the call and the
      events it produced. */
  function Transition(s: Snapshot, userId: UserId, active: bool, confirmRelinquish: bool,
                      settings: EmailSettings, c: Collaborators): Step
  {
    if userId !in s.users then Step(Ok(false), s, [])
    else
      match Guard(s, userId, active, confirmRelinquish, c)
      case Refused(error) => Step(error, s, [])
      case Proceed(calls, after) =>
        var rest := Proceeded(after, userId, active, settings);
        Step(rest.outcome, rest.after, calls + rest.events)
  }

  /** A known user's call ends as the checks decide: refused with their
      error and nothing done, or the collaborator calls followed by the rest
      of the call. */
  lemma TransitionOfGuard(s: Snapshot, userId: UserId, active: bool, confirmRelinquish: bool,
                          settings: EmailSettings, c: Collaborators, g: Guarded)
    requires userId in s.users && g == Guard(s, userId, active, confirmRelinquish, c)
    ensures g.Refused? ==> Transition(s, userId, active, confirmRelinquish, settings, c) == Step(g.error, s, [])
    ensures g.Proceed? ==> var rest := Proceeded(g.after, userId, active, settings);
      Transition(s, userId, active, confirmRelinquish, settings, c) == Step(rest.outcome, rest.after, g.calls + rest.events)
    ensures g.Proceed? ==> BeforeWrites(s, userId, active, confirmRelinquish, c) == g.after
  {
  }

  /** Filters the events of a call that passed its checks, piece by piece. */
  lemma FilterProceeded(p: Event -> bool, calls: seq<Event>, flag: seq<Event>, writes: seq<Event>, email: seq<Event>)
    ensures Filter(p, calls + flag + writes + email) == Filter(p, calls) + Filter(p, flag) + Filter(p, writes) + Filter(p, email)
  {
    FilterAppend(p, calls + flag + writes, email);
    FilterAppend(p, calls + flag, writes);
    FilterAppend(p, calls, flag);
  }

  /** The only store write among the flag write and its hooks is the flag write. */
  lemma FlagWriteWrites(userId: UserId, u: User, active: bool)
    ensures Filter(IsWrite, FlagWrite(userId, u, active)) == [ActiveFlagSet(userId, active)]
  {
    var hooksBefore := if active && !u.active then [BeforeActivateUser(u)] else [];
    var hooksAfter := (if active && !u.active then [AfterActivateUser(u)] else [])
      + (if !active && u.active then [AfterDeactivateUser(u)] else []);
    var flag := [ActiveFlagSet(userId, active)];
    assert FlagWrite(userId, u, active) == hooksBefore + flag + hooksAfter;
    FilterAppend(IsWrite, hooksBefore + flag, hooksAfter);
    FilterAppend(IsWrite, hooksBefore, flag);
    FilterDropsAll(IsWrite, hooksBefore);
    FilterDropsAll(IsWrite, hooksAfter);
    FilterKeepsAll(IsWrite, flag);
  }

  /** The hook runs and the flag write among the events of a call that
      passed its checks are those of `FlagWrite`. */
  lemma HookEventsOfProceeded(calls: seq<Event>, userId: UserId, u: User, active: bool,
                              ids: Option<seq<RoomId>>, settings: EmailSettings)
    requires forall e :: e in calls ==> IsCollaboratorCall(e)
    ensures Filter(IsHookOrActiveWrite, calls + FlagWrite(userId, u, active) + StoreWrites(userId, u, active, ids)
                                       + EmailEvents(u, active, settings))
            == FlagWrite(userId, u, active)
  {
    var flag, writes, email := FlagWrite(userId, u, active), StoreWrites(userId, u, active, ids), EmailEvents(u, active, settings);
    FilterProceeded(IsHookOrActiveWrite, calls, flag, writes, email);
    FilterDropsAll(IsHookOrActiveWrite, calls);
    FlagWriteEvents(userId, u, active);
    FilterKeepsAll(IsHookOrActiveWrite, flag);
    StoreWritesEvents(userId, u, active, ids);
    FilterDropsAll(IsHookOrActiveWrite, writes);
    EmailEventsAreEmails(u, active, settings);
    FilterDropsAll(IsHookOrActiveWrite, email);
    calc {
      Filter(IsHookOrActiveWrite, calls) + Filter(IsHookOrActiveWrite, flag) + Filter(IsHookOrActiveWrite, writes) + Filter(IsHookOrActiveWrite, email);
      [] + flag + [] + [];
      { assert [] + flag == flag; assert flag + [] == flag; }
      flag;
    }
  }

  /** The collaborator calls among the events of a call that passed its
      checks are those the checks made. */
  lemma CollaboratorCallsOfProceeded(calls: seq<Event>, userId: UserId, u: User, active: bool,
                                     ids: Option<seq<RoomId>>, settings: EmailSettings)
    requires forall e :: e in calls ==> IsCollaboratorCall(e)
    ensures Filter(IsCollaboratorCall, calls + FlagWrite(userId, u, active) + StoreWrites(userId, u, active, ids)
                                      + EmailEvents(u, active, settings))
            == calls
  {
    var flag, writes, email := FlagWrite(userId, u, active), StoreWrites(userId, u, active, ids), EmailEvents(u, active, settings);
    FilterProceeded(IsCollaboratorCall, calls, flag, writes, email);
    FilterKeepsAll(IsCollaboratorCall, calls);
    FlagWriteEvents(userId, u, active);
    FilterDropsAll(IsCollaboratorCall, flag);
    StoreWritesEvents(userId, u, active, ids);
    FilterDropsAll(IsCollaboratorCall, writes);
    EmailEventsAreEmails(u, active, settings);
    FilterDropsAll(IsCollaboratorCall, email);
    calc {
      Filter(IsCollaboratorCall, calls) + Filter(IsCollaboratorCall, flag) + Filter(IsCollaboratorCall, writes) + Filter(IsCollaboratorCall, email);
      calls + [] + [] + [];
      { assert calls + [] == calls; }
      calls;
    }
  }

  /** The store writes among the events of a call that passed its checks:
      the flag write, then those of `StoreWrites`. */
  lemma WriteEventsOfProceeded(calls: seq<Event>, userId: UserId, u: User, active: bool,
                               ids: Option<seq<RoomId>>, settings: EmailSettings)
    requires forall e :: e in calls ==> IsCollaboratorCall(e)
    ensures Filter(IsWrite, calls + FlagWrite(userId, u, active) + StoreWrites(userId, u, active, ids)
                           + EmailEvents(u, active, settings))
            == [ActiveFlagSet(userId, active)] + StoreWrites(userId, u, active, ids)
  {
    var flag, writes, email := FlagWrite(userId, u, active), StoreWrites(userId, u, active, ids), EmailEvents(u, active, settings);
    FilterProceeded(IsWrite, calls, flag, writes, email);
    FilterDropsAll(IsWrite, calls);
    FlagWriteWrites(userId, u, active);
    StoreWritesEvents(userId, u, active, ids);
    FilterKeepsAll(IsWrite, writes);
    EmailEventsAreEmails(u, active, settings);
    FilterDropsAll(IsWrite, email);
    var flagSet: seq<Event> := [ActiveFlagSet(userId, active)];
    calc {
      Filter(IsWrite, calls) + Filter(IsWrite, flag) + Filter(IsWrite, writes) + Filter(IsWrite, email);
      [] + flagSet + writes + [];
      { assert [] + flagSet == flagSet; assert flagSet + writes + [] == flagSet + writes; }
      flagSet + writes;
    }
  }

  /** The emails among the events of a call that passed its checks are
      those of `EmailEvents`. */
  lemma EmailEventsOfProceeded(calls: seq<Event>, userId: UserId, u: User, active: bool,
                               ids: Option<seq<RoomId>>, settings: EmailSettings)
    requires forall e :: e in calls ==> IsCollaboratorCall(e)
    ensures Filter(IsEmail, calls + FlagWrite(userId, u, active) + StoreWrites(userId, u, active, ids)
                           + EmailEvents(u, active, settings))
            == EmailEvents(u, active, settings)
  {
    var flag, writes, email := FlagWrite(userId, u, active), StoreWrites(userId, u, active, ids), EmailEvents(u, active, settings);
    FilterProceeded(IsEmail, calls, flag, writes, email);
    FilterDropsAll(IsEmail, calls);
    FlagWriteEvents(userId, u, active);
    FilterDropsAll(IsEmail, flag);
    StoreWritesEvents(userId, u, active, ids);
    FilterDropsAll(IsEmail, writes);
    EmailEventsAreEmails(u, active, settings);
    FilterKeepsAll(IsEmail, email);
    calc {
      Filter(IsEmail, calls) + Filter(IsEmail, flag) + Filter(IsEmail, writes) + Filter(IsEmail, email);
      [] + [] + [] + email;
      { var none: seq<Event> := []; assert none + none + none == none; }
      email;
    }
  }

  /** The events of a call that passed its checks, as their four pieces. */
  lemma ProceededEvents(s: Snapshot, userId: UserId, active: bool, confirmRelinquish: bool,
                        settings: EmailSettings, c: Collaborators)
    requires userId in s.users
    requires Guard(s, userId, active, confirmRelinquish, c).Proceed?
    ensures var u, m := s.users[userId], BeforeWrites(s, userId, active, confirmRelinquish, c);
      var st := Transition(s, userId, active, confirmRelinquish, settings, c);
      && st.outcome == Ok(!EmailDue(settings, active))
      && st.after == Written(m, userId, active)
      && st.events == Guard(s, userId, active, confirmRelinquish, c).calls + FlagWrite(userId, u, active)
                      + StoreWrites(userId, u, active, DmTargets(st.after.users, m.rooms, userId, active))
                      + EmailEvents(u, active, settings)
  {
    var u := s.users[userId];
    var calls := Guard(s, userId, active, confirmRelinquish, c).calls;
    var m := BeforeWrites(s, userId, active, confirmRelinquish, c);
    var after := Written(m, userId, active);
    var flag, writes, email := FlagWrite(userId, u, active), StoreWrites(userId, u, active, DmTargets(after.users, m.rooms, userId, active)), EmailEvents(u, active, settings);
    assert calls + (flag + writes + email) == calls + flag + writes + email;
  }

  lemma GuardCallsAreCollaboratorCalls(s: Snapshot, userId: UserId, active: bool, confirmRelinquish: bool, c: Collaborators)
    requires userId in s.users
    requires Guard(s, userId, active, confirmRelinquish, c).Proceed?
    ensures forall e :: e in Guard(s, userId, active, confirmRelinquish, c).calls ==> IsCollaboratorCall(e)
  {
  }

  lemma FlagWriteEvents(userId: UserId, u: User, active: bool)
    ensures forall e :: e in FlagWrite(userId, u, active) ==> IsHookOrActiveWrite(e) && !IsCollaboratorCall(e) && !IsEmail(e)
  {
  }

  lemma StoreWritesEvents(userId: UserId, u: User, active: bool, ids: Option<seq<RoomId>>)
    ensures forall e :: e in StoreWrites(userId, u, active, ids) ==> IsWrite(e) && !IsHookOrActiveWrite(e) && !IsCollaboratorCall(e) && !IsEmail(e)
  {
  }

  lemma EmailEventsAreEmails(u: User, active: bool, settings: EmailSettings)
    ensures forall e :: e in EmailEvents(u, active, settings) ==> IsEmail(e) && !IsWrite(e) && !IsHookOrActiveWrite(e) && !IsCollaboratorCall(e)
  {
  }

  /** `if (!user) return false`: an unknown id returns `false` and changes nothing. */
  lemma UnknownUserChangesNothing(s: Snapshot, userId: UserId, active: bool, confirmRelinquish: bool,
                                  settings: EmailSettings, c: Collaborators)
    requires userId !in s.users
    ensures Transition(s, userId, active, confirmRelinquish, settings, c) == Step(Ok(false), s, [])
  {
  }

  /** The `Remove_last_admin` check: deactivating the only active admin, when the user is an
      admin with a username, is refused before anything is written. */
  lemma LastAdminRefused(s: Snapshot, userId: UserId, active: bool, confirmRelinquish: bool,
                         settings: EmailSettings, c: Collaborators)
    ensures var st := Transition(s, userId, active, confirmRelinquish, settings, c);
      st.outcome == NotAllowedLastAdmin <==>
        userId in s.users && s.users[userId].username.Some? && !active &&
        IsAdmin(s.users[userId]) && |ActiveAdmins(s.users)| == 1
    ensures var st := Transition(s, userId, active, confirmRelinquish, settings, c);
      st.outcome == NotAllowedLastAdmin ==> st.after == s && st.events == []
  {
  }

  /** The `user-last-owner` check: when the chat rooms need an owner change and the caller
      has not confirmed, the call fails with the user's single-owned rooms
      and nothing is written. */
  lemma LastOwnerRefused(s: Snapshot, userId: UserId, active: bool, confirmRelinquish: bool,
                         settings: EmailSettings, c: Collaborators)
    ensures var st := Transition(s, userId, active, confirmRelinquish, settings, c);
      st.outcome.LastOwner? <==>
        userId in s.users && s.users[userId].username.Some? && !active &&
        !(IsAdmin(s.users[userId]) && |ActiveAdmins(s.users)| == 1) &&
        c.shouldRemoveOrChangeOwner(Filter(IsChat, c.subscribedRoomsWithDetails(userId))) && !confirmRelinquish
    ensures var st := Transition(s, userId, active, confirmRelinquish, settings, c);
      st.outcome.LastOwner? ==>
        st.outcome.rooms == c.userSingleOwnedRooms(Filter(IsChat, c.subscribedRoomsWithDetails(userId))) &&
        st.after == s && st.events == []
  {
  }

  /** `user.username != null`: a user without a username is never refused, and neither
      collaborator runs for them. */
  lemma NamelessUserSkipsOwnershipChecks(s: Snapshot, userId: UserId, active: bool, confirmRelinquish: bool,
                                         settings: EmailSettings, c: Collaborators)
    requires userId in s.users && s.users[userId].username.None?
    ensures var st := Transition(s, userId, active, confirmRelinquish, settings, c);
      st.outcome.Ok? && Filter(IsCollaboratorCall, st.events) == []
  {
    var u := s.users[userId];
    ProceededEvents(s, userId, active, confirmRelinquish, settings, c);
    var m := BeforeWrites(s, userId, active, confirmRelinquish, c);
    var after := Written(m, userId, active);
    CollaboratorCallsOfProceeded([], userId, u, active, DmTargets(after.users, m.rooms, userId, active), settings);
  }

  /** `closeOmnichannelConversations` and `relinquishRoomOwnerships`: a
      permitted deactivation of a named user first closes the livechat rooms
      and then relinquishes the chat rooms, before any write, and calls
      neither collaborator again. */
  lemma CollaboratorsRunFirst(s: Snapshot, userId: UserId, confirmRelinquish: bool,
                              settings: EmailSettings, c: Collaborators)
    requires userId in s.users && s.users[userId].username.Some?
    requires Transition(s, userId, false, confirmRelinquish, settings, c).outcome.Ok?
    ensures var st := Transition(s, userId, false, confirmRelinquish, settings, c);
      var subscribed := c.subscribedRoomsWithDetails(userId);
      var calls := [OmnichannelConversationsClosed(s.users[userId], Filter(IsLivechat, subscribed)),
                    RoomOwnershipsRelinquished(s.users[userId], Filter(IsChat, subscribed), false)];
      st.events[..2] == calls && Filter(IsCollaboratorCall, st.events) == calls
  {
    var u := s.users[userId];
    var g := Guard(s, userId, false, confirmRelinquish, c);
    ProceededEvents(s, userId, false, confirmRelinquish, settings, c);
    GuardCallsAreCollaboratorCalls(s, userId, false, confirmRelinquish, c);
    var m := BeforeWrites(s, userId, false, confirmRelinquish, c);
    var after := Written(m, userId, false);
    var ids := DmTargets(after.users, m.rooms, userId, false);
    var rest := FlagWrite(userId, u, false) + StoreWrites(userId, u, false, ids) + EmailEvents(u, false, settings);
    assert (g.calls + rest)[..2] == g.calls;
    assert g.calls + FlagWrite(userId, u, false) + StoreWrites(userId, u, false, ids) + EmailEvents(u, false, settings) == g.calls + rest;
    CollaboratorCallsOfProceeded(g.calls, userId, u, false, ids, settings);
  }

  /** `beforeActivateUser`, `afterActivateUser`, `afterDeactivateUser`: the
      hooks fire only on a real change of the flag, each at most once,
      `beforeActivateUser` before the write and the `after` hooks after it; a
      refused call runs none. */
  lemma HooksFireOnlyOnChange(s: Snapshot, userId: UserId, active: bool, confirmRelinquish: bool,
                              settings: EmailSettings, c: Collaborators)
    requires userId in s.users
    ensures var u, st := s.users[userId], Transition(s, userId, active, confirmRelinquish, settings, c);
      Filter(IsHookOrActiveWrite, st.events) ==
        if !st.outcome.Ok? then []
        else if active && !u.active then [BeforeActivateUser(u), ActiveFlagSet(userId, true), AfterActivateUser(u)]
        else if !active && u.active then [ActiveFlagSet(userId, false), AfterDeactivateUser(u)]
        else [ActiveFlagSet(userId, active)]
  {
    var u := s.users[userId];
    var g := Guard(s, userId, active, confirmRelinquish, c);
    TransitionOfGuard(s, userId, active, confirmRelinquish, settings, c, g);
    if g.Proceed? {
      ProceededEvents(s, userId, active, confirmRelinquish, settings, c);
      GuardCallsAreCollaboratorCalls(s, userId, active, confirmRelinquish, c);
      var m := BeforeWrites(s, userId, active, confirmRelinquish, c);
      var after := Written(m, userId, active);
      HookEventsOfProceeded(g.calls, userId, u, active, DmTargets(after.users, m.rooms, userId, active), settings);
    }
  }

  /** The `active && !user.active` and `!active && user.active` guards: a
      call that finds the flag already equal to `active` fires no hook. */
  lemma UnchangedFlagFiresNoHook(s: Snapshot, userId: UserId, active: bool, confirmRelinquish: bool,
                                 settings: EmailSettings, c: Collaborators)
    requires userId in s.users && s.users[userId].active == active
    ensures Filter(IsHook, Transition(s, userId, active, confirmRelinquish, settings, c).events) == []
  {
    var es := Transition(s, userId, active, confirmRelinquish, settings, c).events;
    HooksFireOnlyOnChange(s, userId, active, confirmRelinquish, settings, c);
    FilterMembership(IsHookOrActiveWrite, es);
    forall e | e in es ensures !IsHook(e) {
      assert IsHook(e) ==> e in Filter(IsHookOrActiveWrite, es);
    }
    FilterDropsAll(IsHook, es);
  }

  /** Repeating a successful call for the same user and direction, whatever
      the other arguments, fires no hook the second time. */
  lemma RepeatFiresNoHook(s: Snapshot, userId: UserId, active: bool,
                          confirm1: bool, settings1: EmailSettings, c1: Collaborators,
                          confirm2: bool, settings2: EmailSettings, c2: Collaborators)
    requires Transition(s, userId, active, confirm1, settings1, c1).outcome.Ok?
    ensures var s1 := Transition(s, userId, active, confirm1, settings1, c1).after;
      Filter(IsHook, Transition(s1, userId, active, confirm2, settings2, c2).events) == []
  {
    var s1 := Transition(s, userId, active, confirm1, settings1, c1).after;
    if userId in s.users {
      SuccessfulCallUsers(s, userId, active, confirm1, settings1, c1);
      UnchangedFlagFiresNoHook(s1, userId, active, confirm2, settings2, c2);
    } else {
      UnknownUserChangesNothing(s, userId, active, confirm1, settings1, c1);
      UnknownUserChangesNothing(s1, userId, active, confirm2, settings2, c2);
    }
  }

  /** `Users.setUserActive` with `Users.unsetLoginTokens` or
      `Users.unsetReason`: after a successful call the users store differs
      from the one before only in the user's record, whose flag is `active`
      and whose tokens (on deactivation) or reason (on activation) are gone. */
  lemma SuccessfulCallUsers(s: Snapshot, userId: UserId, active: bool, confirmRelinquish: bool,
                            settings: EmailSettings, c: Collaborators)
    requires userId in s.users
    requires Transition(s, userId, active, confirmRelinquish, settings, c).outcome.Ok?
    ensures var u := s.users[userId];
      Transition(s, userId, active, confirmRelinquish, settings, c).after.users ==
        s.users[userId := if active then u.(active := true, reason := None) else u.(active := false, loginTokens := [])]
  {
    var g := Guard(s, userId, active, confirmRelinquish, c);
    TransitionOfGuard(s, userId, active, confirmRelinquish, settings, c, g);
  }

  /** `Users.setUserActive` and the writes of the `if (user.username)` and
      `if (active === false)` blocks: the stores after a successful call. The
      users store is stated against the stores before the call; the rooms and
      subscriptions against `BeforeWrites`, the stores the helpers leave,
      which are the stores before the call unless a user with a username is
      deactivated. */
  lemma SuccessfulCallState(s: Snapshot, userId: UserId, active: bool, confirmRelinquish: bool,
                            settings: EmailSettings, c: Collaborators)
    requires userId in s.users
    requires Transition(s, userId, active, confirmRelinquish, settings, c).outcome.Ok?
    ensures var u, after := s.users[userId], Transition(s, userId, active, confirmRelinquish, settings, c).after;
      && after.users.Keys == s.users.Keys
      && (forall id :: id in s.users && id != userId ==> after.users[id] == s.users[id])
      && after.users[userId].active == active
      && (!active ==> after.users[userId] == u.(active := false, loginTokens := []))
      && (active ==> after.users[userId] == u.(active := true, reason := None))
    ensures var u, m := s.users[userId], BeforeWrites(s, userId, active, confirmRelinquish, c);
      var after := Transition(s, userId, active, confirmRelinquish, settings, c).after;
      && |after.subscriptions| == |m.subscriptions|
      && (UsernameTruthy(u) ==> forall i :: 0 <= i < |m.subscriptions| && m.subscriptions[i].username == u.username.value ==>
            after.subscriptions[i] == m.subscriptions[i].(archived := !active))
      && (forall i :: 0 <= i < |m.subscriptions| && (!UsernameTruthy(u) || m.subscriptions[i].username != u.username.value) ==>
            after.subscriptions[i] == m.subscriptions[i])
    ensures var m := BeforeWrites(s, userId, active, confirmRelinquish, c);
      var after := Transition(s, userId, active, confirmRelinquish, settings, c).after;
      && |after.rooms| == |m.rooms|
      && (!active ==> forall i :: 0 <= i < |m.rooms| ==>
            after.rooms[i] == if IsDirectWith(m.rooms[i], userId) then m.rooms[i].(ro := true) else m.rooms[i])
  {
    var u := s.users[userId];
    var g := Guard(s, userId, active, confirmRelinquish, c);
    TransitionOfGuard(s, userId, active, confirmRelinquish, settings, c, g);
    var m := BeforeWrites(s, userId, active, confirmRelinquish, c);
    if UsernameTruthy(u) {
      ArchivedByUsernameEffect(m.subscriptions, u.username.value, !active);
    }
    var after := Written(m, userId, active);
    DmReadOnlyByUserIdEffect(m.rooms, userId, DmTargets(after.users, m.rooms, userId, active), !active);
  }

  /** The `else` branch of `if (active === false)` with
      `reactivateDirectConversations`: activation clears the read-only flag
      of exactly the user's direct rooms whose other participant is active,
      and touches no other room. */
  lemma ActivationReopensDirectRooms(s: Snapshot, userId: UserId, confirmRelinquish: bool,
                                     settings: EmailSettings, c: Collaborators)
    requires userId in s.users && DistinctIds(s.rooms)
    ensures var after := Transition(s, userId, true, confirmRelinquish, settings, c).after;
      |after.rooms| == |s.rooms| &&
      forall i :: 0 <= i < |s.rooms| ==>
        after.rooms[i] == if IsDirectWith(s.rooms[i], userId) && CounterpartActive(s.users, s.rooms[i], userId)
                          then s.rooms[i].(ro := false) else s.rooms[i]
  {
    var after := Transition(s, userId, true, confirmRelinquish, settings, c).after;
    ReactivationEffect(after.users, s.rooms, userId);
    forall i | 0 <= i < |s.rooms|
      ensures CounterpartActive(after.users, s.rooms[i], userId) == CounterpartActive(s.users, s.rooms[i], userId)
    {
      OtherParticipantSpec(s.rooms[i].uids, userId);
    }
  }

  /** The store writes of a successful call, in order. */
  lemma WriteSequence(s: Snapshot, userId: UserId, active: bool, confirmRelinquish: bool,
                      settings: EmailSettings, c: Collaborators)
    requires userId in s.users
    requires Transition(s, userId, active, confirmRelinquish, settings, c).outcome.Ok?
    ensures var u, st := s.users[userId], Transition(s, userId, active, confirmRelinquish, settings, c);
      Filter(IsWrite, st.events) ==
        [ActiveFlagSet(userId, active)]
        + (if UsernameTruthy(u) then [ArchivedSetByUsername(u.username.value, !active)] else [])
        + (if active then [ReasonUnset(userId), DmReadOnlySet(userId, Some(ReactivationTargets(st.after.users, s.rooms, userId)), false)]
           else [LoginTokensUnset(userId), DmReadOnlySet(userId, None, true)])
  {
    var u := s.users[userId];
    var g := Guard(s, userId, active, confirmRelinquish, c);
    ProceededEvents(s, userId, active, confirmRelinquish, settings, c);
    GuardCallsAreCollaboratorCalls(s, userId, active, confirmRelinquish, c);
    var m := BeforeWrites(s, userId, active, confirmRelinquish, c);
    var after := Written(m, userId, active);
    WriteEventsOfProceeded(g.calls, userId, u, active, DmTargets(after.users, m.rooms, userId, active), settings);
  }

  /** The `Accounts_Send_Email_When_*` checks and the mailer call: a known
      user's successful call returns `true` exactly when the setting for its
      direction is off, and then sends no email; otherwise it sends one email,
      last, and returns `false`. */
  lemma EmailDecision(s: Snapshot, userId: UserId, active: bool, confirmRelinquish: bool,
                      settings: EmailSettings, c: Collaborators)
    requires userId in s.users
    requires Transition(s, userId, active, confirmRelinquish, settings, c).outcome.Ok?
    ensures var u, st := s.users[userId], Transition(s, userId, active, confirmRelinquish, settings, c);
      && (st.outcome.returned <==> !EmailDue(settings, active))
      && Filter(IsEmail, st.events) ==
           (if EmailDue(settings, active) then [EmailSent(EmailTo(u), active, u.name, u.username)] else [])
      && (EmailDue(settings, active) ==> st.events[|st.events| - 1] == EmailSent(EmailTo(u), active, u.name, u.username))
  {
    var u := s.users[userId];
    var g := Guard(s, userId, active, confirmRelinquish, c);
    ProceededEvents(s, userId, active, confirmRelinquish, settings, c);
    GuardCallsAreCollaboratorCalls(s, userId, active, confirmRelinquish, c);
    var m := BeforeWrites(s, userId, active, confirmRelinquish, c);
    var after := Written(m, userId, active);
    EmailEventsOfProceeded(g.calls, userId, u, active, DmTargets(after.users, m.rooms, userId, active), settings);
  }

  /** The transition never leaves the system without an active admin when the
      user has a username: an admin count of at least one survives. */
  lemma ActiveAdminSurvives(s: Snapshot, userId: UserId, active: bool, confirmRelinquish: bool,
                            settings: EmailSettings, c: Collaborators)
    requires userId in s.users && s.users[userId].username.Some?
    requires |ActiveAdmins(s.users)| >= 1
    ensures |ActiveAdmins(Transition(s, userId, active, confirmRelinquish, settings, c).after.users)| >= 1
  {
    var st := Transition(s, userId, active, confirmRelinquish, settings, c);
    var before, after := ActiveAdmins(s.users), ActiveAdmins(st.after.users);
    if st.outcome.Ok? {
      var u := s.users[userId];
      SuccessfulCallState(s, userId, active, confirmRelinquish, settings, c);
      if active || !IsAdmin(u) {
        assert before <= after;
      } else {
        assert |before| >= 2;
        assert before - {userId} <= after;
        assert |before - {userId}| >= |before| - 1;
      }
    }
  }

  /** The admin rule is skipped for users without a username, so the only
      active admin can be deactivated when they have none. */
  lemma NamelessLastAdminCanBeDeactivated(settings: EmailSettings, c: Collaborators)
    ensures var u := User("u1", None, None, true, {"admin"}, None, [], None);
      var s := Snapshot(map["u1" := u], [], []);
      var st := Transition(s, "u1", false, false, settings, c);
      |ActiveAdmins(s.users)| == 1 && st.outcome.Ok? && |ActiveAdmins(st.after.users)| == 0
  {
    var u := User("u1", None, None, true, {"admin"}, None, [], None);
    var s := Snapshot(map["u1" := u], [], []);
    var st := Transition(s, "u1", false, false, settings, c);
    assert ActiveAdmins(s.users) == {"u1"};
    assert ActiveAdmins(st.after.users) == {} by {
      assert st.after.users.Keys == {"u1"};
      assert !st.after.users["u1"].active;
    }
  }

  /** `findOneAdmin` and `findActiveUsersInRoles`: the admin check asks
      whether the user holds the admin role, not whether they are an active
      admin, so deactivating an admin who is already inactive is refused while
      exactly one other admin is active, although that call would leave the
      active admins as they are. */
  lemma InactiveAdminBlockedBySoleActiveAdmin(settings: EmailSettings, c: Collaborators)
    ensures var u1 := User("u1", Some("one"), None, false, {"admin"}, None, [], None);
      var u2 := User("u2", Some("two"), None, true, {"admin"}, None, [], None);
      var s := Snapshot(map["u1" := u1, "u2" := u2], [], []);
      ActiveAdmins(s.users) == {"u2"} && Transition(s, "u1", false, false, settings, c).outcome == NotAllowedLastAdmin
  {
  }

  /** Deactivating and then reactivating a user with a username gives back
      the subscriptions as the helpers of the deactivation left them, when
      none of the user's was archived then, and leaves the user active with
      no deactivation reason. */
  lemma DeactivateThenReactivate(s: Snapshot, userId: UserId,
                                 confirm1: bool, settings1: EmailSettings, c1: Collaborators,
                                 confirm2: bool, settings2: EmailSettings, c2: Collaborators)
    requires userId in s.users && UsernameTruthy(s.users[userId])
    requires Transition(s, userId, false, confirm1, settings1, c1).outcome.Ok?
    requires var m := BeforeWrites(s, userId, false, confirm1, c1);
      forall i :: 0 <= i < |m.subscriptions| && m.subscriptions[i].username == s.users[userId].username.value ==>
        !m.subscriptions[i].archived
    ensures var s1 := Transition(s, userId, false, confirm1, settings1, c1).after;
      var st := Transition(s1, userId, true, confirm2, settings2, c2);
      && st.outcome.Ok?
      && st.after.subscriptions == BeforeWrites(s, userId, false, confirm1, c1).subscriptions
      && userId in st.after.users && st.after.users[userId].active && st.after.users[userId].reason.None?
  {
    var g := Guard(s, userId, false, confirm1, c1);
    TransitionOfGuard(s, userId, false, confirm1, settings1, c1, g);
    var m := BeforeWrites(s, userId, false, confirm1, c1);
    ArchiveUnarchiveRestores(m.subscriptions, s.users[userId].username.value);
  }
}
