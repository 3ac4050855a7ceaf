/** Which direct conversations leave read-only mode when a user is
    activated: those whose other participant is active too. */
module Reactivation {
  import opened Seqs
  import opened Entities

  /** The user's direct rooms, in store order. */
  function DirectConversations(rooms: seq<Room>, userId: UserId): seq<Room> {
    Filter((room: Room) => IsDirectWith(room, userId), rooms)
  }

  lemma DirectConversationsMembership(rooms: seq<Room>, userId: UserId)
    ensures forall room :: room in DirectConversations(rooms, userId) <==> room in rooms && IsDirectWith(room, userId)
  {
    FilterMembership((room: Room) => IsDirectWith(room, userId), rooms);
  }

  /** The participant lists of `rooms`, concatenated. */
  function Participants(rooms: seq<Room>): seq<UserId>
    decreases |rooms|
  {
    if rooms == [] then [] else rooms[0].uids + Participants(rooms[1..])
  }

  /** A user id occurs in the concatenation exactly when it takes part in
      one of the rooms. */
  lemma {:induction false} ParticipantsMembership(rooms: seq<Room>)
    ensures forall u :: u in Participants(rooms) <==> exists room :: room in rooms && u in room.uids
    decreases |rooms|
  {
    if rooms != [] {
      ParticipantsMembership(rooms[1..]);
      assert forall room :: room in rooms <==> room == rooms[0] || room in rooms[1..];
    }
  }

  /** The ids among `ids` of users that exist and are active. */
  function ActiveAmong(users: map<UserId, User>, ids: set<UserId>): set<UserId> {
    set id | id in ids && id in users && users[id].active
  }

  /** `uids.find((u) => u !== userId)`: the first participant that is not
      `userId`, if any. */
  function OtherParticipant(uids: seq<UserId>, userId: UserId): Option<UserId>
    decreases |uids|
  {
    if uids == [] then None
    else if uids[0] != userId then Some(uids[0])
    else OtherParticipant(uids[1..], userId)
  }

  /** The search finds nothing exactly when every participant is `userId`;
      otherwise it finds the first participant that is not. */
  lemma {:induction false} OtherParticipantSpec(uids: seq<UserId>, userId: UserId)
    ensures var o := OtherParticipant(uids, userId);
      && (o.None? <==> forall u :: u in uids ==> u == userId)
      && (o.Some? ==> o.value in uids && o.value != userId)
      && (o.Some? ==> exists k :: 0 <= k < |uids| && uids[k] == o.value && forall j :: 0 <= j < k ==> uids[j] == userId)
    decreases |uids|
  {
    if uids != [] {
      assert uids[0] in uids;
      if uids[0] == userId {
        var o := OtherParticipant(uids[1..], userId);
        OtherParticipantSpec(uids[1..], userId);
        assert forall u :: u in uids <==> u == uids[0] || u in uids[1..];
        if o.Some? {
          var k :| 0 <= k < |uids[1..]| && uids[1..][k] == o.value && forall j :: 0 <= j < k ==> uids[1..][j] == userId;
          assert uids[k + 1] == o.value;
          assert forall j :: 0 <= j < k + 1 ==> uids[j] == userId by {
            forall j | 0 <= j < k + 1 ensures uids[j] == userId {
              if j > 0 { assert uids[j] == uids[1..][j - 1]; }
            }
          }
        }
      }
    }
  }

  predicate Reactivatable(room: Room, userId: UserId, activeIds: set<UserId>) {
    var other := OtherParticipant(room.uids, userId);
    other.Some? && other.value in activeIds
  }

  function Ids(rooms: seq<Room>): (ids: seq<RoomId>)
    ensures |ids| == |rooms|
    ensures forall i :: 0 <= i < |rooms| ==> ids[i] == rooms[i].id
    decreases |rooms|
  {
    if rooms == [] then [] else [rooms[0].id] + Ids(rooms[1..])
  }

  /** The ids of the rooms of `direct` whose other participant is in
      `activeIds`, collected in order into an accumulator. */
  function RoomsToReactivate(direct: seq<Room>, userId: UserId, activeIds: set<UserId>): seq<RoomId>
    decreases |direct|
  {
    if direct == [] then []
    else
      var last := direct[|direct| - 1];
      var acc := RoomsToReactivate(direct[..|direct| - 1], userId, activeIds);
      if Reactivatable(last, userId, activeIds) then acc + [last.id] else acc
  }

  lemma {:induction false} RoomsToReactivateMembership(direct: seq<Room>, userId: UserId, activeIds: set<UserId>, id: RoomId)
    ensures id in RoomsToReactivate(direct, userId, activeIds) <==>
      exists room :: room in direct && room.id == id && Reactivatable(room, userId, activeIds)
    decreases |direct|
  {
    if direct != [] {
      var init, last := direct[..|direct| - 1], direct[|direct| - 1];
      RoomsToReactivateMembership(init, userId, activeIds, id);
      assert direct == init + [last];
      assert forall room :: room in direct <==> room in init || room == last;
    }
  }

  lemma {:induction false} RoomsToReactivateIsSubsequence(direct: seq<Room>, userId: UserId, activeIds: set<UserId>)
    ensures IsSubsequence(RoomsToReactivate(direct, userId, activeIds), Ids(direct))
    decreases |direct|
  {
    if direct != [] {
      var init, last := direct[..|direct| - 1], direct[|direct| - 1];
      RoomsToReactivateIsSubsequence(init, userId, activeIds);
      assert Ids(direct) == Ids(init) + [last.id] by {
        assert forall i :: 0 <= i < |direct| ==> Ids(direct)[i] == (Ids(init) + [last.id])[i];
      }
      SubsequenceExtend(RoomsToReactivate(init, userId, activeIds), Ids(init), last.id);
    }
  }

  /** A subsequence stays one when the same element is appended to both
      sides, or to the longer side only. */
  lemma {:induction false} SubsequenceExtend<T>(a: seq<T>, b: seq<T>, x: T)
    requires IsSubsequence(a, b)
    ensures IsSubsequence(a + [x], b + [x]) && IsSubsequence(a, b + [x])
    decreases |b|
  {
    if b == [] {
      assert a == [];
      assert ([] + [x])[1..] == [] && (b + [x])[1..] == [];
      assert a + [x] == [x] && b + [x] == [x];
    } else if a == [] {
      assert a + [x] == [x];
      assert (b + [x])[1..] == b[1..] + [x];
      SubsequenceExtend(a, b[1..], x);
      assert b[1..] + [x] == (b + [x])[1..];
    } else {
      assert (b + [x])[1..] == b[1..] + [x];
      assert (a + [x])[1..] == a[1..] + [x];
      if a[0] == b[0] && IsSubsequence(a[1..], b[1..]) {
        SubsequenceExtend(a[1..], b[1..], x);
      } else {
        SubsequenceExtend(a, b[1..], x);
      }
    }
  }

  /** The ids of the rooms `reactivateDirectConversations` takes out of
      read-only mode. */
  function ReactivationTargets(users: map<UserId, User>, rooms: seq<Room>, userId: UserId): seq<RoomId> {
    var direct := DirectConversations(rooms, userId);
    var uniqueUserIds := set u | u in Participants(direct);
    RoomsToReactivate(direct, userId, ActiveAmong(users, uniqueUserIds))
  }

  /** The room's participant other than `userId` exists and is an active user. */
  predicate CounterpartActive(users: map<UserId, User>, room: Room, userId: UserId) {
    var other := OtherParticipant(room.uids, userId);
    other.Some? && other.value in users && users[other.value].active
  }

  /** A room id is selected exactly when it belongs to a direct room of the
      user whose other participant is active. */
  lemma ReactivationTargetsMeaning(users: map<UserId, User>, rooms: seq<Room>, userId: UserId, id: RoomId)
    ensures id in ReactivationTargets(users, rooms, userId) <==>
      exists room :: room in rooms && room.id == id && IsDirectWith(room, userId) && CounterpartActive(users, room, userId)
  {
    var direct := DirectConversations(rooms, userId);
    var uniqueUserIds := set u | u in Participants(direct);
    var activeIds := ActiveAmong(users, uniqueUserIds);
    DirectConversationsMembership(rooms, userId);
    ParticipantsMembership(direct);
    RoomsToReactivateMembership(direct, userId, activeIds, id);
    forall room | room in direct
      ensures Reactivatable(room, userId, activeIds) == CounterpartActive(users, room, userId)
    {
      var other := OtherParticipant(room.uids, userId);
      OtherParticipantSpec(room.uids, userId);
      if other.Some? {
        assert other.value in Participants(direct);
      }
    }
  }

  /** The selected ids are those of a subsequence of the user's direct rooms. */
  lemma ReactivationTargetsInOrder(users: map<UserId, User>, rooms: seq<Room>, userId: UserId)
    ensures IsSubsequence(ReactivationTargets(users, rooms, userId), Ids(DirectConversations(rooms, userId)))
    ensures IsSubsequence(DirectConversations(rooms, userId), rooms)
  {
    var direct := DirectConversations(rooms, userId);
    RoomsToReactivateIsSubsequence(direct, userId, ActiveAmong(users, set u | u in Participants(direct)));
    FilterIsSubsequence((room: Room) => IsDirectWith(room, userId), rooms);
  }

  ghost predicate DistinctIds(rooms: seq<Room>) {
    forall i, j :: 0 <= i < j < |rooms| ==> rooms[i].id != rooms[j].id
  }

  /** The `setDmReadOnlyByUserId` write of `reactivateDirectConversations`
      clears the flag of exactly the direct rooms of the
      user whose other participant is active, and touches no other room. */
  lemma ReactivationEffect(users: map<UserId, User>, rooms: seq<Room>, userId: UserId)
    requires DistinctIds(rooms)
    ensures var after := DmReadOnlyByUserId(rooms, userId, Some(ReactivationTargets(users, rooms, userId)), false);
      |after| == |rooms| &&
      forall i :: 0 <= i < |rooms| ==>
        after[i] == if IsDirectWith(rooms[i], userId) && CounterpartActive(users, rooms[i], userId)
                    then rooms[i].(ro := false) else rooms[i]
  {
    var targets := ReactivationTargets(users, rooms, userId);
    DmReadOnlyByUserIdEffect(rooms, userId, Some(targets), false);
    forall i | 0 <= i < |rooms| && IsDirectWith(rooms[i], userId)
      ensures rooms[i].id in targets <==> CounterpartActive(users, rooms[i], userId)
    {
      ReactivationTargetsMeaning(users, rooms, userId, rooms[i].id);
      if rooms[i].id in targets {
        var room :| room in rooms && room.id == rooms[i].id && IsDirectWith(room, userId) && CounterpartActive(users, room, userId);
        var j :| 0 <= j < |rooms| && rooms[j] == room;
        assert i == j;
      }
    }
  }
}
