# Activating and deactivating a user account

This project models `setUserActiveStatus` from Rocket.Chat's server, together with its helper `reactivateDirectConversations`.

`setUserActiveStatus` switches a user account between active and inactive. It works over three stores: users, rooms and subscriptions. It proceeds in this order:

1. It looks the user up.
2. When a user with a username is being deactivated, it refuses two cases:
   - the user is an admin and there is exactly one active admin;
   - the user's chat rooms need a new owner and the caller has not confirmed.
3. If the checks pass, it closes the user's livechat conversations and relinquishes their chat rooms.
4. It writes the active flag, with the `beforeActivateUser`, `afterActivateUser` and `afterDeactivateUser` hooks around the write.
5. When the user's username is non-empty, it archives (on deactivation) or unarchives (on activation) the user's subscriptions.
6. On deactivation, it clears the login tokens and puts every direct room of the user in read-only mode.
7. On activation, it clears the deactivation reason and takes out of read-only mode the direct rooms whose other participant is active.
8. It sends a status email when the setting for this direction asks for one, and returns `false`. When no email is due it returns `true`.

The model has two layers.

- **Specification layer.** `StatusTransition.Transition` gives the whole call as a function. Its inputs are the stores before the call and the arguments. It returns a `Step`, which holds:
  - the outcome: `Ok(returned)`, `NotAllowedLastAdmin` or `LastOwner(rooms)`;
  - the stores after the call;
  - the ordered list of events the call produced. An event is a collaborator call, a hook run, a store write or the email.

  The properties of the call are lemmas about this function.
- **Imperative layer.** `Server.Models` is a class that holds the three stores and the event log as fields. Its methods mirror the source step by step: one method per store operation, and `SetUserActiveStatus` calling them in the source's order. Each method is proved to leave the fields and the log exactly as `Transition` (or the matching piece of it) says.

The errors the source throws are modelled as `Outcome` values.

The helpers whose code is not part of this model are fields of `Entities.Collaborators`, supplied per call as uninterpreted functions:
- `getSubscribedRoomsForUserWithDetails`
- `shouldRemoveOrChangeOwner`
- `getUserSingleOwnedRooms`
- `closeOmnichannelConversations` and `relinquishRoomOwnerships`. Each of these two reads the stores and returns new rooms and subscriptions stores. The model lets them rewrite the rooms and the subscriptions in any way. Room ownership itself is not represented, since `Room` and `Subscription` carry no owner or role. They never change the users store.

`StatusTransition.BeforeWrites` names the stores after those two helpers have run. It equals the stores before the call unless a user with a username is being deactivated. Every promise about a deactivation's rooms and subscriptions is stated against it. The promises about an activation (`StatusTransition.ActivationReopensDirectRooms`, `StatusTransition.WriteSequence`, `Reactivation.ReactivationEffect`) are stated against the stores before the call. Those are the same stores, because an activation runs neither helper.

The two helper calls are recorded in the log with their arguments. So are the hooks and the mailer.

Modules:

- `Seqs`: order-preserving filtering, subsequences, and the comma join that `String(array)` performs, with its inverse.
- `Entities`: the records, the events, and the two multi-record store updates (`setArchivedByUsername`, `setDmReadOnlyByUserId`).
- `Reactivation`: the room selection of `reactivateDirectConversations`.
- `Notification`: whether an email is due, and its `to` field.
- `StatusTransition`: the specification function and the properties of a call.
- `Server`: the `Models` class.

## Model

| member | source | states |
|---|---|---|
| StatusTransition.Transition | app/lib/server/functions/setUserActiveStatus.ts:37-128 | the whole call as a function: an unknown id gives `Ok(false)`; otherwise the checks of `Guard` either refuse with their error, or the call proceeds from the stores the helpers leave with `Proceeded` (no contract of its own; the lemmas below state what it promises) |
| Server.Models.SetUserActiveStatus | app/lib/server/functions/setUserActiveStatus.ts:37-128 | the outcome, the three stores and the appended log are exactly those `Transition` gives for the stores before the call |
| Server.Models.SetKnownUserActiveStatus | app/lib/server/functions/setUserActiveStatus.ts:47-128 | for a known user: a refusal returns the checks' error with the stores and the log unchanged; otherwise the log gains the collaborator calls and then the events of `Proceeded`, run from the stores the helpers leave |
| Server.Models.CheckOwnerships | app/lib/server/functions/setUserActiveStatus.ts:47-70 | returns the verdict `Guard` gives on the stores before the call; a refusal changes nothing; a pass leaves the stores the helpers produce and logs their two calls |
| Server.Models.CloseOmnichannelConversations | app/lib/server/functions/setUserActiveStatus.ts:68 | the rooms and subscriptions become those `closeOmnichannelConversations` returns for the stores before it; the users store is unchanged; the call is logged |
| Server.Models.RelinquishRoomOwnerships | app/lib/server/functions/setUserActiveStatus.ts:69 | the rooms and subscriptions become those `relinquishRoomOwnerships` returns for the stores before it, with `removeDirectMessages` passed through; the users store is unchanged; the call is logged |
| Server.Models.RunHook | app/lib/server/functions/setUserActiveStatus.ts:73-83 | only a hook may be run; it changes no store, and the log gains exactly that hook |
| Server.Models.SendEmail | app/lib/server/functions/setUserActiveStatus.ts:126 | changes no store; the log gains one email with the given recipients, direction, name and username |
| Server.Models.WriteActiveFlag | app/lib/server/functions/setUserActiveStatus.ts:72-84 | sets only the user's active flag; logs the flag write with the hooks around it as `FlagWrite` orders them |
| Server.Models.WriteAfterFlag | app/lib/server/functions/setUserActiveStatus.ts:86-96 | archives the subscriptions of a truthy username with `!active`; clears the tokens or the reason; sets the read-only flag of the direct rooms, computed on the users as they are after the reason is cleared |
| Server.Models.WriteStatus | app/lib/server/functions/setUserActiveStatus.ts:72-96 | the stores after every write equal `Written` of the stores before; the log gains the flag write, then the store writes |
| Server.Models.ApplyStatus | app/lib/server/functions/setUserActiveStatus.ts:72-127 | the result, the stores and the log equal `Proceeded`: the writes, then the email only when due, returning `true` exactly when none is due |
| Server.Models.SetUserActive | app/lib/server/functions/setUserActiveStatus.ts:76 | only the active flag of that record changes; the other stores are unchanged |
| Server.Models.SetArchivedByUsername | app/lib/server/functions/setUserActiveStatus.ts:87 | the subscriptions become `ArchivedByUsername` of the old ones; users and rooms are unchanged |
| Server.Models.UnsetLoginTokens | app/lib/server/functions/setUserActiveStatus.ts:91 | only the login tokens of that record are emptied |
| Server.Models.SetDmReadOnlyByUserId | app/lib/server/functions/setUserActiveStatus.ts:92 | the rooms become `DmReadOnlyByUserId` of the old ones; users and subscriptions are unchanged |
| Server.Models.UnsetReason | app/lib/server/functions/setUserActiveStatus.ts:94 | only the deactivation reason of that record is removed |
| Server.Models.ReactivateDirectConversations | app/lib/server/functions/setUserActiveStatus.ts:16-35 | clears the read-only flag of the direct rooms named by `ReactivationTargets` of the stores before; users and subscriptions are unchanged |
| Server.Models.SelectRoomsToReactivate | app/lib/server/functions/setUserActiveStatus.ts:26-32 | the accumulator the loop builds equals `RoomsToReactivate` of the direct rooms |
| StatusTransition.UnknownUserChangesNothing | app/lib/server/functions/setUserActiveStatus.ts:41-45 | an unknown id returns `false`, leaves the stores as they were and produces no event |
| StatusTransition.LastAdminRefused | app/lib/server/functions/setUserActiveStatus.ts:48-56 | the call fails with the last-admin error exactly when a user with a username is deactivated, holds the admin role and the active admins number one; it then changes nothing and produces no event |
| StatusTransition.LastOwnerRefused | app/lib/server/functions/setUserActiveStatus.ts:58-66 | the call fails with the last-owner error exactly when the admin check passes, the chat rooms need an owner change and the caller has not confirmed; the error carries `getUserSingleOwnedRooms` of the chat rooms, and nothing changes |
| StatusTransition.Guard | app/lib/server/functions/setUserActiveStatus.ts:47-70 | a refusal happens only when deactivating a user who has a username, and is never `Ok`; the checks make collaborator calls exactly when such a user is deactivated; the stores the helpers leave keep the users store, and equal the stores before when no helper ran |
| StatusTransition.BeforeWrites | app/lib/server/functions/setUserActiveStatus.ts:47-70 | the stores the writes start from keep the users store, and are the stores before the call when the user is unknown, is activated, or has no username |
| StatusTransition.NamelessUserSkipsOwnershipChecks | app/lib/server/functions/setUserActiveStatus.ts:47-48 | a user without a username is never refused, and no collaborator is called for them |
| StatusTransition.SubscribedRoomsPartition | app/lib/server/functions/setUserActiveStatus.ts:60-61 | the chat and livechat lists together hold every subscribed room exactly once (as multisets); each list is a subsequence of the input; the chat list holds only type other than `l`, the livechat list only type `l` |
| StatusTransition.CollaboratorsRunFirst | app/lib/server/functions/setUserActiveStatus.ts:68-69 | in a permitted deactivation of a user with a username, the first two events are the livechat closing and then the relinquishing of the chat rooms, and no other collaborator call happens |
| StatusTransition.HooksFireOnlyOnChange | app/lib/server/functions/setUserActiveStatus.ts:72-84 | the hooks and the flag write occur as before-write-after on an activation of an inactive user, as write-then-after-deactivate on a deactivation of an active user, as the write alone otherwise, and not at all on a refused call |
| StatusTransition.UnchangedFlagFiresNoHook | app/lib/server/functions/setUserActiveStatus.ts:72-84 | a call that finds the user's flag already equal to `active` fires no hook |
| StatusTransition.RepeatFiresNoHook | app/lib/server/functions/setUserActiveStatus.ts:72-84 | repeating a successful call for the same user and direction, whatever the other arguments, fires no hook |
| StatusTransition.SuccessfulCallUsers | app/lib/server/functions/setUserActiveStatus.ts:76-96 | after a successful call the users store differs only in the user's record: the flag is `active`, and the tokens are emptied on deactivation or the reason removed on activation |
| StatusTransition.SuccessfulCallState | app/lib/server/functions/setUserActiveStatus.ts:76-96 | after a successful call the user's record is as `SuccessfulCallUsers` says, and other users are untouched; measured against the stores the helpers leave, the subscriptions keep their length and exactly those of a truthy username get `archived := !active`; on deactivation the `ro` flag is set to true on exactly the user's direct rooms, and every other room is left as it was |
| StatusTransition.WriteSequence | app/lib/server/functions/setUserActiveStatus.ts:76-96 | the store writes of a successful call are, in order: the flag, the archived flag when the username is truthy, then the tokens and every direct room on deactivation, or the reason and the selected direct rooms on activation |
| StatusTransition.ActivationReopensDirectRooms | app/lib/server/functions/setUserActiveStatus.ts:93-95 | when room ids are distinct, activation clears the read-only flag of exactly those direct rooms of the user whose other participant is an active user in the stores before the call, and touches no other room |
| StatusTransition.EmailDecision | app/lib/server/functions/setUserActiveStatus.ts:97-127 | a successful call returns `true` exactly when the setting for its direction is off; it sends no email then; otherwise it sends exactly one email, as its last event, to `EmailTo` of the user read before the writes |
| StatusTransition.ActiveAdminSurvives | app/lib/server/functions/setUserActiveStatus.ts:48-56 | for a user with a username, a call never takes the number of active admins from at least one to zero |
| StatusTransition.NamelessLastAdminCanBeDeactivated | app/lib/server/functions/setUserActiveStatus.ts:47-48 | the admin check is skipped for a user without a username, so the only active admin can be deactivated when they have none |
| StatusTransition.InactiveAdminBlockedBySoleActiveAdmin | app/lib/server/functions/setUserActiveStatus.ts:49-51 | the admin check tests the admin role, not active admin status: deactivating an already inactive admin is refused while exactly one other admin is active |
| StatusTransition.DeactivateThenReactivate | app/lib/server/functions/setUserActiveStatus.ts:86-96 | deactivating and then reactivating a user with a truthy username gives back the subscriptions as the deactivation's helpers left them, when none of the user's was archived then; the user ends active with no reason |
| StatusTransition.TransitionOfGuard | app/lib/server/functions/setUserActiveStatus.ts:47-128 | for a known user, a refusal changes nothing and produces no event; otherwise the collaborator calls come first, followed by the rest of the call |
| Reactivation.ReactivationTargetsMeaning | app/lib/server/functions/setUserActiveStatus.ts:19-32 | a room id is selected exactly when it is the id of a direct room of the user whose other participant exists and is active |
| Reactivation.ReactivationTargetsInOrder | app/lib/server/functions/setUserActiveStatus.ts:19-32 | the selected ids are a subsequence of the ids of the user's direct rooms, which are a subsequence of the rooms store |
| Reactivation.ReactivationEffect | app/lib/server/functions/setUserActiveStatus.ts:16-35 | when room ids are distinct, the write of line 34 clears the flag of exactly the direct rooms whose other participant is active, and leaves every other room as it was |
| Reactivation.RoomsToReactivateMembership | app/lib/server/functions/setUserActiveStatus.ts:26-32 | an id is accumulated exactly when some direct room with that id has its other participant among the active ids |
| Reactivation.RoomsToReactivateIsSubsequence | app/lib/server/functions/setUserActiveStatus.ts:26-32 | the accumulated ids keep the order of the direct rooms |
| Reactivation.OtherParticipantSpec | app/lib/server/functions/setUserActiveStatus.ts:27 | `find` returns nothing exactly when every participant is the user; otherwise it returns the first participant that is not |
| Reactivation.ParticipantsMembership | app/lib/server/functions/setUserActiveStatus.ts:22-23 | an id occurs in the flattened participant lists exactly when it takes part in one of the direct rooms |
| Reactivation.DirectConversationsMembership | app/lib/server/functions/setUserActiveStatus.ts:19-21 | a room is fetched exactly when it is a direct room in which the user takes part |
| Reactivation.Ids | app/lib/server/functions/setUserActiveStatus.ts:29 | one id per room, position by position |
| Entities.ArchivedByUsernameEffect | app/lib/server/functions/setUserActiveStatus.ts:87 | the update sets the archived flag of exactly the subscriptions of the username, in place, and changes nothing else |
| Entities.DmReadOnlyByUserIdEffect | app/lib/server/functions/setUserActiveStatus.ts:92 | the update sets the read-only flag of exactly the user's direct rooms that are selected (all of them with no id list), in place, and changes nothing else |
| Entities.ArchiveUnarchiveRestores | app/lib/server/functions/setUserActiveStatus.ts:87 | archiving and then unarchiving a username's subscriptions gives back the store when none of them was archived |
| Notification.DisplayName | app/lib/server/functions/setUserActiveStatus.ts:105 | the display name put in each recipient entry: the name when it is non-empty, else the username, else `undefined` (no contract of its own) |
| Notification.EmailTo | app/lib/server/functions/setUserActiveStatus.ts:104-116 | `String(destinations)`: `false` when the record has no emails array, else the entries joined by commas (no contract of its own; `EmailToListsEveryAddress` states what it promises) |
| Notification.DestinationsEntries | app/lib/server/functions/setUserActiveStatus.ts:104-105 | one `name<address>` entry per email of the record, at the same position |
| Notification.EmailToListsEveryAddress | app/lib/server/functions/setUserActiveStatus.ts:104-116 | cutting the `to` field at its commas gives back one `name<address>` entry per email, where the name is the non-empty name or else the username, provided no part holds a comma |
| Seqs.SplitJoinCommas | app/lib/server/functions/setUserActiveStatus.ts:116 | cutting the comma join of non-empty comma-free strings at its commas gives back the list |
| Seqs.FilterPartition | app/lib/server/functions/setUserActiveStatus.ts:60-61 | filtering by a predicate and by its negation puts every element in exactly one of the two results |
| Seqs.FilterIsSubsequence | app/lib/server/functions/setUserActiveStatus.ts:60-61 | a filter keeps the order of its input |

## Left out

- `app/lib/server/functions/updateMessage.ts` and `server/sdk/types/ITeamService.ts` are not part of this model. The first is glue around external services. The second holds interface declarations only.
- The internals of these helpers are not modelled: `getSubscribedRoomsForUserWithDetails`, `shouldRemoveOrChangeOwner`, `getUserSingleOwnedRooms`, `closeOmnichannelConversations` and `relinquishRoomOwnerships`.
  - All five are uninterpreted functions.
  - The model assumes the last two leave the users store unchanged. They may change the rooms and the subscriptions in any way.
  - `getSubscribedRoomsForUserWithDetails` depends on the user id only, not on the stores.
  - A failure or exception inside any of them is not modelled.
  - `closeOmnichannelConversations` is not awaited in the source. The model completes it before `relinquishRoomOwnerships` starts.
- Server.Models.FindActiveByUserIds: this is the store read that stands in for `Users.findActiveByUserIds`. Its contract is the query itself. What line 24 contributes is stated by `Reactivation.ReactivationTargetsMeaning`.
- The effects of the hooks are not modelled, because their code is not part of this model. The callbacks registry is not modelled either. A hook run is a log entry.
- The email's `from` field, subject and HTML body are not modelled, because they come from external templates and a setting. The model records the `to` field, the direction, and the name and username passed to the templates.
- Meteor's `check` assertions are not modelled. The model's types already fix the argument types.
- The async machinery is not modelled. The call is sequential, with no interleaving with other calls.
- Mongo projections, cursors and query matching are plain reads and writes of the abstract stores:
  - a user is found by map lookup;
  - `findActiveUsersInRoles(['admin']).count()` is the size of the set of active users with the `admin` role;
  - `findOneAdmin(userId)` is the `admin` role of the record already read.
- The fourth argument of `setDmReadOnlyByUserId`, which is `false` at both call sites, is not modelled. The model gives the operation's effect on the user's direct rooms: the `ro` flag of those matched.
- Notification.DisplayName: a null username and an absent username are both `None`. Both render as `undefined`. The source renders a null username as `null`. So for a record with a null username, no name and the address `a@b`, the model's `to` field is `undefined<a@b>`, where the source's is `null<a@b>`. Null and undefined names are alike here, since both are falsy.
- Failures after the checks pass are not modelled. Hook runs, store writes and the mailer always complete in the model, and `Outcome` has no value for a thrown exception. In the source, any of them can throw. An `afterDeactivateUser` hook that throws runs after `Users.setUserActive` has already stored `active: false`. So the source can end with the flag written and every later step skipped: the subscriptions are not archived, the login tokens stay, the direct rooms stay writable, no email is sent, and the caller gets the exception. The model has no such partial state.
- Concurrent calls, and store writes by other code between the steps of a call, are not modelled.
