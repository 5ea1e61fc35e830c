# imane backend core in Dafny

imane is a location-sharing service. Users register destinations as
*schedules* with a circular geofence; the server receives the phone's
location samples, decides when the user has arrived at, stayed at or left a
destination, and pushes notifications (through FCM, Firebase Cloud
Messaging) to the friends named on the schedule. Around that sit the
friend graph and its location-share requests, notification inboxes and
FCM registration tokens, *pops* (short-lived public posts on a map) with
their reactions, favorites, username search, and the retention sweeps
that purge expired schedules, location samples, notification history and
pops.

The model keeps the Firestore database as one object, `Store.Db`, with one
`map` field per collection (document id to document). Every service
operation that writes the database is a method that names the collection
fields it `modifies` and states the whole new content of each of them;
read-only queries are methods (they loop over a collection) or functions.
Each service file of the backend is one module; each schema file is one
module of datatypes and the validation predicates its field constraints
impose.

| module | source |
|---|---|
| `Common` | time, coordinates, digit strings, query helpers shared by the services |
| `Store` | the Firestore collections |
| `ScheduleSchema`, `PopSchema`, `UserSchema`, `FriendSchema`, `NotificationSchema`, `ReactionSchema`, `FavoriteSchema`, `LocationSchema` | `backend/app/schemas/*.py` |
| `Schedules`, `Locations`, `Geofencing`, `AutoNotification`, `Notifications`, `Friends`, `Users`, `Pops`, `Reactions`, `Favorites`, `Cleanup` | `backend/app/services/*.py` |
| `LocationApi` | `backend/app/api/v1/location.py` |
| `CloudCleanup` | `backend/functions/src/index.ts` |
| `PopSweeps` | `functions/main.py` |

Instants are integers counting seconds (`Common.Time`); the distance
function (haversine on floats), the float rendering of coordinates, the
FCM transport and the clock are parameters of the operations that use
them.

## Model

| member | source | states |
|---|---|---|
| Common.TruncDiv | backend/app/schemas/pop.py:119-125 | quotient rounded toward zero, as Python's `int()` of a float quotient: for a non-negative dividend the largest q with q*b <= a, for a negative one the smallest q with a <= q*b |
| Common.NatToStringRoundTrip | backend/app/services/auto_notification.py:74-84 | the decimal rendering of a natural number reads back as the same number |
| Common.ParseRenderedNat | backend/app/services/auto_notification.py:74-84 | reading a leading number off a rendered number followed by a non-digit returns the number and the rest |
| Common.Pad2 | backend/app/services/auto_notification.py:56-58 | the `%H`/`%M` field: two digits whose value is the given number below 100 |
| Common.FreshKey | backend/app/services/schedules.py:46 | a generated document id is not already used in the collection |
| Common.Without | backend/app/services/cleanup.py:101-121 | deleting the matching documents keeps exactly the non-matching keys with their documents unchanged |
| Common.WithoutSize | backend/app/services/cleanup.py:101-121 | kept documents plus deleted documents account for the whole collection |
| Common.Select | backend/app/services/cleanup.py:203-239 | a filtered query returns every matching document and only matching ones, one per matching key; no document twice when the collection holds distinct documents |
| Common.SelectSorted | backend/app/services/schedules.py:103-132 | an ordered filtered query returns exactly the matching documents, ordered by the key, one per matching key; no document twice when the collection holds distinct documents |
| Common.DeleteWhere | backend/app/services/cleanup.py:101-121 | a delete loop over a query leaves the collection without the matching documents and counts them |
| Common.SortBySorted | backend/app/services/schedules.py:103-132 | sorting by a key yields a sequence ordered by that key |
| Common.SortByMembers | backend/app/services/schedules.py:103-132 | sorting keeps exactly the same elements |
| Common.InsertByDistinct | backend/app/services/schedules.py:130 | inserting an element not yet present into a list without repeats gives a list without repeats |
| Common.SortByDistinct | backend/app/services/schedules.py:130 | sorting a list without repeats gives a list without repeats |
| Common.DistinctListingSize | backend/app/services/geofencing.py:266-279 | a list without repeats holding exactly the matching documents of a collection of distinct documents has one entry per matching document |
| Common.Take | backend/app/services/location.py:93-118 | a `.limit(n)` keeps the first min(n, length) elements, in order |
| Store.Db.constructor | backend/app/services/friends.py:30-32 | an empty database: every collection is empty |
| ScheduleSchema.ParseStatus | backend/app/schemas/schedule.py:49-55 | a status string parses only to the status whose stored value it is |
| ScheduleSchema.StatusValueRoundTrip | backend/app/schemas/schedule.py:49-55 | every status's stored value parses back to that status |
| ScheduleSchema.CreateWithDefaults | backend/app/schemas/schedule.py:66-85 | omitted fields take radius 50 m, stay threshold 60 minutes, notify on arrival and departure, not favorite, no recurrence; with valid required fields the payload is valid |
| ScheduleSchema.NewSchedule | backend/app/services/schedules.py:25-71 | a created schedule is ACTIVE with no arrival or departure, stamped with the creation instant, keeps the payload's times, and a valid payload gives a valid document |
| PopSchema.CreateWithDefaults | backend/app/schemas/pop.py:78-85 | omitted fields take the default duration, public visibility and non-premium; valid content (1-500 characters) and coordinates give a valid payload |
| PopSchema.ValidateDurationQuarterHours | backend/app/schemas/pop.py:87-89 | a duration is accepted exactly when it lies in the allowed range and is a multiple of 15 minutes |
| PopSchema.RemainingMinutes | backend/app/schemas/pop.py:119-125 | never negative; 0 for an inactive pop; otherwise the whole minutes left before expiry |
| PopSchema.ShrinkRatio | backend/app/schemas/pop.py:127-143 | the display scale is one of 1.0, 0.8, 0.6, 0.4, and 0.4 once the pop is no longer active |
| PopSchema.ShrinkMonotone | backend/app/schemas/pop.py:127-143 | less time remaining never gives a larger scale |
| PopSchema.ShrinkBounds | backend/app/schemas/pop.py:127-143 | the scale lies in [0.4, 1.0]: 1.0 with the whole duration left, 0.4 after expiry |
| PopSchema.NewPop | backend/app/services/pops.py:31-86 | a created pop is ACTIVE, has no reactions, expires duration minutes after creation, carries no `is_active` flag, and is active with its whole duration remaining at creation |
| UserSchema.SenderName | backend/app/services/auto_notification.py:169 | the sender is named by the display name, which a stored user always has; the username only stands in for a document without one |
| AutoNotification.MapLink | backend/app/services/auto_notification.py:33-43 | a map link is the Google Maps query URL prefix followed by the coordinates |
| AutoNotification.SplitAtComma | backend/app/services/auto_notification.py:33-43 | splitting the link's query at its first comma fails exactly when there is no comma, and otherwise rejoins to the input |
| AutoNotification.SplitJoin | backend/app/services/auto_notification.py:33-43 | a comma-free latitude joined to a longitude by a comma splits back into the two |
| AutoNotification.MapLinkRoundTrip | backend/app/services/auto_notification.py:33-43 | the rendered latitude and longitude are recovered from a map link |
| AutoNotification.MapLinkInjective | backend/app/services/auto_notification.py:33-43 | with an injective comma-free coordinate rendering, different coordinates give different links |
| AutoNotification.Clock | backend/app/services/auto_notification.py:56-58 | the arrival time is `HH:MM`: two digits of the hour of the day, a colon, two digits of the minute of the hour |
| AutoNotification.DurationText | backend/app/services/auto_notification.py:60-84 | the stay duration text starts with a digit |
| AutoNotification.HoursMinutesRoundTrip | backend/app/services/auto_notification.py:74-84 | each of the three duration shapes (hours and minutes, hours only, minutes only) reads back as hours*60+minutes |
| AutoNotification.HoursAndMinutesRoundTrip | backend/app/services/auto_notification.py:77-78 | the `X時間Y分` text reads back as X*60+Y |
| AutoNotification.ParseBothParts | backend/app/services/auto_notification.py:77-78 | a text made of a number, the hours unit, a number and the minutes unit reads as hours*60+minutes |
| AutoNotification.DurationRoundTrip | backend/app/services/auto_notification.py:60-84 | the rendered stay duration reads back as the same number of minutes, so no two durations share a text |
| AutoNotification.DurationExamples | backend/app/services/auto_notification.py:74-84 | 90 minutes is `1時間30分`, 45 is `45分`, 120 is `2時間` |
| AutoNotification.ArrivalMessage | backend/app/services/auto_notification.py:45-58 | the arrival message starts with the greeting and ends with the `HH:MM` clock of the instant |
| AutoNotification.StayMessage | backend/app/services/auto_notification.py:60-84 | the stay message starts with the greeting |
| AutoNotification.DepartureMessage | backend/app/services/auto_notification.py:86-99 | the departure message starts with the greeting and ends with the `HH:MM` clock of the instant |
| AutoNotification.RowFor | backend/app/services/auto_notification.py:101-143 | a history row records sender, recipient, schedule, kind, message, map link and sending instant, and is deleted 24 hours after sending |
| AutoNotification.RowLifetime | backend/app/services/auto_notification.py:101-143 | a history row is expired exactly when 24 hours have passed since it was sent |
| AutoNotification.SaveNotificationHistory | backend/app/services/auto_notification.py:101-143 | adds one row under a new id and changes nothing else |
| AutoNotification.Delivered | backend/app/services/auto_notification.py:176-208 | the recipients that get a push are those that exist, in order; when all exist, all of them |
| AutoNotification.AddRowsSpec | backend/app/services/auto_notification.py:176-208 | logging rows under fresh ids keeps every earlier row, adds one row per recipient, and grows the history by that many |
| AutoNotification.AddRowsKeys | backend/app/services/auto_notification.py:176-208 | after logging, the history's ids are the earlier ids plus the new ones |
| AutoNotification.AddRowsOld | backend/app/services/auto_notification.py:176-208 | logging does not change an earlier row |
| AutoNotification.AddRowsNew | backend/app/services/auto_notification.py:176-208 | each new id holds the row for its recipient |
| AutoNotification.AddRowsCard | backend/app/services/auto_notification.py:176-208 | fresh distinct ids grow the history by exactly their number |
| AutoNotification.LoggedStep | backend/app/services/auto_notification.py:176-208 | logging one more recipient under a fresh id extends the log by that row |
| AutoNotification.InboxedStep | backend/app/services/notifications.py:154-190 | saving one more inbox notification under a fresh id extends the inbox log by that recipient |
| AutoNotification.TokensPrunedTrans | backend/app/services/notifications.py:192-213 | token pruning composes: pruning twice is still only pruning |
| AutoNotification.PushPrunes | backend/app/services/notifications.py:32-152 | one multicast only removes tokens from its recipient and changes nothing else about any user |
| AutoNotification.DispatchOne | backend/app/services/auto_notification.py:176-208 | pushing to one recipient that exists logs one row and one inbox entry for it; an unknown recipient is skipped |
| AutoNotification.DeliveredSnoc | backend/app/services/auto_notification.py:176-208 | the delivered recipients of a longer list extend those of its prefix |
| AutoNotification.SentSnoc | backend/app/services/auto_notification.py:176-208 | the dispatch postcondition extends from a prefix to one more recipient |
| AutoNotification.SentNothing | backend/app/services/auto_notification.py:176-208 | dispatching to nobody changes nothing |
| AutoNotification.SentIds | backend/app/services/auto_notification.py:176-208 | a dispatch never logs more rows than it had recipients |
| AutoNotification.DispatchNext | backend/app/services/auto_notification.py:176-208 | one loop step of the dispatch keeps the dispatch postcondition for the recipients done so far |
| AutoNotification.Dispatch | backend/app/services/auto_notification.py:176-208 | each existing recipient, in order, gets one push, one inbox notification and one history row; users only lose invalid tokens; nothing else changes |
| AutoNotification.SendArrivalNotification | backend/app/services/auto_notification.py:145-211 | with arrival notices off or the owner unknown nothing is written; otherwise every recipient gets the arrival message with the current position's map link |
| AutoNotification.StayMinutes | backend/app/services/auto_notification.py:213-293 | the stay length is the whole minutes elapsed since arrival |
| AutoNotification.SendStayNotification | backend/app/services/auto_notification.py:213-293 | before the stay threshold or with the owner unknown nothing is written; otherwise every recipient gets the stay message with the stay length in minutes |
| AutoNotification.SendDepartureNotification | backend/app/services/auto_notification.py:295-360 | with departure notices off or the owner unknown nothing is written; otherwise every recipient gets the departure message, linked to the destination |
| AutoNotification.HasStayRowGrows | backend/app/services/auto_notification.py:362-442 | once a stay row exists for a schedule it still exists after rows are added |
| AutoNotification.StayStep | backend/app/services/auto_notification.py:386-436 | one schedule of the stay sweep: a pending schedule gets at least one stay row; otherwise nothing is logged; only stay rows of that schedule are added |
| AutoNotification.LoggedRows | backend/app/services/auto_notification.py:176-208 | a dispatch's log only adds rows of its schedule and kind, one per id |
| AutoNotification.StaySend | backend/app/services/auto_notification.py:405-424 | sending a due stay notice logs stay rows exactly when the owner exists and some recipient exists |
| AutoNotification.StayNext | backend/app/services/auto_notification.py:386-436 | one loop step of the stay sweep keeps the sweep invariant and the row count |
| AutoNotification.CheckAndSendStayNotifications | backend/app/services/auto_notification.py:362-442 | afterwards no ARRIVED schedule is still owed a stay notice; every added row is a stay row of a schedule that was owed one; with nothing owed nothing is sent |
| AutoNotification.SweepDone | backend/app/services/auto_notification.py:362-442 | when every arrived schedule has been visited none is still owed a stay notice |
| AutoNotification.SweepStep | backend/app/services/auto_notification.py:386-436 | visiting one schedule keeps the sweep invariant |
| AutoNotification.StaySweepTwice | backend/app/services/auto_notification.py:362-442 | the stay sweep sends at most once per stay: running it again at the same instant sends nothing |
| AutoNotification.CleanupOldNotificationHistory | backend/app/services/auto_notification.py:444-465 | deletes exactly the history rows older than 24 hours and returns their number |
| Notifications.FailedTokens | backend/app/services/notifications.py:120-130 | the invalid tokens are exactly those the transport did not accept |
| Notifications.RemoveTokens | backend/app/services/notifications.py:192-213 | keeps exactly the tokens that are not invalid |
| Notifications.RemoveTokensKeepsOrder | backend/app/services/notifications.py:192-213 | pruning distributes over concatenation, so the surviving tokens keep their order |
| Notifications.RemoveTokensIdentity | backend/app/services/notifications.py:192-213 | with no invalid token present nothing is removed |
| Notifications.RemoveTokensIdempotent | backend/app/services/notifications.py:192-213 | pruning the same invalid tokens twice equals pruning once |
| Notifications.Registered | backend/app/services/notifications.py:215-243 | after registering, the token is present; a known token leaves the list as it was, a new one is appended |
| Notifications.RemoveFirst | backend/app/services/notifications.py:245-271 | removing an absent token changes nothing; a present one is removed once |
| Notifications.RemoveUndoesRegister | backend/app/services/notifications.py:215-271 | removing a newly registered token restores the list |
| Notifications.RegisterIdempotent | backend/app/services/notifications.py:215-243 | registering twice equals registering once |
| Notifications.NewNotification | backend/app/services/notifications.py:154-190 | a saved notification belongs to its user, has its kind, is unread and stamped with the instant |
| Notifications.AfterMulticast | backend/app/services/notifications.py:32-152 | a multicast only removes tokens; with no tokens or a raising transport the user is unchanged; otherwise exactly the accepted tokens remain |
| Notifications.RemoveInvalidFcmTokens | backend/app/services/notifications.py:192-213 | an unknown user is left alone; otherwise only the user's tokens and update time change |
| Notifications.SaveNotification | backend/app/services/notifications.py:154-190 | adds one unread notification under a new id |
| Notifications.SendPushNotification | backend/app/services/notifications.py:32-152 | fails with user-not-found exactly for an unknown user and then writes nothing; otherwise prunes the rejected tokens and saves an inbox notification exactly when asked |
| Notifications.RegisterFcmToken | backend/app/services/notifications.py:215-243 | fails exactly for an unknown user; a known token writes nothing; a new token is appended |
| Notifications.RemoveFcmToken | backend/app/services/notifications.py:245-271 | fails exactly for an unknown user; an absent token writes nothing; a present token is removed |
| Notifications.GetUserNotifications | backend/app/services/notifications.py:273-305 | returns the newest `limit` of the user's notifications (unread only when asked), newest first, taken from a listing with one entry per matching document |
| Notifications.GetUnreadCount | backend/app/services/notifications.py:307-324 | the number of the user's unread notifications |
| Notifications.MarkAllCounts | backend/app/services/notifications.py:326-364 | marking keeps the same ids, only flips the user's listed unread notifications to read, and counts exactly the flipped ones |
| Notifications.MarkAllFacts | backend/app/services/notifications.py:326-364 | after an accepted marking every listed existing notification is the user's and read |
| Notifications.MarkAllSettled | backend/app/services/notifications.py:326-364 | marking notifications that are already read changes nothing and counts zero |
| Notifications.MarkAllAgain | backend/app/services/notifications.py:326-364 | marking is idempotent: a second marking changes nothing and counts zero |
| Notifications.MarkNotificationsAsRead | backend/app/services/notifications.py:326-364 | writes the marking's result and returns its count, or forbidden when a listed notification belongs to someone else |
| Notifications.RefusalSticks | backend/app/services/notifications.py:326-364 | once a foreign notification is met the rest of the list is not processed |
| Notifications.DeleteNotification | backend/app/services/notifications.py:366-391 | not-found for an unknown id, forbidden for another user's notification; only the owner's request deletes it, and nothing else changes |
| Friends.GetFriendship | backend/app/services/friends.py:316-340 | returns a stored ACTIVE friendship row from the user to the friend, and none exactly when there is none |
| Friends.IsFriendNow | backend/app/services/friends.py:342-354 | true exactly when an ACTIVE friendship row from the user to the friend exists |
| Friends.CanSeeLocation | backend/app/services/friends.py:453-470 | never true for non-friends; true only when a friendship row grants location sight; false for a friend only when the row found withholds it |
| Friends.GetTrustLevel | backend/app/services/friends.py:433-451 | none exactly for non-friends; otherwise the level stored on a friendship row, or the FRIEND level when the row has none |
| Friends.GetFriends | backend/app/services/friends.py:283-314 | as intended (see Left out): exactly the user's ACTIVE friendship rows, one per row |
| Friends.SendCheck | backend/app/services/friends.py:34-91 | a request is allowed exactly when it is not to oneself, the target exists, they are not friends and no pending request from the sender to the target exists |
| Friends.SendFriendRequest | backend/app/services/friends.py:34-91 | refused (with the check's error) exactly when the check fails, writing nothing; otherwise stores one new PENDING request; keeps at most one pending request per ordered pair |
| Friends.GetReceivedRequests | backend/app/services/friends.py:93-126 | as intended (see Left out): exactly the PENDING requests addressed to the user, newest first |
| Friends.GetSentRequests | backend/app/services/friends.py:128-161 | as intended (see Left out): exactly the PENDING requests the user sent, newest first |
| Friends.AnswerCheck | backend/app/services/friends.py:163-244 | a request can be answered exactly when it exists, is addressed to the user and is PENDING; a missing one is not-found |
| Friends.AnswerKeepsPendingUnique | backend/app/services/friends.py:163-244 | answering a request keeps at most one pending request per ordered pair |
| Friends.CreateFriendship | backend/app/services/friends.py:246-281 | stores one new ACTIVE friendship row at the FRIEND trust level and changes nothing else |
| Friends.AcceptFriendRequest | backend/app/services/friends.py:163-212 | refused exactly when the request cannot be answered, writing nothing; otherwise marks it ACCEPTED and adds one friendship row in each direction, so both users are friends of each other |
| Friends.RejectFriendRequest | backend/app/services/friends.py:214-244 | refused exactly when the request cannot be answered; otherwise marks it REJECTED and changes nothing else |
| Friends.ApplyFriendshipUpdate | backend/app/services/friends.py:356-390 | an update changes only the fields it gives, plus the update time |
| Friends.ApplyFriendshipUpdateIdempotent | backend/app/services/friends.py:356-390 | applying the same update twice equals applying it once |
| Friends.UpdateFriendship | backend/app/services/friends.py:356-390 | not-found exactly for non-friends; otherwise one friendship row from the user to the friend receives the update |
| Friends.DropLink | backend/app/services/friends.py:392-416 | deletes one ACTIVE row in the given direction when there is one, otherwise nothing |
| Friends.RemoveFriend | backend/app/services/friends.py:392-416 | not-found exactly when neither direction is a friendship; otherwise deletes exactly one ACTIVE row in each direction that has one, and nothing else |
| Friends.CrossedRequests | backend/app/services/friends.py:34-91 | two users can hold pending requests to each other at once |
| Friends.AcceptBoth | backend/app/services/friends.py:163-212 | accepting both crossed requests leaves two distinct ACTIVE rows from the first user to the second |
| Friends.CrossedRequestsSurviveRemoval | backend/app/services/friends.py:392-416 | after crossed requests are both accepted, removing the friend leaves the users friends (see Findings) |
| Friends.RemoveFriendship | backend/app/services/friends.py:392-416 | not-found exactly when neither direction is a friendship; deletes every row between the two users, so neither is a friend of the other afterwards |
| Friends.BlockUser | backend/app/services/friends.py:418-431 | for friends one friendship row from the user becomes BLOCKED; for non-friends nothing changes |
| Friends.SendLocationShareRequest | backend/app/services/friends.py:472-527 | refused for oneself, for non-friends (and not-friends only for them), when location is already visible, and for a duplicate pending request, writing nothing; a friend without sight and without a pending request always gets one new PENDING share request; keeps at most one pending per pair |
| Friends.GetReceivedLocationShareRequests | backend/app/services/friends.py:529-563 | exactly the PENDING share requests addressed to the user, newest first |
| Friends.GetSentLocationShareRequests | backend/app/services/friends.py:565-592 | exactly the PENDING share requests the user sent, newest first |
| Friends.ShareAnswerCheck | backend/app/services/friends.py:594-673 | a share request can be answered exactly when it exists, is addressed to the user and is PENDING |
| Friends.ShareAnswerKeepsUnique | backend/app/services/friends.py:594-673 | answering keeps at most one pending share request per pair |
| Friends.AcceptLocationShareRequest | backend/app/services/friends.py:594-641 | refused when it cannot be answered, writing nothing; otherwise marks it ACCEPTED and, exactly when they are friends, succeeds by granting the requester sight on one of the requester's rows towards the target, else returns not-found |
| Friends.RejectLocationShareRequest | backend/app/services/friends.py:643-673 | refused exactly when it cannot be answered; otherwise marks it REJECTED only |
| Friends.RevokeLocationShare | backend/app/services/friends.py:675-701 | not-found exactly for non-friends, already-revoked only when sight is withheld on the picked row (writing nothing); when every row grants sight it succeeds, withdrawing the viewer's sight on one friendship row |
| Geofencing.EffectiveRadius | backend/app/services/geofencing.py:91 | a radius of 0 falls back to the default radius; a valid stored radius is used as is |
| Geofencing.CheckEntry | backend/app/services/geofencing.py:70-120 | an entry is detected exactly when the schedule is not ARRIVED, the position is inside the fence, and there is no previous position or it was outside; the distance is returned alongside |
| Geofencing.CheckExit | backend/app/services/geofencing.py:122-169 | an exit is detected exactly when the schedule is ARRIVED, the position is outside, and a previous position existed inside |
| Geofencing.ArrivedNeverEnters | backend/app/services/geofencing.py:70-120 | an ARRIVED schedule never produces an entry |
| Geofencing.EntryExitExclusive | backend/app/services/geofencing.py:70-169 | one position update never produces both an entry and an exit; without a previous position there is no exit |
| Geofencing.NoEventWithoutMovement | backend/app/services/geofencing.py:70-169 | reporting the same position twice produces no event |
| Geofencing.StepEvents | backend/app/services/geofencing.py:201-248 | a schedule yields at most one event, only inside its time window; an entry event exactly when entry is detected, an exit event exactly when exit is detected |
| Geofencing.Written | backend/app/services/schedules.py:192-236 | an entry writes ARRIVED with the arrival instant, an exit writes COMPLETED with the departure instant; the other timestamp is kept |
| Geofencing.WrittenTwice | backend/app/services/schedules.py:192-236 | writing the same event twice gives the same document as writing it once |
| Geofencing.ApplyStepHandled | backend/app/services/geofencing.py:201-248 | handling one more loaded schedule extends the handled set by it and leaves the others as they were |
| Geofencing.ApplyExact | backend/app/services/geofencing.py:171-250 | after the loop every loaded schedule holds its own outcome and every other document is unchanged |
| Geofencing.OutcomeAdvances | backend/app/services/geofencing.py:201-248 | a live schedule only moves forward: ACTIVE to ARRIVED or ARRIVED to COMPLETED, stamped now, or stays |
| Geofencing.ProcessOnlyAdvances | backend/app/services/geofencing.py:171-250 | a location update keeps the same schedules, only advances the user's live ones, and leaves every other schedule unchanged |
| Geofencing.EventsFromLoaded | backend/app/services/geofencing.py:171-250 | every reported event comes from a loaded schedule and is that schedule's only event |
| Geofencing.EventsComeWithWrites | backend/app/services/geofencing.py:171-250 | every event is in its schedule's window; an entry came from an ACTIVE schedule now ARRIVED at this instant, an exit from an ARRIVED schedule now COMPLETED at this instant |
| Geofencing.EventsBound | backend/app/services/geofencing.py:171-250 | no more events than loaded schedules |
| Geofencing.EventsDistinct | backend/app/services/geofencing.py:200-248 | over a loaded list naming each schedule once, no two events of a pass belong to the same schedule |
| Geofencing.HandleSchedule | backend/app/services/geofencing.py:201-248 | one loop iteration: returns the schedule's events and writes its outcome |
| Geofencing.ApplyStepKeyed | backend/app/services/geofencing.py:201-248 | writing an outcome keeps every schedule stored under its own id |
| Geofencing.LoadLive | backend/app/services/geofencing.py:187-195 | loads the user's ACTIVE schedules, latest start first, followed by the ARRIVED ones, latest start first: each live schedule of the user exactly once, as stored |
| Geofencing.ConcatIdsDistinct | backend/app/services/geofencing.py:195 | an ACTIVE listing followed by an ARRIVED listing never names one schedule twice, and every entry is the stored document |
| Geofencing.LiveKeysSplit | backend/app/services/geofencing.py:187-195 | the user's live schedules number the ACTIVE ones plus the ARRIVED ones |
| Geofencing.LiveListingOfParts | backend/app/services/geofencing.py:187-195 | the two status listings one after the other list every live schedule exactly once, ACTIVE ones first |
| Geofencing.ProcessLocationUpdate | backend/app/services/geofencing.py:171-250 | evaluates the user's ACTIVE then ARRIVED schedules, each once in listing order; returns their events, at most one per schedule, and writes each one's outcome, changing nothing else |
| Geofencing.GetNearbySchedules | backend/app/services/geofencing.py:252-281 | exactly the user's ACTIVE schedules within the radius (5 times the geofence radius by default), each once with its distance, nearest first |
| Geofencing.NearbyCount | backend/app/services/geofencing.py:266-279 | a distance-tagged listing of nearby schedules without repeated pairs lists each nearby schedule document once |
| Cleanup.DeleteRelatedLocationHistory | backend/app/services/cleanup.py:101-121 | an empty schedule id deletes nothing; otherwise deletes exactly the samples of that schedule and counts them |
| Cleanup.DeleteRelatedNotificationHistory | backend/app/services/cleanup.py:123-143 | an empty schedule id deletes nothing; otherwise deletes exactly the history rows of that schedule and counts them |
| Cleanup.IdsOfStep | backend/app/services/cleanup.py:72-93 | visiting one more purged schedule adds its id, unless empty, to the ids whose dependents are cascaded |
| Cleanup.SamplesStep | backend/app/services/cleanup.py:86 | cascading one more schedule removes its samples on top of those already removed |
| Cleanup.RowsStep | backend/app/services/cleanup.py:89 | cascading one more schedule removes its history rows on top of those already removed |
| Cleanup.SamplesDone | backend/app/services/cleanup.py:86 | after the loop the samples are the original ones without those of the purged schedules |
| Cleanup.RowsDone | backend/app/services/cleanup.py:89 | after the loop the history rows are the original ones without those of the purged schedules |
| Cleanup.PurgeOne | backend/app/services/cleanup.py:72-97 | one loop iteration deletes one purgeable schedule and cascades to its samples and history rows |
| Cleanup.PurgeInit | backend/app/services/cleanup.py:58-99 | before the loop nothing has been purged |
| Cleanup.PurgeDone | backend/app/services/cleanup.py:58-99 | when every purgeable schedule has been visited the three collections are exactly the originals without the purged schedules and their dependents |
| Cleanup.PurgeNext | backend/app/services/cleanup.py:72-97 | one loop step keeps the purge invariant and the deletion count |
| Cleanup.CleanupExpiredSchedules | backend/app/services/cleanup.py:58-99 | deletes exactly the schedules that ended more than 24 hours ago, whatever their status, with all their samples and history rows, and counts the schedules |
| Cleanup.Expire | backend/app/services/cleanup.py:180 | expiring changes only the status, to EXPIRED, and the update time |
| Cleanup.ExpirePasses | backend/app/services/cleanup.py:145-201 | the ACTIVE pass followed by the ARRIVED pass expires exactly the overdue ACTIVE or ARRIVED schedules |
| Cleanup.ExpirePassesCount | backend/app/services/cleanup.py:145-201 | the two passes' counts add up to the number of overdue ACTIVE or ARRIVED schedules |
| Cleanup.ExpireAllIdempotent | backend/app/services/cleanup.py:145-201 | afterwards nothing is left to expire, so a second run changes nothing |
| Cleanup.ExpireAllKeepsOthers | backend/app/services/cleanup.py:145-201 | COMPLETED, EXPIRED and not-yet-overdue schedules are untouched |
| Cleanup.ExpireStep | backend/app/services/cleanup.py:177-191 | expiring one more overdue schedule keeps the pass invariant |
| Cleanup.ExpireDone | backend/app/services/cleanup.py:177-191 | when every overdue schedule of the status has been visited the collection equals the pass's result |
| Cleanup.ExpireWithStatus | backend/app/services/cleanup.py:161-191 | one pass expires exactly the overdue schedules of one status and counts them |
| Cleanup.UpdateExpiredSchedulesStatus | backend/app/services/cleanup.py:145-201 | expires exactly the ACTIVE and ARRIVED schedules that ended more than 24 hours ago and counts them |
| Cleanup.CleanupExpiredData | backend/app/services/cleanup.py:25-56 | purges expired samples and history rows, then expired schedules with their dependents, and reports each count |
| Cleanup.GetCleanupStats | backend/app/services/cleanup.py:203-239 | counts what a cleanup would delete in each collection, and their total, writing nothing |
| Cleanup.PreviewThenCleanup | backend/app/services/cleanup.py:25-56 | the preview counts equal the counts a cleanup at the same instant reports |
| CloudCleanup.TakeBatch | backend/functions/src/index.ts:183-187 | a batch query returns matching documents only, as many as match up to the batch size |
| CloudCleanup.BatchShrinks | backend/functions/src/index.ts:190-205 | deleting a batch removes exactly its documents from the matching set |
| CloudCleanup.BatchDone | backend/functions/src/index.ts:173-224 | once no document matches, the collection is the original without the matching documents |
| CloudCleanup.DeleteInBatches | backend/functions/src/index.ts:173-224 | deletes exactly the matching documents, in rounds of at most 500 where every round but the last is full, and counts them |
| CloudCleanup.FailureMessage | backend/functions/src/index.ts:113-149 | every step failure message starts with the failure prefix |
| CloudCleanup.FailureMessageNamesStep | backend/functions/src/index.ts:113-149 | a failure message names its step unambiguously |
| CloudCleanup.Failures | backend/functions/src/index.ts:96-172 | at most one message per step, none exactly when no step fails, each prefixed |
| CloudCleanup.PerformCleanup | backend/functions/src/index.ts:96-172 | success exactly when no step fails, errors listed only on failure; each step that does not fail deletes exactly its expired documents and reports the count, a failing one deletes nothing and reports 0 |
| CloudCleanup.ExpectedToken | backend/functions/src/index.ts:58-59 | the configured token is used unless missing or empty, then the environment's |
| CloudCleanup.AuthorizeExactly | backend/functions/src/index.ts:56-73 | a request is authorized exactly when a token is expected and the header is `Bearer ` followed by it |
| CloudCleanup.ManualCleanup | backend/functions/src/index.ts:50-95 | 200 exactly when authorized, after one cleanup run whose deletions and counts are those of `performCleanup` (each step's expired documents deleted and counted, or nothing on its failure), answered with its result; otherwise 401 with the reason and nothing deleted |
| Schedules.ApplyUpdate | backend/app/services/schedules.py:146-190 | an update changes only the fields it gives, plus the update time; identity, owner, status and visit stamps are kept; a valid update of a valid schedule is valid |
| Schedules.ApplyUpdateIdempotent | backend/app/services/schedules.py:146-190 | applying the same update twice equals applying it once |
| Schedules.UpdateResult | backend/app/services/schedules.py:146-190 | not-found exactly for an unknown id, forbidden exactly for another user's schedule, an invalid window exactly when the merged start is not before the merged end; otherwise the merged schedule, whose window is valid |
| Schedules.StatusUpdate | backend/app/services/schedules.py:192-236 | sets the status and update time, and the arrival or departure instant only when one is given; nothing else changes |
| Schedules.StatusUpdateIgnoresStored | backend/app/services/schedules.py:192-236 | the written document does not depend on the status stored before |
| Schedules.CreateSchedule | backend/app/services/schedules.py:25-71 | a start not before the end is refused, writing nothing; otherwise stores one new schedule built from the payload |
| Schedules.GetScheduleById | backend/app/services/schedules.py:73-101 | none for an unknown id, forbidden for another user's schedule, otherwise the stored schedule |
| Schedules.GetSchedulesByUser | backend/app/services/schedules.py:103-132 | exactly the user's schedules (of the status, when given), one per document and none twice, latest start first |
| Schedules.GetActiveSchedules | backend/app/services/schedules.py:134-144 | exactly the user's ACTIVE schedules, none twice, latest start first |
| Schedules.UpdateSchedule | backend/app/services/schedules.py:146-190 | writes the merged schedule exactly when the update is accepted, otherwise nothing |
| Schedules.UpdateScheduleStatus | backend/app/services/schedules.py:192-236 | not-found exactly for an unknown id, writing nothing; otherwise writes the status update |
| Schedules.DeleteSchedule | backend/app/services/schedules.py:238-262 | not-found for an unknown id, forbidden for another user's schedule; deletes exactly when the owner asks, and nothing else changes |
| Locations.NewSample | backend/app/services/location.py:28-66 | a sample records the user, position and schedule, the supplied recording time or else now, and is deleted 24 hours after recording |
| Locations.SampleLifetime | backend/app/services/location.py:28-66 | a sample is expired exactly when 24 hours have passed since it was recorded |
| Locations.RecordLocation | backend/app/services/location.py:28-66 | adds one sample under a new id and changes nothing else |
| Locations.GetLocationHistory | backend/app/services/location.py:93-118 | the newest `limit` samples of the user, newest first |
| Locations.GetLatestLocation | backend/app/services/location.py:68-91 | none exactly when the user has no sample; otherwise a sample of the user recorded no earlier than any other |
| Locations.StatusRow | backend/app/services/location.py:120-163 | a status row carries the schedule's id, stored status value and visit stamps, and a distance exactly when a latest sample exists |
| Locations.GetActiveScheduleStatus | backend/app/services/location.py:120-163 | one row per ACTIVE or ARRIVED schedule of the user, in the listing order of the two status queries, each the schedule's id, destination, status and stamps with the distance from the latest sample when there is one |
| Locations.CleanupOldLocations | backend/app/services/location.py:192-208 | deletes exactly the samples older than 24 hours and counts them |
| LocationApi.EventStatusMatchesWrite | backend/app/api/v1/location.py:72-89 | the status reported for an event is the status value the geofence step writes: `arrived` for an entry, `completed` for an exit |
| LocationApi.Previous | backend/app/api/v1/location.py:46-49 | a previous position exists exactly when the user has at least two samples, and is the second newest |
| LocationApi.ResponseMessageCount | backend/app/api/v1/location.py:96 | the reply message states the number of processed events, which reads back from it |
| LocationApi.TriggeredOf | backend/app/api/v1/location.py:72-94 | one triggered entry per notification id, each naming its event's kind and schedule |
| LocationApi.TriggeredAppend | backend/app/api/v1/location.py:79-92 | one more schedule report appends one triggered entry per notification id it carries |
| LocationApi.HandleEvent | backend/app/api/v1/location.py:64-94 | reports the event's schedule, type, distance and status, and logs exactly its notification ids as history rows of that schedule and kind |
| LocationApi.ReportedStep | backend/app/api/v1/location.py:64-94 | one more handled event extends the reports in event order |
| LocationApi.HandleEvents | backend/app/api/v1/location.py:64-94 | one report per event, in order, echoing the event's schedule id, destination name, type and distance with its status and new history ids; the triggered list matches the reports; the history grows by exactly the triggered notifications |
| LocationApi.NewestFirst | backend/app/api/v1/location.py:43-49 | a sample newer than all earlier ones of the user heads the newest-first history |
| LocationApi.UpdateLocation | backend/app/api/v1/location.py:20-103 | records one sample, takes the second newest as the previous position, applies the geofence step to the user's live schedules (each once, ACTIVE before ARRIVED), reports each event (schedule id, destination name, type, distance, status) with its notifications, at most one per schedule, and counts the events in the message |
| LocationApi.GetLocationStatus | backend/app/api/v1/location.py:107-133 | the newest sample's position and time exactly when the user has a sample, and exactly one status row per live schedule of the user, in listing order, its distance measured from a sample recorded at the reported time |
| Users.Lower | backend/app/services/users.py:56 | lower-casing keeps the length and maps each ASCII, Latin-1, basic Cyrillic and full-width Latin capital to its small letter, leaving other characters alone |
| Users.LowerIdempotent | backend/app/services/users.py:56 | lower-casing twice equals lower-casing once |
| Users.Strip | backend/app/services/users.py:53-56 | the stripped query is empty exactly when the query is all white space (Python's full set, the ideographic space included), otherwise it is the query with exactly its leading and trailing white space removed |
| Users.StripIdeographicSpace | backend/app/services/users.py:53-56 | a query with a leading ideographic space strips to the name |
| Users.Contains | backend/app/services/users.py:73-74 | true exactly when the query occurs at some position of the username |
| Users.Hits | backend/app/services/users.py:65-77 | the matches of a scan are exactly the scanned users, other than the caller, whose lower-cased username contains the query, in scan order |
| Users.HitsAppend | backend/app/services/users.py:65-77 | scanning one more user appends it exactly when it matches |
| Users.HitsSplit | backend/app/services/users.py:65-77 | the matches of two scans concatenated are the concatenation of their matches |
| Users.ListUsers | backend/app/services/users.py:62-63 | the scan reads stored users only, up to 100 of them |
| Users.ScanForHits | backend/app/services/users.py:65-80 | with a positive limit, returns the first `limit` matches of the scan; every result matches |
| Users.TakeOfLonger | backend/app/services/users.py:79-80 | stopping as soon as `limit` matches are found returns the same as taking the first `limit` matches of the whole scan |
| Users.SearchUsers | backend/app/services/users.py:39-82 | as intended: a blank query returns nothing; otherwise the first `limit` users among the first 100 scanned, excluding the caller, whose stored username contains the stripped lower-cased query |
| Users.SearchUsersAsWritten | backend/app/services/users.py:62-77 | as written: a blank query returns nothing; otherwise the search raises exactly when the scan holds a user other than the caller, and never returns a hit |
| Users.SearchAsWrittenMissesHit | backend/app/services/users.py:72-74 | the caller plus a user `taro` and the query "taro": the intended search has the hit, while the scan holds a user on whom the search as written raises |
| Users.CheckUsernameAvailability | backend/app/services/users.py:20-37 | available exactly when no user holds the username |
| Users.GetUserByUid | backend/app/services/users.py:84-101 | the stored user, or none for an unknown uid |
| Users.ApplyProfileUpdate | backend/app/services/users.py:103-143 | only the display name and image given change, plus the update time; uid, username, email and tokens are kept |
| Users.UpdateProfile | backend/app/services/users.py:103-143 | as intended: user-not-found exactly for an unknown uid, writing nothing; otherwise writes the updated profile |
| Users.UpdateProfileAsWritten | backend/app/services/users.py:116-124 | as written: user-not-found for an unknown uid, and a raised attribute error for every existing one, before any write |
| Pops.CreatePop | backend/app/services/pops.py:31-86 | refused exactly when the duration is invalid, writing nothing; otherwise stores one new pop that is active with its whole duration left and no reactions |
| Pops.GetPopById | backend/app/services/pops.py:88-105 | the stored pop, or none for an unknown id |
| Pops.SearchNearbyPops | backend/app/services/pops.py:107-157 | at most `limit` pops, each stored, matching the status and category filters and within the radius; when the filtered query has no more than `limit` matches, every match within the radius is returned |
| Pops.GetUserPops | backend/app/services/pops.py:159-186 | exactly the user's pops (only active ones unless expired are asked for), newest first |
| Pops.ApplyPopUpdate | backend/app/services/pops.py:188-223 | only the content and category given change |
| Pops.OwnerCheck | backend/app/services/pops.py:188-252 | allowed exactly for the owner; not-found for an unknown pop, forbidden for someone else's |
| Pops.UpdatePop | backend/app/services/pops.py:188-223 | the owner's update is written; a refusal or an empty update writes nothing |
| Pops.DeletePop | backend/app/services/pops.py:225-252 | the owner's delete marks the pop DELETED, so it is inactive at every instant; a refusal writes nothing |
| Pops.Bumped | backend/app/services/pops.py:254-280 | a counter update changes only the reaction count, by the given amount |
| Pops.IncrementReactionCount | backend/app/services/pops.py:254-266 | not-found exactly for an unknown pop; otherwise the count goes up by one |
| Pops.DecrementReactionCount | backend/app/services/pops.py:268-280 | not-found exactly for an unknown pop; otherwise the count goes down by one |
| Pops.BumpedCancels | backend/app/services/pops.py:254-280 | an increment followed by a decrement restores the pop |
| Pops.ExpirePopsSound | backend/app/services/pops.py:282-302 | the same pops remain, none changes whether it is active, every elapsed ACTIVE pop becomes EXPIRED, none is left to expire, and a second run changes nothing |
| Pops.ExpireStep | backend/app/services/pops.py:298-299 | expiring one more elapsed pop keeps the loop invariant |
| Pops.ExpireDone | backend/app/services/pops.py:282-302 | when every elapsed pop has been visited the collection equals the expiry's result |
| Pops.ExpireOldPops | backend/app/services/pops.py:282-302 | marks exactly the elapsed ACTIVE pops EXPIRED and counts them |
| Reactions.CountInvNewPop | backend/app/services/pops.py:31-86 | adding a pop with no reactions keeps every stored pop's count equal to its pending and accepted reactions |
| Reactions.LiveOnAdd | backend/app/services/reactions.py:29-93 | a new live reaction adds one to its pop's live reactions and none to other pops' |
| Reactions.LiveOnKill | backend/app/services/reactions.py:235-311 | closing a live reaction removes one from its pop's live reactions |
| Reactions.LiveOnKeep | backend/app/services/reactions.py:200-233 | accepting a reaction keeps its pop's live reactions |
| Reactions.CreateCheck | backend/app/services/reactions.py:29-93 | a reaction is allowed exactly on an existing pop of someone else that the sender has no live reaction on; not-found, own-pop or duplicate otherwise |
| Reactions.CountInvAdd | backend/app/services/reactions.py:29-93 | storing a live reaction and bumping its pop keeps the count invariant |
| Reactions.LiveUniqueAdd | backend/app/services/reactions.py:29-93 | a reaction from a sender with no live one on the pop keeps at most one live reaction per sender and pop |
| Reactions.CreateReaction | backend/app/services/reactions.py:29-93 | refused exactly when the check fails, writing nothing; otherwise stores one PENDING reaction to the pop's owner and bumps the pop's count; keeps the count invariant and the one-live-reaction rule |
| Reactions.GetReactionById | backend/app/services/reactions.py:95-112 | the stored reaction, or none for an unknown id |
| Reactions.GetReceivedReactions | backend/app/services/reactions.py:114-142 | exactly the reactions addressed to the user (of the status, when given), newest first |
| Reactions.GetSentReactions | backend/app/services/reactions.py:144-172 | exactly the reactions the user sent (of the status, when given), newest first |
| Reactions.GetPopReactions | backend/app/services/reactions.py:174-198 | exactly the pop's reactions, newest first |
| Reactions.AnswerCheck | backend/app/services/reactions.py:200-311 | an answer is allowed exactly to the right party of an existing PENDING reaction; not-found, forbidden or already-processed otherwise |
| Reactions.AcceptReaction | backend/app/services/reactions.py:200-233 | the receiver's answer marks the reaction ACCEPTED, a refusal writes nothing; the invariants are kept |
| Reactions.Close | backend/app/services/reactions.py:235-311 | the party's answer closes the reaction and decrements its pop's count, or reports not-found when the pop is gone; the invariants are kept |
| Reactions.RejectReaction | backend/app/services/reactions.py:235-272 | the receiver's answer marks the reaction REJECTED and lowers its pop's `reaction_count` by one, leaving every other pop as it was; when the pop is gone the status change stays and the answer is not-found; refusals write nothing; the invariants are kept |
| Reactions.CancelReaction | backend/app/services/reactions.py:274-311 | the sender's answer marks the reaction CANCELLED and lowers its pop's `reaction_count` by one, leaving every other pop as it was; when the pop is gone the status change stays and the answer is not-found; refusals write nothing; the invariants are kept |
| Reactions.GetUnreadCount | backend/app/services/reactions.py:313-330 | the number of PENDING reactions addressed to the user |
| Reactions.UnreadAfterAnswer | backend/app/services/reactions.py:200-330 | answering a pending reaction lowers its receiver's unread count by one and no one else's |
| Reactions.UnreadAfterCreate | backend/app/services/reactions.py:29-93 | a new reaction raises its receiver's unread count by one and no one else's |
| Favorites.Lookup | backend/app/services/favorites.py:56-84 | the favorite when the user owns it, none for an unknown id, forbidden for someone else's |
| Favorites.CreateFavorite | backend/app/services/favorites.py:23-54 | stores one new favorite of the user, which the user can then read and nobody else can |
| Favorites.GetFavoriteById | backend/app/services/favorites.py:56-84 | returns a favorite only to its owner |
| Favorites.GetFavoritesByUser | backend/app/services/favorites.py:86-108 | exactly the user's favorites, newest first |
| Favorites.DeleteFavorite | backend/app/services/favorites.py:110-134 | not-found for an unknown id, forbidden for someone else's; the owner's delete removes it, after which the owner reads none |
| PopSweeps.Mark | functions/main.py:58-65 | a swept pop gets `is_active` false, `deleted_at` now and `auto_deleted` true, and nothing else changes |
| PopSweeps.StageStep | functions/main.py:56-73 | staging one more matching pop keeps the sweep's bookkeeping |
| PopSweeps.CommitStep | functions/main.py:70-77 | committing a batch moves its pops to committed and records its size |
| PopSweeps.BatchesDone | functions/main.py:70-77 | the final partial batch completes the record: all batches but the last are full and the sizes sum to the count |
| PopSweeps.MarkKeysCommit | functions/main.py:70-73 | committing a staged batch marks exactly its pops |
| PopSweeps.CommitMarks | functions/main.py:70-73 | a batch commit writes the marks of exactly the staged pops |
| PopSweeps.StageMark | functions/main.py:56-73 | one loop step stages one pop and commits when the batch reaches 500 |
| PopSweeps.FinishMarks | functions/main.py:75-77 | the last partial batch is committed, so every matching pop is marked and counted |
| PopSweeps.MarkKeysDone | functions/main.py:26-84 | when every matching pop is committed the collection equals the marking's result |
| PopSweeps.MarkInBatches | functions/main.py:53-77 | marks exactly the selected pops, in batches of 500 where all but the last are full, and counts them |
| PopSweeps.DeleteExpiredPops | functions/main.py:26-84 | marks exactly the pops whose stored `is_active` is true and whose expiry has passed, and counts them |
| PopSweeps.DeleteExpiredPopsCorrected | functions/main.py:26-84 | marks exactly the live pops (a missing flag read as ACTIVE status) whose expiry has passed |
| PopSweeps.CreatedPopNeverSwept | functions/main.py:44-47 | a pop as created by the service is never marked by the sweep as written, even long after expiry |
| PopSweeps.CorrectedSweepsCreatedPops | functions/main.py:44-47 | the corrected sweep marks an expired service-created pop |
| PopSweeps.CorrectedSweepStable | functions/main.py:26-84 | a later corrected sweep leaves already marked pops as they are |
| PopSweeps.CommitDeletes | functions/main.py:129-132 | a batch commit deletes exactly the staged pops |
| PopSweeps.StageDelete | functions/main.py:122-132 | one loop step stages one pop and commits when the batch reaches 500 |
| PopSweeps.FinishDeletes | functions/main.py:134-136 | the last partial batch is committed, so every matching pop is deleted and counted |
| PopSweeps.DeletesDone | functions/main.py:87-142 | when every matching pop is deleted the collection is the original without them |
| PopSweeps.CleanupOldDeletedPops | functions/main.py:87-142 | deletes exactly the marked pops whose `deleted_at` is 24 hours old or older, in batches of 500 where all but the last are full, and counts them |
| PopSweeps.MarkedThenPurged | functions/main.py:26-142 | a pop marked by the corrected sweep is physically deleted by a purge 24 hours or more later |

## Left out

- Distances: the haversine formula in `geofencing.py`, `location.py` and `pops.py` works on floats; the model takes the distance function as a parameter (`Geofencing.Distance`, `Pops.DistanceKm`) and assumes nothing about it.
- Coordinate rendering: the float formatting of latitude and longitude inside map links is a parameter (`AutoNotification.Render`).
- Geohash: the geohash written by `create_pop` and used by `search_nearby_pops` comes from a foreign library and is not modelled; the search filters by the distance parameter only.
- FCM: the multicast is a per-token oracle (`Notifications.Transport`): it accepts or rejects each token, or raises as a whole. Message payload fields (Android and APNs options, the data map) are not modelled.
- Firestore: each collection is a map from document id to document. Write failures, partial batch commits and exceptions thrown by the store are not modelled. A failing step of the TypeScript cleanup is modelled by a fault oracle (`CloudCleanup.Faults`) that makes the step delete nothing; a step that fails after committing some batches is not modelled.
- Document ids: `uuid4` and Firestore auto-ids are modelled by `Common.FreshKey`, which returns some id not yet used in the collection.
- Clock: every `datetime.now()` and `Timestamp.now()` is the parameter `now`; several readings inside one operation are taken to be the same instant. Instants are whole seconds, so the difference between JST and UTC (both denote the same instant) does not arise.
- Settings: `GEOFENCE_RADIUS_METERS` and `DATA_RETENTION_HOURS` are referenced but not defined in the configuration; the model uses 50 metres and 24 hours.
- Geofencing.EffectiveRadius: the fallback to the default radius for a stored radius of 0 is modelled, but it cannot happen for a valid schedule, whose radius is at least 10.
- Concurrency: the services are `async` and have no compare-and-set; interleavings of concurrent requests are not modelled, each operation runs alone.
- Scheduled triggers: the schedules on which `cleanupExpiredData`, `delete_expired_pops` and `cleanup_old_deleted_pops` run are not modelled; the sweeps themselves are.
- CloudCleanup.ManualCleanup: the 500 reply is not modelled, because `performCleanup` catches every step's error itself and does not throw.
- CloudCleanup.AuthorizeExactly: the token is a plain string comparison as in `index.ts`; an empty configured token falls back to the environment, and when the environment token is the empty string the bare header "Bearer " is admitted, as the source does. Logging is not modelled.
- Users.UpdateProfile: models `update_profile` as its authors evidently intended. As written, the username-conflict check reads `update_data.username`, which `UserUpdate` does not declare, so every update of an existing user raises (a Findings row); the corrected model skips that check, since the update carries no username.
- UserSchema.User: the `username` field is read off the stored document, as sign-up writes it. The pydantic model `UserInDB` that the services load documents into declares no `username`, so every `user.username` read in the source raises `AttributeError`. This covers `search_users` (a Findings row) and the response enrichment in `friends.py` (the three lines below).
- Friends.GetFriends: models the intended listing; as written, the enrichment raises whenever the friend's user document exists, because it reads `username` off a `UserInDB` (backend/app/services/friends.py:308). The added display fields are not modelled.
- Friends.GetReceivedRequests: models the intended listing; as written, the enrichment raises whenever the sender's user document exists, because it reads `username` off a `UserInDB` (backend/app/services/friends.py:118). The added display fields are not modelled.
- Friends.GetSentRequests: models the intended listing; as written, the enrichment raises whenever the recipient's user document exists, because it reads `username` off a `UserInDB` (backend/app/services/friends.py:153). The added display fields are not modelled.
- Users.Lower: folds ASCII, Latin-1, basic Cyrillic (U+0400..U+042F) and full-width Latin capitals. The other mappings of Python's `str.lower()` are not modelled: Greek with its final-sigma rule, Latin Extended, the Kelvin sign, and U+0130, which lowers to two characters. A query or username holding them is compared unfolded. White space (`Users.IsSpace`) is Python's full set.
- Users.SearchUsers: compares usernames folded by `Users.Lower`, so it shares that line's gap in case folding. It reads the stored `username` field, as intended; the search as written raises instead (a Findings row).
- Users.ListUsers: which 100 users the unordered `.limit(100)` returns is not fixed; the contract says only that they are stored users and how many there are.
- Friends.GetFriendship: when several ACTIVE rows link the same ordered pair, which one `.limit(1)` returns is not fixed; the contract names some matching row. The same applies to Friends.CanSeeLocation, Friends.GetTrustLevel, Friends.UpdateFriendship, Friends.DropLink and Friends.BlockUser.
- Response conversion: the enrichment of reactions (`_to_response` with user and pop details) and the other `_to_response` conversions are not modelled; operations return the stored documents.
- Reactions.CreateReaction: the invariant that a pop's `reaction_count` equals its PENDING and ACCEPTED reactions (`Reactions.CountInv`) is stated for stored pops only. The pop sweeps physically delete pops without touching their reactions; rejecting or cancelling a reaction whose pop is gone then reports not-found after the status write, as the source does.
- HTTP routers, authentication, encryption, configuration and debug scripts are not part of this model. The mobile client is not part of this model either.

## Findings

| source | as written | input that shows it | evidently intended | confidence | as-written member | corrected member |
|---|---|---|---|---|---|---|
| backend/app/services/friends.py:392-416 | `remove_friend` deletes at most one ACTIVE row per direction, the one `get_friendship` returns | users a and b send each other friend requests before either answers; both requests are accepted, which stores two a→b rows and two b→a rows; `remove_friend(a, b)` deletes one row per direction | removing a friend deletes every ACTIVE row between the two users, so they are no longer friends | medium, not executed | Friends.CrossedRequestsSurviveRemoval | Friends.RemoveFriendship |
| functions/main.py:44-47 | the expiry sweep selects pops whose stored `is_active` is true, a field `create_pop` never writes | any pop created through `create_pop`, after its `expires_at` has passed | a pop without the flag counts as live while its status is ACTIVE, so every expired pop is marked and later purged | medium, not executed | PopSweeps.CreatedPopNeverSwept | PopSweeps.CorrectedSweepsCreatedPops |
| backend/app/services/users.py:74 | `search_users` reads `user.username` off a `UserInDB`, a pydantic model (version 2) that declares no `username` field, so the read raises `AttributeError` | a non-blank query, with any user other than the caller among the 100 scanned, for example the caller and a user `taro` searched with "taro" | the search matches against the stored document's `username` and returns the hits | medium, not executed | Users.SearchUsersAsWritten | Users.SearchUsers |
| backend/app/services/users.py:124 | `update_profile` reads `update_data.username`, which the `UserUpdate` model does not declare, so the read raises `AttributeError` | any profile update of an existing user, for example a new display name | with no username in the update there is nothing to check, so the supplied fields are written | medium, not executed | Users.UpdateProfileAsWritten | Users.UpdateProfile |
