# A model of the InterUSS DSS

The Discovery and Synchronization Service (DSS) lets the service suppliers (USSs) of unmanned aircraft find each
other's operational intents, constraints and remote ID data, and makes them prove that they know of each other's
intents before they fly. This project models its core in Dafny, and some self-contained algorithms around it, and
proves what the code keeps over every run.

`dafny verify dfyconfig.toml` checks the whole project.

## Structure

- `Common`, `Volumes`, `SubscriptionTimes`, `Subscribers`: what the services share. Times are nanoseconds on one line,
  an area is a finite set of cells, and the generic `Subscribers.Table` holds the subscriptions of a service.
- `ScdModel`, `ScdRepository`, `ScdServer`: strategic coordination. `ScdServer.Server` has the handlers, one
  transaction each, on a mutable repository, with the branches, loops and error order of the code; each is proved
  against a function from store to store in `ScdModel`. `ScdAnswers` says of these functions, with all fields written
  out, when each call succeeds, with which error it fails, and which rows it leaves. `ScdRuns`, `ScdNotifications` and
  `ScdOwners` prove their properties over arbitrary runs: mutual awareness, coverage, no lost puts, who is notified,
  who may change what. `Awareness` states the protocol of OVNs and keys on its own, and `Versions` that of versions
  presented; the services are proved to follow both.
- `VertiportModel`, `VertiportServer`, `VertiportAnswers`, `VertiportRuns`, `VertiportAwareness`,
  `VertiportNotifications`, `VertiportOwners`: the same for vertiport reservations, where the code differs in what an
  implicit subscription may do and in who is notified. `VertiportPeriods`, `VertiportParking`: free periods and peak use
  of parking places.
- `RemoteId`, `RemoteIdAnswers`: remote ID subscriptions, their quota, answers, owners and versions. `CellUnions`: what
  searches by the names of S2 cells find.
- `TrackSplitting`, `RegistrationNumbers`, `Digits`, `TestIds`, `EntityCache`, `Migration`, `TypeFilter`, `TypeParser`,
  `TypeMeaning`, `DictChanges`: cutting a track to a view, the check character of operator registration numbers (EN4709-02),
  test identifiers, the cache of a poller, schema migration, parsing and filtering of API types, comparison of
  dictionaries.

A run is a sequence of events. An event is a call with what it takes from outside (`Env`: the clock, a new UUID, the
OVNs of new rows). A call that fails leaves the store unchanged; the mutable handlers prove this of themselves. Ghost
histories (when an intent was last put, with which key, how often) exist only in `Awareness.World`.

## What the code does otherwise than it says

- `TimePeriod.Cut` is described as cutting any intersecting period, but fails when the cut covers the period and shares
  one end only (pkg/vrp/models/models.go:108-111). So `ComputeFreeTimePeriods` may fail, and whether it does depends on
  the order of the busy periods: `CutFailsExactly`, `FreeFailsByGaps`, `SuccessDependsOnOrder`.
- The comment on the repository says that the remote ID quota counts all subscriptions of an owner
  (pkg/rid/repos/subscription.go:37-39); the query counts those not yet ended
  (pkg/rid/store/cockroach/subscriptions.go:126-129). The quota holds of live subscriptions (`QuotaOverRuns`); rows have
  no bound (`StoredIsUnbounded`), and `StoredQuotaOverRuns` says which runs keep the stricter reading; an update breaks
  it in `UpdateBreaksStoredQuota`. An update also counts the copy it replaces: `UpdateCountsItself`.
- The union of volumes drops a time that is Go's zero time when it comes first (pkg/models/geo.go:48-53):
  `UnionCoversTimes`, `NotifiedVolumeSpansBoth`, and a run in `WideningIsNotTold`.
- A widened implicit subscription is stored in the normal form of its cells (pkg/scd/operational_intents_handler.go:412),
  where a parent may stand for four cells, while searches compare names: `CellUnions.WidenedIsFound` says which searches
  find it, `CellUnions.FourSiblingsAreLost` is an input. The remote ID service goes back to one level first
  (pkg/rid/application/isa.go:169-170): `CellUnions.LevelifyUndoesNormal`.
- A vertiport put notifies at the new reservation only, where the SCD put uses the union of the old and the new volume:
  `VertiportNotifications.OldReservationIsReached`, and a run in `MoveIsNotTold`.
- An implicit vertiport subscription follows the last intent put under it, away from others: `PutKeepsPlaces` says when,
  `SharedSubscriptionMoves` is a run.
- The number of parking places in use is left to the order in which a sort that is not stable puts simultaneous changes:
  `ResultIsDetermined` says when that matters, `TiesMatter` is an input.
- `make_invalid_by_changing_final_control_string` may return a valid number: `WithFinalStaysValid` says when, and
  `FinalMayStayValid` gives one for every prefix without a dash and every base ID.
- Owner names of twelve characters do not survive a test identifier, as they decode with two dots inserted:
  `TestIds.RoundTrip`. Identifiers have the version digit of a random UUID, but where a UUID has its variant they have
  bits of the owner: `TestIds.VariantIsTheOwners`.
- The migration loop never ends for a target between two versions, and panics for one above all: `AlternatesForever`,
  `PanicsPastTheEnd`; it ends exactly for targets in the table: `ReachesTarget`.
- A remote ID update writes index 0 (the request carries none), so a notification index can fall, which at large and at
  vertiports it never does: `RemoteId.IndexFallsExactly`, `RemoteId.IndicesNeverFall`, and a run in `UpdateForgets`.
- The name of an inline type is that of its object and field, less underscores and blanks
  (interfaces/openapi-to-go-server/data_types.py:124), so two may get one: `TypeMeaning.InlineObjectsClash`; where all
  names are distinct, each counts for its own schema: `TypeMeaning.MeantIsWhatCounts`.

## Model

| member | source | states |
|---|---|---|
| `ScdRuns.MutualAwareness` | pkg/scd/operational_intents_handler.go:426-491 | After any number of calls by any clients: of any two stored items of which the later one has to know the earlier one, the key of the last put of the later one holds the current OVN of the earlier one, if its state requires a key. An intent has to know overlapping intents, and constraints in its volume when its subscription wanted constraints. Write times are distinct, and each stored version of an intent or constraint is the `int32` of the number of puts since its creation. No assumption on OVNs or IDs. |
| `ScdRuns.IntentsKnowEachOther` | pkg/scd/operational_intents_handler.go:433-446 | Read for two stored intents that overlap, with their write times and keys. |
| `Awareness.MutualAwareness` | pkg/scd/operational_intents_handler.go:433-446 | The same of the protocol alone: any sequence of puts that present the right OVN and key, removals and other calls, for any overlap relation. |
| `ScdRuns.RunRefines` | pkg/scd/store/store.go:26-32 | Every run of the service is a run of the protocol, whose entries agree at every point with the intents and constraints of the store. |
| `ScdRuns.StepIsCareful` | pkg/scd/operational_intents_handler.go:426-491 | One call does to intents and constraints exactly what its projected action says, and a put among these obeys the protocol. |
| `ScdRuns.StepEffect` | pkg/scd/operational_intents_handler.go:323-347 | Each call writes or removes at most the one intent or constraint that it is about. A successful put named the current OVN (or none for a new one), writes version + 1 (with wrap-around) under the new OVN, and, for an intent in a state that requires a key, missed no OVN of an overlapping intent, and of no constraint in the volume if its subscription wants constraints. |
| `ScdRuns.OverlapsIsSymmetric` | pkg/scd/repos/repos.go:14-30 | Overlap of volumes is symmetric, so mutual awareness covers each pair whichever was written first. |
| `ScdRuns.CoverageOverRuns` | pkg/scd/operational_intents_handler.go:349-424 | In every reachable store (generated IDs new) each intent names a stored subscription of the same manager whose cells contain its own, that starts at most five minutes late and ends no earlier; all subscriptions have both times. |
| `ScdRuns.AttachmentSupports` | pkg/scd/operational_intents_handler.go:393-423 | Attaching to a subscription removes none, changes others only by stretching (same manager, more cells, wider times), and the attached one supports the intent. |
| `ScdRuns.PutSubscriptionKeepsSound` | pkg/scd/models/subscriptions.go:130-172 | Replacing a subscription, after the check of its dependent intents, still leaves every intent supported. |
| `ScdRuns.DeleteIntentKeepsSound` | pkg/scd/operational_intents_handler.go:60-74 | A deletion removes the implicit subscription only when no other intent names it. |
| `ScdRuns.DeletionNeverBreaks` | pkg/scd/operational_intents_handler.go:52-73 | In every reachable store a deletion never ends in "Subscription missing" or "no dependent intents", the owner of a stored intent can always delete it, and adjusting the times of a stored subscription never dereferences an absent one. |
| `ScdRuns.NoLostPuts` | pkg/scd/operational_intents_handler.go:335-347 | With fresh nonempty OVNs, of two puts on one intent, or on one constraint, that present the same OVN at most one commits. |
| `ScdRuns.LostPutReusesOvn` | pkg/scd/operational_intents_handler.go:335-338 | With no assumption on OVNs: two puts that present the same OVN commit both only when a put on the same intent or constraint that commits in between, the first of the two included, gives out that OVN again. |
| `Awareness.SpentOvn` | pkg/scd/operational_intents_handler.go:335-338 | Once a put has replaced an OVN, that OVN is never the current one of the intent again, over any continuation of the run. |
| `ScdRuns.NoDoubleCreation` | pkg/scd/operational_intents_handler.go:341-347 | A put that creates an intent or constraint commits after another put on it only with a committed deletion of it between them. |
| `ScdAnswers.PutIntentAnswer` | pkg/scd/operational_intents_handler.go:323-474 | Which answer a put of an intent gets, for a request that is right for its volume: it succeeds if and only if the caller owns the stored intent and presents its OVN (or none, when nothing is stored), the subscription named can hold the volume and is its own, and the key lacks no OVN required; each error has its exact condition, permission denied first when the intent is another client's, and the missing ones are listed exactly, those of other clients without OVN. |
| `ScdAnswers.UnfitIntent` | pkg/scd/operational_intents_handler.go:262-319 | A request that is right for no volume is a bad request. |
| `ScdAnswers.PutIntentWrites` | pkg/scd/operational_intents_handler.go:349-540 | Which rows a successful put leaves: the intent of the caller with every field, one subscription created, stretched or kept, and all others but for their indices. |
| `ScdAnswers.OverlapIsCommonPoint` | pkg/scd/store/cockroach/operational_intents.go:252-268 | For volumes whose bounds are in order: two overlap if and only if some cell, altitude and instant is in both. |
| `ScdAnswers.DeleteIntentAnswer` | pkg/scd/operational_intents_handler.go:37-73 | A deletion succeeds if and only if the intent is stored and the caller owns it, but for the two internal errors, which have their exact conditions. |
| `ScdAnswers.DeleteIntentWrites` | pkg/scd/operational_intents_handler.go:60-116 | It removes the intent and its subscription exactly when this is implicit and no other intent names it, and leaves the rest but for indices. |
| `ScdAnswers.PutSubscriptionAnswer` | pkg/scd/subscriptions_handler.go:100-146 | With the times for it, a put of a subscription succeeds if and only if these are accepted, the caller presents the version stored (none, when nothing is) and owns it, and all its dependent intents are covered; not found, already exists, version mismatch and permission denied have their exact conditions. |
| `ScdAnswers.UncoveredExactly` | pkg/scd/models/subscriptions.go:130-172 | The errors for which a dependent intent can be to blame: a rejection when it is not covered, a nil dereference when a bound that is compared next is absent. |
| `ScdAnswers.PutSubscriptionWrites` | pkg/scd/subscriptions_handler.go:128-154 | Exactly this row is written, with the old index, and all else stays. |
| `ScdAnswers.MissedStart` | pkg/scd/models/subscriptions.go:89-127 | There are such times, but when a start is left out that the stored subscription does not have, which ends in a nil dereference. |
| `ScdAnswers.DeleteSubscriptionAnswer` | pkg/scd/subscriptions_handler.go:363-388 | A deletion succeeds, and removes exactly this row, if and only if the subscription is stored, of the caller, and no intent names it; each error has its exact condition. |
| `ScdAnswers.PutConstraintAnswer` | pkg/scd/constraints_handler.go:214-236 | A put of a constraint succeeds if and only if the caller owns the stored one and presents its OVN, or presents none and nothing is stored; each error has its exact condition. |
| `ScdAnswers.PutConstraintWrites` | pkg/scd/constraints_handler.go:237-300 | The constraint is written with every field, all else stays but for indices. |
| `ScdAnswers.DeleteConstraintAnswer` | pkg/scd/constraints_handler.go:35-80 | A deletion succeeds, and removes exactly this one, if and only if the constraint is stored and the caller owns it. |
| `ScdOwners.StepIsTheOwners` | pkg/scd/operational_intents_handler.go:323-347 | For intents and constraints, puts and deletions: a call that commits is about an item of the caller, or a new one that is the caller's then, and leaves all others as they are. |
| `ScdOwners.OwnerIsKept` | pkg/scd/operational_intents_handler.go:330-334 | Over every run: an intent or constraint stays stored, and stays its owner's, until the owner deletes it; nobody else removes it or takes it over. |
| `ScdOwners.OthersKeepSubscriptions` | pkg/scd/subscriptions_handler.go:123-126 | No call changes a subscription of another client but for its index, removes it, or makes one that is not the caller's. |
| `ScdOwners.StepIsRight` | pkg/scd/subscriptions_handler.go:106-127 | A committed put of a subscription presented exactly the stored version, or none when nothing was stored; every other change of a version is by an attached intent, and only to the version of that call. |
| `ScdOwners.NoLostSubscriptions` | pkg/scd/subscriptions_handler.go:118-122 | With fresh nonempty versions, of two puts on one subscription that present the same version at most one commits, also when an intent that is attached rewrites it in between. |
| `ScdOwners.LostSubscriptionReusesVersion` | pkg/scd/subscriptions_handler.go:118-122 | With no assumption on versions they commit both only when that version is given again in between, the first of the two included. |
| `ScdOwners.NoDoubleSubscription` | pkg/scd/subscriptions_handler.go:115-117 | A put that creates a subscription commits after another put on it only when it is removed in between. |
| `Versions.LostPutReusesVersion` | pkg/scd/subscriptions_handler.go:106-127 | The argument of both on its own, for any entities that are put with a version presented, or rewritten in passing: two puts that present the same version take effect both only when it is given again in between. |
| `ScdNotifications.PutIntentNotifies` | pkg/scd/operational_intents_handler.go:497-554 | A successful put raises by one the index of exactly the subscriptions that have `notifyForIntents` set, a cell of the union of old and new volume, and times that touch it, changes no other index, starts new ones at zero, and reports exactly those with their new rows. |
| `ScdNotifications.DeleteIntentNotifies` | pkg/scd/operational_intents_handler.go:75-116 | The same for a deletion and the volume of the intent; the only subscription that may disappear is an implicit one whose only dependent was this intent, and it is notified like the others. |
| `ScdNotifications.PutConstraintNotifies` | pkg/scd/constraints_handler.go:237-300 | The same for constraints: told are exactly the subscriptions that have `notifyForConstraints` set, a cell of the union of old and new volume, and times that touch it; intents are untouched. |
| `ScdNotifications.DeleteConstraintNotifies` | pkg/scd/constraints_handler.go:19-102 | The same for the deletion of a constraint, with `notifyForConstraints` and its volume. |
| `ScdNotifications.NotifiedVolumeSpansBoth` | pkg/scd/operational_intents_handler.go:497-516 | The notified volume reaches every subscription that matches the old or the new volume if and only if the zero time is not lost: when the new start (end) is the zero time, the old one must not be later (earlier). |
| `ScdNotifications.WideningIsNotTold` | pkg/models/geo.go:48-53 | A run, at any time after the zero time, in which that happens: a put with the zero time second among its extents is accepted and commits, and a subscription that matches its new volume is not notified. |
| `ScdNotifications.OverlapIsNotified` | pkg/scd/operational_intents_handler.go:497-554 | End to end, in every reachable store: a successful put that overlaps another stored intent notifies the subscription which that intent names, when this wants intents, if and only if its times after the put touch those of the notified volume. |
| `ScdNotifications.LaterOverlapIsNotified` | pkg/scd/operational_intents_handler.go:497-554 | So it is notified by every such put that ends at least five minutes after the other intent starts and loses no zero time. |
| `ScdNotifications.ConstraintIsNotified` | pkg/scd/constraints_handler.go:237-300 | End to end, in every reachable store: a constraint that is put or deleted in a cell of a stored intent is notified to the subscription which that intent names if and only if this has `notifyForConstraints` set and its times touch those of the notified volume. |
| `ScdNotifications.IndicesNeverDecrease` | pkg/scd/subscriptions_handler.go:128-130 | No call lowers the index of a subscription that it leaves stored. |
| `ScdNotifications.IndicesNeverFall` | pkg/scd/repos/repos.go:88-104 | Over any stretch of a run in which a subscription stays stored, its index never falls. |
| `ScdServer.Server.PutOperationalIntentReference` | pkg/scd/operational_intents_handler.go:248-565 | Store and response are those of the step function `PutIntent` on the store before: on success the response names exactly the notified subscriptions, each once, under its own URL with its new index; every error leaves the store as it was. |
| `ScdServer.Server.Attach` | pkg/scd/operational_intents_handler.go:349-424 | Creates or widens subscriptions exactly as `AttachSubscription` says, or returns its error. |
| `ScdServer.Server.FindMissing` | pkg/scd/operational_intents_handler.go:426-474 | Succeeds exactly when the key holds all OVNs required; otherwise returns exactly the missing entities, those of other clients without their OVN. |
| `ScdServer.Server.NotInKey` | pkg/scd/operational_intents_handler.go:433-446 | From the intents found, exactly those whose OVN is not in the key, masked for other clients. |
| `ScdServer.Server.Write` | pkg/scd/operational_intents_handler.go:476-554 | Writes the intent and the indices as `WriteIntent` says; the response names exactly the notified subscriptions. |
| `ScdServer.Server.DeleteOperationalIntentReference` | pkg/scd/operational_intents_handler.go:20-137 | Store and response are those of `DeleteIntent`; errors change nothing. |
| `ScdServer.Server.PutSubscriptionReference` | pkg/scd/subscriptions_handler.go:32-226 | Store and answer are those of `PutSubscription`, and errors change nothing; for uncovered dependents the error is that of one of them. |
| `ScdServer.Server.ValidateDependentOps` | pkg/scd/models/subscriptions.go:130-141 | Accepts exactly when each dependent intent is covered in cells, altitude and time. |
| `ScdServer.Server.DeleteSubscriptionReference` | pkg/scd/subscriptions_handler.go:346-411 | Removes a subscription of the caller without dependent intents; all else is an error that changes nothing. |
| `ScdServer.Server.PutConstraintReference` | pkg/scd/constraints_handler.go:162-322 | Store and response are those of `PutConstraint`; errors change nothing. |
| `ScdServer.Server.DeleteConstraintReference` | pkg/scd/constraints_handler.go:19-102 | Store and response are those of `DeleteConstraint`; errors change nothing. |
| `Subscribers.IncrementNotificationIndices` | pkg/scd/repos/repos.go:91-104 | Raises the index of each listed subscription by one in the table, touches no other, and the list ends up with the new rows, each once. |
| `Subscribers.Table.IncrementNotificationIndices` | pkg/scd/repos/repos.go:52-58 | The repository contract: the rows of the given IDs go up by one, and the new indices come back in the order of the IDs. |
| `Subscribers.MakeSubscribersToNotify` | pkg/scd/server.go:23-42 | Grouping by URL: URLs are distinct, and every subscription appears exactly once, under its URL, with its index. |
| `Subscribers.StatesForRows` | pkg/scd/server.go:23-35 | The states collected for one URL are exactly those of the rows with that URL, without repetition. |
| `SubscriptionTimes.TimeRange.AdjustTimeRange` | pkg/scd/models/subscriptions.go:89-127 | The receiver ends with the times of `Adjusted`, or the error of it is returned. |
| `SubscriptionTimes.AdjustedIsBounded` | pkg/rid/models/subscriptions.go:139-177 | Accepted times last 0 to 24 hours and keep what was asked for; a start that was asked for is at most five minutes ago; a bounded predecessor is never a nil dereference and is kept when no times are asked for; a new request without times gets the next 24 hours. |
| `SubscriptionTimes.AdjustedExactly` | pkg/rid/models/subscriptions.go:139-177 | Each time on its own: the start is the one asked for, else that of the predecessor, else now; the end is the one asked for, else that of the predecessor, else 24 hours after the start. They are accepted if and only if they lie 0 to 24 hours apart and a start that was asked for is at most five minutes ago. |
| `SubscriptionTimes.AdjustedMissesStart` | pkg/scd/models/subscriptions.go:89-127 | There are such times, but for a predecessor without a start when none is asked for, and exactly then a nil is dereferenced. |
| `Volumes.UnionVolumes4D` | pkg/models/geo.go:113-177 | The loop computes `Union`, the specification used in the next rows. |
| `Volumes.UnionInSpace` | pkg/models/geo.go:137-173 | The union fails exactly when a covering fails; otherwise it has the lowest and highest altitude given, a footprint if any volume has one, and exactly the cells of all volumes. |
| `Volumes.UnionTimes` | pkg/models/geo.go:116-135 | Start and end are the earliest start and latest end of the times left after the zero times in front are dropped. |
| `Volumes.UnionCoversTimes` | pkg/models/geo.go:48-53 | The union covers the times of its volumes if and only if no leading zero time was the extreme one. |
| `Volumes.ZeroStartIsDropped` | pkg/models/geo.go:48-53 | Two volumes whose union depends on their order, because a zero start in front is dropped. |
| `VertiportAwareness.MutualAwareness` | pkg/vrp/operational_intents_handler.go:417-481 | Mutual awareness and version counting for vertiport intents and constraints, over every run: an intent has to know the intents that it meets (same place, touching times) and, when its subscription wanted constraints, the constraints that it meets. No assumption on OVNs or IDs. |
| `VertiportAwareness.StepEffect` | pkg/vrp/operational_intents_handler.go:308-329 | Each call writes or removes at most the one intent or constraint that it is about. A successful put named the current OVN, writes version + 1 under the new OVN, and, for an intent in a state that requires a key, missed no OVN of an intent that it meets, and of no constraint if its subscription wants constraints. |
| `VertiportAwareness.RunRefines` | pkg/vrp/repos/repos.go:14-36 | Every run of the service is a run of the protocol, whose entries agree at every point with the intents and constraints of the store. |
| `VertiportAwareness.NoLostPuts` | pkg/vrp/operational_intents_handler.go:317-320 | With fresh nonempty OVNs, of two puts on one intent, or on one constraint, that present the same OVN at most one commits. |
| `VertiportAwareness.LostPutReusesOvn` | pkg/vrp/constraints_handler.go:212-215 | With no assumption on OVNs: two such puts commit both only when a put on the same item that commits in between, the first included, gives out that OVN again. |
| `VertiportAwareness.NoDoubleCreation` | pkg/vrp/operational_intents_handler.go:323-329 | A put that creates an intent or constraint commits after another put on it only with a committed deletion of it between them. |
| `VertiportAwareness.IntentsKnowEachOther` | pkg/vrp/operational_intents_handler.go:424-437 | Read for two stored intents that meet, with their write times and keys. |
| `VertiportAwareness.MeetsIsSymmetric` | pkg/vrp/repos/repos.go:24-25 | Meeting is symmetric, so awareness covers each pair whichever was written first. |
| `VertiportRuns.SupportOverRuns` | pkg/vrp/operational_intents_handler.go:331-415 | In every reachable store each intent names a stored subscription of the same manager that covers its times (start at most five minutes late) and, when explicit, is at the vertiport and zone of the intent - also when it was implicit before and has been rewritten. |
| `VertiportRuns.PutSubscriptionKeepsSound` | pkg/vrp/subscriptions_handler.go:98-140 | Rewriting a subscription as an explicit one, at a place all dependents share, keeps that. |
| `VertiportRuns.AttachmentSupports` | pkg/vrp/operational_intents_handler.go:361-415 | Attaching moves only an implicit subscription to another place, and otherwise only stretches times. |
| `VertiportRuns.DeletionNeverBreaks` | pkg/vrp/operational_intents_handler.go:51-71 | The internal errors of a deletion cannot occur, and an owner can always delete. |
| `VertiportRuns.DependentsNeverBreak` | pkg/vrp/models/subscriptions.go:139-158 | In every reachable store an uncovered dependent intent is a rejection, never a nil dereference. |
| `VertiportAnswers.PutIntentAnswer` | pkg/vrp/operational_intents_handler.go:253-465 | Which answer a put of a vertiport intent gets, for every request: success and each error have their exact conditions, owner and OVN first, then the subscription, then the key. |
| `VertiportAnswers.PutIntentWrites` | pkg/vrp/operational_intents_handler.go:331-508 | Which rows a successful put leaves: the intent with every field, one subscription created, stretched, moved or kept, and all others but for their indices. |
| `VertiportAnswers.MeetingIsCommonInstant` | pkg/vrp/store/cockroach/operational_intents.go:227-240 | For reservations whose times are in order: two meet if and only if some instant at some place and zone is in both. |
| `VertiportAnswers.DeleteIntentAnswer` | pkg/vrp/operational_intents_handler.go:38-71 | A deletion succeeds if and only if the intent is stored and the caller owns it, but for the two internal errors, which have their exact conditions. |
| `VertiportAnswers.DeleteIntentWrites` | pkg/vrp/operational_intents_handler.go:58-107 | It removes the intent and its subscription exactly when this is implicit and no other intent names it. |
| `VertiportAnswers.PutSubscriptionAnswer` | pkg/vrp/subscriptions_handler.go:86-132 | With the times for it, a put succeeds if and only if these are accepted, the version presented is that stored (none, when nothing is), the caller owns it, and all dependent intents are covered; each error has its exact condition. |
| `VertiportAnswers.UncoveredExactly` | pkg/vrp/models/subscriptions.go:129-158 | The errors for which a dependent intent can be to blame: a rejection when it is not covered, a nil dereference when a time that is compared next is absent. |
| `VertiportAnswers.PutSubscriptionWrites` | pkg/vrp/subscriptions_handler.go:114-140 | Exactly this row is written, with the old index, and all else stays. |
| `VertiportAnswers.DeleteSubscriptionAnswer` | pkg/vrp/subscriptions_handler.go:348-372 | A deletion succeeds, and removes exactly this row, if and only if the subscription is stored, of the caller, and no intent names it. |
| `VertiportAnswers.PutConstraintAnswer` | pkg/vrp/constraints_handler.go:170-220 | A put of a constraint succeeds if and only if the request is right, the caller owns the stored one and presents its OVN, or presents none and nothing is stored. |
| `VertiportAnswers.DeleteConstraintAnswer` | pkg/vrp/constraints_handler.go:34-60 | A deletion succeeds, and removes exactly this one, if and only if the constraint is stored and the caller owns it. |
| `VertiportOwners.StepIsTheOwners` | pkg/vrp/operational_intents_handler.go:308-329 | For vertiport intents and constraints: a call that commits is about an item of the caller, or a new one that is the caller's then, and leaves all others as they are. |
| `VertiportOwners.OwnerIsKept` | pkg/vrp/operational_intents_handler.go:312-316 | Over every run an intent or constraint stays stored, and stays its owner's, until the owner deletes it. |
| `VertiportOwners.OthersKeepSubscriptions` | pkg/vrp/subscriptions_handler.go:109-112 | No call changes a subscription of another client but for its index, removes it, or makes one that is not the caller's. |
| `VertiportOwners.NoLostSubscriptions` | pkg/vrp/subscriptions_handler.go:104-108 | With fresh nonempty versions, of two puts on one subscription that present the same version at most one commits, attached intents included. |
| `VertiportOwners.LostSubscriptionReusesVersion` | pkg/vrp/subscriptions_handler.go:104-108 | With no assumption on versions they commit both only when that version is given again in between. |
| `VertiportOwners.NoDoubleSubscription` | pkg/vrp/subscriptions_handler.go:101-103 | A put that creates a subscription commits after another put on it only when it is removed in between. |
| `VertiportNotifications.PutKeepsPlaces` | pkg/vrp/operational_intents_handler.go:391-407 | From a store where the subscription of each intent is at its place, a successful put keeps that if and only if it asks for a new subscription or all other dependents of the one named are at the requested place. |
| `VertiportNotifications.PlacesOverRuns` | pkg/vrp/operational_intents_handler.go:391-407 | So at all points of a run the subscriptions are at the places of their intents if and only if all committed puts are of that kind; no other call does harm. |
| `VertiportNotifications.SharedSubscriptionMoves` | pkg/vrp/operational_intents_handler.go:391-407 | The input for the other case: for any two places and any time, a run of two puts after which an intent at one names a subscription at the other. |
| `VertiportNotifications.PutIntentNotifies` | pkg/vrp/operational_intents_handler.go:493-523 | A successful put raises by one exactly the indices of the subscriptions that have `notifyForIntents` set and whose place and times meet the new reservation. |
| `VertiportNotifications.PutConstraintNotifies` | pkg/vrp/constraints_handler.go:221-263 | The same for constraints and the subscriptions that have `notifyForConstraints` set; intents are untouched. |
| `VertiportNotifications.DeleteConstraintNotifies` | pkg/vrp/constraints_handler.go:45-74 | The same for the deletion of a constraint, with `notifyForConstraints` and its reservation. |
| `VertiportNotifications.MeetingIsNotified` | pkg/vrp/operational_intents_handler.go:493-523 | End to end, in every reachable store: a successful put that meets another stored intent notifies the subscription which that intent names, when this wants intents, if and only if it is then at the place of the put and starts no later than the put ends. An explicit one is always there; the times are right for a put that ends at least five minutes after the other intent starts. |
| `VertiportNotifications.ConstraintIsNotified` | pkg/vrp/constraints_handler.go:221-263 | End to end, in every reachable store: a constraint that is put or deleted is notified to the subscription which an intent names if and only if this has `notifyForConstraints` set, is at the place of the constraint and touches its times; for an intent that the constraint meets, the place is right when the subscription is explicit, and the times when the constraint ends at least five minutes after the intent starts. |
| `VertiportNotifications.OldReservationIsReached` | pkg/vrp/operational_intents_handler.go:493-505 | This reaches all subscriptions that are at the place of the old reservation and touch its times if and only if the place is the same and the old times are covered; so too for constraints. |
| `VertiportNotifications.MoveIsNotTold` | pkg/vrp/operational_intents_handler.go:493-505 | A run, for any two places and any time, in which a put moves an intent and the subscription of another client at the old place is not notified. |
| `VertiportNotifications.IndicesNeverFall` | pkg/vrp/repos/repos.go:90-106 | Over any stretch of a run in which a subscription stays stored, its index never falls. |
| `VertiportNotifications.DeleteIntentNotifies` | pkg/vrp/operational_intents_handler.go:73-107 | The same for a deletion and its reservation, with the only subscription that may disappear. |
| `VertiportServer.Server.PutVertiportOperationalIntentReference` | pkg/vrp/operational_intents_handler.go:241-534 | Store and response are those of the step function; errors change nothing. |
| `VertiportServer.Server.Attach` | pkg/vrp/operational_intents_handler.go:331-415 | Creates, stretches or moves subscriptions exactly as `AttachSubscription` says. |
| `VertiportServer.Server.FindMissing` | pkg/vrp/operational_intents_handler.go:417-465 | Succeeds exactly when no OVN is missing from the key, and otherwise returns exactly the missing ones. |
| `VertiportServer.Server.DeleteVertiportOperationalIntentReference` | pkg/vrp/operational_intents_handler.go:21-131 | Store and response are those of `DeleteIntent`; errors change nothing. |
| `VertiportServer.Server.PutVertiportSubscription` | pkg/vrp/subscriptions_handler.go:30-207 | Store and answer are those of `PutSubscription`; errors change nothing; for uncovered dependents the error is that of one of them. |
| `VertiportServer.Server.ValidateDependentOps` | pkg/vrp/models/subscriptions.go:129-158 | Accepts exactly when each dependent intent is at the place and within the times. |
| `VertiportServer.Server.DeleteVertiportSubscription` | pkg/vrp/subscriptions_handler.go:331-396 | Removes a subscription of the caller without dependent intents; all else is an error that changes nothing. |
| `VertiportServer.Server.PutVertiportConstraintReference` | pkg/vrp/constraints_handler.go:157-283 | Store and response are those of `PutConstraint`; errors change nothing. |
| `VertiportServer.Server.DeleteVertiportConstraintReference` | pkg/vrp/constraints_handler.go:18-97 | Store and response are those of `DeleteConstraint`; errors change nothing. |
| `VertiportPeriods.ComputeFreeTimePeriods` | pkg/vrp/models/models.go:114-159 | The nested loops compute `Free` of constraints followed by intents, including the error. |
| `VertiportPeriods.FreeIsExact` | pkg/vrp/models/models.go:136-156 | A successful result is sorted, disjoint, nonempty periods inside the window, and an instant of the window is in one of them exactly when no busy period holds it; with nonempty busy periods there is a gap between each two. |
| `VertiportPeriods.CutFailsExactly` | pkg/vrp/models/models.go:72-112 | For valid intersecting periods the cut fails if and only if it covers the period and shares exactly one end. |
| `VertiportPeriods.PiecesOf` | pkg/vrp/models/models.go:139-151 | What is left of one period holds exactly the instants outside the busy one. |
| `VertiportPeriods.FreeIsGaps` | pkg/vrp/models/models.go:136-156 | After a successful computation the free periods are exactly the gaps: stretches of the window without busy instants or empty busy periods inside, that end at the window or at these. |
| `VertiportPeriods.FreeFailsByGaps` | pkg/vrp/models/models.go:136-156 | The computation fails if and only if some busy period covers, and shares exactly one end with, a gap that the busy periods before it leave in the window. |
| `VertiportPeriods.SeparatedIsUnique` | pkg/vrp/models/models.go:114-159 | A list of nonempty periods with gaps between is determined by its instants: the result is the only list of maximal gaps. |
| `VertiportPeriods.OrderDoesNotMatter` | pkg/vrp/models/models.go:114-159 | Two orders of the same busy periods that both succeed give the same list. |
| `VertiportPeriods.SuccessDependsOnOrder` | pkg/vrp/models/models.go:108-111 | Two busy periods that succeed in one order and fail in the other. |
| `VertiportParking.ComputeNumberOfUsedParkingPlaces` | pkg/vrp/models/models.go:161-217 | The result is the `int32` of the highest running sum over some sorted order of the changes, and so of a number that brackets the use of the window (next row). |
| `VertiportParking.SweepIsBracketed` | pkg/vrp/models/models.go:187-214 | For valid busy periods, a nonempty window and every order of simultaneous changes: the result is at least the number of half-open periods over any instant of the window and at most the number of closed periods, of those that meet the window, over some instant of it. |
| `VertiportParking.ResultIsDetermined` | pkg/vrp/models/models.go:201-214 | Exact: both the half-open and the closed peak are results of the sweep in some order, all results lie between them, and all orders agree if and only if the peaks are equal. |
| `VertiportParking.PeaksExist` | pkg/vrp/models/models.go:179-214 | Both peaks exist, and are reached inside the window. |
| `VertiportParking.SweepIsExact` | pkg/vrp/models/models.go:161-217 | A case that is seen from the times alone: when no period that meets the window starts as another ends, the result is the maximum over the window of the number of periods, and it is reached. |
| `VertiportParking.PeakIsInWindow` | pkg/vrp/models/models.go:179-185 | Though periods are not clipped: whatever meets the window and covers an instant covers the instant of the window nearest to it. |
| `VertiportParking.TiesMatter` | pkg/vrp/models/models.go:201-203 | An input for unequal peaks: one hand-over at an instant counts as one place or as two, by the order in which the sort leaves it. |
| `CellUnions.NormalIsUnique` | pkg/geo/s2.go:39-45 | A union in normal form (no cell contains another, no four cells make up their parent) holds exactly the maximal cells inside its region, and is the only one of that region. |
| `CellUnions.WidenedIsFound` | pkg/scd/operational_intents_handler.go:410-413 | A subscription that was widened to the normal form of both sets of cells is found by the names of a covering if and only if the covering has one of its cells whose siblings are not all among them. |
| `CellUnions.AlwaysFound` | pkg/scd/store/cockroach/subscriptions.go:293-302 | No search that meets its cells misses it if and only if no four siblings are among them. |
| `CellUnions.FourSiblingsAreLost` | pkg/scd/operational_intents_handler.go:410-413 | An input, below every cell one level up: after the fourth sibling is added no search by any of the four finds it. |
| `CellUnions.LevelifyUndoesNormal` | pkg/rid/application/isa.go:169-170 | Going back to the one level yields exactly the cells of both sets. |
| `RemoteId.QuotaOverRuns` | pkg/rid/application/subscription.go:57-173 | Over every run with a clock that does not go back: at any time from the last call on, no owner has more than ten live subscriptions (end not before that time) in any cell; inserts, moving updates, deletions and service area changes included. |
| `RemoteId.App.InsertSubscription` | pkg/rid/application/subscription.go:57-95 | Stores a new row or returns the first error in the order of the code; nothing else changes. |
| `RemoteId.App.UpdateSubscription` | pkg/rid/application/subscription.go:98-143 | Replaces the row of the caller at the version named, or returns the first error; nothing else changes. |
| `RemoteId.App.DeleteSubscription` | pkg/rid/application/subscription.go:146-173 | Removes exactly the row named, at the version named, for its owner. |
| `RemoteId.App.MaxSubscriptionCountInCellsByOwner` | pkg/rid/store/cockroach/subscriptions.go:112-151 | A bound on the live subscriptions of the owner in each of the cells that is attained in one of them, zero if there are none. |
| `RemoteIdAnswers.InsertAnswer` | pkg/rid/application/subscription.go:57-95 | An insertion is refused for its times, for an ID in use, or for ten live subscriptions of the owner in a cell, exactly and in this order; otherwise exactly one row is added: owner, URL and cells of the request, index zero, the new version, each time as asked for, else now and 24 hours later. |
| `RemoteIdAnswers.UpdateAnswer` | pkg/rid/application/subscription.go:98-143 | An update of a stored row is refused for a version that is not the current one, another owner, its times, or the quota, exactly and in this order; otherwise exactly this row is replaced: URL and cells of the request, the new version, each time that was asked for, and the old one for each that was not. |
| `RemoteIdAnswers.UpdateOfNothing` | pkg/rid/application/subscription.go:105-109 | It is not found exactly when nothing is stored under the ID. |
| `RemoteIdAnswers.DeleteAnswer` | pkg/rid/application/subscription.go:146-173 | A deletion removes exactly the row named if its version is the current one and the caller its owner; each error has its exact condition. |
| `RemoteIdAnswers.NotifiedExactly` | pkg/rid/store/cockroach/subscriptions.go:274-297 | A change of a service area raises by one the index of exactly the subscriptions that have a cell of it and have not ended. |
| `RemoteIdAnswers.OwnerIsKept` | pkg/rid/application/subscription.go:114-117 | Over every run a subscription stays stored, and stays its owner's, until the owner deletes it. |
| `RemoteIdAnswers.NoLostUpdates` | pkg/rid/application/subscription.go:110-113 | With fresh nonempty versions, of two updates of one subscription that present the same version at most one commits. |
| `RemoteId.UpdateCountsItself` | pkg/rid/application/subscription.go:124-135 | An update that is right otherwise is refused exactly when a requested cell holds ten live rows of the owner, its own old copy counted; it would have kept the quota exactly when the new row has ended or each requested cell holds fewer than ten others, and so always when it enters no new cell. |
| `RemoteId.InsertKeepsStoredQuota` | pkg/rid/application/subscription.go:74-87 | Of all rows, expired ones included, an insertion keeps at most ten per owner and cell if and only if each requested cell holds fewer than ten. |
| `RemoteId.UpdateKeepsStoredQuota` | pkg/rid/application/subscription.go:124-136 | A successful update keeps it if and only if each requested cell holds fewer than ten other rows of the owner. |
| `RemoteId.StoredQuotaOverRuns` | pkg/rid/application/subscription.go:57-173 | At all points of a run an owner has at most ten rows in a cell, expired ones included, if and only if each requested cell of every insertion and update that commits holds fewer than ten other rows of the owner; deletions and service areas do no harm. |
| `RemoteId.UpdateBreaksStoredQuota` | pkg/rid/application/subscription.go:124-136 | A run in which an update moves an eleventh row to a cell with ten expired ones. |
| `RemoteId.StoredIsUnbounded` | pkg/rid/store/cockroach/subscriptions.go:119-134 | For every number there is a run after which one owner has that many rows in one cell, all but the last expired before the next. |
| `RemoteId.IndexFallsExactly` | pkg/rid/store/cockroach/subscriptions.go:169-207 | The index of a row that stays stored falls in a step if and only if the step is a successful update of it and the index was positive. |
| `RemoteId.IndicesNeverFall` | pkg/rid/store/cockroach/subscriptions.go:274-297 | Over any stretch of a run in which a row stays stored and is not updated, its index never falls. |
| `RemoteId.UpdateForgets` | pkg/rid/store/cockroach/subscriptions.go:169-207 | A run in which a subscription is notified of a service area and an update takes its index from 1 to 0. |
| `TrackSplitting.RunsAreMaximal` | monitoring/mock_uss/riddp/routes_observation.py:27-50 | The runs listed (in order, by the contract of `Runs`) are exactly the maximal runs of samples inside the view. |
| `TrackSplitting.SplitPaths` | monitoring/mock_uss/riddp/routes_observation.py:18-50 | One path for each maximal run, extended by the sample before and the sample after where they exist. |
| `TrackSplitting.SelectRelevantStates` | monitoring/monitorlib/rid_automated_testing/injection_api.py:67-93 | The list selected is the concatenation of the paths into which the samples in the time range split. |
| `TrackSplitting.RelevantExactly` | monitoring/monitorlib/rid_automated_testing/injection_api.py:74-78 | Exactly the samples in the time range, its ends included, are kept, in their order. |
| `TrackSplitting.EachIsShown` | monitoring/monitorlib/rid_automated_testing/injection_api.py:81-92 | Every sample is selected as often as it should be: once inside the view, outside once for each neighbour inside. |
| `TrackSplitting.PathsStep` | monitoring/mock_uss/riddp/routes_observation.py:34-48 | What one more sample does to the paths: it ends the last one, starts one, or is not shown. |
| `RegistrationNumbers.GenerateChecksum` | monitoring/monitorlib/formats.py:79-95 | The loop computes the check character of `Checksum`, and the errors of the two validations in their order. |
| `RegistrationNumbers.ChecksumExactly` | monitoring/monitorlib/formats.py:66-95 | There is a check character if and only if lengths and characters are right, the error being of the first that is not; it completes the sum of the weights to a multiple of 36. |
| `RegistrationNumbers.FromComponentsIsValid` | monitoring/monitorlib/formats.py:104-112 | A number is built exactly from components of the right lengths and characters; it is valid and gives the components back. |
| `RegistrationNumbers.SingleSubstitution` | monitoring/monitorlib/formats.py:41-53 | Of all changes of one character of a valid number, exactly those outside the prefix make it invalid. |
| `RegistrationNumbers.AdjacentSwap` | monitoring/monitorlib/formats.py:85-95 | Of all swaps of two different neighbours in base ID plus final string, exactly those of `0` and `z` go unnoticed. |
| `RegistrationNumbers.WithFinalStaysValid` | monitoring/monitorlib/formats.py:55-58 | The number made in order to be invalid is valid all the same if and only if the prefix has no dash and both final strings weigh the same modulo 36. |
| `RegistrationNumbers.FinalMayStayValid` | monitoring/monitorlib/formats.py:55-58 | For every prefix without a dash and every base ID, a valid number and another final string of small letters with which it stays valid. |
| `RegistrationNumbers.CodePointsInOrder` | monitoring/monitorlib/formats.py:11-11 | The values used are the places in the list of code points. |
| `TestIds.RoundTrip` | monitoring/prober/infrastructure.py:128-150 | For every owner and code, decoding the identifier gives both back if and only if the code is at most 0xFFFF and the owner survives (1 to 11 known characters or question marks, the first no question mark; or 14 that look abbreviated); all owners of 1 to 11 characters of the set do. |
| `TestIds.LongOwnersAreAbbreviated` | monitoring/prober/utils.py:74-75 | Owners of 12 or more characters of the set decode to first six, two dots, last six. |
| `TestIds.DecodedIsNamed` | monitoring/prober/utils.py:42-78 | Regrouping 6-bit letters to bytes and back loses nothing but unknown characters, for every owner. |
| `TestIds.EncodeOwner` | monitoring/prober/utils.py:42-54 | The loops compute `EncodedOwner`. |
| `TestIds.DecodeOwner` | monitoring/prober/utils.py:62-78 | The loops compute `DecodedOwner`, its `ValueError` and, for question marks only, its `IndexError` included. |
| `TestIds.MakeIdHasUuidForm` | monitoring/prober/infrastructure.py:128-135 | Identifiers have the 8-4-4-4-12 form of RFC 4122 section 3, hexadecimal digits, and the version digit 4 at its place. |
| `TestIds.VariantIsTheOwners` | monitoring/prober/infrastructure.py:128-135 | The digit that RFC 4122 section 4.1.1 uses for the variant comes from the owner: it is one of 8, 9, a, b if and only if the fifth of the twelve letters is one of W to Z or a to l. |
| `TestIds.DecodeOfMakeId` | monitoring/prober/infrastructure.py:137-150 | Decoding yields the code and the name left of the owner, or an error exactly for codes above 0xFFFF and nameless owners. |
| `TestIds.DecodeExactly` | monitoring/prober/infrastructure.py:137-150 | Exactly what has, without dashes, the form of a test identifier is decoded, to the code and the owner in it. |
| `TestIds.LettersInOrder` | monitoring/prober/utils.py:4-4 | The numbers of letters are their places in the character set. |
| `Digits.FormatOfParse` | monitoring/prober/utils.py:8-21 | Writing with leading zeros undoes reading, for strings of digits of the base. |
| `Digits.ParseOfFormat` | monitoring/prober/utils.py:8-21 | Reading undoes writing, for all numbers and widths. |
| `Digits.ThroughTwice` | monitoring/prober/utils.py:24-26 | If translating a piece back gives a third translation, so does translating and splitting the whole string back. |
| `EntityCache.Cache.Entities` | monitoring/monitorlib/fetch/scd.py:232-270 | Whatever the order of the references: exactly the hits are returned from the cache, exactly the others are asked for and stored, no other entry changes, and a failed DSS query changes nothing. |
| `EntityCache.CacheIsTrue` | monitoring/monitorlib/fetch/scd.py:249-264 | If a successful answer is determined by the reference, every successful entry is the answer for the reference kept with it, after any number of polls. |
| `EntityCache.PollIsTrue` | monitoring/monitorlib/fetch/scd.py:184-197 | New and cached entities partition the referenced IDs, each cached one is the answer for the current reference, and where asking would succeed the poll returns what asking returns. |
| `EntityCache.CacheIsLastAnswer` | monitoring/monitorlib/fetch/scd.py:250-264 | Without that assumption: an entity is cached exactly when it was asked for, with reference and answer of the last time, and is asked for again exactly when the reference changed or that answer failed. |
| `Migration.EnumerateMigrationSteps` | cmds/db-manager/main.go:177-223 | A first line 0.0.0 without files, then one line for exactly the versions of the files, sorted, each with the names of its last files up and down. |
| `Migration.LineHasLastFiles` | cmds/db-manager/main.go:190-200 | A line names the last file up to its version and the last one down from it, or none where there is none. |
| `Migration.TableIsSorted` | cmds/db-manager/main.go:215-220 | The whole table is strictly sorted if and only if no file is of version 0.0.0. |
| `Migration.Migrator.Migrate` | cmds/db-manager/main.go:114-172 | With the current version in the sorted table, and the target in it or above all of it, the loop ends in the state that `Run` says, after at most as many scripts as lie between; an index is out of range only behind the last line for a target above it. |
| `Migration.Migrator.FirstTurns` | cmds/db-manager/main.go:114-172 | For any target, from any version and for any number of turns, the loop is in the state, at the end, or in the panic that `Run` says. |
| `Migration.MigratesExactly` | cmds/db-manager/main.go:122-172 | When all scripts exist and reach their versions, exactly the scripts between are run, once each and in order, up or down, and the loop ends at the target. |
| `Migration.AlternatesForever` | cmds/db-manager/main.go:123-138 | For a target strictly between two neighbouring versions the loop never ends: it goes to the gap and then up and down across it. |
| `Migration.PanicsPastTheEnd` | cmds/db-manager/main.go:128-132 | For a target above all versions the loop runs up to the last line and then panics. |
| `Migration.ReachesTarget` | cmds/db-manager/main.go:122-172 | When all scripts exist and reach their versions, the loop comes to its end if and only if the target is in the table. |
| `Migration.ScriptsCanWork` | cmds/db-manager/main.go:163-171 | For every table, target and state there are outcomes of scripts that reach their versions, so these theorems speak of real runs. |
| `Migration.ScdTargets` | cmds/db-manager/main.go:123-138 | For the table of the strategic coordination schema: from 2.0.0 to 2.5.0 the loop goes up and down for ever, to 4.0.0 it panics after 3.1.0. |
| `Migration.UnknownVersionPanics` | cmds/db-manager/main.go:114-141 | A database at a version not in the table is left alone: the first turn panics before any script. |
| `Migration.TurnKeepsName` | cmds/db-manager/main.go:154-162 | A turn keeps "named `rid` exactly from 4.0.0 on" if and only if it does not cross 4.0.0 or its higher line is 4.0.0. |
| `Migration.NameFollowsVersion` | cmds/db-manager/main.go:122-172 | With 4.0.0 in the table, the name is right after every turn with which the loop goes on, whatever the scripts do. |
| `Migration.FailureNamesNext` | cmds/db-manager/main.go:154-169 | After a turn that panics behind its script, the name is right for the version which that script should have reached. |
| `TypeFilter.RequiredTypes` | interfaces/openapi-to-go-server/apis.py:29-55 | The worklist ends; all names it collects are in every closed set; every one in a signature has been followed up, and every other but for array types that are elements of arrays; with array names of one level the names are the least closed set. |
| `TypeFilter.Api.FilterOperations` | interfaces/openapi-to-go-server/apis.py:24-59 | Keeps in order the operations with one of the tags and the declarations of required names. |
| `TypeFilter.KeptByTag` | interfaces/openapi-to-go-server/apis.py:24-27 | Each operation with one of the tags is kept, in its order and as often as it is there, and no other. |
| `TypeFilter.RootsExactly` | interfaces/openapi-to-go-server/apis.py:29-38 | The names to start from are those of parameters, and of bodies when there is one, of kept operations. |
| `TypeFilter.NeededIsReachable` | interfaces/openapi-to-go-server/apis.py:40-55 | A name is in the least closed set if and only if a chain of references leads to it from a kept operation. |
| `TypeFilter.FilteredIsSelfContained` | interfaces/openapi-to-go-server/apis.py:57-59 | Every name reachable before refers to the same names and has the same declaration after filtering. |
| `TypeParser.MadeIsOneLevel` | interfaces/openapi-to-go-server/data_types.py:179-192 | For every specification that parses, whose components, references and parameters have no names of arrays: all type names of the API have one pair of brackets at most, so the filter returns the least closed set. |
| `TypeParser.ApiIsSettled` | interfaces/openapi-to-go-server/apis.py:62-91 | Every type name in the parsed API is, but for one pair of brackets, built in, referred to in the specification, or declared in the API, whose declarations include all components. |
| `TypeParser.FilteredIsWhole` | interfaces/openapi-to-go-server/apis.py:24-59 | When all names of an API are built in or declared in it, then so are those of the declarations that count and of the operations that the filter keeps. |
| `TypeParser.Generate` | interfaces/openapi-to-go-server/generate.py:151-153 | So it is, end to end, for every specification whose references name components: with and without tags, the result names only built-in types and types that it declares; errors of the parser are returned. |
| `TypeParser.FieldNeverInconsistent` | interfaces/openapi-to-go-server/data_types.py:126-130 | The internal error of a field that is parsed as primitive and has types inside cannot occur. |
| `TypeParser.TypesAreSettled` | interfaces/openapi-to-go-server/data_types.py:154-210 | The names that one schema makes, at any depth of arrays and objects, are of one level and built in, referred to, or declared with it. |
| `TypeParser.MakeObjectFields` | interfaces/openapi-to-go-server/data_types.py:144-151 | The loop over the properties computes `FieldsFrom`, or returns the first error. |
| `TypeParser.ParseParameters` | interfaces/openapi-to-go-server/operations.py:120-159 | The loop computes the types in the path and in the query and those declared inside them, or the first error. |
| `TypeParser.MakeOperations` | interfaces/openapi-to-go-server/operations.py:162-226 | The loops compute the operations of a path with the common parameters behind their own, and the types found, or the first error. |
| `TypeParser.MakeApi` | interfaces/openapi-to-go-server/apis.py:70-91 | The loops compute the declarations and operations of all components and paths in order, or the first error. |
| `TypeMeaning.ApiExpresses` | interfaces/openapi-to-go-server/apis.py:62-91 | Parsing keeps the meaning: for every component some declaration of its name expresses its schema, down to everything inside (fields in order, built-in types by kind and format, arrays of their items, references under their names, inline types under the names built for them), and the operations are those of all actions in order. |
| `TypeMeaning.DeclarationExpresses` | interfaces/openapi-to-go-server/data_types.py:154-210 | The same of one schema, whatever else is declared with it. |
| `TypeMeaning.MeantIsWhatCounts` | interfaces/openapi-to-go-server/apis.py:40-40 | Without two declarations of one name, the declaration that counts for a name, the last one, is the one that expresses its schema. |
| `TypeMeaning.InlineObjectsClash` | interfaces/openapi-to-go-server/data_types.py:124-139 | An input, for every name of an object: two fields whose names differ in an underscore and a blank give one name to two inline objects, and the one that counts for both fields is the second. |
| `TypeMeaning.OperationMade` | interfaces/openapi-to-go-server/operations.py:162-226 | An operation has the tags, bodies and responses of its action, and the parameters in the path before those in the query, its own before the common ones, each with its type. |
| `TypeMeaning.Fails` | interfaces/openapi-to-go-server/data_types.py:88-98 | Whether and how the declaration of a schema fails: an unknown kind, format or missing items is a value error, what cannot be referred to is not implemented; of an object the first property that fails decides; the name has no part in it. |
| `TypeMeaning.ApiParses` | interfaces/openapi-to-go-server/apis.py:70-91 | A specification is parsed if and only if it has components and paths and all schemas, places of parameters, codes and references in it are right. |
| `TypeMeaning.PascalExactly` | interfaces/openapi-to-go-server/formatting.py:8-9 | Names of fields lose exactly their underscores and blanks; of their letters exactly those that follow no letter are capital. |
| `DictChanges.DictChange` | monitoring/monitorlib/formatting.py:46-86 | For every order of the keys, the overall change is the join of all changes, or the error exactly when `Raises` says so. |
| `DictChanges.JoinOfUnion` | monitoring/monitorlib/formatting.py:28-43 | Updating the overall change is the join of the four-point lattice. |
| `DictChanges.OverallByLeaves` | monitoring/monitorlib/formatting.py:46-86 | The overall change from the leaves by path: added, changed and removed leaves decide it alone. |
| `DictChanges.NoChangeIsSameLeaves` | monitoring/monitorlib/formatting.py:46-86 | No change is reported if and only if both trees have the same leaves at the same paths, so a missing dictionary is an empty one. |
| `DictChanges.RaisesByConflict` | monitoring/monitorlib/formatting.py:51-54 | The comparison fails if and only if at some path a dictionary in `b` meets a leaf in `a`. |

## Left out

- Repository searches follow the meaning of the SQL in pkg/scd/store/cockroach and pkg/vrp/store/cockroach (touching
  bounds match, null bounds match everything) and are complete: the limit of 10000 rows is not modelled.
- S2 coverings: a covering is a finite set of cells or an error; levels, areas and spherical geometry are not modelled.
  `Contains` is inclusion of cell sets. Altitudes are `real`, not `float32`.
- S2 normalisation: in the runs of the SCD service cells are a plain set, while `s2.CellUnionFromUnion`
  (pkg/scd/operational_intents_handler.go:412) may put the parent in place of four cells of a widened implicit
  subscription, after which `cells && $1` (pkg/scd/store/cockroach/subscriptions.go:301) may no longer find it. So
  `ScdRuns.AttachmentSupports`, `ScdRuns.CoverageOverRuns` and `ScdNotifications.OverlapIsNotified` hold of sets of cells
  only; what the step does to searches is in `CellUnions`, from the documented normal form, as the library's code is not
  part of this model.
- Checks of the database schema (a start before the end, at least one cell): calls that they make fail succeed here.
- Parsing of requests, URLs and IDs, authentication and scopes: the manager or owner is an argument, a URL is accepted by
  an arbitrary predicate, required fields of messages are present.
- That new UUIDs and OVNs are new is an assumption of the theorems that need it (`FreshIds`, `FreshOvns`): an OVN hashes
  an ID with a time formatted to the second (pkg/scd/models/models.go:28-38).
- Response bodies other than the subscribers to notify, and the handlers that only read (`Get...`, `Query...`,
  `GetOperations`, the entities attached to a put subscription).
- Stored subscriptions have no altitude, as no code reads it back; the check of dependent intents uses the altitudes of
  the request. Altitude is no part of coverage, since attaching an intent to a subscription does not look at it.
- ScdServer.Server.PutSubscriptionReference: when several dependent intents are uncovered it is left open whose error is
  returned, a rejection or the nil dereference of an absent altitude, as that depends on the order in which the
  repository lists them. The entities attached to the answer are not modelled.
- VertiportServer.Server.PutVertiportSubscription: the same is left open for any store; in reachable stores the error is
  a rejection (`VertiportRuns.DependentsNeverBreak`). The entities attached to the answer are not modelled.
- Subscribers.Table.IncrementNotificationIndices: that the returned indices correspond to the given IDs is the promise of
  the interface comment (pkg/scd/repos/repos.go:52-55); the order of rows from the SQL `RETURNING` is not modelled.
- RemoteId: the deletion of expired subscriptions by a scheduled job is a `DeleteCall`; service areas themselves are not
  stored, only what their changes do to subscriptions; the repository of schema versions before 4.0.0 is not modelled.
- TrackSplitting: both programs take one predicate for "inside the view"; they compute it with different geometry.
  `get_details`, `order_telemetry` and `get_span` would only add easy members.
- TestIds.DecodeOwner: see the next line; what it says of digits holds for the bytes of an owner too.
- TestIds.Decode: Python's `int` also accepts signs, blanks, underscores and a prefix `0x`, which identifiers made by
  `make_id` never contain; here such digits are an error.
- Migration.Migrator.Migrate: not for a target between two versions of the table, as it would not return; there
  `FirstTurns` follows the loop for any number of turns.
- Migration: prerelease parts of versions (the file names have none), reading of files and the SQL itself; a script is an
  arbitrary resulting version, or an error. Creation of the database is not modelled.
- TypeFilter.RequiredTypes: that the result is closed is promised for type names with at most one pair of brackets in
  front, which are all that the parser makes (`TypeParser.MadeIsOneLevel`). Of others it is promised that every name of
  a kept signature is followed up, and every name but array types that are elements of arrays.
- TypeParser: titles, summaries, security, enumerations and all else that has no name of a type; `title()` for letters
  beyond ASCII; `primitive_go_type_for`; rendering.
- DictChanges.DictChange: the dictionaries of values and of changes by key that are built for display; only the overall
  change is modelled.
- EntityCache: error texts, and the comparison of two polls. Calls without a cache are calls on a new one.
- User interfaces, simulators, load tests, key resolution, gRPC and HTTP plumbing, availability records.
