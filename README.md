# GraphQL event-planner resolvers in Dafny

This project models the data layer of a small GraphQL server for users,
events, locations and participants. Four in-memory arrays (`users`,
`events`, `locations` and `participants`) hold plain records. Resolvers read
these arrays and change them in place:

- Single-record queries look a record up by id, or throw "`<Kind> not found`".
- List queries return a whole array.
- Relationship resolvers follow foreign keys (`user_id`, `event_id`,
  `location_id`) with `find` and `filter`.
- `add<Kind>` builds a new record `{ id, ...data }` and pushes it onto an
  array: `addUser` onto `users`, and `addEvent`, `addLocation` and
  `addParticipant` onto `events`. `addUser`, `addEvent` and `addParticipant`
  then publish it on a topic; `addLocation` publishes nothing.
- `update<Kind>` replaces the first record with that id by `{ ...old, ...data }`.
- `delete<Kind>` splices that record out.
- `deleteAll<Kind>s` empties the array and returns its former length.

The model also covers the reconnect backoff the pub/sub connections use.

Files:

- `records.dfy` (module `Records`): a record is a `map<string, string>`.
  Reading a field gives `Option<string>`, where `None` stands for
  `undefined`. The module defines `findIndex`, `find` and `filter` by a key
  and value (`IndexOf`, `FindBy`, `FilterBy`), the object literals
  `{ id, ...data }` (`Create`) and `{ ...a, ...b }` (`Merge`), and
  `splice(i, 1)` (`RemoveAt`). Lemmas show that these agree with one another
  and say what a search finds after a push, an assignment or a splice.
- `resolvers.dfy` (module `Resolvers`): `Db` is the value of the four
  arrays. The module defines the query and relationship resolvers as
  functions of that value, and each mutation's effect as a step function
  (`AddStep`, `UpdateStep`, `DeleteStep`, `ClearStep`). Lemmas connect
  mutations with later queries, and show that unique ids stay unique.
- `store.dfy` (module `StoreState`): the class `Store` holds the four arrays
  as `seq` fields, plus a ghost `outbox` of `pubsub.publish` calls. Its
  methods change the fields in place. Each is proved against a step
  function: `Add` against `AddStep`, `Update` against `UpdateStep`, `Delete`
  against `DeleteStep` and `DeleteAll` against `ClearStep`. Each also says
  what it appends to the outbox.
- `backoff.dfy` (module `Backoff`): `retryStrategy`, `Math.min(times * 50, 2000)`.

The four sets of resolvers in the source (one per kind) are the same code
apart from the array, the error message and the topic. The model therefore
takes the kind as a parameter (`Kind`). `AddTarget(k)` gives the array that
`add<Kind>` pushes into, and `Topic(k)` the topic it publishes on.

Behaviour of the code worth noting:

- `addLocation` and `addParticipant` push the new record into `events`, and
  not into `locations` or `participants` (`index.js:262`, `index.js:290`).
  The model keeps this behaviour in `AddTarget`. `AddMisrouted` states the
  consequence: the new record is found by `event(id)`, while `location(id)`
  or `participant(id)` answers exactly as before.
- `Event.user`, `Event.location`, `Participant.user` and `Participant.event`
  return `undefined` for a dangling key; the resolver functions themselves
  do not throw. The model returns `None`.
- Update is a right-biased merge: the supplied fields win, and all other
  fields, `id` included, keep their values.
- The backoff grows linearly, by 50 per attempt, up to the cap of 2000.

## Model

| member | source | states |
|---|---|---|
| `Records.IndexOf` | index.js:209-212 | `findIndex` by id: the result is the first index whose record matches; it is absent (the source's -1) exactly when no record matches |
| `Records.FindBy` | index.js:192-198 | `find`: the record at the first matching index (the `findIndex` answer), so a matching record of the array; none exactly when no record matches, including when both sides of `===` are `undefined` |
| `Records.FilterBy` | index.js:189-194 | `filter`: never longer than the array; holds exactly the array's matching records |
| `Records.FilterByAppend` | index.js:189 | `filter` keeps array order: filtering `a + b` gives the filter of `a` followed by the filter of `b` |
| `Records.FindByIsFilterHead` | index.js:192-194 | `find` gives the first element of what `filter` gives with the same test, and fails exactly when that is empty |
| `Records.Create` | index.js:203 | `{ id: nanoid(), ...data }`: the fields are `data`'s plus `id`, each `data` field is copied, and with no `id` in `data` the record has the generated id |
| `Records.Merge` | index.js:213 | `{ ...old, ...data }`: the keys are the union; a key of `data` takes `data`'s value, every other key keeps the old value |
| `Records.RemoveAt` | index.js:222 | `splice(i, 1)`: one shorter; records before `i` stay in place, later ones shift down by one; the multiset loses exactly the removed record |
| `Records.IndexOfAppend` | index.js:204 | after a `push`, `findIndex` finds the old first match if there was one, and otherwise a match among the pushed records, shifted by the old length |
| `Records.IndexOfAfterReplace` | index.js:213 | assigning at the first matching index a record that still matches keeps that index the first match |
| `Records.RemovedIdIsGone` | index.js:217-222 | with unique ids, no record with the id is left after splicing out the first match |
| `Records.AppendKeepsUnique` | index.js:203-204 | pushing a record whose id is not yet in the array keeps ids unique |
| `Records.MergeIdempotent` | index.js:213 | merging the same update data twice equals merging it once |
| `Resolvers.NotFoundMessages` | index.js:156-186 | the four error messages are "User not found", "Event not found", "Location not found" and "Participant not found" |
| `Resolvers.List` | index.js:155 | `users` (and `events`, `locations`, `participants`, index.js:163, 171, 179): the stored array itself, unchanged and in insertion order |
| `Resolvers.Lookup` | index.js:156-186 | `user(id)` etc.: the record at the first index whose id equals `id` (the `findIndex` answer), else the error "`<Kind> not found`" |
| `Resolvers.LookupAgreesWithList` | index.js:155-186 | the single-record query succeeds exactly when the list query holds a record with that id, and then returns a listed record with that id |
| `Resolvers.UserEvents` | index.js:189 | `User.events`: exactly the events whose `user_id` equals the user's id |
| `Resolvers.EventParticipants` | index.js:194 | `Event.participants`: exactly the participants whose `event_id` equals the event's id |
| `Resolvers.EventUser` | index.js:192 | `Event.user`: the first user whose id equals the event's `user_id`; absent, with no error, exactly when no user has that id |
| `Resolvers.EventLocation` | index.js:193 | `Event.location`: the first location whose id equals the event's `location_id`; absent exactly when none has |
| `Resolvers.ParticipantUser` | index.js:197 | `Participant.user`: the first user whose id equals the participant's `user_id`; absent exactly when none has |
| `Resolvers.ParticipantEvent` | index.js:198 | `Participant.event`: the first event whose id equals the participant's `event_id`; absent exactly when none has |
| `Resolvers.ForeignKeyIsLookup` | index.js:192-198 | following a present foreign key gives what the single-record query on that id gives, with "absent" in place of the not-found error |
| `Resolvers.EventLinksAreLookups` | index.js:192-193 | `Event.user` and `Event.location` agree with `user(user_id)` and `location(location_id)` |
| `Resolvers.AddTarget` | index.js:204 | the array each add pushes into (`users` at index.js:204, `events` at 233, 262 and 290): the add's own array exactly for `addUser` and `addEvent`, and otherwise `events` |
| `Resolvers.Topic` | index.js:205 | the topic each add publishes on: `userCreated` (index.js:205), `eventCreated` (234), `participantAdded` (291); there is none exactly for `addLocation` (index.js:260-264) |
| `Resolvers.TopicsDistinct` | index.js:202-293 | no two adds publish on the same topic |
| `Resolvers.Published` | index.js:202-293 | each add publishes at most one message; `addLocation` publishes none; the others publish the created record on their topic |
| `Resolvers.AddStep` | index.js:202-293 | an add appends exactly the created record at the end of `AddTarget(k)`, and every other array is unchanged |
| `Resolvers.UpdateStep` | index.js:208-215 | update fails with "`<Kind> not found`" and changes nothing exactly when no record has the id. Otherwise the array keeps its length, only the first match changes, and the returned record is the merge, equal to the stored one |
| `Resolvers.DeleteStep` | index.js:216-224 | delete fails and changes nothing exactly when no record has the id. Otherwise it returns the first match and the array becomes that array with the match spliced out |
| `Resolvers.ClearStep` | index.js:225-229 | the cleared array is empty and the others are unchanged |
| `Resolvers.LookupAfterAdd` | index.js:202-207 | after `addUser`/`addEvent` with a fresh id, the single-record query on that id returns the created record |
| `Resolvers.AddMisrouted` | index.js:260-264 | `addLocation` (and, the same way, `addParticipant`, `index.js:288-293`) leaves its own array's length and query answers unchanged, so a fresh id is "not found" there, while `event(id)` returns the new record |
| `Resolvers.LookupAfterUpdate` | index.js:208-215 | read after write: after a successful update, the query on the id returns the record the update returned, which still carries the id |
| `Resolvers.UpdateIdempotent` | index.js:237-244 | repeating an update with the same data returns the same record and leaves the same arrays |
| `Resolvers.LookupAfterDelete` | index.js:216-224 | with unique ids, the query on a deleted id fails with "`<Kind> not found`" |
| `Resolvers.DeleteUndoesAdd` | index.js:231-253 | deleting the id just added by `addUser`/`addEvent` returns the created record and restores the arrays exactly |
| `Resolvers.AddLookupDeleteUser` | index.js:202-224 | `addUser`, `user(id)`, `deleteUser(id)`, `user(id)`: the query finds the new user, the delete returns it and restores the arrays, and the query then fails |
| `Resolvers.AddKeepsUnique` | index.js:202-204 | an add with an id fresh in its target array keeps every array's ids unique |
| `Resolvers.UpdateKeepsUnique` | index.js:237-243 | an update whose data has no `id` field keeps every array's ids unique |
| `Resolvers.DeleteKeepsUnique` | index.js:245-252 | a delete keeps every array's ids unique |
| `StoreState.Store.constructor` | index.js:4 | the arrays start as the given contents and nothing has been published |
| `StoreState.Store.Add` | index.js:202-207 | returns the created record, changes the arrays as `AddStep` does (pushing into `AddTarget(k)`), and appends exactly `Published(k, r)` to the outbox |
| `StoreState.Store.Update` | index.js:208-215 | returns and stores what `UpdateStep` gives, changing the arrays in place, and publishes nothing |
| `StoreState.Store.Delete` | index.js:216-224 | returns and stores what `DeleteStep` gives, and publishes nothing |
| `StoreState.Store.DeleteAll` | index.js:225-229 | returns the array's prior length as the count, leaves that array empty and the others unchanged, and publishes nothing |
| `StoreState.DeleteAllTwice` | index.js:225-229 | two clears in a row return the prior length and then 0 |
| `Backoff.RetryDelay` | pubsub.js:11-13 | the delay never exceeds 2000; it equals `times * 50` exactly when `times <= 40`, and is 2000 from `times = 40` on |
| `Backoff.RetryDelayMonotone` | pubsub.js:12 | the delay never decreases as `times` grows |
| `Backoff.RetryDelayNonNegative` | pubsub.js:12 | a non-negative attempt count gives a non-negative delay |

## Left out

- The GraphQL engine's check of non-null output fields is not modelled. The schema declares `user: User!`, `location: Location!` and `event: Event!` (index.js:33-34, 86-87), so the engine reports an error to the caller when `Event.user`, `Event.location`, `Participant.user` or `Participant.event` returns `undefined`. The model stops at the resolvers' `None`.
- The GraphQL schema text and the server start-up (`index.js:6-151`, `index.js:333-335`) declare types and open the network listener. The model keeps only the facts the resolvers rely on, such as no input type having an `id` field; the lemmas take these as hypotheses (`IdKey !in data`).
- Type-shape validation and explicit `null` arguments belong to the GraphQL engine. A patch is a map holding only the supplied fields.
- Subscription delivery (`pubsub.asyncIterator`, `index.js:317-330`) is asynchronous fan-out over Redis. Only the record of `publish` calls (the ghost `outbox`) is modelled. The payload `{ <topic>: record }` is modelled as the pair of topic and record.
- The Redis connections, `dotenv` and the environment reads (`pubsub.js:1-9`, `pubsub.js:16-21`) are foreign libraries and I/O.
- `nanoid()` is random. `Store.Add` takes the id as the parameter `freshId` and requires it to be absent from the array it pushes into.
- The `data.json` fixture is not part of this model. A `Store` starts from any four arrays, and the lemmas assume unique ids only where they say so.
- The single-record queries and the relationship resolvers are functions of the arrays' value (`Db`), read through `Store.View()`, not methods of the class. They change nothing.
- Lookups use loose `==` and relationship resolvers use `===`. Both are string equality here, because ids are strings. A missing field is `None`, so `undefined === undefined` holds as in JavaScript.
- Ids are compared as strings, and JavaScript's key order within an object is not modelled (records are maps).
- Resolvers.LookupAfterDelete: requires unique ids in the array. With duplicate ids, the query instead finds the next record with the same id, which `RemoveAt` and `IndexOf` describe.
- Backoff.RetryDelay: `times` is an integer. JavaScript's floating-point numbers (fractions, `NaN`, overflow) are not modelled; the Redis client passes positive attempt counts.
