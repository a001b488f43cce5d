/**
 * The GraphQL resolvers over the four record arrays: the queries, the
 * relationship resolvers, and what each mutation does to the arrays,
 * stated on the value of the arrays (`Db`).
 */
module Resolvers {
  import opened Records

  datatype Kind = User | Event | Location | Participant

  function KindName(k: Kind): string
  {
    match k
    case User => "User"
    case Event => "Event"
    case Location => "Location"
    case Participant => "Participant"
  }

  /** The message every single-record resolver throws for a missing id. */
  function NotFoundMessage(k: Kind): string
  {
    KindName(k) + " not found"
  }

  /** The four messages, as the resolvers spell them. */
  lemma NotFoundMessages()
    ensures NotFoundMessage(User) == "User not found"
    ensures NotFoundMessage(Event) == "Event not found"
    ensures NotFoundMessage(Location) == "Location not found"
    ensures NotFoundMessage(Participant) == "Participant not found"
  {
  }

  /** A resolver's outcome: its value, or the message of the error it throws. */
  datatype Result<T> = Ok(value: T) | Err(message: string)

  /** The contents of the module-level arrays `users`, `events`, `locations`, `participants`. */
  datatype Db = Db(users: seq<Record>, events: seq<Record>, locations: seq<Record>, participants: seq<Record>)
  {
    function Coll(k: Kind): seq<Record>
    {
      match k
      case User => users
      case Event => events
      case Location => locations
      case Participant => participants
    }

    /** The same arrays with the one of kind `k` replaced by `s`. */
    function With(k: Kind, s: seq<Record>): (d: Db)
      ensures d.Coll(k) == s
      ensures forall other :: other != k ==> d.Coll(other) == Coll(other)
    {
      match k
      case User => this.(users := s)
      case Event => this.(events := s)
      case Location => this.(locations := s)
      case Participant => this.(participants := s)
    }
  }

  /** Every array of the store holds each id at most once. */
  ghost predicate UniqueDb(db: Db)
  {
    forall k :: UniqueIds(db.Coll(k))
  }

  // ----- Query -----

  /** `users`, `events`, `locations`, `participants`: the array itself. */
  function List(db: Db, k: Kind): (r: seq<Record>)
    ensures r == db.Coll(k)
  {
    db.Coll(k)
  }

  /**
   * `user(id)`, `event(id)`, `location(id)`, `participant(id)`: the record at
   * the first index whose id equals `id`, or the error "<Kind> not found".
   */
  function Lookup(db: Db, k: Kind, id: string): (r: Result<Record>)
    ensures IndexOf(db.Coll(k), IdKey, Some(id)).None? ==> r == Err(NotFoundMessage(k))
    ensures IndexOf(db.Coll(k), IdKey, Some(id)).Some? ==>
      r == Ok(db.Coll(k)[IndexOf(db.Coll(k), IdKey, Some(id)).value])
  {
    match FindBy(db.Coll(k), IdKey, Some(id))
    case None => Err(NotFoundMessage(k))
    case Some(x) => Ok(x)
  }

  /** A single-record query succeeds exactly on the ids the list query holds, with a listed record. */
  lemma LookupAgreesWithList(db: Db, k: Kind, id: string)
    ensures Lookup(db, k, id).Ok? <==> exists x :: x in List(db, k) && HasId(x, id)
    ensures Lookup(db, k, id).Ok? ==> Lookup(db, k, id).value in List(db, k) && HasId(Lookup(db, k, id).value, id)
  {
    var s := db.Coll(k);
    if x :| x in s && HasId(x, id) {
      var j :| 0 <= j < |s| && s[j] == x;
      assert !NoneMatch(s, IdKey, Some(id));
    }
  }

  // ----- Relationship resolvers -----

  /** `User.events`: the events whose `user_id` equals the user's id, in array order. */
  function UserEvents(db: Db, user: Record): (r: seq<Record>)
    ensures forall e :: e in r <==> e in db.events && Get(e, "user_id") == Get(user, IdKey)
  {
    FilterBy(db.events, "user_id", Get(user, IdKey))
  }

  /** `Event.participants`: the participants whose `event_id` equals the event's id, in array order. */
  function EventParticipants(db: Db, event: Record): (r: seq<Record>)
    ensures forall p :: p in r <==> p in db.participants && Get(p, "event_id") == Get(event, IdKey)
  {
    FilterBy(db.participants, "event_id", Get(event, IdKey))
  }

  /** `Event.user`: the first user whose id equals the event's `user_id`; `None` for a dangling key. */
  function EventUser(db: Db, event: Record): (r: Option<Record>)
    ensures r == match IndexOf(db.users, IdKey, Get(event, "user_id")) { case None => None case Some(i) => Some(db.users[i]) }
    ensures r.Some? ==> r.value in db.users && Get(r.value, IdKey) == Get(event, "user_id")
    ensures r.None? <==> forall u :: u in db.users ==> Get(u, IdKey) != Get(event, "user_id")
  {
    FindBy(db.users, IdKey, Get(event, "user_id"))
  }

  /** `Event.location`: the first location whose id equals the event's `location_id`; `None` for a dangling key. */
  function EventLocation(db: Db, event: Record): (r: Option<Record>)
    ensures r == match IndexOf(db.locations, IdKey, Get(event, "location_id")) { case None => None case Some(i) => Some(db.locations[i]) }
    ensures r.Some? ==> r.value in db.locations && Get(r.value, IdKey) == Get(event, "location_id")
    ensures r.None? <==> forall l :: l in db.locations ==> Get(l, IdKey) != Get(event, "location_id")
  {
    FindBy(db.locations, IdKey, Get(event, "location_id"))
  }

  /** `Participant.user`: the first user whose id equals the participant's `user_id`; `None` for a dangling key. */
  function ParticipantUser(db: Db, participant: Record): (r: Option<Record>)
    ensures r == match IndexOf(db.users, IdKey, Get(participant, "user_id")) { case None => None case Some(i) => Some(db.users[i]) }
    ensures r.Some? ==> r.value in db.users && Get(r.value, IdKey) == Get(participant, "user_id")
    ensures r.None? <==> forall u :: u in db.users ==> Get(u, IdKey) != Get(participant, "user_id")
  {
    FindBy(db.users, IdKey, Get(participant, "user_id"))
  }

  /** `Participant.event`: the first event whose id equals the participant's `event_id`; `None` for a dangling key. */
  function ParticipantEvent(db: Db, participant: Record): (r: Option<Record>)
    ensures r == match IndexOf(db.events, IdKey, Get(participant, "event_id")) { case None => None case Some(i) => Some(db.events[i]) }
    ensures r.Some? ==> r.value in db.events && Get(r.value, IdKey) == Get(participant, "event_id")
    ensures r.None? <==> forall e :: e in db.events ==> Get(e, IdKey) != Get(participant, "event_id")
  {
    FindBy(db.events, IdKey, Get(participant, "event_id"))
  }

  /**
   * Following a foreign key gives what the single-record query on that id
   * gives, except that a dangling key yields `None` instead of an error.
   */
  lemma ForeignKeyIsLookup(db: Db, record: Record, fk: string, k: Kind, id: string)
    requires Get(record, fk) == Some(id)
    ensures FindBy(db.Coll(k), IdKey, Get(record, fk)) ==
      match Lookup(db, k, id) { case Ok(x) => Some(x) case Err(_) => None }
  {
  }

  /** `Event.user` and `Event.location` resolve through the `user(id)` and `location(id)` queries. */
  lemma EventLinksAreLookups(db: Db, event: Record, userId: string, locationId: string)
    requires Get(event, "user_id") == Some(userId) && Get(event, "location_id") == Some(locationId)
    ensures EventUser(db, event) == match Lookup(db, User, userId) { case Ok(u) => Some(u) case Err(_) => None }
    ensures EventLocation(db, event) ==
      match Lookup(db, Location, locationId) { case Ok(l) => Some(l) case Err(_) => None }
  {
  }

  // ----- Mutation -----

  /**
   * The array each `add<Kind>` resolver pushes into, as written:
   * `addLocation` and `addParticipant` push into `events`.
   */
  function AddTarget(k: Kind): (target: Kind)
    ensures target == k <==> k == User || k == Event
    ensures target != k ==> target == Event
  {
    match k
    case User => User
    case Event => Event
    case Location => Event
    case Participant => Event
  }

  /** The topic each `add<Kind>` resolver publishes on; `addLocation` publishes nothing. */
  function Topic(k: Kind): (t: Option<string>)
    ensures t.None? <==> k == Location
  {
    match k
    case User => Some("userCreated")
    case Event => Some("eventCreated")
    case Location => None
    case Participant => Some("participantAdded")
  }

  /** No two adds publish on the same topic. */
  lemma TopicsDistinct(a: Kind, b: Kind)
    requires Topic(a).Some? && Topic(a) == Topic(b)
    ensures a == b
  {
  }

  /** A `pubsub.publish(topic, { [topic]: payload })` call. */
  datatype Message = Message(topic: string, payload: Record)

  /** What `add<Kind>` publishes for the created record `r`. */
  function Published(k: Kind, r: Record): (m: seq<Message>)
    ensures |m| <= 1
    ensures Topic(k).None? <==> m == []
    ensures m != [] ==> m[0] == Message(Topic(k).value, r)
  {
    match Topic(k)
    case None => []
    case Some(t) => [Message(t, r)]
  }

  /** The arrays after `add<Kind>(data)` with `id` as the generated id. */
  function AddStep(db: Db, k: Kind, id: string, data: Record): (d: Db)
    ensures d.Coll(AddTarget(k)) == db.Coll(AddTarget(k)) + [Create(id, data)]
    ensures forall other :: other != AddTarget(k) ==> d.Coll(other) == db.Coll(other)
  {
    db.With(AddTarget(k), db.Coll(AddTarget(k)) + [Create(id, data)])
  }

  /** A mutation's returned value or error together with the arrays afterwards. */
  datatype Outcome = Outcome(result: Result<Record>, db: Db)

  /** `update<Kind>(id, data)`: merge `data` over the first record with that id. */
  function UpdateStep(db: Db, k: Kind, id: string, data: Record): (o: Outcome)
    ensures o.result.Err? <==> NoneMatch(db.Coll(k), IdKey, Some(id))
    ensures o.result.Err? ==> o.db == db && o.result.message == NotFoundMessage(k)
    ensures forall other :: other != k ==> o.db.Coll(other) == db.Coll(other)
    ensures |o.db.Coll(k)| == |db.Coll(k)|
    ensures forall j :: 0 <= j < |db.Coll(k)| && o.db.Coll(k)[j] != db.Coll(k)[j] ==>
      IsFirst(db.Coll(k), IdKey, Some(id), j)
    ensures forall j :: IsFirst(db.Coll(k), IdKey, Some(id), j) ==>
      o.result == Ok(Merge(db.Coll(k)[j], data)) && o.db.Coll(k)[j] == o.result.value
  {
    var s := db.Coll(k);
    match IndexOf(s, IdKey, Some(id))
    case None => Outcome(Err(NotFoundMessage(k)), db)
    case Some(i) =>
      var updated := Merge(s[i], data);
      Outcome(Ok(updated), db.With(k, s[i := updated]))
  }

  /** `delete<Kind>(id)`: splice out the first record with that id and return it. */
  function DeleteStep(db: Db, k: Kind, id: string): (o: Outcome)
    ensures o.result.Err? <==> NoneMatch(db.Coll(k), IdKey, Some(id))
    ensures o.result.Err? ==> o.db == db && o.result.message == NotFoundMessage(k)
    ensures forall other :: other != k ==> o.db.Coll(other) == db.Coll(other)
    ensures forall j :: IsFirst(db.Coll(k), IdKey, Some(id), j) ==>
      o.result == Ok(db.Coll(k)[j]) && o.db.Coll(k) == RemoveAt(db.Coll(k), j)
  {
    var s := db.Coll(k);
    match IndexOf(s, IdKey, Some(id))
    case None => Outcome(Err(NotFoundMessage(k)), db)
    case Some(i) => Outcome(Ok(s[i]), db.With(k, RemoveAt(s, i)))
  }

  /** `deleteAll<Kind>s()`: the arrays afterwards, the one of kind `k` emptied. */
  function ClearStep(db: Db, k: Kind): (d: Db)
    ensures d.Coll(k) == []
    ensures forall other :: other != k ==> d.Coll(other) == db.Coll(other)
  {
    db.With(k, [])
  }

  // ----- What the mutations promise, stated on the arrays -----

  /** After `addUser`/`addEvent`, the single-record query on the new id returns the new record. */
  lemma LookupAfterAdd(db: Db, k: Kind, id: string, data: Record)
    requires AddTarget(k) == k
    requires NoneMatch(db.Coll(k), IdKey, Some(id))
    requires IdKey !in data
    ensures Lookup(AddStep(db, k, id, data), k, id) == Ok(Create(id, data))
  {
    IndexOfAppend(db.Coll(k), [Create(id, data)], IdKey, Some(id));
  }

  /**
   * `addLocation` and `addParticipant` as written: the new record lands in
   * `events`, where `event(id)` finds it, and the kind's own query answers
   * exactly as before, so a fresh id is "<Kind> not found" there.
   */
  lemma AddMisrouted(db: Db, k: Kind, id: string, data: Record)
    requires AddTarget(k) != k
    requires NoneMatch(db.events, IdKey, Some(id))
    requires IdKey !in data
    ensures Lookup(AddStep(db, k, id, data), k, id) == Lookup(db, k, id)
    ensures NoneMatch(db.Coll(k), IdKey, Some(id)) ==>
      Lookup(AddStep(db, k, id, data), k, id) == Err(NotFoundMessage(k))
    ensures Lookup(AddStep(db, k, id, data), Event, id) == Ok(Create(id, data))
    ensures |AddStep(db, k, id, data).Coll(k)| == |db.Coll(k)|
  {
    IndexOfAppend(db.events, [Create(id, data)], IdKey, Some(id));
  }

  /** Read after write: the single-record query returns what `update<Kind>` returned. */
  lemma LookupAfterUpdate(db: Db, k: Kind, id: string, data: Record)
    requires IdKey !in data
    ensures UpdateStep(db, k, id, data).result.Ok? ==>
      Lookup(UpdateStep(db, k, id, data).db, k, id) == UpdateStep(db, k, id, data).result
    ensures UpdateStep(db, k, id, data).result.Ok? ==> HasId(UpdateStep(db, k, id, data).result.value, id)
  {
  }

  /** Updating twice with the same data leaves what the first update left. */
  lemma UpdateIdempotent(db: Db, k: Kind, id: string, data: Record)
    requires IdKey !in data
    ensures UpdateStep(UpdateStep(db, k, id, data).db, k, id, data) == UpdateStep(db, k, id, data)
  {
    var s := db.Coll(k);
    var o := UpdateStep(db, k, id, data);
    if o.result.Ok? {
      var i := IndexOf(s, IdKey, Some(id)).value;
      var updated := Merge(s[i], data);
      assert HasId(updated, id);
      IndexOfAfterReplace(s, IdKey, Some(id), i, updated);
      MergeIdempotent(s[i], data);
      assert o.db.Coll(k)[i := updated] == o.db.Coll(k);
      assert o.db.With(k, o.db.Coll(k)) == o.db;
    }
  }

  /** With unique ids, the single-record query fails once `delete<Kind>` has removed the record. */
  lemma LookupAfterDelete(db: Db, k: Kind, id: string)
    requires UniqueIds(db.Coll(k))
    ensures Lookup(DeleteStep(db, k, id).db, k, id) == Err(NotFoundMessage(k))
  {
  }

  /** `delete<Kind>` on the id just added by `addUser`/`addEvent` returns the new record and undoes the add. */
  lemma DeleteUndoesAdd(db: Db, k: Kind, id: string, data: Record)
    requires AddTarget(k) == k
    requires NoneMatch(db.Coll(k), IdKey, Some(id))
    requires IdKey !in data
    ensures DeleteStep(AddStep(db, k, id, data), k, id) == Outcome(Ok(Create(id, data)), db)
  {
    var x := Create(id, data);
    var s := db.Coll(k);
    var added := AddStep(db, k, id, data);
    IndexOfAppend(s, [x], IdKey, Some(id));
    assert IndexOf([x], IdKey, Some(id)) == Some(0);
    assert IndexOf(added.Coll(k), IdKey, Some(id)) == Some(|s|);
    assert RemoveAt(added.Coll(k), |s|) == s;
    assert added.With(k, s) == db by {
      assert added.With(k, s).Coll(k) == db.Coll(k);
    }
  }

  /**
   * `addUser(data)`, then `user(id)` returns the new record, `deleteUser(id)`
   * returns it and restores the arrays, and `user(id)` then fails.
   */
  lemma AddLookupDeleteUser(db: Db, id: string, data: Record)
    requires NoneMatch(db.users, IdKey, Some(id))
    requires IdKey !in data
    ensures Lookup(AddStep(db, User, id, data), User, id) == Ok(Create(id, data))
    ensures DeleteStep(AddStep(db, User, id, data), User, id) == Outcome(Ok(Create(id, data)), db)
    ensures Lookup(db, User, id) == Err(NotFoundMessage(User))
  {
    LookupAfterAdd(db, User, id, data);
    DeleteUndoesAdd(db, User, id, data);
  }

  /** Adding with an id fresh in the target array keeps every array's ids unique. */
  lemma AddKeepsUnique(db: Db, k: Kind, id: string, data: Record)
    requires UniqueDb(db)
    requires NoneMatch(db.Coll(AddTarget(k)), IdKey, Some(id))
    requires IdKey !in data
    ensures UniqueDb(AddStep(db, k, id, data))
  {
  }

  /** An update whose data carries no id keeps every array's ids unique. */
  lemma UpdateKeepsUnique(db: Db, k: Kind, id: string, data: Record)
    requires UniqueDb(db)
    requires IdKey !in data
    ensures UniqueDb(UpdateStep(db, k, id, data).db)
  {
  }

  /** Deleting keeps every array's ids unique. */
  lemma DeleteKeepsUnique(db: Db, k: Kind, id: string)
    requires UniqueDb(db)
    ensures UniqueDb(DeleteStep(db, k, id).db)
  {
  }
}
