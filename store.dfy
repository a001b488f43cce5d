/**
 * The module-level arrays and the mutation resolvers that change them in
 * place, each proved against the step function of module Resolvers that
 * states its effect on the arrays' value.
 */
module StoreState {
  import opened Records
  import opened Resolvers

  class Store {
    var users: seq<Record>
    var events: seq<Record>
    var locations: seq<Record>
    var participants: seq<Record>

    /** Every `pubsub.publish` call made so far, oldest first. */
    ghost var outbox: seq<Message>

    /** The arrays as loaded at start-up; nothing published yet. */
    constructor (users0: seq<Record>, events0: seq<Record>, locations0: seq<Record>, participants0: seq<Record>)
      ensures View() == Db(users0, events0, locations0, participants0)
      ensures outbox == []
    {
      users, events, locations, participants := users0, events0, locations0, participants0;
      outbox := [];
    }

    /** The current contents of the four arrays, which the queries read. */
    function View(): Db
      reads this
    {
      Db(users, events, locations, participants)
    }

    /** Replaces the array of kind `k` and touches nothing else. */
    method SetColl(k: Kind, s: seq<Record>)
      modifies this
      ensures View() == old(View()).With(k, s)
      ensures outbox == old(outbox)
    {
      match k
      case User => users := s;
      case Event => events := s;
      case Location => locations := s;
      case Participant => participants := s;
    }

    /**
     * `add<Kind>(data)`: builds `{ id: freshId, ...data }`, pushes it onto
     * the array `AddTarget(k)` and publishes it on `Topic(k)`, if any.
     * `freshId` stands for the `nanoid()` call.
     */
    method Add(k: Kind, data: Record, freshId: string) returns (r: Record)
      requires NoneMatch(View().Coll(AddTarget(k)), IdKey, Some(freshId))
      modifies this
      ensures r == Create(freshId, data)
      ensures View() == AddStep(old(View()), k, freshId, data)
      ensures outbox == old(outbox) + Published(k, r)
    {
      r := Create(freshId, data);
      var target := AddTarget(k);
      SetColl(target, View().Coll(target) + [r]);
      outbox := outbox + Published(k, r);
    }

    /** `update<Kind>(id, data)`: `findIndex`, then assign the merged record at that index. */
    method Update(k: Kind, id: string, data: Record) returns (r: Result<Record>)
      modifies this
      ensures Outcome(r, View()) == UpdateStep(old(View()), k, id, data)
      ensures outbox == old(outbox)
    {
      var s := View().Coll(k);
      var index := IndexOf(s, IdKey, Some(id));
      if index.None? {
        return Err(NotFoundMessage(k));
      }
      var updated := Merge(s[index.value], data);
      SetColl(k, s[index.value := updated]);
      r := Ok(updated);
    }

    /** `delete<Kind>(id)`: `findIndex`, then `splice(index, 1)`, returning the removed record. */
    method Delete(k: Kind, id: string) returns (r: Result<Record>)
      modifies this
      ensures Outcome(r, View()) == DeleteStep(old(View()), k, id)
      ensures outbox == old(outbox)
    {
      var s := View().Coll(k);
      var index := IndexOf(s, IdKey, Some(id));
      if index.None? {
        return Err(NotFoundMessage(k));
      }
      r := Ok(s[index.value]);
      SetColl(k, RemoveAt(s, index.value));
    }

    /** `deleteAll<Kind>s()`: `splice(0, length)`, returning the prior length as the count. */
    method DeleteAll(k: Kind) returns (count: nat)
      modifies this
      ensures count == |old(View().Coll(k))|
      ensures View() == ClearStep(old(View()), k)
      ensures outbox == old(outbox)
    {
      count := |View().Coll(k)|;
      SetColl(k, []);
    }
  }

  /**
   * Two `deleteAll<Kind>s()` calls in a row report the prior length and
   * then 0, leaving the array empty.
   */
  method DeleteAllTwice(store: Store, k: Kind) returns (first: nat, second: nat)
    modifies store
    ensures first == |old(store.View().Coll(k))| && second == 0
    ensures store.View() == ClearStep(old(store.View()), k)
  {
    first := store.DeleteAll(k);
    second := store.DeleteAll(k);
    assert ClearStep(ClearStep(old(store.View()), k), k) == ClearStep(old(store.View()), k);
  }
}
