/**
 * Request sequences from the controller's functional tests, replayed against
 * the contracts of the Store: each assertion follows from the contracts alone.
 */
module Scenarios {
  import opened Domain
  import opened Location
  import opened ApiResults

  /** Create, duplicate create, update, self-colliding update, forbidden
    * access, delete, and the 404s that follow the delete. */
  method CreateUpdateDelete(now: Time, later: Time)
  {
    var store := new Store({1, 2});
    var owner := Principal(1, false);
    var stranger := Principal(2, false);
    var admin := Principal(3, true);

    // nothing stored yet: the collection is empty
    assert store.CGet(admin, ById) == NotFoundReply();

    // incomplete payloads
    var reply := store.Post(Payload(None, Some(1), None), now);
    assert reply.status == UNPROCESSABLE_ENTITY;
    reply := store.Post(Payload(Some(42), None, None), now);
    assert reply.status == UNPROCESSABLE_ENTITY;

    // unknown user
    reply := store.Post(Payload(Some(42), Some(7), None), now);
    assert reply.status == BAD_REQUEST;

    // created with the first id; no time given, so "now"
    reply := store.Post(Payload(Some(42), Some(1), None), now);
    assert reply.status == CREATED;
    assert reply.body == Item(Entry(1, Record(42, 1, now)));
    LocationNamesId(1);
    assert IdOfLocation(reply.headers[LOCATION]) == Some(1);

    // the same value again, for another owner
    assert store.results[1].result == 42;
    reply := store.Post(Payload(Some(42), Some(2), None), now);
    assert reply.status == BAD_REQUEST;

    // only the owner and admins may read it
    assert store.Get(owner, 1).status == OK;
    assert store.Get(admin, 1).status == OK;
    assert store.Get(stranger, 1) == ForbiddenReply();

    // a partial update touches only the fields it carries
    assert !ResultTaken(store.results, 99);
    reply := store.Put(owner, 1, Payload(Some(99), None, Some(later)));
    assert reply == Reply(CONTENT_RETURNED, Item(Entry(1, Record(99, 1, later))), map[]);

    // the record's own current value counts as taken
    assert store.results[1].result == 99;
    reply := store.Put(owner, 1, Payload(Some(99), None, None));
    assert reply == BadRequestReply();
    assert store.results[1] == Record(99, 1, later);

    // a stranger may neither change nor delete it
    reply := store.Put(stranger, 1, Payload(None, None, Some(now)));
    assert reply == ForbiddenReply();
    reply := store.Delete(stranger, 1);
    assert reply == ForbiddenReply();

    // an admin deletes it; every later access is 404, whoever asks
    reply := store.Delete(admin, 1);
    assert reply == Reply(NO_CONTENT, NoContent, map[]);
    assert store.Get(owner, 1) == NotFoundReply();
    assert store.Get(stranger, 1) == NotFoundReply();
    reply := store.Put(stranger, 1, Payload(Some(5), None, None));
    assert reply == NotFoundReply();
    reply := store.Delete(stranger, 1);
    assert reply == NotFoundReply();

    // the freed id is not handed out again
    reply := store.Post(Payload(Some(7), Some(2), None), now);
    assert reply.status == CREATED && reply.body.entry.id == 2;
  }

  /** After a successful delete, every caller gets 404 for that id. */
  method DeleteThenGet(store: Store, p: Principal, resultId: nat, asker: Principal)
    returns (deleted: Reply, fetched: Reply)
    requires store.Valid()
    modifies store
    ensures store.Valid()
    ensures deleted.status == NO_CONTENT ==> fetched == NotFoundReply()
  {
    deleted := store.Delete(p, resultId);
    fetched := store.Get(asker, resultId);
  }

  /** After a successful create, the id in the Location header fetches the
    * new record for its owner. */
  method PostThenGet(store: Store, payload: Payload, now: Time) returns (created: Reply, fetched: Reply)
    requires store.Valid()
    modifies store
    ensures store.Valid()
    ensures created.status == CREATED ==>
      && created.body.Item? && LOCATION in created.headers
      && IdOfLocation(created.headers[LOCATION]) == Some(created.body.entry.id)
      && fetched.status == OK && fetched.body == created.body
  {
    created := store.Post(payload, now);
    if created.status == CREATED {
      LocationNamesId(created.body.entry.id);
      fetched := store.Get(Principal(payload.user.value, false), created.body.entry.id);
    } else {
      fetched := NotFoundReply();
    }
  }
}
