/**
 * The decision logic of the Result API controller. The persistence store is
 * the class Store: the Result table as a map from id to record, the set of
 * existing user ids, and the counter that hands out fresh ids. The caller is
 * passed explicitly. Reading actions are functions of the store; actions that
 * write are methods that update the store's fields.
 */
module ApiResults {
  import opened Domain
  import opened Listing
  import opened Location

  /** The parts joined with sep between consecutive parts (PHP implode). */
  function Join(parts: seq<string>, sep: string): string
  {
    if |parts| == 0 then ""
    else if |parts| == 1 then parts[0]
    else parts[0] + sep + Join(parts[1..], sep)
  }

  /** The methods routed at collection scope (id 0) or at item scope. */
  function AllowedMethods(resultId: nat): (r: seq<string>)
    ensures |r| > 0 && r[|r| - 1] == "OPTIONS"
    ensures forall i, j :: 0 <= i < j < |r| ==> r[i] != r[j]
    ensures forall m :: m in r <==>
      m in (if resultId == 0 then {"GET", "POST", "OPTIONS"} else {"GET", "PUT", "DELETE", "OPTIONS"})
  {
    var methods := if resultId != 0 then ["GET", "PUT", "DELETE"] else ["GET", "POST"];
    methods + ["OPTIONS"]
  }

  /** The collection-scope Allow list, joined the way the controller joins it. */
  lemma CollectionAllowText()
    ensures Join(AllowedMethods(0), ", ") == "GET, POST, OPTIONS"
  {
  }

  /** The item-scope Allow list, joined the way the controller joins it. */
  lemma ItemAllowText(resultId: nat)
    requires resultId != 0
    ensures Join(AllowedMethods(resultId), ", ") == "GET, PUT, DELETE, OPTIONS"
  {
    var parts := AllowedMethods(resultId);
    assert parts[1..][1..][1..] == ["OPTIONS"];
    calc {
      Join(parts, ", ");
      "GET" + ", " + Join(parts[1..], ", ");
      "GET" + ", " + ("PUT" + ", " + Join(parts[1..][1..], ", "));
      "GET" + ", " + ("PUT" + ", " + ("DELETE" + ", " + "OPTIONS"));
    }
  }

  lemma AllowText(resultId: nat)
    ensures Join(AllowedMethods(resultId), ", ") ==
      if resultId == 0 then "GET, POST, OPTIONS" else "GET, PUT, DELETE, OPTIONS"
  {
    if resultId == 0 {
      CollectionAllowText();
    } else {
      ItemAllowText(resultId);
    }
  }

  /** OPTIONS: always 204 with no body, advertising the allowed methods. */
  function Options(resultId: nat): (r: Reply)
    ensures r.status == NO_CONTENT && r.body == NoContent
    ensures r.headers.Keys == {ALLOW, CACHE_CONTROL}
    ensures r.headers[ALLOW] ==
      if resultId == 0 then "GET, POST, OPTIONS" else "GET, PUT, DELETE, OPTIONS"
    ensures r.headers[CACHE_CONTROL] == "public, inmutable"
  {
    AllowText(resultId);
    Reply(NO_CONTENT, NoContent,
          map[ALLOW := Join(AllowedMethods(resultId), ", "), CACHE_CONTROL := "public, inmutable"])
  }

  class Store {
    /** The Result table, keyed by id. */
    var results: map<nat, Record>
    /** The ids of the existing users (the User table is read, never written here). */
    var users: set<int>
    /** The next id the table hands out; an abstraction of auto-increment. */
    var nextId: nat

    ghost predicate Valid()
      reads this
    {
      && 1 <= nextId
      && (forall id :: id in results ==> 1 <= id < nextId)
      && UniqueResults(results)
      && (forall id :: id in results ==> results[id].owner in users)
    }

    constructor (users: set<int>)
      ensures Valid()
      ensures results == map[] && this.users == users && nextId == 1
    {
      results := map[];
      this.users := users;
      nextId := 1;
    }

    /** GET /results/{id}: 404 for a missing id (whoever asks), then 403
      * for a caller who is neither the owner nor an admin. */
    function Get(p: Principal, resultId: nat): (r: Reply)
      reads this
      ensures resultId !in results ==> r == NotFoundReply()
      ensures resultId in results && !MayAccess(p, results[resultId]) ==> r == ForbiddenReply()
      ensures resultId in results && MayAccess(p, results[resultId]) ==>
        && r.status == OK && r.body == Item(Entry(resultId, results[resultId]))
        && r.headers == map[CACHE_CONTROL := "must-revalidate"]
    {
      if resultId !in results then NotFoundReply()
      else if !p.isAdmin && results[resultId].owner != p.userId then ForbiddenReply()
      else Reply(OK, Item(Entry(resultId, results[resultId])), map[CACHE_CONTROL := "must-revalidate"])
    }

    /** GET /results/{sort}: every record for an admin, the caller's own
      * records otherwise, ascending by the sort column; 404 when none. */
    function CGet(p: Principal, sort: SortKey): (r: Reply)
      reads this
      requires Valid()
      ensures r.status == NOT_FOUND <==> forall id :: id in results ==> !MayAccess(p, results[id])
      ensures r.status == NOT_FOUND ==> r == NotFoundReply()
      ensures r.status != NOT_FOUND ==>
        r.status == OK && r.body.Items? && r.headers == map[CACHE_CONTROL := "must-revalidate"]
      ensures r.body.Items? ==>
        && SortedBy(sort, r.body.entries)
        && DistinctIds(r.body.entries)
        && forall e :: e in r.body.entries <==> Listed(results, p, e)
    {
      var listed := VisibleSorted(results, p, sort, nextId);
      if listed == [] then
        assert forall id :: id in results ==> !MayAccess(p, results[id]) by {
          forall id | id in results ensures !MayAccess(p, results[id]) {
            assert Entry(id, results[id]) !in listed;
          }
        }
        NotFoundReply()
      else
        assert listed[0] in listed;
        Reply(OK, Items(listed), map[CACHE_CONTROL := "must-revalidate"])
    }

    /** POST /results: 422 unless both result and user are given, then 400
      * if the value is taken or the user unknown, else 201 with a new record. */
    method Post(payload: Payload, now: Time) returns (reply: Reply)
      requires Valid()
      modifies this
      ensures Valid()
      ensures users == old(users)
      ensures payload.result.None? || payload.user.None? ==>
        reply == UnprocessableReply() && results == old(results) && nextId == old(nextId)
      ensures payload.result.Some? && payload.user.Some? &&
              (ResultTaken(old(results), payload.result.value) || payload.user.value !in users) ==>
        reply == BadRequestReply() && results == old(results) && nextId == old(nextId)
      ensures payload.result.Some? && payload.user.Some? &&
              !ResultTaken(old(results), payload.result.value) && payload.user.value in users ==>
        var time := if payload.time.Some? then payload.time.value else now;
        var created := Record(payload.result.value, payload.user.value, time);
        && old(nextId) !in old(results)
        && results == old(results)[old(nextId) := created]
        && nextId == old(nextId) + 1
        && reply == Reply(CREATED, Item(Entry(old(nextId), created)), map[LOCATION := LocationOf(old(nextId))])
    {
      if payload.result.None? || payload.user.None? {
        reply := UnprocessableReply();
        return;
      }
      var value, owner := payload.result.value, payload.user.value;
      var resultExists := ResultTaken(results, value);
      var userExists := owner in users;
      if resultExists || !userExists {
        reply := BadRequestReply();
        return;
      }
      var time := if payload.time.Some? then payload.time.value else now;
      var created := Record(value, owner, time);
      var id := nextId;
      results := results[id := created];
      nextId := nextId + 1;
      reply := Reply(CREATED, Item(Entry(id, created)), map[LOCATION := LocationOf(id)]);
    }

    /** PUT /results/{id}: 404, then 403, then a field-by-field merge; a
      * taken result value (the record's own included) or an unknown user
      * gives 400 and writes nothing; success gives 209. */
    method Put(p: Principal, resultId: nat, payload: Payload) returns (reply: Reply)
      requires Valid()
      modifies this
      ensures Valid()
      ensures users == old(users) && nextId == old(nextId)
      ensures resultId !in old(results) ==> reply == NotFoundReply() && results == old(results)
      ensures resultId in old(results) && !MayAccess(p, old(results)[resultId]) ==>
        reply == ForbiddenReply() && results == old(results)
      ensures resultId in old(results) && MayAccess(p, old(results)[resultId]) ==>
        if payload.result.Some? && ResultTaken(old(results), payload.result.value) then
          reply == BadRequestReply() && results == old(results)
        else if payload.user.Some? && payload.user.value !in users then
          reply == BadRequestReply() && results == old(results)
        else
          var before := old(results)[resultId];
          var after := Record(
            if payload.result.Some? then payload.result.value else before.result,
            if payload.user.Some? then payload.user.value else before.owner,
            if payload.time.Some? then payload.time.value else before.time);
          && results == old(results)[resultId := after]
          && reply == Reply(CONTENT_RETURNED, Item(Entry(resultId, after)), map[])
    {
      if resultId !in results {
        reply := NotFoundReply();
        return;
      }
      var record := results[resultId];
      if p.userId != record.owner && !p.isAdmin {
        reply := ForbiddenReply();
        return;
      }
      if payload.result.Some? {
        if ResultTaken(results, payload.result.value) {
          reply := BadRequestReply();
          return;
        }
        record := record.(result := payload.result.value);
      }
      if payload.user.Some? {
        if payload.user.value !in users {
          reply := BadRequestReply();
          return;
        }
        record := record.(owner := payload.user.value);
      }
      if payload.time.Some? {
        record := record.(time := payload.time.value);
      }
      // flush: the merged record replaces the stored one in a single write
      results := results[resultId := record];
      reply := Reply(CONTENT_RETURNED, Item(Entry(resultId, record)), map[]);
    }

    /** DELETE /results/{id}: 404, then 403, then remove and answer 204. */
    method Delete(p: Principal, resultId: nat) returns (reply: Reply)
      requires Valid()
      modifies this
      ensures Valid()
      ensures users == old(users) && nextId == old(nextId)
      ensures resultId !in old(results) ==> reply == NotFoundReply() && results == old(results)
      ensures resultId in old(results) && !MayAccess(p, old(results)[resultId]) ==>
        reply == ForbiddenReply() && results == old(results)
      ensures resultId in old(results) && MayAccess(p, old(results)[resultId]) ==>
        reply == Reply(NO_CONTENT, NoContent, map[]) && results == old(results) - {resultId}
    {
      if resultId !in results {
        reply := NotFoundReply();
        return;
      }
      if p.userId != results[resultId].owner && !p.isAdmin {
        reply := ForbiddenReply();
        return;
      }
      results := results - {resultId};
      reply := Reply(NO_CONTENT, NoContent, map[]);
    }
  }

  /** A record can be fetched by a caller exactly when it appears in that
    * caller's listing, whatever the sort column. */
  lemma GetAgreesWithListing(s: Store, p: Principal, resultId: nat, sort: SortKey)
    requires s.Valid()
    ensures s.Get(p, resultId).status == OK <==>
      (s.CGet(p, sort).body.Items? && exists e :: e in s.CGet(p, sort).body.entries && e.id == resultId)
  {
  }
}
