# Result API controller, modelled in Dafny

This project models the decision logic of `ApiResultsController`. That controller serves the
`/api/v1/results` collection of Result records. A Result ties a user to an integer value and a
timestamp. The model covers the five actions of the controller:

- list (cget)
- fetch one (get)
- create (post)
- update (put)
- delete

It also covers the OPTIONS discovery action. For each action, the model says which HTTP status
the action answers with and how the store changes.

The persistence store is the class `ApiResults.Store`. It has three fields:

- `results`: the Result table, a map from id to `Record(result, owner, time)`.
- `users`: the set of existing user ids.
- `nextId`: a counter for fresh ids.

`Store.Valid()` is the store invariant, and every writing action keeps it. It says four things:

- every id lies in `[1, nextId)`;
- no two records share a `result` value;
- every owner is an existing user;
- `nextId` is at least 1.

The actions that only read, `Get` and `CGet`, are functions of the store. The actions that write,
`Post`, `Put` and `Delete`, are methods that reassign the store's fields. `Put` builds the merged
record one field at a time, as the controller does with its setters, and writes it back in a
single step, which stands for the one `flush`.

Other modelling choices:

- **Caller.** The authenticated caller is passed explicitly as `Principal(userId, isAdmin)`.
- **Time.** A time is an integer stand-in that no operation inspects. "Now" is a parameter of
  `Post`.
- **Request bodies.** A request body is a `Payload` of three optional fields. A field is `None`
  when its key is missing or holds null, because PHP's `isset` treats both the same.
- **Replies.** Every action returns a `Reply(status, body, headers)`. Every error reply has the
  same body shape, a message with a code and a text.

The module `Listing` provides the filter and the ordering of the collection. In the application
the database does both: a `findBy` with one ascending ORDER BY. The module `Location` renders the
`Location` header of a created record. It also proves that the id can be read back out of that
header. The module `Scenarios` replays the request sequence of the functional tests against the
contracts:

- create, then a duplicate create;
- update, then an update with the record's own current value;
- forbidden access;
- delete, then the 404s that follow.

Behaviour of the code worth knowing:

- The sort column is `user` (`SortKey.ByUser`), the owner's id.
- Id 0 is accepted by the item routes, and the action answers 404 for it.
- The update's uniqueness check also counts the record's own current value, so an update that
  repeats it answers 400, as the tests expect.
- The OPTIONS reply carries `Cache-Control: public, inmutable`, spelled that way.
- `Post` does not consult the caller at all. Any authenticated user may create a record owned by
  any existing user.

## Model

| member | source | states |
|---|---|---|
| `ApiResults.AllowedMethods` | src/Controller/ApiResultsController.php:177-180 | the advertised methods are exactly {GET, POST, OPTIONS} for id 0 and exactly {GET, PUT, DELETE, OPTIONS} for any other id, without repeats, with OPTIONS last |
| `ApiResults.AllowText` | src/Controller/ApiResultsController.php:186 | the methods joined with ", " give "GET, POST, OPTIONS" for id 0 and "GET, PUT, DELETE, OPTIONS" otherwise |
| `ApiResults.Options` | src/Controller/ApiResultsController.php:175-190 | always 204 with an empty body; the headers are exactly Allow, with the list for the scope, and Cache-Control "public, inmutable" |
| `ApiResults.Store.Get` | src/Controller/ApiResultsController.php:126-156 | a missing id gives 404 whoever asks; an existing record gives 403 to a caller who is neither its owner nor an admin; otherwise 200 with exactly that record and its id, and Cache-Control "must-revalidate" |
| `ApiResults.Store.CGet` | src/Controller/ApiResultsController.php:70-99 | 404 exactly when the caller may see no stored record; otherwise 200 with a list sorted ascending by the chosen column that holds each record the caller may see, once, and nothing else (all records for an admin, the caller's own otherwise), with Cache-Control "must-revalidate" |
| `ApiResults.GetAgreesWithListing` | src/Controller/ApiResultsController.php:138-145 | a record can be fetched by a caller exactly when it appears in that caller's listing, for every sort column |
| `ApiResults.Store.Post` | src/Controller/ApiResultsController.php:266-324 | 422 if result or user is absent; else 400 if the value is already stored or the user does not exist; both leave the store unchanged; else 201 and exactly one new record under a previously unused id, with the given value and owner and the given time or "now"; the Location header is the item path of that id; uniqueness is kept |
| `ApiResults.Store.Put` | src/Controller/ApiResultsController.php:351-421 | 404 for a missing id, then 403 for a non-owner non-admin; then 400 if a supplied value is already stored (the record's own included), then 400 if a supplied user does not exist, both with no change; otherwise 209 with the merged record: supplied fields replaced, absent fields kept, no other record touched, uniqueness kept |
| `ApiResults.Store.Delete` | src/Controller/ApiResultsController.php:217-242 | 404 for a missing id, then 403 for a non-owner non-admin, both with no change; otherwise 204 with an empty body and exactly that id removed; the id counter does not move, so the id is never handed out again |
| `Scenarios.DeleteThenGet` | tests/Controller/ApiResultsControllerTest.php:475-494 | for every store and caller, once a delete answers 204, a get of that id answers 404 for anyone |
| `Scenarios.PostThenGet` | tests/Controller/ApiResultsControllerTest.php:93-125 | for every store and payload, once a create answers 201, its Location header names the new id and the owner's get of that id returns the created record |
| `Listing.VisibleBelow` | src/Controller/ApiResultsController.php:76-81 | the entries below an id bound are exactly the stored records the caller may see, each under its own id, in strictly ascending id order |
| `Listing.Insert` | src/Controller/ApiResultsController.php:77 | inserting into a list that is sorted by the column keeps it sorted and adds exactly that entry |
| `Listing.Sort` | src/Controller/ApiResultsController.php:80 | the result is sorted ascending by the column and is a permutation of the input |
| `Listing.DistinctIdsPermutation` | src/Controller/ApiResultsController.php:77 | reordering a listing of stored records that has no repeated id leaves no repeated id |
| `Listing.VisibleSorted` | src/Controller/ApiResultsController.php:76-81 | the listing holds exactly the visible records below the bound, each once, sorted by the column |
| `Domain.NotFoundReply` | src/Controller/ApiResultsController.php:429-437 | 404 with body {code 404, "Not Found"} and no headers |
| `Location.LocationOf` | src/Controller/ApiResultsController.php:321 | the collection route, a slash, and the id in decimal: the text after the slash reads back as that id |
| `Location.Decimal` | src/Controller/ApiResultsController.php:321 | an id renders as a non-empty string of decimal digits with no leading zero |
| `Location.ParseDecimalOfDecimal` | src/Controller/ApiResultsController.php:321 | reading the decimal rendering of an id gives back that id |
| `Location.LocationNamesId` | src/Controller/ApiResultsController.php:321 | the Location header of a created record, `/api/v1/results/{id}`, names that id and no other |

## Left out

- ETag values. An ETag is an md5 hash of the JSON encoding, which is hashing and serialisation,
  not decision logic. The Cache-Control headers of the get and list replies are kept.
- The choice between JSON and XML and the rendering of replies (`Utils::getFormat`,
  `Utils::apiResponse`). A reply is kept as its status, body and headers.
- The 401 replies. The framework's security annotations produce them before an action runs.
  The rendering of the 403 exception into a message body happens in a listener that is not part
  of this model. The model gives the code and text that the exception carries.
- Route requirements (`\d+`, `json|xml`, `id|result|user`). Ids are `nat`, and the sort column
  is the enum `SortKey`.
- Doctrine mechanics (persist, remove, flush, managed entities). Auto-increment ids become the
  `nextId` counter. This is an abstraction: the database's own sequence is not visible to the
  controller.
- Parsing of time strings and the real clock. A time arrives already decoded, and a string
  that fails to parse, which would raise an exception, is not modelled.
- Non-integer JSON values for `result` and `user`. Both are modelled as integers.
- The race between the uniqueness lookup and the write. It only arises under concurrent
  requests, and the model is sequential.
- The order among records that tie on the `user` column. The database leaves it unspecified;
  the model's sort keeps ascending id order among ties, but no contract relies on that.
- The home-page redirect controller, which holds no logic.
