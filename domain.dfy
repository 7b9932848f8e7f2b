/**
 * The entities and replies of the Result API: a Result record, the caller
 * (principal), the decoded request payloads, and the reply an action gives
 * (status code, body, headers).
 */
module Domain {

  datatype Option<+T> = None | Some(value: T)

  /** A point in time. Parsing and the clock are outside the model: a time
    * arrives already decoded, and "now" is passed in by the caller. */
  type Time = int

  /** A stored Result: the measured value, the id of the owning user and the
    * time of the measurement. The record id is the key of the store. */
  datatype Record = Record(result: int, owner: int, time: Time)

  /** A record together with its id, as it appears in a reply body. */
  datatype Entry = Entry(id: nat, record: Record)

  /** The authenticated caller: its user id and whether it holds ROLE_ADMIN. */
  datatype Principal = Principal(userId: int, isAdmin: bool)

  /** The column the collection is ordered by (route parameter `sort`). */
  datatype SortKey = ById | ByResult | ByUser

  /** A decoded request body. A field is None when the JSON key is missing
    * or holds null: both make PHP's isset() false. */
  datatype Payload = Payload(result: Option<int>, user: Option<int>, time: Option<Time>)

  datatype Body =
    | NoContent
    | Message(code: int, message: string)
    | Item(entry: Entry)
    | Items(entries: seq<Entry>)

  datatype Reply = Reply(status: int, body: Body, headers: map<string, string>)

  const OK: int := 200
  const CREATED: int := 201
  const NO_CONTENT: int := 204
  /** The non-standard "Content Returned" status of a successful update. */
  const CONTENT_RETURNED: int := 209
  const BAD_REQUEST: int := 400
  const FORBIDDEN: int := 403
  const NOT_FOUND: int := 404
  const UNPROCESSABLE_ENTITY: int := 422

  const ROUTE: string := "/api/v1/results"
  const ALLOW: string := "Allow"
  const CACHE_CONTROL: string := "Cache-Control"
  const LOCATION: string := "Location"
  const FORBIDDEN_MESSAGE: string := "`Forbidden`: you don't have permission to access"

  /** The error shape shared by every non-2xx reply: a code and a message. */
  function ErrorReply(code: int, message: string): Reply
  {
    Reply(code, Message(code, message), map[])
  }

  /** The reply for a missing record or an empty listing (error404). */
  function NotFoundReply(): (r: Reply)
    ensures r.status == NOT_FOUND && r.body == Message(NOT_FOUND, "Not Found")
    ensures r.headers == map[]
  {
    ErrorReply(NOT_FOUND, "Not Found")
  }

  function BadRequestReply(): Reply { ErrorReply(BAD_REQUEST, "Bad Request") }
  function UnprocessableReply(): Reply { ErrorReply(UNPROCESSABLE_ENTITY, "Unprocessable Entity") }
  function ForbiddenReply(): Reply { ErrorReply(FORBIDDEN, FORBIDDEN_MESSAGE) }

  /** The owner of a record and any administrator may see and change it. */
  predicate MayAccess(p: Principal, r: Record)
  {
    p.isAdmin || r.owner == p.userId
  }

  /** Some stored record already carries the value v (findOneBy on `result`). */
  predicate ResultTaken(m: map<nat, Record>, v: int)
  {
    exists id :: id in m && m[id].result == v
  }

  /** No two stored records share a result value. */
  ghost predicate UniqueResults(m: map<nat, Record>)
  {
    forall i, j :: i in m && j in m && m[i].result == m[j].result ==> i == j
  }
}
