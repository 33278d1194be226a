/** `get_new_requests`: one GET of the API, with the HTTP exchange given as
    its outcome. */
module Fetch {
  import opened Requests

  /** The outcome of the GET. `ClientFailure` is any aiohttp ClientError
      raised while connecting or decoding (a transport error, or a body that
      is not JSON); `Answer` is a response with its status and decoded list. */
  datatype Response = ClientFailure | Answer(status: int, body: seq<Record>)

  /** `raise_for_status` raises for every status of 400 and above. */
  predicate Failed(resp: Response)
  {
    resp.ClientFailure? || resp.status >= 400
  }

  /** A failure is logged and becomes an empty batch; otherwise the decoded
      list is returned as it is, malformed records included. */
  function GetNewRequests(resp: Response): (batch: seq<Record>)
    ensures Failed(resp) ==> batch == []
    ensures !Failed(resp) ==> batch == resp.body
  {
    if Failed(resp) then [] else resp.body
  }
}
