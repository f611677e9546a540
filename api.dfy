/** What the camera's HTTP API answers, and the ways a call can fail.
    The HTTP transport itself is not modelled: a request yields an
    `Exchange`, which is either a transport failure or a response. */
module Api {

  newtype byte = x: int | 0 <= x < 256

  datatype Option<+T> = None | Some(value: T)

  /** The exceptions the client raises, one constructor per kind. */
  datatype Error =
    | ValidationError        // a model validator raised ValueError
    | HttpError(status: int) // raise_for_status raised HTTPError
    | NetworkError           // requests.get raised before any response arrived
    | ParseError             // the body is not JSON, or has no "media" key
    | IndexError             // a list index was out of range

  datatype Result<+T> = Ok(value: T) | Err(error: Error)

  /** One entry of a listing's "fs" array: file name "n" and creation time "cre". */
  datatype MediaFile = MediaFile(n: string, cre: int)

  /** One entry of the listing's "media" array: directory "d" and its files "fs". */
  datatype MediaGroup = MediaGroup(d: string, fs: seq<MediaFile>)

  /** The parsed body: not JSON at all, or a JSON object that may carry "media". */
  datatype Body = NotJson | JsonObject(media: Option<seq<MediaGroup>>)

  datatype Response = Response(status: int, content: seq<byte>, body: Body)

  datatype Exchange = TransportError | Reply(response: Response)

  /** requests' raise_for_status: client errors (4xx) and server errors (5xx). */
  predicate RaisesForStatus(status: int)
  {
    400 <= status < 600
  }

  /** requests.get followed by raise_for_status. */
  function Checked(x: Exchange): (r: Result<Response>)
    ensures r.Ok? <==> x.Reply? && !RaisesForStatus(x.response.status)
    ensures r.Ok? ==> r.value == x.response
    ensures x.TransportError? ==> r == Err(NetworkError)
    ensures x.Reply? && RaisesForStatus(x.response.status) ==> r == Err(HttpError(x.response.status))
  {
    match x
    case TransportError => Err(NetworkError)
    case Reply(resp) =>
      if RaisesForStatus(resp.status) then Err(HttpError(resp.status)) else Ok(resp)
  }

  /** response.json() of a checked response. */
  function JsonOf(x: Exchange): (r: Result<Body>)
    ensures r.Ok? <==> Checked(x).Ok? && x.response.body.JsonObject?
    ensures r.Ok? ==> r.value == x.response.body
    ensures Checked(x).Err? ==> r == Err(Checked(x).error)
  {
    match Checked(x)
    case Err(e) => Err(e)
    case Ok(resp) => if resp.body.NotJson? then Err(ParseError) else Ok(resp.body)
  }

  /** response.json()['media'][0]: the first media group of a checked listing. */
  function ListingOf(x: Exchange): (r: Result<MediaGroup>)
    ensures r.Ok? <==> JsonOf(x).Ok? && x.response.body.media.Some? && |x.response.body.media.value| > 0
    ensures r.Ok? ==> r.value == x.response.body.media.value[0]
    ensures JsonOf(x).Ok? && x.response.body.media.None? ==> r == Err(ParseError)
    ensures JsonOf(x).Ok? && x.response.body.media == Some([]) ==> r == Err(IndexError)
    ensures JsonOf(x).Err? ==> r == Err(JsonOf(x).error)
  {
    match JsonOf(x)
    case Err(e) => Err(e)
    case Ok(body) =>
      match body.media
      case None => Err(ParseError)
      case Some(groups) => if |groups| == 0 then Err(IndexError) else Ok(groups[0])
  }
}
