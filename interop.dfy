/** The message envelope of `src/interop.rs`: the editor state that the
    backend sends, the requests and responses, and the message that wraps
    either one, with its injections, variant tests and projections. */
module Interop {

  import opened Wrappers
  import opened Numeric

  /** The editor state carried by a `State` request. */
  datatype RustideState = RustideState(name: string, age: u32, files: seq<string>, selection: usize)

  datatype RRequest =
    | Kill
    | ImAlive
    | Debug(text: string)
    | State(state: RustideState)

  datatype RResponse = Ok

  datatype RustideMessage =
    | Request(request: RRequest)
    | Response(response: RResponse)

  /** The derived `Default` of `RustideState`: every field at its zero value. */
  function DefaultState(): (s: RustideState)
    ensures s.name == [] && s.age == 0 && s.files == [] && s.selection == 0
  {
    RustideState([], 0, [], 0)
  }

  /** `From<RResponse> for RustideMessage`. */
  function FromResponse(v: RResponse): (m: RustideMessage)
    ensures m.Response? && m.response == v
  {
    Response(v)
  }

  /** `From<RRequest> for RustideMessage`. */
  function FromRequest(v: RRequest): (m: RustideMessage)
    ensures m.Request? && m.request == v
  {
    Request(v)
  }

  /** `is_response`. */
  function IsResponse(m: RustideMessage): (r: bool)
    ensures r <==> exists v: RResponse :: m == Response(v)
  {
    assert m.Response? ==> m == Response(m.response);
    match m
    case Response(_) => true
    case Request(_) => false
  }

  /** `is_request`. */
  function IsRequest(m: RustideMessage): (r: bool)
    ensures r <==> exists v: RRequest :: m == Request(v)
  {
    assert m.Request? ==> m == Request(m.request);
    match m
    case Request(_) => true
    case Response(_) => false
  }

  /** `as_response`: the wrapped response, if `m` is one. */
  function AsResponse(m: RustideMessage): (r: Option<RResponse>)
    ensures r.Some? <==> IsResponse(m)
    ensures r.Some? ==> FromResponse(r.value) == m
  {
    match m
    case Response(v) => Some(v)
    case Request(_) => None
  }

  /** `as_request`: the wrapped request, if `m` is one. */
  function AsRequest(m: RustideMessage): (r: Option<RRequest>)
    ensures r.Some? <==> IsRequest(m)
    ensures r.Some? ==> FromRequest(r.value) == m
  {
    match m
    case Request(v) => Some(v)
    case Response(_) => None
  }

  /** Every message is exactly one of a request and a response. */
  lemma ExactlyOneKind(m: RustideMessage)
    ensures IsRequest(m) != IsResponse(m)
  {
  }

  /** Wrapping a request and projecting it back gives the request. */
  lemma RequestRoundTrip(v: RRequest)
    ensures AsRequest(FromRequest(v)) == Some(v)
    ensures AsResponse(FromRequest(v)) == None
  {
  }

  /** Wrapping a response and projecting it back gives the response. */
  lemma ResponseRoundTrip(v: RResponse)
    ensures AsResponse(FromResponse(v)) == Some(v)
    ensures AsRequest(FromResponse(v)) == None
  {
  }

  /** Every message is the injection of what it projects to. */
  lemma ProjectionsCover(m: RustideMessage)
    ensures AsRequest(m).Some? || AsResponse(m).Some?
    ensures m == (if IsRequest(m) then FromRequest(AsRequest(m).value) else FromResponse(AsResponse(m).value))
  {
  }
}
