/** `fetch_ipo_data`: one GET of the IPO calendar, the `"data"` gate and one
    `IPOEntry` per item. The HTTP exchange itself is a parameter. */
module Fetch {
  import opened Common
  import opened Entry

  /** The decoded JSON object; `data` is None when it has no `"data"` key. */
  datatype Document = Document(data: Option<seq<RawRecord>>)

  /** What `response.json()` yields: a document, or a `JSONDecodeError`. */
  datatype Body = InvalidJson | Json(doc: Document)

  /** The outcome of `client.get(...)`: an `httpx.RequestError`, or an answer. */
  datatype HttpResult = RequestError | Answered(status: int, body: Body)

  /** `[f(x) for x in xs]` when `f` may raise: the first exception escapes,
      otherwise one result per item, in order. */
  function MapRaising<A, B, E>(f: A -> Result<B, E>, xs: seq<A>): (r: Result<seq<B>, E>)
    ensures r.Ok? <==> forall i :: 0 <= i < |xs| ==> f(xs[i]).Ok?
    ensures r.Ok? ==> |r.value| == |xs| && forall i :: 0 <= i < |xs| ==> f(xs[i]) == Ok(r.value[i])
    ensures r.Err? ==> exists i ::
              && 0 <= i < |xs|
              && f(xs[i]) == Err(r.error)
              && forall j :: 0 <= j < i ==> f(xs[j]).Ok?
  {
    if xs == [] then Ok([])
    else
      var head := f(xs[0]);
      if head.Err? then Err(head.error)
      else
        var tail := MapRaising(f, xs[1..]);
        assert forall i :: 1 <= i < |xs| ==> xs[i] == xs[1..][i - 1];
        if tail.Err? then Err(tail.error)
        else Ok([head.value] + tail.value)
  }

  /** `fetch_ipo_data`. A transport error, undecodable JSON or a missing `"data"`
      key gives `[]`; a non-2xx status and a record's `KeyError` escape. */
  function FetchIpoData(response: HttpResult, html: HtmlParser): (r: Result<seq<IpoEntry>, Exception>)
    ensures response.RequestError? ==> r == Ok([])
    ensures response.Answered? && !IsSuccess(response.status) ==> r == Err(HttpStatusError(response.status))
    ensures response.Answered? && IsSuccess(response.status) && response.body.InvalidJson? ==> r == Ok([])
    ensures (response.Answered? && IsSuccess(response.status) && response.body.Json?
             && response.body.doc.data.None?) ==> r == Ok([])
    ensures response.Answered? && IsSuccess(response.status) && response.body.Json?
            && response.body.doc.data.Some? ==>
              var items := response.body.doc.data.value;
              && (r.Ok? <==> forall i :: 0 <= i < |items| ==> FromApiData(items[i], html).Ok?)
              && (r.Ok? ==> |r.value| == |items|
                            && forall i :: 0 <= i < |items| ==> FromApiData(items[i], html) == Ok(r.value[i]))
              && (r.Err? ==> exists i ::
                    && 0 <= i < |items|
                    && FromApiData(items[i], html) == Err(r.error)
                    && forall j :: 0 <= j < i ==> FromApiData(items[j], html).Ok?)
    ensures r.Ok? && r.value != [] ==>
              && response.Answered? && IsSuccess(response.status) && response.body.Json?
              && response.body.doc.data.Some?
              && |r.value| == |response.body.doc.data.value|
              && forall i :: 0 <= i < |r.value| ==>
                   FromApiData(response.body.doc.data.value[i], html) == Ok(r.value[i])
  {
    match response
    case RequestError => Ok([])
    case Answered(status, body) =>
      if !IsSuccess(status) then Err(HttpStatusError(status))
      else match body
        case InvalidJson => Ok([])
        case Json(doc) =>
          if doc.data.None? then Ok([])
          else MapRaising(raw => FromApiData(raw, html), doc.data.value)
  }
}
