/** The API Gateway proxy request and response, reduced to what the handlers
    and the middleware read and write. */
module Http {

  datatype Request = Request(
    headers: map<string, string>,
    pathParameters: map<string, string>,
    body: string)

  datatype Response = Response(status: int, body: string, headers: map<string, string>)

  /** A Go map read `m[name]`: a missing key reads as the empty string. */
  function Lookup(m: map<string, string>, name: string): (v: string)
    ensures name in m ==> v == m[name]
    ensures name !in m ==> v == ""
  {
    if name in m then m[name] else ""
  }

  function PathParameter(req: Request, name: string): (v: string) {
    Lookup(req.pathParameters, name)
  }

  /** The three CORS headers the event handlers put on every success. */
  const CorsHeaders: map<string, string> := map[
    "Access-Control-Allow-Origin" := "*",
    "Access-Control-Allow-Headers" := "Content-Type,Authorization,X-ID-Token",
    "Access-Control-Allow-Methods" := "GET,POST,PUT,DELETE,OPTIONS"]

  /** A response without headers, hence without the CORS headers. */
  function Plain(status: int, body: string): (r: Response)
    ensures r.status == status && r.body == body && r.headers == map[]
    ensures r.headers != CorsHeaders
  {
    assert "Access-Control-Allow-Origin" in CorsHeaders;
    Response(status, body, map[])
  }
}
