/** The request and response records exchanged between HTTP nodes
    (utils/structures.go). Byte payloads are modelled as text; a nil map is
    `None`, so that the model can tell reading a nil map (allowed in Go)
    from writing to one (a panic). */
module HttpTypes {
  import opened Wrappers

  /** url.Values and http.Header are both map[string][]string. */
  type Values = map<string, seq<string>>

  datatype HttpRequest = HttpRequest(
    id: string,
    httpMethod: string,
    uri: string,
    header: Option<Values>,
    form: Option<Values>)

  datatype HttpResponse = HttpResponse(
    id: string,
    statusCode: int,
    header: Option<Values>,
    body: string)

  const StatusNotFound: int := 404
  const StatusMethodNotAllowed: int := 405
}
