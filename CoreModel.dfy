/**
 * The importer's output records (package `cc.unitmesh.core.model`). Their
 * declarations are not part of this model; the fields below are the ones the
 * Postman importer passes to their constructors.
 */
module CoreModel {

  /** A request parameter: its key and its display value. */
  datatype Parameter = Parameter(name: string, value: string)

  /** Path and query parameters, then the form-encoded body fields. */
  datatype Request = Request(parameters: seq<Parameter>, body: seq<Parameter>)

  /** How a response body is encoded; the importer only ever produces raw text. */
  datatype BodyMode = RawText

  datatype Response = Response(code: int, parameters: seq<Parameter>, bodyMode: BodyMode, bodyString: string)

  /** One operation, tagged with the names of its folder lineage. */
  datatype ApiItem = ApiItem(
    httpMethod: string,
    path: string,
    description: string,
    operationId: string,
    tags: seq<string>,
    request: Request,
    response: seq<Response>)

  /** A named group of operations produced while flattening the folder tree. */
  datatype ApiCollection = ApiCollection(name: string, description: string, items: seq<ApiItem>)
}
