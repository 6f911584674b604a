/**
 * The deserialized Postman collection the importer reads (package
 * `cc.unitmesh.processor.api.model.postman`), reduced to the fields the
 * importer looks at, and the two collaborators it calls but does not define.
 * Every Kotlin `T?` is an `Option<T>`.
 */
module PostmanModel {
  import opened Wrappers

  /** A path variable, a query parameter or a form-data field. */
  datatype KeyValue = KeyValue(key: Option<string>, value: Option<string>)

  /** `raw` is the URL template; only the resolver behind `getUrl` reads it. */
  datatype PostmanUrl = PostmanUrl(raw: Option<string>, variable: Option<seq<KeyValue>>, query: Option<seq<KeyValue>>)

  datatype PostmanBody = PostmanBody(formdata: Option<seq<KeyValue>>)

  datatype PostmanRequest = PostmanRequest(
    httpMethod: Option<string>,
    url: Option<PostmanUrl>,
    body: Option<PostmanBody>,
    description: Option<string>)

  /** An example response saved with a request. */
  datatype PostmanResponse = PostmanResponse(code: Option<int>, body: Option<string>)

  /**
   * A folder or a request of the collection tree: a node with a child list
   * (possibly empty) is a folder; a node without one but with a request is a leaf.
   */
  datatype PostmanItem = PostmanItem(
    name: Option<string>,
    item: ItemList,
    request: Option<PostmanRequest>,
    response: Option<seq<PostmanResponse>>)

  /** The nullable child list `item: List<PostmanItem>?`. */
  datatype ItemList = NoItems | Items(list: seq<PostmanItem>)

  datatype PostmanCollection = PostmanCollection(item: Option<seq<PostmanItem>>)

  /**
   * What `java.net.URI(s).path` does: it throws on a malformed URI, and
   * otherwise yields the path component, which is null for an opaque URI.
   */
  datatype UriParse = Unparseable | Parsed(path: Option<string>)

  /**
   * The code the importer calls but that is not part of this model:
   * `request.getUrl(variables)` resolves the URL template against the
   * environment's variables, and `uriPath` stands for `URI(s).path`.
   */
  datatype Collaborators = Collaborators(getUrl: PostmanRequest -> string, uriPath: string -> UriParse)
}
