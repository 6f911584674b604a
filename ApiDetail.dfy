/**
 * The renderer's value objects and their text forms: a parameter is
 * `name: type`, a request its parameters then its body in parentheses, a
 * response its parameters, and a tag block the text it wraps.
 */
module ApiDetail {
  import opened Wrappers
  import opened Strings

  /** One rendered tag block. */
  datatype ApiTagOutput = ApiTagOutput(str: string) {

    /** The wrapped text, unchanged: wrapping it again gives the same block. */
    function ToString(): (r: string)
      ensures ApiTagOutput(r) == this
    {
      str
    }
  }

  datatype Parameter = Parameter(name: string, paramType: string) {

    /** `name: type`; never empty, since the separator is always there. */
    function ToString(): (r: string)
      ensures |r| == |name| + 2 + |paramType|
      ensures r[..|name|] == name && r[|name|..|name| + 2] == ": " && r[|name| + 2..] == paramType
    {
      name + ": " + paramType
    }
  }

  /** Reads a `name: type` text back: the name runs up to the first colon. */
  function ParseParameter(s: string): (r: Option<Parameter>)
    ensures r.Some? ==> ':' !in r.value.name
  {
    var k := IndexOf(s, ':');
    if k == -1 || |s| < k + 2 || s[k + 1] != ' ' then None
    else Some(Parameter(s[..k], s[k + 2..]))
  }

  /** A parameter whose name holds no colon is read back from its text form. */
  lemma ParameterRoundTrip(p: Parameter)
    requires ':' !in p.name
    ensures ParseParameter(p.ToString()) == Some(p)
  {
    var s := p.ToString();
    assert s[|p.name|] == ':';
    assert s[..|p.name|] == p.name;
    assert IndexOf(s, ':') == |p.name|;
  }

  /** `parameters.joinToString(", ") { it.toString() }`. */
  function JoinParameters(ps: seq<Parameter>): string {
    Join(seq(|ps|, i requires 0 <= i < |ps| => ps[i].ToString()), ", ")
  }

  /** A joined parameter list is empty exactly when the list is. */
  lemma JoinParametersEmpty(ps: seq<Parameter>)
    ensures JoinParameters(ps) == "" <==> ps == []
  {
    var texts := seq(|ps|, i requires 0 <= i < |ps| => ps[i].ToString());
    JoinIsEmpty(texts, ", ");
    if |ps| == 1 {
      assert |texts[0]| >= 2;
    }
  }

  datatype Request = Request(parameters: seq<Parameter>, body: seq<Parameter>) {

    /**
     * Nothing for an empty request; one non-empty side on its own; both
     * sides as `params, (body)`.
     */
    function ToString(): (r: string)
      ensures r == "" <==> parameters == [] && body == []
      ensures parameters == [] && body != [] ==> r == JoinParameters(body)
      ensures parameters != [] && body == [] ==> r == JoinParameters(parameters)
      ensures parameters != [] && body != [] ==> r == JoinParameters(parameters) + ", (" + JoinParameters(body) + ")"
    {
      JoinParametersEmpty(parameters);
      JoinParametersEmpty(body);
      var params := JoinParameters(parameters);
      var bodyText := JoinParameters(body);
      if params == "" && bodyText == "" then ""
      else if params == "" then bodyText
      else if bodyText == "" then params
      else params + ", (" + bodyText + ")"
    }
  }

  datatype Response = Response(parameters: seq<Parameter>) {

    /** The parameters, joined; empty exactly when there are none. */
    function ToString(): (r: string)
      ensures r == "" <==> parameters == []
    {
      JoinParametersEmpty(parameters);
      JoinParameters(parameters)
    }
  }

  /** An operation as the renderer sees it; the request and the response may be null. */
  datatype ApiItem = ApiItem(httpMethod: string, path: string, operationId: string,
                             request: Option<Request>, response: Option<Response>)

  /** `request.toString()` on a nullable request: `null` when there is none. */
  function RequestText(request: Option<Request>): (r: string)
    ensures request.None? ==> r == "null"
    ensures request.Some? ==> r == request.value.ToString()
    ensures r == "" <==> request == Some(Request([], []))
  {
    match request
    case None => "null"
    case Some(q) => q.ToString()
  }

  /** `response.toString()` on a nullable response: `null` when there is none. */
  function ResponseText(response: Option<Response>): (r: string)
    ensures response.None? ==> r == "null"
    ensures response.Some? ==> r == response.value.ToString()
    ensures r == "" <==> response == Some(Response([]))
  {
    match response
    case None => "null"
    case Some(q) => q.ToString()
  }
}
