/**
 * The Postman importer: it flattens a collection's folder tree into
 * `ApiCollection`s whose items carry their folder lineage as tags.
 */
module PostmanParser {
  import opened Wrappers
  import opened Strings
  import opened CoreModel
  import opened PostmanModel

  /** What classifying one node of the tree yields. */
  datatype ChildType =
    | NestedFolder(folders: seq<ApiCollection>, itemGroups: seq<seq<ApiItem>>)
    | Folder(collection: ApiCollection)
    | Item(items: seq<ApiItem>)

  // ---------------------------------------------------------------------------
  // Values

  predicate AllDigits(s: string) {
    |s| > 0 && forall i :: 0 <= i < |s| ==> '0' <= s[i] <= '9'
  }

  predicate IsBooleanLiteral(s: string) {
    s == "true" || s == "false"
  }

  /**
   * The display form of a parameter value: numbers and booleans as they are,
   * any other text as a quoted string literal, nothing for a missing value.
   */
  function FormatValue(v: Option<string>): (r: string)
    ensures v.Some? && (AllDigits(v.value) || IsBooleanLiteral(v.value)) ==> r == v.value
    ensures v.Some? && v.value != "" && !AllDigits(v.value) && !IsBooleanLiteral(v.value)
            ==> r == "\"" + v.value + "\""
    ensures r == "" <==> v.None? || v.value == ""
  {
    match v
    case None => ""
    case Some(s) =>
      if AllDigits(s) then s
      else if IsBooleanLiteral(s) then s
      else if |s| > 0 then "\"" + s + "\""
      else ""
  }

  /**
   * The nullable-string extension `replaceLineBreak`: null stays null, and
   * otherwise exactly the `\n` and `\r` characters are deleted.
   */
  function ReplaceLineBreak(s: Option<string>): (r: Option<string>)
    ensures r.None? <==> s.None?
    ensures s.Some? ==> r.value == RemoveChar(RemoveChar(s.value, '\n'), '\r')
    ensures s.Some? ==> '\n' !in r.value && '\r' !in r.value
  {
    match s
    case None => None
    case Some(x) =>
      ReplaceCharByNothing(x, '\n');
      ReplaceCharByNothing(RemoveChar(x, '\n'), '\r');
      Some(ReplaceAll(ReplaceAll(x, "\n", ""), "\r", ""))
  }

  function ParameterOf(kv: KeyValue): Parameter {
    Parameter(kv.key.GetOr(""), FormatValue(kv.value))
  }

  function ParametersOf(kvs: Option<seq<KeyValue>>): (r: seq<Parameter>)
    ensures |r| == |kvs.GetOr([])|
    ensures forall i :: 0 <= i < |r| ==> r[i] == ParameterOf(kvs.GetOr([])[i])
  {
    match kvs
    case None => []
    case Some(l) => seq(|l|, i requires 0 <= i < |l| => ParameterOf(l[i]))
  }

  /** The request parameters: the path variables, then the query parameters, values formatted. */
  function UrlParameters(url: Option<PostmanUrl>): (r: seq<Parameter>)
    ensures url.None? ==> r == []
    ensures url.Some? ==>
      var vs := url.value.variable.GetOr([]);
      var qs := url.value.query.GetOr([]);
      |r| == |vs| + |qs| &&
      (forall i :: 0 <= i < |vs| ==> r[i] == Parameter(vs[i].key.GetOr(""), FormatValue(vs[i].value))) &&
      (forall j :: 0 <= j < |qs| ==> r[|vs| + j] == Parameter(qs[j].key.GetOr(""), FormatValue(qs[j].value)))
  {
    match url
    case None => []
    case Some(u) =>
      var vars, queries := ParametersOf(u.variable), ParametersOf(u.query);
      assert forall j :: 0 <= j < |queries| ==> (vars + queries)[|vars| + j] == queries[j];
      vars + queries
  }

  /** The form-encoded body fields, values kept raw. */
  function FormBody(body: Option<PostmanBody>): (r: seq<Parameter>)
    ensures body.None? || body.value.formdata.None? ==> r == []
    ensures body.Some? && body.value.formdata.Some? ==>
      var fs := body.value.formdata.value;
      |r| == |fs| && forall i :: 0 <= i < |fs| ==> r[i] == Parameter(fs[i].key.GetOr(""), fs[i].value.GetOr(""))
  {
    match body
    case None => []
    case Some(b) =>
      match b.formdata
      case None => []
      case Some(fs) => seq(|fs|, i requires 0 <= i < |fs| => Parameter(fs[i].key.GetOr(""), fs[i].value.GetOr("")))
  }

  /** One raw-text response per saved example, with no parameters. */
  function ExampleResponses(rs: Option<seq<PostmanResponse>>): (r: seq<Response>)
    ensures |r| == |rs.GetOr([])|
    ensures forall i :: 0 <= i < |r| ==>
      var e := rs.GetOr([])[i];
      r[i] == Response(e.code.GetOr(0), [], RawText, e.body.GetOr(""))
  {
    match rs
    case None => []
    case Some(l) => seq(|l|, i requires 0 <= i < |l| => Response(l[i].code.GetOr(0), [], RawText, l[i].body.GetOr("")))
  }

  // ---------------------------------------------------------------------------
  // The request URL

  /** `request?.getUrl(variables)`. */
  function RequestUrl(env: Collaborators, request: Option<PostmanRequest>): Option<string> {
    match request
    case None => None
    case Some(req) => Some(env.getUrl(req))
  }

  /** A URL without the bare sentinel holds neither prefixed one, so no replacement applies. */
  lemma SentinelFreeKept(s: string)
    ensures !Contains(s, "UNDEFINED") ==>
      ReplaceAll(ReplaceAll(ReplaceAll(s, "http://UNDEFINED", ""), "https://UNDEFINED", ""), "UNDEFINED", "{}") == s
  {
    if !Contains(s, "UNDEFINED") {
      if Contains(s, "http://UNDEFINED") {
        ContainsInfix(s, "http://UNDEFINED", 7, "UNDEFINED");
      }
      ReplaceAllAbsent(s, "http://UNDEFINED", "");
      if Contains(s, "https://UNDEFINED") {
        ContainsInfix(s, "https://UNDEFINED", 8, "UNDEFINED");
      }
      ReplaceAllAbsent(s, "https://UNDEFINED", "");
      ReplaceAllAbsent(s, "UNDEFINED", "{}");
    }
  }

  /**
   * Unresolved variables: a scheme followed by the sentinel is removed, then
   * every other sentinel becomes an empty placeholder.
   */
  function ReplaceSentinels(s: string): (r: string)
    ensures !Contains(r, "UNDEFINED")
    ensures !Contains(s, "UNDEFINED") ==> r == s
  {
    var stripped := ReplaceAll(ReplaceAll(s, "http://UNDEFINED", ""), "https://UNDEFINED", "");
    ReplaceAllRemoves(stripped, "UNDEFINED", "{}");
    SentinelFreeKept(s);
    ReplaceAll(stripped, "UNDEFINED", "{}")
  }

  function StripSentinels(uri: Option<string>): Option<string> {
    match uri
    case None => None
    case Some(s) => Some(ReplaceSentinels(s))
  }

  /**
   * `uri = URI(uri).path`, inside a `try` that swallows every exception: a
   * null or malformed URI keeps the string as it was.
   */
  function UriPath(env: Collaborators, uri: Option<string>): Option<string> {
    match uri
    case None => None
    case Some(s) =>
      match env.uriPath(s)
      case Unparseable => uri
      case Parsed(p) => p
  }

  /** The URL after the sentinels are replaced and the URI path is taken. */
  function LocatedPath(env: Collaborators, request: Option<PostmanRequest>): Option<string> {
    UriPath(env, StripSentinels(RequestUrl(env, request)))
  }

  /**
   * `uri.substring(uri.indexOf("/"))` unless the path already starts with a
   * slash: the path is cut to begin at its first slash, and the JVM throws
   * when there is none.
   */
  function NormalisePath(uri: Option<string>): (r: Result<Option<string>, Exception>)
    ensures uri.None? ==> r == Success(None)
    ensures uri.Some? && StartsWith(uri.value, "/") ==> r == Success(uri)
    ensures r.Failure? <==> uri.Some? && '/' !in uri.value
    ensures r.Failure? ==> r.error == StringIndexOutOfBounds(-1)
    ensures r.Success? && uri.Some? ==>
      r.value.Some? &&
      var s, p := uri.value, r.value.value;
      StartsWith(p, "/") && |p| <= |s| && s == s[..|s| - |p|] + p && '/' !in s[..|s| - |p|]
  {
    match uri
    case None => Success(None)
    case Some(s) =>
      if StartsWith(s, "/") then assert s[..1][0] == s[0]; Success(uri)
      else
        var k := IndexOf(s, '/');
        var t :- Substring(s, k);
        assert s[..k] + t == s;
        Success(Some(t))
  }

  /**
   * Lines 121-135 of the importer as written: the local `uri` goes through
   * each step in turn, and the final substring may throw.
   */
  method ResolveUri(env: Collaborators, request: Option<PostmanRequest>) returns (r: Result<Option<string>, Exception>)
    ensures r == NormalisePath(LocatedPath(env, request))
  {
    var uri: Option<string> := RequestUrl(env, request);
    if uri.Some? {
      uri := Some(ReplaceAll(uri.value, "http://UNDEFINED", ""));
      uri := Some(ReplaceAll(uri.value, "https://UNDEFINED", ""));
      uri := Some(ReplaceAll(uri.value, "UNDEFINED", "{}"));
      var parsed := env.uriPath(uri.value);
      if parsed.Parsed? {
        uri := parsed.path;
      }
    }
    if uri.Some? && !StartsWith(uri.value, "/") {
      var tail :- Substring(uri.value, IndexOf(uri.value, '/'));
      uri := Some(tail);
    }
    r := Success(uri);
  }

  // ---------------------------------------------------------------------------
  // One leaf

  /** The `ApiItem` built for a leaf whose path resolved to `uri`. */
  function BuildItem(sub: PostmanItem, folderName: Option<string>, itemName: Option<string>, uri: Option<string>): (r: ApiItem)
    ensures r.tags == [folderName.GetOr(""), itemName.GetOr("")]
    ensures r.operationId == sub.name.GetOr("") && r.path == uri.GetOr("")
    ensures r.httpMethod == (if sub.request.Some? then sub.request.value.httpMethod.GetOr("") else "")
    ensures '\n' !in r.description && '\r' !in r.description
    ensures r.description == ReplaceLineBreak(if sub.request.Some? then sub.request.value.description else None).GetOr("")
    ensures r.request == Request(UrlParameters(if sub.request.Some? then sub.request.value.url else None),
                                 FormBody(if sub.request.Some? then sub.request.value.body else None))
    ensures r.response == ExampleResponses(sub.response)
    ensures |r.response| == |sub.response.GetOr([])|
  {
    var url := if sub.request.Some? then sub.request.value.url else None;
    var body := if sub.request.Some? then sub.request.value.body else None;
    var httpMethod := if sub.request.Some? then sub.request.value.httpMethod else None;
    var description := if sub.request.Some? then sub.request.value.description else None;
    ApiItem(
      httpMethod := httpMethod.GetOr(""),
      path := uri.GetOr(""),
      description := ReplaceLineBreak(description).GetOr(""),
      operationId := sub.name.GetOr(""),
      tags := [folderName.GetOr(""), itemName.GetOr("")],
      request := Request(UrlParameters(url), FormBody(body)),
      response := ExampleResponses(sub.response))
  }

  /**
   * `processApiItem` as written: the emptiness check comes after the
   * substring, which has already thrown for an empty path, so the check never
   * rejects anything.
   */
  function ProcessApiItemAsWritten(env: Collaborators, sub: PostmanItem, folderName: Option<string>, itemName: Option<string>)
    : (r: Result<Option<ApiItem>, Exception>)
    ensures r != Success(None)
    ensures r.Failure? <==> var p := LocatedPath(env, sub.request); p.Some? && '/' !in p.value
    ensures r.Success? && r.value.Some? ==>
      var item, p := r.value.value, LocatedPath(env, sub.request);
      item.tags == [folderName.GetOr(""), itemName.GetOr("")] &&
      item.operationId == sub.name.GetOr("") &&
      item.httpMethod == (if sub.request.Some? then sub.request.value.httpMethod.GetOr("") else "") &&
      (p.None? ==> item.path == "") &&
      (p.Some? ==> StartsWith(item.path, "/") && NormalisePath(p) == Success(Some(item.path)))
    ensures r.Success? && r.value.Some? ==>
      NormalisePath(LocatedPath(env, sub.request)).Success? &&
      r.value.value == BuildItem(sub, folderName, itemName, NormalisePath(LocatedPath(env, sub.request)).value)
  {
    var uri :- NormalisePath(LocatedPath(env, sub.request));
    if uri == Some("") then Success(None)
    else Success(Some(BuildItem(sub, folderName, itemName, uri)))
  }

  /**
   * `processApiItem` with the intended rejection: an operation whose path
   * resolves to the empty string is dropped (rather than throwing); a
   * non-empty path without any slash still throws.
   */
  function ProcessApiItem(env: Collaborators, sub: PostmanItem, folderName: Option<string>, itemName: Option<string>)
    : (r: Result<Option<ApiItem>, Exception>)
    ensures r == Success(None) <==> LocatedPath(env, sub.request) == Some("")
    ensures r.Failure? <==> var p := LocatedPath(env, sub.request); p.Some? && p.value != "" && '/' !in p.value
    ensures r.Success? && r.value.Some? ==>
      var item, p := r.value.value, LocatedPath(env, sub.request);
      item.tags == [folderName.GetOr(""), itemName.GetOr("")] &&
      item.operationId == sub.name.GetOr("") &&
      item.httpMethod == (if sub.request.Some? then sub.request.value.httpMethod.GetOr("") else "") &&
      (p.None? ==> item.path == "") &&
      (p.Some? ==> StartsWith(item.path, "/") && NormalisePath(p) == Success(Some(item.path)))
    ensures r.Success? && r.value.Some? ==>
      NormalisePath(LocatedPath(env, sub.request)).Success? &&
      r.value.value == BuildItem(sub, folderName, itemName, NormalisePath(LocatedPath(env, sub.request)).value)
  {
    var located := LocatedPath(env, sub.request);
    if located == Some("") then Success(None)
    else
      var uri :- NormalisePath(located);
      Success(Some(BuildItem(sub, folderName, itemName, uri)))
  }

  /** Which leaf builder the tree uses: the code as written, or with the intended empty-path rejection. */
  datatype LeafRule = AsWritten | Intended

  /**
   * The leaf builder the tree calls. Only the intended rule ever rejects a
   * leaf, and only for an empty path; as written, an empty path throws like
   * any other path without a slash.
   */
  function ProcessLeaf(env: Collaborators, rule: LeafRule, sub: PostmanItem, folderName: Option<string>, itemName: Option<string>)
    : (r: Result<Option<ApiItem>, Exception>)
    ensures r == Success(None) <==> rule == Intended && LocatedPath(env, sub.request) == Some("")
    ensures r.Failure? <==>
      var p := LocatedPath(env, sub.request);
      p.Some? && '/' !in p.value && (rule == AsWritten || p.value != "")
    ensures r.Success? && r.value.Some? ==>
      r.value.value.tags == [folderName.GetOr(""), itemName.GetOr("")] &&
      r.value.value.operationId == sub.name.GetOr("")
  {
    match rule
    case AsWritten => ProcessApiItemAsWritten(env, sub, folderName, itemName)
    case Intended => ProcessApiItem(env, sub, folderName, itemName)
  }

  // ---------------------------------------------------------------------------
  // Classifying the tree

  function Flatten<T>(xss: seq<seq<T>>): seq<T> {
    if xss == [] then [] else xss[0] + Flatten(xss[1..])
  }

  /** `filterIsInstance<ChildType.Folder>()`, unwrapped. */
  function FolderParts(cts: seq<ChildType>): seq<ApiCollection> {
    if cts == [] then []
    else (if cts[0].Folder? then [cts[0].collection] else []) + FolderParts(cts[1..])
  }

  /** `filterIsInstance<ChildType.Item>()`, unwrapped. */
  function ItemParts(cts: seq<ChildType>): seq<seq<ApiItem>> {
    if cts == [] then []
    else (if cts[0].Item? then [cts[0].items] else []) + ItemParts(cts[1..])
  }

  /** The collections the top level makes of each nested folder: its folders, then its items as one group. */
  function NestedCollections(cts: seq<ChildType>, folderName: Option<string>): seq<ApiCollection> {
    if cts == [] then []
    else
      (if cts[0].NestedFolder?
       then cts[0].folders + [ApiCollection(folderName.GetOr(""), "", Flatten(cts[0].itemGroups))]
       else [])
      + NestedCollections(cts[1..], folderName)
  }

  /**
   * How a folder with `childCount` children surfaces its children's results:
   * folders and items mixed become one nested folder; as many item groups as
   * children merge into one collection named after the ancestor and
   * described by the folder's name; anything else passes through.
   */
  function Regroup(cts: seq<ChildType>, childCount: nat, folderName: Option<string>, name: Option<string>): (r: seq<ChildType>)
    ensures |FolderParts(cts)| > 0 && |ItemParts(cts)| > 0 ==>
      r == [NestedFolder(FolderParts(cts), ItemParts(cts))]
    ensures !(|FolderParts(cts)| > 0 && |ItemParts(cts)| > 0) && |ItemParts(cts)| == childCount ==>
      |r| == 1 && r[0].Folder? && r[0].collection.name == folderName.GetOr("") &&
      r[0].collection.description == name.GetOr("") && r[0].collection.items == Flatten(ItemParts(cts))
    ensures !(|FolderParts(cts)| > 0 && |ItemParts(cts)| > 0) && |ItemParts(cts)| != childCount ==> r == cts
  {
    var folders := FolderParts(cts);
    var items := ItemParts(cts);
    if |folders| > 0 && |items| > 0 then [NestedFolder(folders, items)]
    else if |items| == childCount then [Folder(ApiCollection(folderName.GetOr(""), name.GetOr(""), Flatten(items)))]
    else cts
  }

  /**
   * `parseChildItem`: the ancestor names are handed down unchanged; a leaf
   * yields one item group (empty if rejected), a node with neither children
   * nor a request nothing, and a folder its regrouped children's results.
   */
  function ParseChildItem(env: Collaborators, rule: LeafRule, sub: PostmanItem, folderName: Option<string>, itemName: Option<string>)
    : Result<seq<ChildType>, Exception>
    decreases sub, 1
  {
    match sub.item
    case Items(children) =>
      var cts :- ParseChildren(env, rule, children, folderName, itemName);
      Success(Regroup(cts, |children|, folderName, sub.name))
    case NoItems =>
      if sub.request.Some? then
        var item :- ProcessLeaf(env, rule, sub, folderName, itemName);
        Success([Item(ToSeq(item))])
      else Success([])
  }

  /** `children.map { parseChildItem(it, ...) }.flatten()`: it succeeds only if every child does. */
  function ParseChildren(env: Collaborators, rule: LeafRule, cs: seq<PostmanItem>, folderName: Option<string>, itemName: Option<string>)
    : Result<seq<ChildType>, Exception>
    decreases cs, 0
  {
    if cs == [] then Success([])
    else
      var head :- ParseChildItem(env, rule, cs[0], folderName, itemName);
      var tail :- ParseChildren(env, rule, cs[1..], folderName, itemName);
      Success(head + tail)
  }

  // ---------------------------------------------------------------------------
  // The top level

  /** A collection is not described by its own folder name twice. */
  function Description(folderName: Option<string>, name: Option<string>): (r: string)
    ensures folderName == name ==> r == ""
    ensures folderName != name ==> r == name.GetOr("")
  {
    if folderName == name then "" else name.GetOr("")
  }

  /**
   * The collections a top-level folder makes of its children's results,
   * grouped by variant: the folders, then the nested folders' collections,
   * then one collection of the remaining items, if there are any.
   */
  function Grouped(cts: seq<ChildType>, folderName: Option<string>, name: Option<string>): (r: seq<ApiCollection>)
    ensures
      var fs, ns, items := FolderParts(cts), NestedCollections(cts, folderName), Flatten(ItemParts(cts));
      |r| == |fs| + |ns| + (if items == [] then 0 else 1) &&
      r[..|fs|] == fs && r[|fs|..|fs| + |ns|] == ns &&
      (items != [] ==> r[|r| - 1] == ApiCollection(folderName.GetOr(""), Description(folderName, name), items))
  {
    var items := Flatten(ItemParts(cts));
    var fs, ns := FolderParts(cts), NestedCollections(cts, folderName);
    var last := if items == [] then [] else [ApiCollection(folderName.GetOr(""), Description(folderName, name), items)];
    assert (fs + ns + last)[..|fs|] == fs;
    assert (fs + ns + last)[|fs|..|fs| + |ns|] == ns;
    fs + ns + last
  }

  /**
   * What `parseFolder` returns: a folder's children's results grouped by
   * variant; a top-level leaf makes one collection (empty if the leaf was
   * rejected); a node with neither makes nothing.
   */
  function FolderCollections(env: Collaborators, rule: LeafRule, item: PostmanItem, folderName: Option<string>)
    : (r: Result<seq<ApiCollection>, Exception>)
    ensures item.item == NoItems && item.request.None? ==> r == Success([])
    ensures item.item == NoItems && item.request.Some? ==>
      var leaf := ProcessLeaf(env, rule, item, folderName, item.name);
      (r.Success? <==> leaf.Success?) &&
      (r.Success? ==> r.value == [ApiCollection(folderName.GetOr(""), Description(folderName, item.name), ToSeq(leaf.value))])
    ensures item.item.Items? ==>
      var children := ParseChildren(env, rule, item.item.list, folderName, item.name);
      (r.Success? <==> children.Success?) && (r.Success? ==> r.value == Grouped(children.value, folderName, item.name))
  {
    match item.item
    case Items(children) =>
      var cts :- ParseChildren(env, rule, children, folderName, item.name);
      Success(Grouped(cts, folderName, item.name))
    case NoItems =>
      if item.request.Some? then
        var a :- ProcessLeaf(env, rule, item, folderName, item.name);
        Success([ApiCollection(folderName.GetOr(""), Description(folderName, item.name), ToSeq(a))])
      else Success([])
  }

  lemma {:induction false} FolderPartsAppend(a: seq<ChildType>, b: seq<ChildType>)
    ensures FolderParts(a + b) == FolderParts(a) + FolderParts(b)
  {
    if a != [] {
      assert (a + b)[0] == a[0] && (a + b)[1..] == a[1..] + b;
      FolderPartsAppend(a[1..], b);
    } else {
      assert a + b == b;
    }
  }

  lemma {:induction false} NestedCollectionsAppend(a: seq<ChildType>, b: seq<ChildType>, folderName: Option<string>)
    ensures NestedCollections(a + b, folderName) == NestedCollections(a, folderName) + NestedCollections(b, folderName)
  {
    if a != [] {
      assert (a + b)[0] == a[0] && (a + b)[1..] == a[1..] + b;
      NestedCollectionsAppend(a[1..], b, folderName);
    } else {
      assert a + b == b;
    }
  }

  /** One more child in the first loop of `parseFolder`: its collection is added if it is a folder. */
  lemma FolderPartsStep(cts: seq<ChildType>, i: nat)
    requires i < |cts|
    ensures FolderParts(cts[..i + 1]) == FolderParts(cts[..i]) + (if cts[i].Folder? then [cts[i].collection] else [])
  {
    FolderPartsAppend(cts[..i], [cts[i]]);
    assert cts[..i + 1] == cts[..i] + [cts[i]];
  }

  /** One more child in the second loop of `parseFolder`: a nested folder adds its collections and its items. */
  lemma NestedCollectionsStep(cts: seq<ChildType>, i: nat, folderName: Option<string>)
    requires i < |cts|
    ensures NestedCollections(cts[..i + 1], folderName) == NestedCollections(cts[..i], folderName) +
      (if cts[i].NestedFolder?
       then cts[i].folders + [ApiCollection(folderName.GetOr(""), "", Flatten(cts[i].itemGroups))]
       else [])
  {
    NestedCollectionsAppend(cts[..i], [cts[i]], folderName);
    assert cts[..i + 1] == cts[..i] + [cts[i]];
  }

  /** The top level of `parseFolder`, which fills `details` from its children's results, variant by variant. */
  method GroupChildren(childTypes: seq<ChildType>, folderName: Option<string>, name: Option<string>)
    returns (details: seq<ApiCollection>)
    ensures details == Grouped(childTypes, folderName, name)
  {
    details := [];
    var i := 0;
    while i < |childTypes|
      invariant 0 <= i <= |childTypes|
      invariant details == FolderParts(childTypes[..i])
    {
      FolderPartsStep(childTypes, i);
      if childTypes[i].Folder? {
        details := details + [childTypes[i].collection];
      }
      i := i + 1;
    }
    assert childTypes[..i] == childTypes;
    i := 0;
    while i < |childTypes|
      invariant 0 <= i <= |childTypes|
      invariant details == FolderParts(childTypes) + NestedCollections(childTypes[..i], folderName)
    {
      NestedCollectionsStep(childTypes, i, folderName);
      if childTypes[i].NestedFolder? {
        details := details + childTypes[i].folders;
        details := details + [ApiCollection(folderName.GetOr(""), "", Flatten(childTypes[i].itemGroups))];
      }
      i := i + 1;
    }
    assert childTypes[..i] == childTypes;
    var items := Flatten(ItemParts(childTypes));
    if items != [] {
      details := details + [ApiCollection(folderName.GetOr(""), Description(folderName, name), items)];
    }
  }

  /** `parseFolder`, which fills a mutable list variant by variant. */
  method ParseFolder(env: Collaborators, rule: LeafRule, item: PostmanItem, folderName: Option<string>)
    returns (r: Result<seq<ApiCollection>, Exception>)
    ensures r == FolderCollections(env, rule, item, folderName)
  {
    var details: seq<ApiCollection> := [];
    match item.item {
      case Items(children) =>
        var childTypes :- ParseChildren(env, rule, children, folderName, item.name);
        details := GroupChildren(childTypes, folderName, item.name);
      case NoItems =>
        if item.request.Some? {
          var apiItem :- ProcessLeaf(env, rule, item, folderName, item.name);
          var collection := ApiCollection(folderName.GetOr(""), Description(folderName, item.name), ToSeq(apiItem));
          assert details + [collection] == [collection];
          details := details + [collection];
        }
    }
    r := Success(details);
  }

  /** Every top-level node, parsed with its own name as the ancestor folder name; the first exception aborts. */
  function ParseAll(env: Collaborators, rule: LeafRule, items: seq<PostmanItem>): Result<seq<ApiCollection>, Exception>
  {
    if items == [] then Success([])
    else
      var head :- FolderCollections(env, rule, items[0], items[0].name);
      var tail :- ParseAll(env, rule, items[1..]);
      Success(head + tail)
  }

  /** `parse`: null exactly when the collection has no item list, and otherwise the import of its nodes. */
  function Parse(env: Collaborators, rule: LeafRule, collection: PostmanCollection): (r: Result<Option<seq<ApiCollection>>, Exception>)
    ensures r == Success(None) <==> collection.item.None?
    ensures collection.item.Some? ==> (r.Success? <==> ParseAll(env, rule, collection.item.value).Success?)
    ensures r.Success? && r.value.Some? ==> r.value.value == ParseAll(env, rule, collection.item.value).value
  {
    match collection.item
    case None => Success(None)
    case Some(items) =>
      var all :- ParseAll(env, rule, items);
      Success(Some(all))
  }
}
