/**
 * The plain-text renderer: one block per tag group, a header line with the
 * tags, then one line per operation with its method, path and signature.
 */
module SimpleApiRender {
  import opened Wrappers
  import opened Strings
  import opened ApiDetail

  /** Whether the operation's request, or its response, renders as nothing; a null one renders as `null`. */
  predicate NoInputs(item: ApiItem) {
    item.request == Some(Request([], []))
  }

  predicate NoOutputs(item: ApiItem) {
    item.response == Some(Response([]))
  }

  /**
   * The signature in parentheses: the request's text inside, the response's
   * after a colon, each only when it is not empty.
   */
  function IoParameters(item: ApiItem): (r: string)
    ensures NoInputs(item) && NoOutputs(item) ==> r == "()"
    ensures NoInputs(item) && !NoOutputs(item) ==> r == "(): " + ResponseText(item.response)
    ensures !NoInputs(item) && NoOutputs(item) ==> r == "(" + RequestText(item.request) + ")"
    ensures !NoInputs(item) && !NoOutputs(item) ==>
            r == "(" + RequestText(item.request) + ") : " + ResponseText(item.response)
  {
    var inputs := RequestText(item.request);
    var outputs := ResponseText(item.response);
    if inputs == "" && outputs == "" then "()"
    else if inputs == "" then "(): " + outputs
    else if outputs == "" then "(" + inputs + ")"
    else "(" + inputs + ") : " + outputs
  }

  /** The bare `()` is the signature of exactly the operations with neither input nor output. */
  lemma IoParametersBare(item: ApiItem)
    ensures IoParameters(item) == "()" <==> NoInputs(item) && NoOutputs(item)
  {
    if !NoInputs(item) {
      assert |IoParameters(item)| >= |RequestText(item.request)| + 2;
    }
  }

  /** An operation whose request and response are both null shows them as `null`. */
  lemma IoParametersNull(item: ApiItem)
    requires item.request.None? && item.response.None?
    ensures IoParameters(item) == "(null) : null"
  {
  }

  /** Nothing when the operation has no identifier; otherwise a space, the identifier and the signature. */
  function OperationInformation(item: ApiItem): (r: string)
    ensures r == "" <==> item.operationId == ""
    ensures item.operationId != "" ==> r == " " + item.operationId + IoParameters(item)
  {
    if item.operationId == "" then "" else " " + item.operationId + IoParameters(item)
  }

  /**
   * One operation's line: method, path and information, each followed by a
   * space. It always ends in a space; one without an identifier ends in two
   * after the path.
   */
  function ItemLine(item: ApiItem): (r: string)
    ensures |r| > 0 && r[|r| - 1] == ' '
    ensures |r| > |item.httpMethod| && r[..|item.httpMethod| + 1] == item.httpMethod + " "
    ensures item.operationId == "" <==> r == item.httpMethod + " " + item.path + "  "
  {
    var prefix := item.httpMethod + " " + item.path + " ";
    var line := prefix + OperationInformation(item) + " ";
    assert item.operationId != "" ==> |line| > |prefix + "  "|;
    assert line[..|item.httpMethod| + 1] == item.httpMethod + " ";
    line
  }

  /** `apiItems.joinToString("\n") { line }`. */
  function Lines(items: seq<ApiItem>): (r: seq<string>)
    ensures |r| == |items|
    ensures forall i :: 0 <= i < |items| ==> r[i] == ItemLine(items[i])
  {
    seq(|items|, i requires 0 <= i < |items| => ItemLine(items[i]))
  }

  /**
   * A tag block: the tags joined with a comma on the first line, then the
   * operations' lines; without operations, the header and a line break.
   */
  function RenderItem(tags: seq<string>, items: seq<ApiItem>): (r: ApiTagOutput)
    ensures var header := Join(tags, ", ") + "\n"; |r.str| >= |header| && r.str[..|header|] == header
    ensures items == [] ==> r.str == Join(tags, ", ") + "\n"
    ensures |items| == 1 ==> r.str == Join(tags, ", ") + "\n" + ItemLine(items[0])
  {
    var header := Join(tags, ", ") + "\n";
    var lines := Lines(items);
    assert |items| == 1 ==> lines == [ItemLine(items[0])];
    assert (header + Join(lines, "\n"))[..|header|] == header;
    ApiTagOutput(header + Join(lines, "\n"))
  }

  /**
   * The blocks `renderByTag` gives, separated by a blank line: empty exactly
   * when there is no block or a single empty one, and a single block as it is.
   */
  function RenderCollection(renderByTag: seq<ApiItem> -> seq<ApiTagOutput>, items: seq<ApiItem>): (r: string)
    ensures r == "" <==> renderByTag(items) == [] || renderByTag(items) == [ApiTagOutput("")]
    ensures |renderByTag(items)| == 1 ==> r == renderByTag(items)[0].str
  {
    var blocks := renderByTag(items);
    var texts := seq(|blocks|, i requires 0 <= i < |blocks| => blocks[i].ToString());
    JoinIsEmpty(texts, "\n\n");
    assert |blocks| == 1 ==> texts == [blocks[0].str];
    Join(texts, "\n\n")
  }

  // ---------------------------------------------------------------------------
  // The block's lines

  predicate ParameterSingleLine(p: Parameter) {
    '\n' !in p.name && '\n' !in p.paramType
  }

  predicate ParametersSingleLine(ps: seq<Parameter>) {
    forall i :: 0 <= i < |ps| ==> ParameterSingleLine(ps[i])
  }

  /** No text of the operation holds a line break. */
  predicate SingleLine(item: ApiItem) {
    '\n' !in item.httpMethod && '\n' !in item.path && '\n' !in item.operationId &&
    (item.request.Some? ==>
       ParametersSingleLine(item.request.value.parameters) && ParametersSingleLine(item.request.value.body)) &&
    (item.response.Some? ==> ParametersSingleLine(item.response.value.parameters))
  }

  lemma JoinParametersSingleLine(ps: seq<Parameter>)
    requires ParametersSingleLine(ps)
    ensures '\n' !in JoinParameters(ps)
  {
    var texts := seq(|ps|, i requires 0 <= i < |ps| => ps[i].ToString());
    forall i | 0 <= i < |texts|
      ensures '\n' !in texts[i]
    {
      assert ParameterSingleLine(ps[i]);
      assert texts[i] == ps[i].name + ": " + ps[i].paramType;
    }
    JoinAvoids(texts, ", ", '\n');
  }

  /** An operation whose texts are single-line has a single-line line. */
  lemma ItemLineSingle(item: ApiItem)
    requires SingleLine(item)
    ensures '\n' !in ItemLine(item)
  {
    if item.request.Some? {
      JoinParametersSingleLine(item.request.value.parameters);
      JoinParametersSingleLine(item.request.value.body);
    }
    if item.response.Some? {
      JoinParametersSingleLine(item.response.value.parameters);
    }
    var inputs, outputs := RequestText(item.request), ResponseText(item.response);
    assert '\n' !in inputs && '\n' !in outputs;
    assert '\n' !in IoParameters(item);
  }

  /**
   * Split at its line breaks, a block is its header line followed by exactly
   * one line per operation (an empty last line when there is none).
   */
  lemma RenderItemLines(tags: seq<string>, items: seq<ApiItem>)
    requires forall i :: 0 <= i < |tags| ==> '\n' !in tags[i]
    requires forall i :: 0 <= i < |items| ==> SingleLine(items[i])
    ensures Split(RenderItem(tags, items).ToString(), '\n') ==
            [Join(tags, ", ")] + (if items == [] then [""] else Lines(items))
    ensures items != [] ==> |Split(RenderItem(tags, items).ToString(), '\n')| == 1 + |items|
  {
    var header := Join(tags, ", ");
    JoinAvoids(tags, ", ", '\n');
    var lines := Lines(items);
    forall i | 0 <= i < |lines|
      ensures '\n' !in lines[i]
    {
      ItemLineSingle(items[i]);
    }
    var all := [header] + (if items == [] then [""] else lines);
    if items == [] {
      assert Join(all, "\n") == header + "\n" + "";
    } else {
      JoinAppend([header], lines, "\n");
    }
    assert RenderItem(tags, items).ToString() == Join(all, "\n");
    SplitJoin(all, '\n');
  }
}
