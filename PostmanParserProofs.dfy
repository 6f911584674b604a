/**
 * Properties of the Postman importer: value formatting, URL clean-up, the
 * rejection of empty paths, and what flattening the folder tree preserves.
 */
module PostmanParserProofs {
  import opened Wrappers
  import opened Strings
  import opened CoreModel
  import opened PostmanModel
  import opened PostmanParser

  // ---------------------------------------------------------------------------
  // Values

  /** The display form loses nothing: two present values display alike only if equal. */
  lemma FormatValueInjective(a: string, b: string)
    requires FormatValue(Some(a)) == FormatValue(Some(b))
    ensures a == b
  {
    var litA, litB := AllDigits(a) || IsBooleanLiteral(a), AllDigits(b) || IsBooleanLiteral(b);
    if a == "" || b == "" {
    } else if litA && litB {
    } else if !litA && !litB {
      assert a == ("\"" + a + "\"")[1..|a| + 1] == ("\"" + b + "\"")[1..|b| + 1] == b;
    } else if litA {
      LiteralUnquoted(a);
      assert false;
    } else {
      LiteralUnquoted(b);
      assert false;
    }
  }

  /** A number or boolean literal never begins with a quote. */
  lemma LiteralUnquoted(s: string)
    requires AllDigits(s) || IsBooleanLiteral(s)
    ensures |s| > 0 && s[0] != '"'
  {
    if AllDigits(s) {
      assert '0' <= s[0] <= '9';
    }
  }

  /** Applying `replaceLineBreak` twice is applying it once. */
  lemma ReplaceLineBreakIdempotent(s: Option<string>)
    ensures ReplaceLineBreak(ReplaceLineBreak(s)) == ReplaceLineBreak(s)
  {
  }

  // ---------------------------------------------------------------------------
  // The request URL

  /**
   * The scheme-prefixed sentinel goes before the bare one: an unresolved host
   * vanishes entirely instead of becoming `http://{}`.
   */
  lemma SchemeSentinelRemovedFirst()
    ensures ReplaceSentinels("http://UNDEFINED/users") == "/users"
  {
    var s := "http://UNDEFINED/users";
    assert s[..16] == "http://UNDEFINED" && s[16..] == "/users";
    assert ReplaceAll(s, "http://UNDEFINED", "") == "/users";
  }

  // ---------------------------------------------------------------------------
  // The leaf, as written and as intended

  /**
   * The two versions of `processApiItem` only differ on a path that resolves
   * to the empty string.
   */
  lemma ProcessApiItemVersionsAgree(env: Collaborators, sub: PostmanItem, folderName: Option<string>, itemName: Option<string>)
    requires LocatedPath(env, sub.request) != Some("")
    ensures ProcessApiItemAsWritten(env, sub, folderName, itemName) == ProcessApiItem(env, sub, folderName, itemName)
  {
    var p := LocatedPath(env, sub.request);
    if NormalisePath(p).Success? && p.Some? {
      assert NormalisePath(p).value != Some("");
    }
  }

  /**
   * A request whose URL is an unresolved host (`http://UNDEFINED`) leaves an
   * empty path whether or not the URI parser accepts it; as written, the
   * importer then throws from `substring(-1)`, while the intended behaviour
   * drops the operation.
   */
  lemma EmptyPathThrowsAsWritten(env: Collaborators, sub: PostmanItem, folderName: Option<string>, itemName: Option<string>)
    requires sub.request.Some? && env.getUrl(sub.request.value) == "http://UNDEFINED"
    requires env.uriPath("") == Unparseable || env.uriPath("") == Parsed(Some(""))
    ensures ProcessApiItemAsWritten(env, sub, folderName, itemName) == Failure(StringIndexOutOfBounds(-1))
    ensures ProcessApiItem(env, sub, folderName, itemName) == Success(None)
  {
    assert ReplaceAll("http://UNDEFINED", "http://UNDEFINED", "") == "";
    assert ReplaceSentinels("http://UNDEFINED") == "";
    assert LocatedPath(env, sub.request) == Some("");
  }

  // ---------------------------------------------------------------------------
  // Tag lineage

  ghost predicate ItemsTagged(items: seq<ApiItem>, tags: seq<string>) {
    forall i :: 0 <= i < |items| ==> items[i].tags == tags
  }

  ghost predicate CollectionsTagged(cs: seq<ApiCollection>, name: string, tags: seq<string>) {
    forall i :: 0 <= i < |cs| ==> cs[i].name == name && ItemsTagged(cs[i].items, tags)
  }

  ghost predicate GroupsTagged(gs: seq<seq<ApiItem>>, tags: seq<string>) {
    forall i :: 0 <= i < |gs| ==> ItemsTagged(gs[i], tags)
  }

  /** Every collection a classification carries is named `name`, every item tagged `tags`. */
  ghost predicate ChildTagged(ct: ChildType, name: string, tags: seq<string>) {
    match ct
    case Folder(c) => c.name == name && ItemsTagged(c.items, tags)
    case Item(items) => ItemsTagged(items, tags)
    case NestedFolder(fs, gs) => CollectionsTagged(fs, name, tags) && GroupsTagged(gs, tags)
  }

  ghost predicate AllTagged(cts: seq<ChildType>, name: string, tags: seq<string>) {
    forall i :: 0 <= i < |cts| ==> ChildTagged(cts[i], name, tags)
  }

  lemma {:induction false} FlattenTagged(gs: seq<seq<ApiItem>>, tags: seq<string>)
    requires GroupsTagged(gs, tags)
    ensures ItemsTagged(Flatten(gs), tags)
  {
    if gs != [] {
      FlattenTagged(gs[1..], tags);
      var f := Flatten(gs[1..]);
      assert forall i :: |gs[0]| <= i < |gs[0]| + |f| ==> (gs[0] + f)[i] == f[i - |gs[0]|];
    }
  }

  lemma {:induction false} PartsTagged(cts: seq<ChildType>, name: string, tags: seq<string>)
    requires AllTagged(cts, name, tags)
    ensures CollectionsTagged(FolderParts(cts), name, tags)
    ensures GroupsTagged(ItemParts(cts), tags)
  {
    if cts != [] {
      PartsTagged(cts[1..], name, tags);
      assert ChildTagged(cts[0], name, tags);
    }
  }

  lemma {:induction false} NestedCollectionsTagged(cts: seq<ChildType>, folderName: Option<string>, tags: seq<string>)
    requires AllTagged(cts, folderName.GetOr(""), tags)
    ensures CollectionsTagged(NestedCollections(cts, folderName), folderName.GetOr(""), tags)
  {
    if cts != [] {
      NestedCollectionsTagged(cts[1..], folderName, tags);
      assert ChildTagged(cts[0], folderName.GetOr(""), tags);
      if cts[0].NestedFolder? {
        FlattenTagged(cts[0].itemGroups, tags);
      }
    }
  }

  lemma RegroupTagged(cts: seq<ChildType>, childCount: nat, folderName: Option<string>, name: Option<string>, tags: seq<string>)
    requires AllTagged(cts, folderName.GetOr(""), tags)
    ensures AllTagged(Regroup(cts, childCount, folderName, name), folderName.GetOr(""), tags)
  {
    PartsTagged(cts, folderName.GetOr(""), tags);
    FlattenTagged(ItemParts(cts), tags);
  }

  /**
   * The ancestor names are handed down unchanged: whatever the depth, every
   * item a node yields is tagged with the two names its caller passed, and
   * every collection is named after the ancestor folder.
   */
  lemma {:induction false} ParseChildItemTagged(env: Collaborators, rule: LeafRule, sub: PostmanItem, folderName: Option<string>, itemName: Option<string>)
    requires ParseChildItem(env, rule, sub, folderName, itemName).Success?
    ensures AllTagged(ParseChildItem(env, rule, sub, folderName, itemName).value, folderName.GetOr(""),
                      [folderName.GetOr(""), itemName.GetOr("")])
    decreases sub, 1
  {
    var tags := [folderName.GetOr(""), itemName.GetOr("")];
    match sub.item
    case Items(children) =>
      var cts := ParseChildren(env, rule, children, folderName, itemName).value;
      assert ParseChildItem(env, rule, sub, folderName, itemName).value == Regroup(cts, |children|, folderName, sub.name);
      ParseChildrenTagged(env, rule, children, folderName, itemName);
      RegroupTagged(cts, |children|, folderName, sub.name, tags);
    case NoItems =>
      LeafTagged(env, rule, sub, folderName, itemName);
  }

  /** A leaf's item group carries the names its caller passed. */
  lemma LeafTagged(env: Collaborators, rule: LeafRule, sub: PostmanItem, folderName: Option<string>, itemName: Option<string>)
    requires sub.item == NoItems && ParseChildItem(env, rule, sub, folderName, itemName).Success?
    ensures AllTagged(ParseChildItem(env, rule, sub, folderName, itemName).value, folderName.GetOr(""),
                      [folderName.GetOr(""), itemName.GetOr("")])
  {
    if sub.request.Some? {
      var leaf := ProcessLeaf(env, rule, sub, folderName, itemName).value;
      assert ParseChildItem(env, rule, sub, folderName, itemName).value == [Item(ToSeq(leaf))];
      assert ItemsTagged(ToSeq(leaf), [folderName.GetOr(""), itemName.GetOr("")]);
    }
  }

  lemma {:induction false} ParseChildrenTagged(env: Collaborators, rule: LeafRule, cs: seq<PostmanItem>, folderName: Option<string>, itemName: Option<string>)
    requires ParseChildren(env, rule, cs, folderName, itemName).Success?
    ensures AllTagged(ParseChildren(env, rule, cs, folderName, itemName).value, folderName.GetOr(""),
                      [folderName.GetOr(""), itemName.GetOr("")])
    decreases cs, 0
  {
    if cs != [] {
      ParseChildItemTagged(env, rule, cs[0], folderName, itemName);
      ParseChildrenTagged(env, rule, cs[1..], folderName, itemName);
      var head := ParseChildItem(env, rule, cs[0], folderName, itemName).value;
      var tail := ParseChildren(env, rule, cs[1..], folderName, itemName).value;
      assert forall i :: |head| <= i < |head| + |tail| ==> (head + tail)[i] == tail[i - |head|];
    }
  }

  /**
   * A top-level folder's collections are all named after the ancestor folder,
   * and all their items are tagged with the ancestor's and the folder's names.
   */
  lemma FolderCollectionsTagged(env: Collaborators, rule: LeafRule, item: PostmanItem, folderName: Option<string>)
    requires FolderCollections(env, rule, item, folderName).Success?
    ensures CollectionsTagged(FolderCollections(env, rule, item, folderName).value, folderName.GetOr(""),
                              [folderName.GetOr(""), item.name.GetOr("")])
  {
    var name, tags := folderName.GetOr(""), [folderName.GetOr(""), item.name.GetOr("")];
    match item.item
    case Items(children) =>
      ParseChildrenTagged(env, rule, children, folderName, item.name);
      var cts := ParseChildren(env, rule, children, folderName, item.name).value;
      PartsTagged(cts, name, tags);
      NestedCollectionsTagged(cts, folderName, tags);
      FlattenTagged(ItemParts(cts), tags);
    case NoItems =>
  }

  lemma {:induction false} ParseAllTagged(env: Collaborators, rule: LeafRule, items: seq<PostmanItem>)
    requires ParseAll(env, rule, items).Success?
    ensures forall c, i :: c in ParseAll(env, rule, items).value && 0 <= i < |c.items| ==> c.items[i].tags == [c.name, c.name]
  {
    if items != [] {
      FolderCollectionsTagged(env, rule, items[0], items[0].name);
      ParseAllTagged(env, rule, items[1..]);
    }
  }

  /**
   * `parse` names each top-level folder twice, as ancestor and as folder:
   * every item of every collection is tagged with that collection's name, twice.
   */
  lemma ParseTagged(env: Collaborators, rule: LeafRule, collection: PostmanCollection)
    requires Parse(env, rule, collection).Success? && Parse(env, rule, collection).value.Some?
    ensures forall c, i :: c in Parse(env, rule, collection).value.value && 0 <= i < |c.items| ==> c.items[i].tags == [c.name, c.name]
  {
    ParseAllTagged(env, rule, collection.item.value);
  }

  // ---------------------------------------------------------------------------
  // Items are never invented; regrouping may lose some

  /** The items one classification carries, in order. */
  function Carried(ct: ChildType): seq<ApiItem> {
    match ct
    case Folder(c) => c.items
    case Item(items) => items
    case NestedFolder(fs, gs) => CollectionItems(fs) + Flatten(gs)
  }

  /** Every item a list of classifications carries, in order. */
  function ChildItems(cts: seq<ChildType>): seq<ApiItem> {
    if cts == [] then [] else Carried(cts[0]) + ChildItems(cts[1..])
  }

  function CollectionItems(cs: seq<ApiCollection>): seq<ApiItem> {
    if cs == [] then [] else cs[0].items + CollectionItems(cs[1..])
  }

  /** The items inside the nested folders of a classification. */
  function NestedItems(cts: seq<ChildType>): seq<ApiItem> {
    if cts == [] then []
    else (if cts[0].NestedFolder? then Carried(cts[0]) else []) + NestedItems(cts[1..])
  }

  lemma {:induction false} CollectionItemsAppend(a: seq<ApiCollection>, b: seq<ApiCollection>)
    ensures CollectionItems(a + b) == CollectionItems(a) + CollectionItems(b)
  {
    if a == [] {
      assert a + b == b;
    } else {
      assert (a + b)[0] == a[0] && (a + b)[1..] == a[1..] + b;
      CollectionItemsAppend(a[1..], b);
    }
  }

  lemma {:induction false} ChildItemsAppend(a: seq<ChildType>, b: seq<ChildType>)
    ensures ChildItems(a + b) == ChildItems(a) + ChildItems(b)
  {
    if a == [] {
      assert a + b == b;
    } else {
      assert (a + b)[0] == a[0] && (a + b)[1..] == a[1..] + b;
      ChildItemsAppend(a[1..], b);
    }
  }

  /** How the head of a classification list contributes to each of its three parts. */
  lemma PartsHead(cts: seq<ChildType>)
    requires cts != []
    ensures CollectionItems(FolderParts(cts)) ==
            (if cts[0].Folder? then Carried(cts[0]) else []) + CollectionItems(FolderParts(cts[1..]))
    ensures Flatten(ItemParts(cts)) == (if cts[0].Item? then Carried(cts[0]) else []) + Flatten(ItemParts(cts[1..]))
  {
    var rest := cts[1..];
    if cts[0].Folder? {
      assert FolderParts(cts) == [cts[0].collection] + FolderParts(rest);
      CollectionItemsAppend([cts[0].collection], FolderParts(rest));
      assert CollectionItems([cts[0].collection]) == Carried(cts[0]);
    } else {
      assert FolderParts(cts) == FolderParts(rest);
    }
    if cts[0].Item? {
      assert ItemParts(cts) == [cts[0].items] + ItemParts(rest);
      assert Flatten([cts[0].items] + ItemParts(rest)) == cts[0].items + Flatten(ItemParts(rest));
    } else {
      assert ItemParts(cts) == ItemParts(rest);
    }
  }

  /** A classification's items are its folders', its item groups' and its nested folders' items. */
  lemma {:induction false} ChildItemsSplit(cts: seq<ChildType>)
    ensures multiset(ChildItems(cts)) ==
            multiset(CollectionItems(FolderParts(cts))) + multiset(Flatten(ItemParts(cts))) + multiset(NestedItems(cts))
  {
    if cts != [] {
      ChildItemsSplit(cts[1..]);
      PartsHead(cts);
    }
  }

  /** The nested folders' items, as the top level lays them out. */
  lemma {:induction false} NestedCollectionsItems(cts: seq<ChildType>, folderName: Option<string>)
    ensures CollectionItems(NestedCollections(cts, folderName)) == NestedItems(cts)
  {
    if cts != [] {
      NestedCollectionsItems(cts[1..], folderName);
      if cts[0].NestedFolder? {
        var last := ApiCollection(folderName.GetOr(""), "", Flatten(cts[0].itemGroups));
        CollectionItemsAppend(cts[0].folders + [last], NestedCollections(cts[1..], folderName));
        CollectionItemsAppend(cts[0].folders, [last]);
        assert CollectionItems([last]) == last.items;
      } else {
        assert NestedCollections(cts, folderName) == NestedCollections(cts[1..], folderName);
      }
    }
  }

  /**
   * Regrouping keeps every item of a pass-through; a mixed folder loses the
   * items of the nested folders among its children, and a merged folder also
   * loses those of its sub-folders.
   */
  lemma RegroupItems(cts: seq<ChildType>, childCount: nat, folderName: Option<string>, name: Option<string>)
    ensures
      var folders, items := FolderParts(cts), ItemParts(cts);
      var lost :=
        if |folders| > 0 && |items| > 0 then NestedItems(cts)
        else if |items| == childCount then CollectionItems(folders) + NestedItems(cts)
        else [];
      multiset(ChildItems(cts)) == multiset(ChildItems(Regroup(cts, childCount, folderName, name))) + multiset(lost)
  {
    ChildItemsSplit(cts);
    var folders, items := FolderParts(cts), ItemParts(cts);
    var mc, mf, mn := multiset(CollectionItems(folders)), multiset(Flatten(items)), multiset(NestedItems(cts));
    if |folders| > 0 && |items| > 0 {
      RegroupMixedItems(cts, childCount, folderName, name);
      assert multiset(ChildItems(Regroup(cts, childCount, folderName, name))) == mc + mf;
    } else if |items| == childCount {
      RegroupMergedItems(cts, childCount, folderName, name);
      assert multiset(CollectionItems(folders) + NestedItems(cts)) == mc + mn;
    }
  }

  /** A mixed folder carries its folders' items, then its item groups'. */
  lemma RegroupMixedItems(cts: seq<ChildType>, childCount: nat, folderName: Option<string>, name: Option<string>)
    requires |FolderParts(cts)| > 0 && |ItemParts(cts)| > 0
    ensures ChildItems(Regroup(cts, childCount, folderName, name)) == CollectionItems(FolderParts(cts)) + Flatten(ItemParts(cts))
  {
    var r := Regroup(cts, childCount, folderName, name);
    assert r[1..] == [];
  }

  /** A merged folder carries exactly its item groups' items. */
  lemma RegroupMergedItems(cts: seq<ChildType>, childCount: nat, folderName: Option<string>, name: Option<string>)
    requires !(|FolderParts(cts)| > 0 && |ItemParts(cts)| > 0) && |ItemParts(cts)| == childCount
    ensures ChildItems(Regroup(cts, childCount, folderName, name)) == Flatten(ItemParts(cts))
  {
    var r := Regroup(cts, childCount, folderName, name);
    assert r[1..] == [];
  }

  /**
   * The items a node's leaves resolve to, depth first; a leaf that is
   * rejected or throws contributes nothing.
   */
  ghost function LeafItems(env: Collaborators, rule: LeafRule, sub: PostmanItem, folderName: Option<string>, itemName: Option<string>): seq<ApiItem>
    decreases sub, 1
  {
    match sub.item
    case Items(children) => AllLeafItems(env, rule, children, folderName, itemName)
    case NoItems =>
      if sub.request.Some? && ProcessLeaf(env, rule, sub, folderName, itemName).Success?
      then ToSeq(ProcessLeaf(env, rule, sub, folderName, itemName).value)
      else []
  }

  ghost function AllLeafItems(env: Collaborators, rule: LeafRule, cs: seq<PostmanItem>, folderName: Option<string>, itemName: Option<string>): seq<ApiItem>
    decreases cs, 0
  {
    if cs == [] then [] else LeafItems(env, rule, cs[0], folderName, itemName) + AllLeafItems(env, rule, cs[1..], folderName, itemName)
  }

  /** Classification never invents an item: each comes from a leaf below the node. */
  lemma {:induction false} ParseChildItemItems(env: Collaborators, rule: LeafRule, sub: PostmanItem, folderName: Option<string>, itemName: Option<string>)
    requires ParseChildItem(env, rule, sub, folderName, itemName).Success?
    ensures multiset(ChildItems(ParseChildItem(env, rule, sub, folderName, itemName).value)) <= multiset(LeafItems(env, rule, sub, folderName, itemName))
    decreases sub, 1
  {
    match sub.item
    case Items(children) =>
      var cts := ParseChildren(env, rule, children, folderName, itemName).value;
      assert ParseChildItem(env, rule, sub, folderName, itemName).value == Regroup(cts, |children|, folderName, sub.name);
      ParseChildrenItems(env, rule, children, folderName, itemName);
      RegroupItems(cts, |children|, folderName, sub.name);
    case NoItems =>
      LeafCarried(env, rule, sub, folderName, itemName);
  }

  /** A leaf's item group carries exactly the item it resolves to, if any. */
  lemma LeafCarried(env: Collaborators, rule: LeafRule, sub: PostmanItem, folderName: Option<string>, itemName: Option<string>)
    requires sub.item == NoItems && ParseChildItem(env, rule, sub, folderName, itemName).Success?
    ensures ChildItems(ParseChildItem(env, rule, sub, folderName, itemName).value) == LeafItems(env, rule, sub, folderName, itemName)
  {
    if sub.request.Some? {
      var r := ParseChildItem(env, rule, sub, folderName, itemName).value;
      assert r[1..] == [];
    }
  }

  lemma {:induction false} ParseChildrenItems(env: Collaborators, rule: LeafRule, cs: seq<PostmanItem>, folderName: Option<string>, itemName: Option<string>)
    requires ParseChildren(env, rule, cs, folderName, itemName).Success?
    ensures multiset(ChildItems(ParseChildren(env, rule, cs, folderName, itemName).value)) <= multiset(AllLeafItems(env, rule, cs, folderName, itemName))
    decreases cs, 0
  {
    if cs != [] {
      ParseChildItemItems(env, rule, cs[0], folderName, itemName);
      ParseChildrenItems(env, rule, cs[1..], folderName, itemName);
      ChildItemsAppend(ParseChildItem(env, rule, cs[0], folderName, itemName).value, ParseChildren(env, rule, cs[1..], folderName, itemName).value);
    }
  }

  /** The top level lays out every item its children's classification carries. */
  lemma GroupedItems(cts: seq<ChildType>, folderName: Option<string>, name: Option<string>)
    ensures multiset(CollectionItems(Grouped(cts, folderName, name))) == multiset(ChildItems(cts))
  {
    ChildItemsSplit(cts);
    NestedCollectionsItems(cts, folderName);
    var items := Flatten(ItemParts(cts));
    var last := if items == [] then [] else [ApiCollection(folderName.GetOr(""), Description(folderName, name), items)];
    CollectionItemsAppend(FolderParts(cts) + NestedCollections(cts, folderName), last);
    CollectionItemsAppend(FolderParts(cts), NestedCollections(cts, folderName));
    if items != [] {
      assert CollectionItems(last) == items;
    }
  }

  /** A top-level folder's collections hold no item that does not come from one of its leaves. */
  lemma FolderCollectionsItems(env: Collaborators, rule: LeafRule, item: PostmanItem, folderName: Option<string>)
    requires FolderCollections(env, rule, item, folderName).Success?
    ensures multiset(CollectionItems(FolderCollections(env, rule, item, folderName).value)) <= multiset(LeafItems(env, rule, item, folderName, item.name))
  {
    match item.item
    case Items(children) =>
      ParseChildrenItems(env, rule, children, folderName, item.name);
      GroupedItems(ParseChildren(env, rule, children, folderName, item.name).value, folderName, item.name);
    case NoItems =>
      var c := FolderCollections(env, rule, item, folderName).value;
      if item.request.Some? {
        assert c[1..] == [];
      }
  }

  /**
   * A top-level leaf makes exactly one collection, which is empty exactly
   * when the intended rule rejects its empty path; as written, a leaf that
   * does not throw always yields its operation.
   */
  lemma TopLevelLeafOneCollection(env: Collaborators, rule: LeafRule, item: PostmanItem, folderName: Option<string>)
    requires item.item == NoItems && item.request.Some?
    requires FolderCollections(env, rule, item, folderName).Success?
    ensures |FolderCollections(env, rule, item, folderName).value| == 1
    ensures FolderCollections(env, rule, item, folderName).value[0].items == [] <==>
            rule == Intended && LocatedPath(env, item.request) == Some("")
  {
  }

  // ---------------------------------------------------------------------------
  // When the import throws

  /** No leaf below the node throws. */
  ghost predicate LeavesResolve(env: Collaborators, rule: LeafRule, sub: PostmanItem, folderName: Option<string>, itemName: Option<string>)
    decreases sub, 1
  {
    match sub.item
    case Items(children) => AllLeavesResolve(env, rule, children, folderName, itemName)
    case NoItems => sub.request.Some? ==> ProcessLeaf(env, rule, sub, folderName, itemName).Success?
  }

  ghost predicate AllLeavesResolve(env: Collaborators, rule: LeafRule, cs: seq<PostmanItem>, folderName: Option<string>, itemName: Option<string>)
    decreases cs, 0
  {
    cs != [] ==> LeavesResolve(env, rule, cs[0], folderName, itemName) && AllLeavesResolve(env, rule, cs[1..], folderName, itemName)
  }

  /** Classifying a node throws exactly when one of its leaves does. */
  lemma {:induction false} ParseChildItemSucceeds(env: Collaborators, rule: LeafRule, sub: PostmanItem, folderName: Option<string>, itemName: Option<string>)
    ensures ParseChildItem(env, rule, sub, folderName, itemName).Success? <==> LeavesResolve(env, rule, sub, folderName, itemName)
    decreases sub, 1
  {
    match sub.item
    case Items(children) => ParseChildrenSucceed(env, rule, children, folderName, itemName);
    case NoItems =>
  }

  lemma {:induction false} ParseChildrenSucceed(env: Collaborators, rule: LeafRule, cs: seq<PostmanItem>, folderName: Option<string>, itemName: Option<string>)
    ensures ParseChildren(env, rule, cs, folderName, itemName).Success? <==> AllLeavesResolve(env, rule, cs, folderName, itemName)
    decreases cs, 0
  {
    if cs != [] {
      ParseChildItemSucceeds(env, rule, cs[0], folderName, itemName);
      ParseChildrenSucceed(env, rule, cs[1..], folderName, itemName);
    }
  }

  /**
   * A leaf node: nothing for a node without a request; otherwise one item
   * group, empty when the leaf is rejected, or the leaf's exception.
   */
  lemma ParseChildItemLeaf(env: Collaborators, rule: LeafRule, sub: PostmanItem, folderName: Option<string>, itemName: Option<string>)
    requires sub.item == NoItems
    ensures sub.request.None? ==> ParseChildItem(env, rule, sub, folderName, itemName) == Success([])
    ensures sub.request.Some? ==>
      var leaf, r := ProcessLeaf(env, rule, sub, folderName, itemName), ParseChildItem(env, rule, sub, folderName, itemName);
      (leaf.Success? ==> r == Success([Item(ToSeq(leaf.value))])) && (leaf.Failure? ==> r == Failure(leaf.error))
  {
  }

  /**
   * A folder node throws exactly when its children do; otherwise it yields
   * its children's results regrouped.
   */
  lemma ParseChildItemFolder(env: Collaborators, rule: LeafRule, sub: PostmanItem, folderName: Option<string>, itemName: Option<string>)
    requires sub.item.Items?
    ensures var r, children := ParseChildItem(env, rule, sub, folderName, itemName), ParseChildren(env, rule, sub.item.list, folderName, itemName);
      (r.Success? <==> children.Success?) && (r.Failure? ==> r.error == children.error) &&
      (r.Success? ==> r.value == Regroup(children.value, |sub.item.list|, folderName, sub.name))
  {
  }

  /** The children are classified in order: the list succeeds exactly when every child does. */
  lemma {:induction false} ParseChildrenEach(env: Collaborators, rule: LeafRule, cs: seq<PostmanItem>, folderName: Option<string>, itemName: Option<string>)
    ensures ParseChildren(env, rule, cs, folderName, itemName).Success? <==>
            forall i :: 0 <= i < |cs| ==> ParseChildItem(env, rule, cs[i], folderName, itemName).Success?
  {
    if cs != [] {
      ParseChildrenEach(env, rule, cs[1..], folderName, itemName);
      assert forall i :: 1 <= i < |cs| ==> cs[i] == cs[1..][i - 1];
    }
  }

  /** The first exception aborts: a failing list fails with the exception of its first failing child. */
  lemma {:induction false} ParseChildrenFirstFailure(env: Collaborators, rule: LeafRule, cs: seq<PostmanItem>, folderName: Option<string>, itemName: Option<string>)
    requires ParseChildren(env, rule, cs, folderName, itemName).Failure?
    ensures exists k :: 0 <= k < |cs| &&
              (forall i :: 0 <= i < k ==> ParseChildItem(env, rule, cs[i], folderName, itemName).Success?) &&
              ParseChildItem(env, rule, cs[k], folderName, itemName) == Failure(ParseChildren(env, rule, cs, folderName, itemName).error)
  {
    var r := ParseChildren(env, rule, cs, folderName, itemName);
    if ParseChildItem(env, rule, cs[0], folderName, itemName).Success? {
      var rest := ParseChildren(env, rule, cs[1..], folderName, itemName);
      assert rest == Failure(r.error);
      ParseChildrenFirstFailure(env, rule, cs[1..], folderName, itemName);
      var k :| 0 <= k < |cs[1..]| &&
        (forall i :: 0 <= i < k ==> ParseChildItem(env, rule, cs[1..][i], folderName, itemName).Success?) &&
        ParseChildItem(env, rule, cs[1..][k], folderName, itemName) == Failure(rest.error);
      assert forall i :: 1 <= i < k + 1 ==> cs[i] == cs[1..][i - 1];
      assert cs[k + 1] == cs[1..][k];
    } else {
      assert ParseChildItem(env, rule, cs[0], folderName, itemName) == Failure(r.error);
    }
  }

  /** The top-level nodes are parsed in order; the import succeeds exactly when every one does. */
  lemma {:induction false} ParseAllEach(env: Collaborators, rule: LeafRule, items: seq<PostmanItem>)
    ensures ParseAll(env, rule, items).Success? <==>
            forall i :: 0 <= i < |items| ==> FolderCollections(env, rule, items[i], items[i].name).Success?
  {
    if items != [] {
      ParseAllEach(env, rule, items[1..]);
      assert forall i :: 1 <= i < |items| ==> items[i] == items[1..][i - 1];
    }
  }

  /** A single top-level node is imported as its own folder's collections. */
  lemma ParseAllSingle(env: Collaborators, rule: LeafRule, item: PostmanItem)
    ensures ParseAll(env, rule, [item]) == FolderCollections(env, rule, item, item.name)
  {
    assert [item][1..] == [];
    var f := FolderCollections(env, rule, item, item.name);
    if f.Success? {
      assert f.value + [] == f.value;
    }
  }

  /**
   * The import is the in-order concatenation of its nodes' imports: splitting
   * the node list anywhere splits the result, and the import of the whole
   * succeeds exactly when both parts do.
   */
  lemma {:induction false} ParseAllAppend(env: Collaborators, rule: LeafRule, a: seq<PostmanItem>, b: seq<PostmanItem>)
    ensures ParseAll(env, rule, a + b).Success? <==> ParseAll(env, rule, a).Success? && ParseAll(env, rule, b).Success?
    ensures ParseAll(env, rule, a + b).Success? ==>
            ParseAll(env, rule, a + b).value == ParseAll(env, rule, a).value + ParseAll(env, rule, b).value
  {
    if a == [] {
      assert a + b == b;
    } else {
      assert (a + b)[0] == a[0] && (a + b)[1..] == a[1..] + b;
      ParseAllAppend(env, rule, a[1..], b);
    }
  }

  /** The first exception aborts the import: it fails with the exception of its first failing node. */
  lemma {:induction false} ParseAllFirstFailure(env: Collaborators, rule: LeafRule, items: seq<PostmanItem>)
    requires ParseAll(env, rule, items).Failure?
    ensures exists k :: 0 <= k < |items| &&
              (forall i :: 0 <= i < k ==> FolderCollections(env, rule, items[i], items[i].name).Success?) &&
              FolderCollections(env, rule, items[k], items[k].name) == Failure(ParseAll(env, rule, items).error)
  {
    var r := ParseAll(env, rule, items);
    if FolderCollections(env, rule, items[0], items[0].name).Success? {
      var rest := ParseAll(env, rule, items[1..]);
      assert rest == Failure(r.error);
      ParseAllFirstFailure(env, rule, items[1..]);
      var k :| 0 <= k < |items[1..]| &&
        (forall i :: 0 <= i < k ==> FolderCollections(env, rule, items[1..][i], items[1..][i].name).Success?) &&
        FolderCollections(env, rule, items[1..][k], items[1..][k].name) == Failure(rest.error);
      assert forall i :: 1 <= i < k + 1 ==> items[i] == items[1..][i - 1];
      assert items[k + 1] == items[1..][k];
    } else {
      assert FolderCollections(env, rule, items[0], items[0].name) == Failure(r.error);
    }
  }

  /**
   * A leaf whose path resolves to the empty string: as written, it throws
   * from `substring(-1)` and takes its folder and the whole import down with
   * it; with the intended rejection it only leaves an empty item group.
   */
  lemma EmptyLeafAbortsAsWritten(env: Collaborators, sub: PostmanItem, folderName: Option<string>, itemName: Option<string>)
    requires sub.item == NoItems && sub.request.Some? && LocatedPath(env, sub.request) == Some("")
    ensures ParseChildItem(env, AsWritten, sub, folderName, itemName) == Failure(StringIndexOutOfBounds(-1))
    ensures FolderCollections(env, AsWritten, sub, folderName) == Failure(StringIndexOutOfBounds(-1))
    ensures ParseChildItem(env, Intended, sub, folderName, itemName) == Success([Item([])])
  {
  }

  /** As written, one request with an empty path directly in any top-level folder makes the whole `parse` throw. */
  lemma ParseAbortsOnEmptyLeaf(env: Collaborators, collection: PostmanCollection, k: nat, j: nat)
    requires collection.item.Some? && k < |collection.item.value|
    requires collection.item.value[k].item.Items? && j < |collection.item.value[k].item.list|
    requires var sub := collection.item.value[k].item.list[j];
             sub.item == NoItems && sub.request.Some? && LocatedPath(env, sub.request) == Some("")
    ensures Parse(env, AsWritten, collection).Failure?
  {
    var top := collection.item.value[k];
    EmptyLeafAbortsAsWritten(env, top.item.list[j], top.name, top.name);
    ParseChildrenEach(env, AsWritten, top.item.list, top.name, top.name);
    assert !FolderCollections(env, AsWritten, top, top.name).Success?;
    ParseAllEach(env, AsWritten, collection.item.value);
  }
}

/** A worked example: one top-level folder holding two requests. */
module PostmanParserExample {
  import opened Wrappers
  import opened Strings
  import opened CoreModel
  import opened PostmanModel
  import opened PostmanParser

  /** Variables already resolved into `raw`, and a URI parser that takes the whole string as the path. */
  function PlainEnv(): Collaborators {
    Collaborators(
      (r: PostmanRequest) => if r.url.Some? then r.url.value.raw.GetOr("") else "",
      (s: string) => Parsed(Some(s)))
  }

  function Get(name: string, raw: string): PostmanItem {
    PostmanItem(Some(name), NoItems,
                Some(PostmanRequest(Some("GET"), Some(PostmanUrl(Some(raw), None, None)), None, None)),
                None)
  }

  function UsersCollection(): PostmanCollection {
    PostmanCollection(Some([PostmanItem(Some("Users"), Items([Get("List users", "/users"), Get("Get user", "/users/1")]), None, None)]))
  }

  function ListUsers(): ApiItem {
    ApiItem("GET", "/users", "", "List users", ["Users", "Users"], Request([], []), [])
  }

  function GetUser(): ApiItem {
    ApiItem("GET", "/users/1", "", "Get user", ["Users", "Users"], Request([], []), [])
  }

  /** Each request resolves to an operation at its own path, tagged with the folder's name twice. */
  lemma UsersLeaves()
    ensures ParseChildItem(PlainEnv(), AsWritten, Get("List users", "/users"), Some("Users"), Some("Users")) == Success([Item([ListUsers()])])
    ensures ParseChildItem(PlainEnv(), AsWritten, Get("Get user", "/users/1"), Some("Users"), Some("Users")) == Success([Item([GetUser()])])
  {
    var env := PlainEnv();
    assert ReplaceSentinels("/users") == "/users";
    assert ReplaceSentinels("/users/1") == "/users/1";
    assert LocatedPath(env, Get("List users", "/users").request) == Some("/users");
    assert LocatedPath(env, Get("Get user", "/users/1").request) == Some("/users/1");
    assert StartsWith("/users", "/") && StartsWith("/users/1", "/");
  }

  /** Two children that classify without throwing classify as their results, in order. */
  lemma ParseTwoChildren(env: Collaborators, u: PostmanItem, v: PostmanItem, x: seq<ChildType>, y: seq<ChildType>)
    requires ParseChildItem(env, AsWritten, u, Some("Users"), Some("Users")) == Success(x)
    requires ParseChildItem(env, AsWritten, v, Some("Users"), Some("Users")) == Success(y)
    ensures ParseChildren(env, AsWritten, [u, v], Some("Users"), Some("Users")) == Success(x + y)
  {
    assert [v][1..] == [];
    assert ParseChildren(env, AsWritten, [v][1..], Some("Users"), Some("Users")) == Success([]);
    assert y + [] == y;
    assert ParseChildren(env, AsWritten, [v], Some("Users"), Some("Users")) == Success(y);
    assert [u, v][1..] == [v];
  }

  /** The folder's two children classify as two single-item groups. */
  lemma UsersChildren()
    ensures ParseChildren(PlainEnv(), AsWritten, [Get("List users", "/users"), Get("Get user", "/users/1")], Some("Users"), Some("Users"))
            == Success([Item([ListUsers()]), Item([GetUser()])])
  {
    var u, v, a, b := Get("List users", "/users"), Get("Get user", "/users/1"), Item([ListUsers()]), Item([GetUser()]);
    assert [a] + [b] == [a, b];
    calc {
      ParseChildren(PlainEnv(), AsWritten, [u, v], Some("Users"), Some("Users"));
    == { UsersLeaves(); ParseTwoChildren(PlainEnv(), u, v, [a], [b]); }
      Success([a] + [b]);
    }
  }

  /** Two item groups and nothing else make one collection with both items, undescribed. */
  lemma UsersGrouped()
    ensures Grouped([Item([ListUsers()]), Item([GetUser()])], Some("Users"), Some("Users"))
            == [ApiCollection("Users", "", [ListUsers(), GetUser()])]
  {
    var a, b := Item([ListUsers()]), Item([GetUser()]);
    var cts := [a, b];
    assert cts[1..] == [b] && [b][1..] == [];
    assert FolderParts([b]) == [];
    assert FolderParts(cts) == [] + FolderParts(cts[1..]) == [];
    assert NestedCollections([b], Some("Users")) == [] && NestedCollections(cts, Some("Users")) == [];
    assert ItemParts([b]) == [[GetUser()]];
    assert ItemParts(cts) == [[ListUsers()], [GetUser()]];
    var groups := [[ListUsers()], [GetUser()]];
    assert groups[1..] == [[GetUser()]] && [[GetUser()]][1..] == [];
    assert Flatten([[GetUser()]]) == [GetUser()];
    assert [ListUsers()] + [GetUser()] == [ListUsers(), GetUser()];
    assert Flatten(groups) == [ListUsers(), GetUser()];
  }

  /** The top-level folder makes one collection of its two groups. */
  lemma UsersFolder()
    ensures FolderCollections(PlainEnv(), AsWritten, UsersCollection().item.value[0], Some("Users"))
            == Success([ApiCollection("Users", "", [ListUsers(), GetUser()])])
  {
    var folder := UsersCollection().item.value[0];
    var children := [Get("List users", "/users"), Get("Get user", "/users/1")];
    assert folder.item == Items(children);
    calc {
      FolderCollections(PlainEnv(), AsWritten, folder, Some("Users"));
    == { UsersChildren(); }
      Success(Grouped([Item([ListUsers()]), Item([GetUser()])], Some("Users"), Some("Users")));
    == { UsersGrouped(); }
      Success([ApiCollection("Users", "", [ListUsers(), GetUser()])]);
    }
  }

  /**
   * The folder becomes one collection named after it with an empty
   * description, holding both requests in order, each tagged with the
   * folder's name twice.
   */
  lemma UsersExample()
    ensures Parse(PlainEnv(), AsWritten, UsersCollection()) == Success(Some([ApiCollection("Users", "", [ListUsers(), GetUser()])]))
  {
    var folder := UsersCollection().item.value[0];
    var expected := [ApiCollection("Users", "", [ListUsers(), GetUser()])];
    assert UsersCollection().item.value == [folder];
    assert [folder][1..] == [] && expected + [] == expected;
    calc {
      ParseAll(PlainEnv(), AsWritten, [folder]);
    == { UsersFolder(); }
      Success(expected + []);
    }
  }
}
