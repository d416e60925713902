/**
 * The admin API's request constraints. Each schema is a predicate over
 * input that already has the declared JSON types. Numbers are reals, as
 * JavaScript numbers are. A list query gets its defaults filled in. The
 * stacking rules of the item schemas give issues with their own paths and
 * messages, and an error becomes a list of field and message pairs.
 */
module Schemas {
  import opened Wrappers
  import opened Text

  /** A number with no fractional part. */
  predicate IsInteger(x: real)
  {
    x.Floor as real == x
  }

  /** An integer of at least 1. */
  predicate PositiveInt(x: real)
  {
    IsInteger(x) && x >= 1.0
  }

  /** A positive integer of at most 100. */
  predicate LimitedInt(x: real)
  {
    PositiveInt(x) && x <= 100.0
  }

  /** A string whose length lies in [lo, hi]. */
  predicate LengthIn(s: string, lo: int, hi: int)
  {
    lo <= |s| <= hi
  }

  /** An optional string that, when given, has a length in [lo, hi]. */
  predicate OptionalLengthIn(s: Option<string>, lo: int, hi: int)
  {
    s.None? || LengthIn(s.value, lo, hi)
  }

  /** An optional number that, when given, is an integer in [1, 999]. */
  predicate ValidMaxStack(maxStack: Option<real>)
  {
    maxStack.None? || (IsInteger(maxStack.value) && 1.0 <= maxStack.value <= 999.0)
  }

  /** The e-mail and URL format tests of the validation library are left as parameters. */
  type FormatTest = string -> bool

  // ---------------------------------------------------------------------
  // Login
  // ---------------------------------------------------------------------

  datatype LoginInput = LoginInput(email: string, password: string)

  /** An address in e-mail format and a password of at least eight characters. */
  predicate LoginValid(input: LoginInput, isEmail: FormatTest)
  {
    isEmail(input.email) && |input.password| >= 8
  }

  // ---------------------------------------------------------------------
  // List queries
  // ---------------------------------------------------------------------

  /** The query parameters of the item list, each absent or given. */
  datatype ListItemsInput = ListItemsInput(
    page: Option<real>, limit: Option<real>,
    category: Option<string>, rarity: Option<string>, search: Option<string>,
    sort: Option<string>, order: Option<string>)

  /** A parsed item list query, defaults filled in. */
  datatype ListItemsQuery = ListItemsQuery(
    page: int, limit: int,
    category: Option<string>, rarity: Option<string>, search: Option<string>,
    sort: Option<string>, order: Option<string>)

  const DefaultPage := 1
  const DefaultLimit := 20

  /** An absent page or limit takes its default; a given one must be in range. */
  function ParsePage(page: Option<real>): (r: Option<int>)
    ensures page.None? ==> r == Some(DefaultPage)
    ensures page.Some? ==> (r.Some? <==> PositiveInt(page.value))
    ensures r.Some? ==> r.value >= 1
    ensures r.Some? && page.Some? ==> r.value as real == page.value
  {
    if page.None? then Some(DefaultPage)
    else if PositiveInt(page.value) then Some(page.value.Floor)
    else None
  }

  function ParseLimit(limit: Option<real>): (r: Option<int>)
    ensures limit.None? ==> r == Some(DefaultLimit)
    ensures limit.Some? ==> (r.Some? <==> LimitedInt(limit.value))
    ensures r.Some? ==> 1 <= r.value <= 100
    ensures r.Some? && limit.Some? ==> r.value as real == limit.value
  {
    if limit.None? then Some(DefaultLimit)
    else if LimitedInt(limit.value) then Some(limit.value.Floor)
    else None
  }

  /** The item list query: filters are non-empty when given, and sort and order come from fixed sets. */
  function ParseListItems(input: ListItemsInput): (r: Option<ListItemsQuery>)
    ensures r.Some? ==> 1 <= r.value.page && 1 <= r.value.limit <= 100
    ensures r.Some? ==> r.value.sort.None? || r.value.sort.value in {"created_at", "name"}
    ensures r.Some? ==> r.value.order.None? || r.value.order.value in {"asc", "desc"}
    ensures r.Some? && input.page.None? ==> r.value.page == 1
    ensures r.Some? && input.limit.None? ==> r.value.limit == 20
    ensures r.Some? <==> ParsePage(input.page).Some? && ParseLimit(input.limit).Some?
                         && (input.category.None? || input.category.value != "")
                         && (input.rarity.None? || input.rarity.value != "")
                         && (input.search.None? || input.search.value != "")
                         && (input.sort.None? || input.sort.value in {"created_at", "name"})
                         && (input.order.None? || input.order.value in {"asc", "desc"})
  {
    var page := ParsePage(input.page);
    var limit := ParseLimit(input.limit);
    if page.None? || limit.None? then None
    else if (input.category.Some? && input.category.value == "")
         || (input.rarity.Some? && input.rarity.value == "")
         || (input.search.Some? && input.search.value == "") then None
    else if input.sort.Some? && input.sort.value !in {"created_at", "name"} then None
    else if input.order.Some? && input.order.value !in {"asc", "desc"} then None
    else Some(ListItemsQuery(page.value, limit.value, input.category, input.rarity, input.search,
                             input.sort, input.order))
  }

  datatype ListPlayersInput = ListPlayersInput(page: Option<real>, limit: Option<real>, search: Option<string>)
  datatype ListPlayersQuery = ListPlayersQuery(page: int, limit: int, search: Option<string>)

  /** The player list query: page and limit as for items, and a non-empty search when given. */
  function ParseListPlayers(input: ListPlayersInput): (r: Option<ListPlayersQuery>)
    ensures r.Some? ==> 1 <= r.value.page && 1 <= r.value.limit <= 100
    ensures r.Some? && input.page.None? ==> r.value.page == 1
    ensures r.Some? && input.limit.None? ==> r.value.limit == 20
    ensures r.Some? <==> ParsePage(input.page).Some? && ParseLimit(input.limit).Some?
                         && (input.search.None? || input.search.value != "")
  {
    var page := ParsePage(input.page);
    var limit := ParseLimit(input.limit);
    if page.None? || limit.None? || (input.search.Some? && input.search.value == "") then None
    else Some(ListPlayersQuery(page.value, limit.value, input.search))
  }

  // ---------------------------------------------------------------------
  // Issues and their formatting
  // ---------------------------------------------------------------------

  /** A step of an issue's path: an object key or an array index. */
  datatype PathSegment = Key(key: string) | Index(index: nat)

  datatype Issue = Issue(path: seq<PathSegment>, message: string)

  /** One field and its message, as the API reports a validation failure. */
  datatype FieldError = FieldError(field: string, message: string)

  function SegmentText(segment: PathSegment): string
  {
    match segment
      case Key(key) => key
      case Index(index) => NatToString(index)
  }

  /** The text of each step of a path, in order. */
  function SegmentTexts(path: seq<PathSegment>): (texts: seq<string>)
    ensures |texts| == |path|
    ensures forall k :: 0 <= k < |path| ==> texts[k] == SegmentText(path[k])
  {
    if |path| == 0 then [] else [SegmentText(path[0])] + SegmentTexts(path[1..])
  }

  /** A path's steps joined with '.'. */
  function FieldOf(path: seq<PathSegment>): string
  {
    Join(SegmentTexts(path), ".")
  }

  /** Each issue, in order, as its joined path and its message. */
  function FormatZodError(issues: seq<Issue>): (errors: seq<FieldError>)
    ensures |errors| == |issues|
    ensures forall k :: 0 <= k < |issues| ==>
              errors[k].message == issues[k].message && errors[k].field == FieldOf(issues[k].path)
  {
    if |issues| == 0 then []
    else [FieldError(FieldOf(issues[0].path), issues[0].message)] + FormatZodError(issues[1..])
  }

  // ---------------------------------------------------------------------
  // Items
  // ---------------------------------------------------------------------

  /** A new item; an absent and a null optional field are both None. */
  datatype CreateItemInput = CreateItemInput(
    name: string, description: Option<string>, category: Option<string>, rarity: Option<string>,
    stackable: Option<bool>, maxStack: Option<real>, iconUrl: Option<string>)

  /** An item update: every field may be absent. */
  datatype UpdateItemInput = UpdateItemInput(
    name: Option<string>, description: Option<string>, category: Option<string>, rarity: Option<string>,
    stackable: Option<bool>, maxStack: Option<real>, iconUrl: Option<string>)

  const MaxStackRequired := Issue([Key("maxStack")], "maxStack is required when stackable is true.")
  const MaxStackMustBeOne := Issue([Key("maxStack")], "maxStack must be 1 when stackable is false.")

  /** JavaScript truthiness of an optional number: absent and 0 are false. */
  predicate Truthy(x: Option<real>)
  {
    x.Some? && x.value != 0.0
  }

  /** The field constraints of a new item, before the stacking rules. */
  predicate CreateFieldsValid(input: CreateItemInput, isUrl: FormatTest)
  {
    && LengthIn(input.name, 1, 120)
    && OptionalLengthIn(input.description, 0, 1000)
    && OptionalLengthIn(input.category, 1, 60)
    && OptionalLengthIn(input.rarity, 1, 60)
    && ValidMaxStack(input.maxStack)
    && (input.iconUrl.None? || isUrl(input.iconUrl.value))
  }

  /** The field constraints of an update, before the stacking rules. */
  predicate UpdateFieldsValid(input: UpdateItemInput, isUrl: FormatTest)
  {
    && OptionalLengthIn(input.name, 1, 120)
    && OptionalLengthIn(input.description, 0, 1000)
    && OptionalLengthIn(input.category, 1, 60)
    && OptionalLengthIn(input.rarity, 1, 60)
    && ValidMaxStack(input.maxStack)
    && (input.iconUrl.None? || isUrl(input.iconUrl.value))
  }

  /** The stacking rules shared by both item schemas, given whether the item is stackable, if that is known. */
  function StackingIssues(stackable: Option<bool>, maxStack: Option<real>): (issues: seq<Issue>)
    ensures |issues| <= 1
    ensures stackable.None? ==> issues == []
    ensures MaxStackRequired in issues <==> stackable == Some(true) && !Truthy(maxStack)
    ensures MaxStackMustBeOne in issues <==> stackable == Some(false) && Truthy(maxStack) && maxStack.value != 1.0
    ensures forall k :: 0 <= k < |issues| ==> issues[k] == MaxStackRequired || issues[k] == MaxStackMustBeOne
  {
    (if stackable == Some(true) && !Truthy(maxStack) then [MaxStackRequired] else [])
    + (if stackable == Some(false) && Truthy(maxStack) && maxStack.value != 1.0 then [MaxStackMustBeOne] else [])
  }

  /** The stacking rules of a new item, which is not stackable unless it says so. */
  function CreateRefineIssues(input: CreateItemInput): seq<Issue>
  {
    StackingIssues(Some(input.stackable.GetOr(false)), input.maxStack)
  }

  /** The stacking rules of an update, which apply only when stackable is given. */
  function UpdateRefineIssues(input: UpdateItemInput): seq<Issue>
  {
    StackingIssues(input.stackable, input.maxStack)
  }

  predicate CreateItemValid(input: CreateItemInput, isUrl: FormatTest)
  {
    CreateFieldsValid(input, isUrl) && CreateRefineIssues(input) == []
  }

  predicate UpdateItemValid(input: UpdateItemInput, isUrl: FormatTest)
  {
    UpdateFieldsValid(input, isUrl) && UpdateRefineIssues(input) == []
  }

  // ---------------------------------------------------------------------
  // Players, chat
  // ---------------------------------------------------------------------

  datatype UpdatePlayerInput = UpdatePlayerInput(displayName: Option<string>, score: Option<real>, level: Option<real>)

  /** A display name of 1 to 120 characters, a score that is a non-negative integer and a level of at least 1. */
  predicate UpdatePlayerValid(input: UpdatePlayerInput)
  {
    && OptionalLengthIn(input.displayName, 1, 120)
    && (input.score.None? || (IsInteger(input.score.value) && input.score.value >= 0.0))
    && (input.level.None? || PositiveInt(input.level.value))
  }

  datatype CreateChatSessionInput = CreateChatSessionInput(title: Option<string>)

  predicate CreateChatSessionValid(input: CreateChatSessionInput)
  {
    OptionalLengthIn(input.title, 1, 255)
  }

  datatype ImageInput = ImageInput(data: string, mimeType: string)
  datatype SendMessageInput = SendMessageInput(content: string, images: Option<seq<ImageInput>>)

  const ImageMimeTypes: set<string> := {"image/png", "image/jpeg", "image/webp"}

  /** Content of 1 to 10000 characters and at most four images of the accepted types. */
  predicate SendMessageValid(input: SendMessageInput)
  {
    && LengthIn(input.content, 1, 10000)
    && (input.images.None? ||
        (|input.images.value| <= 4
         && forall k :: 0 <= k < |input.images.value| ==> input.images.value[k].mimeType in ImageMimeTypes))
  }

  // ---------------------------------------------------------------------
  // Properties
  // ---------------------------------------------------------------------

  /** With valid fields, a new item is accepted exactly when a stackable one gives maxStack and any other gives none or 1. */
  lemma CreateStackingRule(input: CreateItemInput, isUrl: FormatTest)
    requires CreateFieldsValid(input, isUrl)
    ensures CreateItemValid(input, isUrl) <==>
              if input.stackable.GetOr(false) then input.maxStack.Some?
              else input.maxStack.None? || input.maxStack.value == 1.0
  {
    var issues := CreateRefineIssues(input);
    if issues != [] {
      assert issues[0] in issues;
    }
  }

  /** An update that does not say whether the item is stackable passes the stacking rules whatever maxStack is. */
  lemma UpdateRulesNeedExplicitStackable(input: UpdateItemInput)
    requires input.stackable.None?
    ensures UpdateRefineIssues(input) == []
  {
  }

  /** An update stating stackable is held to the same rule as a new item. */
  lemma UpdateStackingRule(input: UpdateItemInput, isUrl: FormatTest)
    requires UpdateFieldsValid(input, isUrl) && input.stackable.Some?
    ensures UpdateItemValid(input, isUrl) <==>
              if input.stackable.value then input.maxStack.Some?
              else input.maxStack.None? || input.maxStack.value == 1.0
  {
    var issues := UpdateRefineIssues(input);
    if issues != [] {
      assert issues[0] in issues;
    }
  }

  /** A stacking issue is reported on the field "maxStack". */
  lemma StackingIssuesOnMaxStack(stackable: Option<bool>, maxStack: Option<real>)
    ensures FormatZodError(StackingIssues(stackable, maxStack)) ==
              if stackable == Some(true) && !Truthy(maxStack) then
                [FieldError("maxStack", "maxStack is required when stackable is true.")]
              else if stackable == Some(false) && Truthy(maxStack) && maxStack.value != 1.0 then
                [FieldError("maxStack", "maxStack must be 1 when stackable is false.")]
              else []
  {
    assert FieldOf([Key("maxStack")]) == "maxStack";
  }

  /**
   * The reported field splits back into the path's steps when no key holds
   * a '.'; an index is written in decimal and never holds one.
   */
  lemma FieldSplitsIntoPath(path: seq<PathSegment>)
    requires |path| >= 1
    requires forall k :: 0 <= k < |path| && path[k].Key? ==> '.' !in path[k].key
    ensures Split(FieldOf(path), '.') == SegmentTexts(path)
  {
    var texts := SegmentTexts(path);
    forall k | 0 <= k < |texts| ensures '.' !in texts[k] {
    }
    SplitJoin(texts, '.');
  }
}
