/**
 * The arithmetic of the admin list routes: the row range a page asks the
 * database for, the page count reported with it, and the ordering; and the
 * stack size the item creation route stores.
 */
module AdminRoutes {
  import opened Wrappers
  import opened Schemas

  /** The rows of a page, both ends included, counted from 0. */
  datatype RowRange = RowRange(from: int, to: int)

  function PaginationRange(page: int, limit: int): (r: RowRange)
    ensures r.to - r.from + 1 == limit
  {
    var from := (page - 1) * limit;
    RowRange(from, from + limit - 1)
  }

  /** The number of pages for a count: a count that is absent or 0 gives none, otherwise the count over the limit, rounded up. */
  function TotalPages(count: Option<nat>, limit: int): (pages: nat)
    requires limit >= 1
    ensures count.None? || count.value == 0 <==> pages == 0
    ensures count.Some? ==> (pages - 1) * limit < count.value <= pages * limit
  {
    var totalCount := count.GetOr(0);
    if totalCount == 0 then 0
    else
      var pages := (totalCount + limit - 1) / limit;
      assert pages * limit <= totalCount + limit - 1 < pages * limit + limit;
      pages
  }

  /** The pagination figures the list routes report next to the rows. */
  datatype ListMeta = ListMeta(page: int, limit: int, totalCount: nat, totalPages: nat)

  function ListMetaOf(page: int, limit: int, count: Option<nat>): (meta: ListMeta)
    requires limit >= 1
    ensures meta.page == page && meta.limit == limit && meta.totalCount == count.GetOr(0)
    ensures meta.totalPages == 0 <==> meta.totalCount == 0
    ensures forall row: nat :: row < meta.totalCount ==> 1 <= row / limit + 1 <= meta.totalPages
    ensures meta.totalPages >= 1 ==> PaginationRange(meta.totalPages, limit).from < meta.totalCount
  {
    var totalCount := count.GetOr(0);
    assert forall row: nat | row < totalCount :: 1 <= row / limit + 1 <= TotalPages(count, limit) by {
      forall row: nat | row < totalCount
        ensures 1 <= row / limit + 1 <= TotalPages(count, limit)
      {
        PageCountCoversRows(totalCount, limit, row);
      }
    }
    if totalCount > 0 then
      PageCountCoversRows(totalCount, limit, 0);
      ListMeta(page, limit, totalCount, TotalPages(count, limit))
    else
      ListMeta(page, limit, totalCount, TotalPages(count, limit))
  }

  /** A column and a direction to order rows by. */
  datatype Ordering = Ordering(column: string, ascending: bool)

  /** Items are ordered by the requested column, by default the creation time, and newest first unless "asc" is asked for. */
  function ItemsOrdering(sort: Option<string>, order: Option<string>): (o: Ordering)
    ensures sort.None? ==> o.column == "created_at"
    ensures sort.Some? ==> o.column == sort.value
    ensures o.ascending <==> order == Some("asc")
  {
    Ordering(sort.GetOr("created_at"), order.GetOr("desc") == "asc")
  }

  /** Players are always listed newest first. */
  const PlayersOrdering := Ordering("created_at", false)

  /** The stored stack size: the requested one for a stackable item, 1 when none is given, and always 1 otherwise. */
  function StoredMaxStack(stackable: bool, maxStack: Option<real>): (stored: int)
    ensures !stackable ==> stored == 1
    ensures stackable && maxStack.None? ==> stored == 1
    ensures stackable && maxStack.Some? ==> stored == maxStack.value.Floor
  {
    if stackable then (if maxStack.Some? then maxStack.value.Floor else 1) else 1
  }

  /** The stack size a validated creation request stores. */
  function CreatedMaxStack(input: CreateItemInput): int
  {
    StoredMaxStack(input.stackable.GetOr(false), input.maxStack)
  }

  // ---------------------------------------------------------------------
  // Properties
  // ---------------------------------------------------------------------

  /** Page 1 starts at row 0, and each page starts right after the one before it. */
  lemma PagesAreContiguous(page: int, limit: int)
    ensures PaginationRange(1, limit).from == 0
    ensures PaginationRange(page + 1, limit).from == PaginationRange(page, limit).to + 1
  {
  }

  /** With a positive limit, every row lies on exactly one page: the one its index over the limit, plus one, names. */
  lemma RowOnExactlyOnePage(row: nat, page: int, limit: int)
    requires limit >= 1
    ensures PaginationRange(page, limit).from <= row <= PaginationRange(page, limit).to <==> page == row / limit + 1
  {
    var r := PaginationRange(page, limit);
    var q := row / limit;
    assert q * limit <= row < q * limit + limit;
    if page <= q {
      assert (page - 1) * limit + limit <= q * limit;
    } else if page > q + 1 {
      assert (page - 1) * limit >= (q + 1) * limit;
    }
  }

  /** Every counted row lies on a page from 1 to the page count, and the last page is not empty. */
  lemma PageCountCoversRows(count: nat, limit: int, row: nat)
    requires limit >= 1 && row < count
    ensures 1 <= row / limit + 1 <= TotalPages(Some(count), limit)
    ensures PaginationRange(TotalPages(Some(count), limit), limit).from < count
  {
    var pages := TotalPages(Some(count), limit);
    var q := row / limit;
    assert q * limit <= row < count <= pages * limit;
    ScaledOrder(q, pages, limit);
  }

  /** Scaling by a positive factor keeps a strict order. */
  lemma ScaledOrder(a: int, b: int, factor: int)
    requires factor >= 1 && a * factor < b * factor
    ensures a < b
  {
  }

  /** The default item ordering lists the newest first, as the player list always does. */
  lemma DefaultOrderingsAgree()
    ensures ItemsOrdering(None, None) == PlayersOrdering
  {
  }

  /** Every ordering a valid item query can ask for is by creation time or by name. */
  lemma ParsedQueryOrdersByKnownColumn(input: ListItemsInput)
    requires ParseListItems(input).Some?
    ensures ItemsOrdering(ParseListItems(input).value.sort, ParseListItems(input).value.order).column in {"created_at", "name"}
  {
  }

  /** For a valid creation request, the stored stack size is the one requested, or 1 when none was, and lies in [1, 999]. */
  lemma CreatedMaxStackAsRequested(input: CreateItemInput, isUrl: FormatTest)
    requires CreateItemValid(input, isUrl)
    ensures input.maxStack.Some? ==> CreatedMaxStack(input) as real == input.maxStack.value
    ensures input.maxStack.None? ==> CreatedMaxStack(input) == 1
    ensures 1 <= CreatedMaxStack(input) <= 999
  {
    CreateStackingRule(input, isUrl);
  }
}
