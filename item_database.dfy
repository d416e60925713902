/**
 * The item database: a serialized list of item definitions and an id index
 * built from it on first use. The first definition of a duplicated id wins;
 * entries without a definition or with a blank id are skipped.
 */
module ItemDatabases {
  import opened Wrappers
  import opened InventorySlots

  /** The characters .NET treats as white space (the Unicode White_Space property). */
  predicate IsWhiteSpace(c: char)
  {
    || c == ' ' || ('\t' <= c <= '\r')
    || c == '\U{85}' || c == '\U{A0}' || c == '\U{1680}'
    || ('\U{2000}' <= c <= '\U{200A}')
    || c == '\U{2028}' || c == '\U{2029}' || c == '\U{202F}' || c == '\U{205F}' || c == '\U{3000}'
  }

  /** Null, empty or only white space; a null string is modelled as the empty one. */
  predicate IsBlank(s: string)
  {
    forall i :: 0 <= i < |s| ==> IsWhiteSpace(s[i])
  }

  /** The index built from the first k list entries. */
  function IndexUpTo(items: seq<Option<ItemDef>>, k: nat): (index: map<string, ItemDef>)
    requires k <= |items|
    ensures forall id :: id in index ==> index[id].id == id && !IsBlank(id)
    decreases k
  {
    if k == 0 then map[]
    else
      var index := IndexUpTo(items, k - 1);
      var entry := items[k - 1];
      if entry.None? || IsBlank(entry.value.id) || entry.value.id in index then index
      else index[entry.value.id := entry.value]
  }

  /** The index of the whole list. */
  function IndexOf(items: seq<Option<ItemDef>>): map<string, ItemDef>
  {
    IndexUpTo(items, |items|)
  }

  /** A list entry holding a definition with this id. */
  predicate Defines(items: seq<Option<ItemDef>>, j: int, id: string)
  {
    0 <= j < |items| && items[j].Some? && items[j].value.id == id
  }

  /** Looking an id up: blank ids and unknown ids find nothing. */
  function Lookup(index: map<string, ItemDef>, id: string): (r: Option<ItemDef>)
    ensures r.Some? <==> !IsBlank(id) && id in index
    ensures r.Some? ==> r.value == index[id]
  {
    if IsBlank(id) then None
    else if id in index then Some(index[id])
    else None
  }

  class ItemDatabase {
    var items: seq<Option<ItemDef>>
    var byId: map<string, ItemDef>
    var initialized: bool

    constructor(items: seq<Option<ItemDef>>)
      ensures this.items == items && byId == map[] && !initialized
    {
      this.items := items;
      byId := map[];
      initialized := false;
    }

    /** The index a lookup consults: the built one once initialized, otherwise the one the next build produces. */
    ghost function Resolver(): map<string, ItemDef>
      reads this
    {
      if initialized then byId else IndexOf(items)
    }

    /** Builds the index from the list, unless it was built already. */
    method Initialize()
      modifies this
      ensures initialized && items == old(items)
      ensures byId == if old(initialized) then old(byId) else IndexOf(items)
    {
      if initialized {
        return;
      }
      byId := map[];
      for i := 0 to |items|
        invariant items == old(items)
        invariant byId == IndexUpTo(items, i)
      {
        var entry := items[i];
        if entry.Some? && !IsBlank(entry.value.id) && entry.value.id !in byId {
          byId := byId[entry.value.id := entry.value];
        }
      }
      initialized := true;
    }

    /** Initializes on first use, then looks the id up. */
    method GetById(id: string) returns (item: Option<ItemDef>)
      modifies this
      ensures initialized && items == old(items)
      ensures old(initialized) ==> byId == old(byId)
      ensures Resolver() == old(Resolver())
      ensures item == Lookup(old(Resolver()), id)
    {
      if !initialized {
        Initialize();
      }
      if IsBlank(id) {
        return None;
      }
      item := if id in byId then Some(byId[id]) else None;
    }

    /** The editor hook: forgets that the index was built, so the next lookup rebuilds it from the list. */
    method OnValidate()
      modifies this
      ensures !initialized && items == old(items) && byId == old(byId)
      ensures Resolver() == IndexOf(items)
    {
      initialized := false;
    }
  }

  /**
   * The index holds exactly the non-blank ids some entry defines, and maps
   * each to the first entry that defines it.
   */
  lemma {:induction false} IndexFirstWins(items: seq<Option<ItemDef>>, k: nat, id: string)
    requires k <= |items|
    ensures id in IndexUpTo(items, k) <==> !IsBlank(id) && exists j :: 0 <= j < k && Defines(items, j, id)
    ensures forall j :: 0 <= j < k && Defines(items, j, id) && !IsBlank(id)
                        && (forall i :: 0 <= i < j ==> !Defines(items, i, id))
                        ==> IndexUpTo(items, k)[id] == items[j].value
    decreases k
  {
    if k > 0 {
      IndexFirstWins(items, k - 1, id);
      if Defines(items, k - 1, id) && !IsBlank(id) {
        assert id in IndexUpTo(items, k);
      }
    }
  }

  /** A lookup finds a definition with exactly the id asked for, the first such in list order. */
  lemma LookupFindsFirst(items: seq<Option<ItemDef>>, id: string, j: int)
    requires Defines(items, j, id) && !IsBlank(id)
    requires forall i :: 0 <= i < j ==> !Defines(items, i, id)
    ensures Lookup(IndexOf(items), id) == items[j]
  {
    IndexFirstWins(items, |items|, id);
  }

  /** An id no entry defines, or a blank one, finds nothing. */
  lemma LookupMissesUndefined(items: seq<Option<ItemDef>>, id: string)
    requires IsBlank(id) || forall j :: 0 <= j < |items| ==> !Defines(items, j, id)
    ensures Lookup(IndexOf(items), id) == None
  {
    IndexFirstWins(items, |items|, id);
  }
}
