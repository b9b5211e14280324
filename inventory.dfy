/** The inventory handlers' decisions: create and update with unique names
    and merge defaults, delete, the low-stock and full listings, and the
    validation of an SMS order (which never touches stock). */
module Inventory {
  import opened Common
  import opened Seqs
  import opened Text
  import opened Records

  /** No two items share a name (the create and update handlers keep this). */
  predicate NamesUnique(items: seq<InventoryItem>)
  {
    forall i, j | 0 <= i < j < |items| :: items[i].name != items[j].name
  }

  predicate NameTaken(items: seq<InventoryItem>, name: string)
  {
    exists i | 0 <= i < |items| :: items[i].name == name
  }

  /** A request body of the create and update handlers; a field is None when absent. */
  datatype ItemRequest = ItemRequest(
    name: Option<string>,
    partNumber: Option<string>,
    supplier: Option<string>,
    quantity: Option<int>,
    unit: Option<string>,
    costPrice: Option<int>,
    salePrice: Option<int>,
    lowStockThreshold: Option<int>)

  /** `n || fallback` on a number: zero or absent takes the fallback. */
  function NumberOr(n: Option<int>, fallback: int): (r: int)
    ensures GivenNumber(n) ==> r == n.value
    ensures !GivenNumber(n) ==> r == fallback
  {
    if GivenNumber(n) then n.value else fallback
  }

  /** `field !== undefined ? field : old`. */
  function Provided<T>(n: Option<T>, current: T): (r: T)
    ensures n.Some? ==> r == n.value
    ensures n.None? ==> r == current
  {
    if n.Some? then n.value else current
  }

  /** `createInventoryItem`: a name and non-zero prices are required, the
      name must be new; quantity defaults to 0, unit to "units" and a zero or
      absent threshold to 5. */
  function CreateItem(items: seq<InventoryItem>, req: ItemRequest, id: Id): (r: Result<InventoryItem>)
    ensures r == Err(BadRequest) <==>
              !Given(req.name) || !GivenNumber(req.costPrice) || !GivenNumber(req.salePrice)
              || NameTaken(items, req.name.value)
    ensures r.Ok? || r == Err(BadRequest)
    ensures r.Ok? ==>
              && r.value.id == id && r.value.name == req.name.value
              && r.value.partNumber == req.partNumber && r.value.supplier == req.supplier
              && r.value.costPrice == req.costPrice.value && r.value.salePrice == req.salePrice.value
              && r.value.quantity == (if GivenNumber(req.quantity) then req.quantity.value else 0)
              && r.value.unit == (if Given(req.unit) then req.unit.value else "units")
              && r.value.lowStockThreshold == (if GivenNumber(req.lowStockThreshold) then req.lowStockThreshold.value else 5)
  {
    if !Given(req.name) || !GivenNumber(req.costPrice) || !GivenNumber(req.salePrice) then Err(BadRequest)
    else if NameTaken(items, req.name.value) then Err(BadRequest)
    else
      Ok(InventoryItem(id, req.name.value, req.partNumber, req.supplier, NumberOr(req.quantity, 0),
                       OrElse(req.unit, "units"), req.costPrice.value, req.salePrice.value,
                       NumberOr(req.lowStockThreshold, 5)))
  }

  /** A created item keeps names unique and non-empty. */
  lemma CreateKeepsNamesUnique(items: seq<InventoryItem>, req: ItemRequest, id: Id)
    requires NamesUnique(items)
    requires CreateItem(items, req, id).Ok?
    ensures NamesUnique(items + [CreateItem(items, req, id).value])
    ensures CreateItem(items, req, id).value.name != ""
  {
    var s := items + [CreateItem(items, req, id).value];
    forall i, j | 0 <= i < j < |s| ensures s[i].name != s[j].name {
      if j == |items| {
        assert s[i] == items[i];
      }
    }
  }

  /** The merge of `updateInventoryItem`: name and unit replaced when truthy,
      the other fields whenever supplied (a supplied 0 is kept). */
  function MergeItem(item: InventoryItem, req: ItemRequest): (r: InventoryItem)
    ensures r.id == item.id
    ensures r.name == (if Given(req.name) then req.name.value else item.name)
    ensures r.unit == (if Given(req.unit) then req.unit.value else item.unit)
    ensures r.partNumber == (if req.partNumber.Some? then req.partNumber else item.partNumber)
    ensures r.supplier == (if req.supplier.Some? then req.supplier else item.supplier)
    ensures r.quantity == (if req.quantity.Some? then req.quantity.value else item.quantity)
    ensures r.costPrice == (if req.costPrice.Some? then req.costPrice.value else item.costPrice)
    ensures r.salePrice == (if req.salePrice.Some? then req.salePrice.value else item.salePrice)
    ensures r.lowStockThreshold == (if req.lowStockThreshold.Some? then req.lowStockThreshold.value else item.lowStockThreshold)
  {
    item.(name := OrElse(req.name, item.name),
          partNumber := if req.partNumber.Some? then req.partNumber else item.partNumber,
          supplier := if req.supplier.Some? then req.supplier else item.supplier,
          quantity := Provided(req.quantity, item.quantity),
          unit := OrElse(req.unit, item.unit),
          costPrice := Provided(req.costPrice, item.costPrice),
          salePrice := Provided(req.salePrice, item.salePrice),
          lowStockThreshold := Provided(req.lowStockThreshold, item.lowStockThreshold))
  }

  /** An empty request changes nothing. */
  lemma MergeEmptyIsIdentity(item: InventoryItem)
    ensures MergeItem(item, ItemRequest(None, None, None, None, None, None, None, None)) == item
  {
  }

  /** `updateInventoryItem`: 404 for an unknown id; a new name already used
      by an item gives 400; otherwise the merged item. */
  function UpdateItem(items: seq<InventoryItem>, id: Id, req: ItemRequest): (r: Result<InventoryItem>)
    ensures r == Err(NotFound) <==> Lookup(items, ItemId, id).None?
    ensures r == Err(BadRequest) <==>
              && Lookup(items, ItemId, id).Some?
              && Given(req.name) && req.name.value != Lookup(items, ItemId, id).value.name
              && NameTaken(items, req.name.value)
    ensures r.Ok? <==>
              && Lookup(items, ItemId, id).Some?
              && !(Given(req.name) && req.name.value != Lookup(items, ItemId, id).value.name
                   && NameTaken(items, req.name.value))
    ensures r.Ok? ==> r == Ok(MergeItem(Lookup(items, ItemId, id).value, req))
  {
    match Lookup(items, ItemId, id)
    case None => Err(NotFound)
    case Some(item) =>
      if Given(req.name) && req.name.value != item.name && NameTaken(items, req.name.value) then Err(BadRequest)
      else Ok(MergeItem(item, req))
  }

  /** Updating the item at position `k` keeps names unique. */
  lemma UpdateKeepsNamesUnique(items: seq<InventoryItem>, k: nat, req: ItemRequest)
    requires NamesUnique(items) && DistinctKeys(items, ItemId) && k < |items|
    requires UpdateItem(items, items[k].id, req).Ok?
    ensures NamesUnique(items[k := UpdateItem(items, items[k].id, req).value])
  {
    IndexOfDistinct(items, ItemId, k);
    var n := UpdateItem(items, items[k].id, req).value;
    var s := items[k := n];
    forall i, j | 0 <= i < j < |s| ensures s[i].name != s[j].name {
      if i == k && n.name != items[k].name {
        assert items[j].name == s[j].name;
      } else if j == k && n.name != items[k].name {
        assert items[i].name == s[i].name;
      }
    }
  }

  /** `deleteInventoryItem`: 404 for an unknown id, else the item to remove. */
  function DeleteItem(items: seq<InventoryItem>, id: Id): (r: Result<InventoryItem>)
    ensures r == Err(NotFound) <==> forall j | 0 <= j < |items| :: items[j].id != id
    ensures r.Ok? ==> r.value in items && r.value.id == id
    ensures r.Ok? || r == Err(NotFound)
  {
    match Lookup(items, ItemId, id)
    case None => Err(NotFound)
    case Some(item) => Ok(item)
  }

  /** `getLowStock`: exactly the items at or below their threshold, fewest first. */
  predicate QuantityLe(a: InventoryItem, b: InventoryItem)
  {
    a.quantity <= b.quantity
  }

  predicate NameLe(a: InventoryItem, b: InventoryItem)
  {
    StrLe(a.name, b.name)
  }

  lemma ItemOrdersTotal()
    ensures TotalPreorder(QuantityLe) && TotalPreorder(NameLe)
  {
    forall a: InventoryItem, b: InventoryItem ensures NameLe(a, b) || NameLe(b, a) {
      StrLeTotal(a.name, b.name);
    }
    forall a: InventoryItem, b: InventoryItem, c: InventoryItem | NameLe(a, b) && NameLe(b, c)
      ensures NameLe(a, c)
    {
      StrLeTransitive(a.name, b.name, c.name);
    }
  }

  function LowStock(items: seq<InventoryItem>): (r: seq<InventoryItem>)
    ensures forall x :: x in r <==> x in items && x.quantity <= x.lowStockThreshold
    ensures SortedBy(r, QuantityLe)
    ensures multiset(r) == multiset(Filter(items, IsLowStock))
  {
    ItemOrdersTotal();
    var low := Filter(items, IsLowStock);
    SortByMembers(low, QuantityLe);
    SortBy(low, QuantityLe)
  }

  /** `getInventory`: every item, by name. */
  function AllItems(items: seq<InventoryItem>): (r: seq<InventoryItem>)
    ensures multiset(r) == multiset(items)
    ensures SortedBy(r, NameLe)
  {
    ItemOrdersTotal();
    SortBy(items, NameLe)
  }

  /** `sendOrder`: the item must exist, then an order quantity and a phone
      number are required; `smsSent` is whether the SMS gateway accepted the
      message (a failure answers 500). Stock is never changed: the result is
      the item as stored. */
  function SendOrder(found: Option<InventoryItem>, orderQuantity: Option<int>, phoneNumber: Option<string>,
                     smsSent: bool): (r: Result<InventoryItem>)
    ensures found.None? ==> r == Err(NotFound)
    ensures found.Some? && (!GivenNumber(orderQuantity) || !Given(phoneNumber)) ==> r == Err(BadRequest)
    ensures r.Ok? <==> found.Some? && GivenNumber(orderQuantity) && Given(phoneNumber) && smsSent
    ensures found.Some? && GivenNumber(orderQuantity) && Given(phoneNumber) && !smsSent ==> r == Err(ServerError)
    ensures r.Ok? ==> r.value == found.value
  {
    match found
    case None => Err(NotFound)
    case Some(item) =>
      if !GivenNumber(orderQuantity) || !Given(phoneNumber) then Err(BadRequest)
      else if !smsSent then Err(ServerError)
      else Ok(item)
  }
}
