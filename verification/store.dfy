/** The inventory store: an ordered sequence of items in insertion/load order.
    Ids are not required to be unique; lookup returns the first match, so the
    order of the sequence is observable. */
module Store {
  import opened Wrappers
  import opened Catalog

  datatype StoreError = NotFound | InvalidCategory

  predicate HasId(items: seq<Item>, id: int) {
    exists j :: 0 <= j < |items| && items[j].id == id
  }

  /** The linear scan from position `i` on: the first index at or after `i`
      whose id matches, or -1. */
  function FindFrom(items: seq<Item>, id: int, i: nat): (r: int)
    requires i <= |items|
    ensures r == -1 || i <= r < |items|
    ensures r == -1 <==> forall j :: i <= j < |items| ==> items[j].id != id
    ensures r != -1 ==> items[r].id == id && forall j :: i <= j < r ==> items[j].id != id
    decreases |items| - i
  {
    if i == |items| then -1
    else if items[i].id == id then i
    else FindFrom(items, id, i + 1)
  }

  /** Index of the first item with this id, or -1 when there is none. */
  function FindItem(items: seq<Item>, id: int): (r: int)
    ensures -1 <= r < |items|
    ensures r == -1 <==> !HasId(items, id)
    ensures r >= 0 ==> items[r].id == id && forall j :: 0 <= j < r ==> items[j].id != id
  {
    FindFrom(items, id, 0)
  }

  /** The scan as the program writes it: walk the indices upward and stop at
      the first matching id. */
  method ScanForId(items: seq<Item>, id: int) returns (idx: int)
    ensures idx == FindItem(items, id)
  {
    var i := 0;
    while i < |items|
      invariant 0 <= i <= |items|
      invariant forall j :: 0 <= j < i ==> items[j].id != id
    {
      if items[i].id == id {
        return i;
      }
      i := i + 1;
    }
    return -1;
  }

  /** Two lookups agree whenever the two stores carry the same ids in the
      same positions. */
  lemma FindItemDependsOnlyOnIds(a: seq<Item>, b: seq<Item>, id: int)
    requires |a| == |b|
    requires forall j :: 0 <= j < |a| ==> a[j].id == b[j].id
    ensures FindItem(a, id) == FindItem(b, id)
  {
    assert HasId(a, id) <==> HasId(b, id);
  }

  /** The menu numbering of the add dialogue: 1 Dairy, 2 Frozen Veggies,
      3 Fruits, 4 Cooking Material. */
  function CategoryOfChoice(choice: int): (r: Option<Category>)
    ensures r.Some? <==> 1 <= choice <= 4
  {
    if choice == 1 then Some(Dairy)
    else if choice == 2 then Some(FrozenVeggies)
    else if choice == 3 then Some(Fruits)
    else if choice == 4 then Some(CookingMaterial)
    else None
  }

  /** Appends a new item of the chosen category; an unknown choice adds
      nothing. No duplicate-id check is made. */
  function AddItem(items: seq<Item>, choice: int, id: int, name: string, price: real, qty: int)
    : (r: Result<seq<Item>, StoreError>)
    ensures r.Success? <==> 1 <= choice <= 4
    ensures r.Failure? ==> r.error == InvalidCategory
    ensures r.Success? ==>
      && |r.value| == |items| + 1
      && r.value[..|items|] == items
      && r.value[|items|] == Item(id, name, CategoryOfChoice(choice).value, price, qty)
  {
    match CategoryOfChoice(choice)
    case Some(c) => Success(items + [Item(id, name, c, price, qty)])
    case None => Failure(InvalidCategory)
  }

  /** Adding never disturbs an existing lookup: an item whose id is already in
      use is shadowed by the earlier one, and a fresh id is found at the end. */
  lemma AddedItemLookup(items: seq<Item>, choice: int, id: int, name: string, price: real, qty: int)
    requires 1 <= choice <= 4
    ensures var added := AddItem(items, choice, id, name, price, qty).value;
      && (HasId(items, id) ==> FindItem(added, id) == FindItem(items, id))
      && (!HasId(items, id) ==> FindItem(added, id) == |items|)
  {
    var added := AddItem(items, choice, id, name, price, qty).value;
    assert added[|items|].id == id;
    assert forall j :: 0 <= j < |items| ==> added[j] == items[j];
  }

  /** Edits the first item with this id; every other item stays as it was. */
  function EditItem(items: seq<Item>, id: int, newName: string, newPrice: real, newQty: int)
    : (r: Result<seq<Item>, StoreError>)
    ensures r.Failure? <==> !HasId(items, id)
    ensures r.Failure? ==> r.error == NotFound
    ensures r.Success? ==>
      var k := FindItem(items, id);
      && |r.value| == |items|
      && r.value[k] == Edit(items[k], newName, newPrice, newQty)
      && forall j :: 0 <= j < |items| && j != k ==> r.value[j] == items[j]
  {
    var idx := FindItem(items, id);
    if idx == -1 then Failure(NotFound)
    else Success(items[idx := Edit(items[idx], newName, newPrice, newQty)])
  }

  /** Editing keeps every id and category in place, so later lookups of any
      id land on the same position as before. */
  lemma EditKeepsLookups(items: seq<Item>, id: int, newName: string, newPrice: real, newQty: int, other: int)
    requires HasId(items, id)
    ensures var edited := EditItem(items, id, newName, newPrice, newQty).value;
      && FindItem(edited, other) == FindItem(items, other)
      && forall j :: 0 <= j < |items| ==> edited[j].category == items[j].category
  {
    var edited := EditItem(items, id, newName, newPrice, newQty).value;
    FindItemDependsOnlyOnIds(edited, items, other);
  }

  /** Removes the first item with this id; the others keep their order. */
  function DeleteItem(items: seq<Item>, id: int): (r: Result<seq<Item>, StoreError>)
    ensures r.Failure? <==> !HasId(items, id)
    ensures r.Failure? ==> r.error == NotFound
    ensures r.Success? ==>
      var k := FindItem(items, id);
      && |r.value| == |items| - 1
      && (forall j :: 0 <= j < k ==> r.value[j] == items[j])
      && (forall j :: k <= j < |r.value| ==> r.value[j] == items[j + 1])
      && multiset(r.value) + multiset{items[k]} == multiset(items)
  {
    var idx := FindItem(items, id);
    if idx == -1 then Failure(NotFound)
    else
      assert items == items[..idx] + [items[idx]] + items[idx + 1..];
      Success(items[..idx] + items[idx + 1..])
  }

  /** With a duplicated id, one delete removes only the first holder: the id
      is still present afterwards, now found at the second holder's shifted
      position. */
  lemma DeleteDuplicateKeepsSecond(items: seq<Item>, id: int, i: nat, j: nat)
    requires i < j < |items|
    requires items[i].id == id && items[j].id == id
    requires forall k :: 0 <= k < i ==> items[k].id != id
    requires forall k :: i < k < j ==> items[k].id != id
    ensures DeleteItem(items, id).Success?
    ensures FindItem(DeleteItem(items, id).value, id) == j - 1
  {
    assert HasId(items, id);
    var rest := DeleteItem(items, id).value;
    assert FindItem(items, id) == i;
    assert rest[j - 1] == items[j];
    assert forall k :: 0 <= k < i ==> rest[k] == items[k];
    assert forall k :: i <= k < j - 1 ==> rest[k] == items[k + 1];
  }
}
