/** The store editor's pending-change tracker: the local copy of the store's
    product and service lists, the item form, and the two queues handed to
    the owner's update on submit (items to save, items to delete). */
module StoreEditor {
  import opened Common
  import opened Text
  import opened Seqs

  /** An item id as the editor sees it: a number given by the backend, a
      string (the "temp-" id of an item not saved yet) or null. */
  datatype ItemId = NumId(n: int) | StrId(s: string) | NoId

  /** The item form. The list entries are modelled by the same record: the
      text fields stand for the numbers they are parsed into. */
  datatype Item = Item(
    name: string,
    price: string,
    description: string,
    kind: string,
    stockQuantity: string,
    capacity: string,
    durationMinutes: string,
    id: ItemId)

  /** An entry of the deletion queue: `{id, type}`. */
  datatype Deletion = Deletion(id: ItemId, kind: string)

  const TempPrefix := "temp-"

  /** The id a new item gets, from the current time in milliseconds. */
  function TempId(now: int): ItemId {
    StrId(TempPrefix + IntToString(now))
  }

  /** The empty form for a new item of the given type. */
  function NewForm(kind: string, now: int): (f: Item)
    ensures f.kind == kind && f.id.StrId? && StartsWith(f.id.s, TempPrefix)
    ensures f.name == "" && f.price == "" && f.description == ""
    ensures f.stockQuantity == "" && f.capacity == "" && f.durationMinutes == ""
  {
    Item("", "", "", kind, "", "", "", TempId(now))
  }

  /** Whether a deleted id is sent to the backend: it must be truthy (not 0,
      not "" and not null) and be a number or a string that is not a
      "temp-" id. */
  predicate Queued(id: ItemId) {
    match id
    case NumId(n) => n != 0
    case StrId(s) => s != "" && !StartsWith(s, TempPrefix)
    case NoId => false
  }

  /** A new item's id is never queued for deletion. */
  lemma TempNeverQueued(now: int)
    ensures !Queued(TempId(now))
  {
    var s := TempPrefix + IntToString(now);
    assert s[..|TempPrefix|] == TempPrefix;
  }

  // ---------------------------------------------------------------------------
  // The item lists

  predicate HasId(items: seq<Item>, id: ItemId) {
    exists j :: 0 <= j < |items| && items[j].id == id
  }

  /** No two entries share an id. */
  predicate UniqueIds(items: seq<Item>) {
    forall i, j :: 0 <= i < j < |items| ==> items[i].id != items[j].id
  }

  /** Array.prototype.findIndex on the id: the first position holding that
      id, or -1. */
  function FindIndex(items: seq<Item>, id: ItemId): (r: int)
    ensures -1 <= r < |items|
    ensures r >= 0 ==> items[r].id == id && forall j :: 0 <= j < r ==> items[j].id != id
    ensures r == -1 <==> !HasId(items, id)
  {
    if items == [] then -1
    else if items[0].id == id then 0
    else
      var k := FindIndex(items[1..], id);
      if k == -1 then -1 else k + 1
  }

  /** Saving into a list: the first entry with the item's id is replaced in
      place; with no such entry the item is appended. */
  function Upsert(items: seq<Item>, item: Item): (r: seq<Item>)
    ensures !HasId(items, item.id) ==> r == items + [item]
    ensures HasId(items, item.id) ==>
      exists k :: 0 <= k < |items| && items[k].id == item.id &&
        (forall j :: 0 <= j < k ==> items[j].id != item.id) && r == items[k := item]
  {
    var index := FindIndex(items, item.id);
    if index > -1 then items[index := item] else items + [item]
  }

  /** Saving keeps ids unique, and the saved item is then the only entry
      with its id. */
  lemma UpsertUnique(items: seq<Item>, item: Item)
    requires UniqueIds(items)
    ensures UniqueIds(Upsert(items, item))
    ensures item in Upsert(items, item)
    ensures forall x :: x in Upsert(items, item) && x.id == item.id ==> x == item
    ensures |items| <= |Upsert(items, item)| <= |items| + 1
  {
    var r := Upsert(items, item);
    if HasId(items, item.id) {
      var k := FindIndex(items, item.id);
      assert r == items[k := item];
      assert r[k] == item;
    } else {
      assert r == items + [item];
    }
  }

  /** Deleting from a list: every entry with that id goes. */
  function WithoutId(items: seq<Item>, id: ItemId): (r: seq<Item>) {
    Filter(items, (i: Item) => i.id != id)
  }

  /** After a delete no entry has the id, every entry with another id is
      still there, and the order is kept. */
  lemma WithoutIdProperties(items: seq<Item>, id: ItemId)
    ensures !HasId(WithoutId(items, id), id)
    ensures forall x :: x in items && x.id != id ==> x in WithoutId(items, id)
    ensures forall x :: x in WithoutId(items, id) ==> x in items
    ensures IsSubsequence(WithoutId(items, id), items)
  {
    var p := (i: Item) => i.id != id;
    FilterAll(items, p);
    forall x | x in items || x in WithoutId(items, id)
      ensures x in WithoutId(items, id) <==> x in items && x.id != id
    {
      FilterMembership(items, p, x);
    }
    FilterIsSubsequence(items, p);
  }

  /** Deleting the id of an item just saved undoes the save on the list. */
  lemma {:induction false} DeleteUndoesUpsert(items: seq<Item>, item: Item)
    ensures WithoutId(Upsert(items, item), item.id) == WithoutId(items, item.id)
  {
    var p := (i: Item) => i.id != item.id;
    if HasId(items, item.id) {
      var k := FindIndex(items, item.id);
      FilterReplaceDropped(items, k, item, p);
    } else {
      FilterAppend(items, [item], p);
      assert Filter([item], p) == [];
    }
  }

  // ---------------------------------------------------------------------------
  // The save queue

  /** At most one entry per (id, type). */
  predicate OnePerKey(q: seq<Item>) {
    forall i, j :: 0 <= i < j < |q| ==> !(q[i].id == q[j].id && q[i].kind == q[j].kind)
  }

  /** The queue without the entries for (id, type). */
  function Unqueue(q: seq<Item>, id: ItemId, kind: string): (r: seq<Item>) {
    Filter(q, (e: Item) => !(e.id == id && e.kind == kind))
  }

  /** A re-save drops the earlier entry for the form's (id, type) and appends
      the form. */
  function Requeue(q: seq<Item>, form: Item): (r: seq<Item>) {
    Unqueue(q, form.id, form.kind) + [form]
  }

  /** Removing the entries for a key leaves none for it, keeps the rest in
      order and keeps the queue one per key. */
  lemma UnqueueProperties(q: seq<Item>, id: ItemId, kind: string)
    requires OnePerKey(q)
    ensures OnePerKey(Unqueue(q, id, kind))
    ensures forall x :: x in Unqueue(q, id, kind) ==> !(x.id == id && x.kind == kind)
    ensures forall x :: x in q && !(x.id == id && x.kind == kind) ==> x in Unqueue(q, id, kind)
    ensures IsSubsequence(Unqueue(q, id, kind), q)
  {
    var p := (e: Item) => !(e.id == id && e.kind == kind);
    UnqueueOnePerKey(q, id, kind);
    forall x ensures x in Unqueue(q, id, kind) <==> x in q && p(x) {
      FilterMembership(q, p, x);
    }
    FilterIsSubsequence(q, p);
  }

  /** Dropping entries keeps the queue one per key. */
  lemma {:induction false} UnqueueOnePerKey(q: seq<Item>, id: ItemId, kind: string)
    requires OnePerKey(q)
    ensures OnePerKey(Unqueue(q, id, kind))
  {
    if q != [] {
      var p := (e: Item) => !(e.id == id && e.kind == kind);
      var rest := q[1..];
      forall i, j | 0 <= i < j < |rest| ensures !(rest[i].id == rest[j].id && rest[i].kind == rest[j].kind) {
        assert rest[i] == q[i + 1] && rest[j] == q[j + 1];
      }
      UnqueueOnePerKey(rest, id, kind);
      var tail := Unqueue(rest, id, kind);
      if p(q[0]) {
        var r := [q[0]] + tail;
        assert Unqueue(q, id, kind) == r;
        forall i, j | 0 <= i < j < |r| ensures !(r[i].id == r[j].id && r[i].kind == r[j].kind) {
          if i == 0 {
            assert r[j] == tail[j - 1];
            FilterMembership(rest, p, r[j]);
            var m :| 0 <= m < |rest| && rest[m] == r[j];
            assert r[j] == q[m + 1];
          } else {
            assert r[i] == tail[i - 1] && r[j] == tail[j - 1];
          }
        }
      } else {
        assert Unqueue(q, id, kind) == tail;
      }
    }
  }

  /** A save keeps the queue one per key, with the form as the last entry and
      the only one for its key. */
  lemma RequeueProperties(q: seq<Item>, form: Item)
    requires OnePerKey(q)
    ensures OnePerKey(Requeue(q, form))
    ensures Requeue(q, form)[|Requeue(q, form)| - 1] == form
    ensures forall x :: x in Requeue(q, form) && x.id == form.id && x.kind == form.kind ==> x == form
  {
    UnqueueProperties(q, form.id, form.kind);
  }

  /** Deleting an item just saved drops its queue entry again. */
  lemma {:induction false} DeleteUndoesRequeue(q: seq<Item>, form: Item)
    ensures Unqueue(Requeue(q, form), form.id, form.kind) == Unqueue(q, form.id, form.kind)
  {
    var p := (e: Item) => !(e.id == form.id && e.kind == form.kind);
    FilterAppend(Unqueue(q, form.id, form.kind), [form], p);
    assert Filter([form], p) == [];
    FilterTwice(q, p);
  }

  /** A new item that is saved and then deleted leaves no trace: the list and
      the save queue are as if it had never been saved, and nothing is queued
      for deletion. */
  lemma NewItemLeavesNoTrace(items: seq<Item>, q: seq<Item>, kind: string, now: int)
    requires !HasId(items, TempId(now))
    requires forall x :: x in q ==> x.id != TempId(now)
    ensures WithoutId(Upsert(items, NewForm(kind, now)), TempId(now)) == items
    ensures Unqueue(Requeue(q, NewForm(kind, now)), TempId(now), kind) == q
    ensures !Queued(TempId(now))
  {
    var f := NewForm(kind, now);
    DeleteUndoesUpsert(items, f);
    FilterKeepsEverything(items, (i: Item) => i.id != f.id);
    DeleteUndoesRequeue(q, f);
    FilterKeepsEverything(q, (e: Item) => !(e.id == f.id && e.kind == f.kind));
    TempNeverQueued(now);
  }

  // ---------------------------------------------------------------------------
  // The editor

  class Editor {
    /** The local store's two item lists; the other store fields are not
        touched by the item handlers. */
    var products: seq<Item>
    var services: seq<Item>
    var itemsToSave: seq<Item>
    var itemsToDelete: seq<Deletion>
    var form: Item
    var showItemModal: bool

    ghost predicate Valid()
      reads this
    {
      OnePerKey(itemsToSave)
    }

    /** The list a type refers to: `products` for 'product', `services` for
        any other type. */
    function ListOf(kind: string): seq<Item>
      reads this
    {
      if kind == "product" then products else services
    }

    constructor(products: seq<Item>, services: seq<Item>)
      ensures Valid()
      ensures this.products == products && this.services == services
      ensures itemsToSave == [] && itemsToDelete == [] && !showItemModal
      ensures form == Item("", "", "", "product", "", "", "", NoId)
    {
      this.products, this.services := products, services;
      itemsToSave, itemsToDelete := [], [];
      form := Item("", "", "", "product", "", "", "", NoId);
      showItemModal := false;
    }

    /** handleOpenItem: the form is filled from an existing item, with the
        type given, or emptied with a fresh "temp-" id taken from the clock. */
    method OpenItem(kind: string, item: Option<Item>, now: int)
      modifies this`form, this`showItemModal
      ensures item.Some? ==> form == item.value.(kind := kind)
      ensures item.None? ==> form == NewForm(kind, now) && !Queued(form.id)
      ensures showItemModal
    {
      if item.Some? {
        form := item.value.(kind := kind);
      } else {
        form := NewForm(kind, now);
        TempNeverQueued(now);
      }
      showItemModal := true;
    }

    /** handleLocalSaveItem: the form is saved into the list of its type, the
        other list is left alone, and the save queue gets the form as its
        only entry for the form's (id, type). */
    method SaveItem()
      requires Valid()
      modifies this`products, this`services, this`itemsToSave, this`showItemModal
      ensures Valid()
      ensures form.kind == "product" ==> products == Upsert(old(products), form) && services == old(services)
      ensures form.kind != "product" ==> services == Upsert(old(services), form) && products == old(products)
      ensures itemsToSave == Requeue(old(itemsToSave), form)
      ensures !showItemModal
    {
      if form.kind == "product" {
        products := Upsert(products, form);
      } else {
        services := Upsert(services, form);
      }
      RequeueProperties(itemsToSave, form);
      itemsToSave := Requeue(itemsToSave, form);
      showItemModal := false;
    }

    /** handleLocalDeleteItem: every entry with the id leaves the list of the
        type, the id is queued for the backend only when Queued says so, and
        any pending save of (id, type) is dropped. */
    method DeleteItem(kind: string, id: ItemId)
      requires Valid()
      modifies this`products, this`services, this`itemsToSave, this`itemsToDelete
      ensures Valid()
      ensures kind == "product" ==> products == WithoutId(old(products), id) && services == old(services)
      ensures kind != "product" ==> services == WithoutId(old(services), id) && products == old(products)
      ensures itemsToDelete == if Queued(id) then old(itemsToDelete) + [Deletion(id, kind)] else old(itemsToDelete)
      ensures itemsToSave == Unqueue(old(itemsToSave), id, kind)
    {
      if kind == "product" {
        products := WithoutId(products, id);
      } else {
        services := WithoutId(services, id);
      }
      if Queued(id) {
        itemsToDelete := itemsToDelete + [Deletion(id, kind)];
      }
      UnqueueProperties(itemsToSave, id, kind);
      itemsToSave := Unqueue(itemsToSave, id, kind);
    }
  }
}
