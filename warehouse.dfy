/**
 * The warehouse tool: a keyed inventory repository per item category and a
 * manager that owns one repository for electronics and one for groceries.
 *
 * The three exception classes of the tool become the `Error` datatype; an
 * operation that would throw returns `Failed(error)` (or `Err(error)`) and
 * leaves the store as it was.
 */
module Warehouse {

  /** Expiry dates are opaque here: a day number supplied by the caller. */
  type Date = int

  /** The two item categories, each with its own repository and key space. */
  datatype Category = Electronics | Groceries

  /** The two item shapes. `id`, `name` and `quantity` are common to both. */
  datatype Item =
    | Electronic(id: int, name: string, quantity: int, brand: string, warrantyMonths: int)
    | Grocery(id: int, name: string, quantity: int, expiryDate: Date)
  {
    function Kind(): Category {
      if Electronic? then Electronics else Groceries
    }
  }

  /** Failure conditions, carrying the offending id or quantity. */
  datatype Error =
    | DuplicateItem(id: int)
    | ItemNotFound(id: int)
    | InvalidQuantity(quantity: int)

  /** Outcome of an operation that returns nothing on success. */
  datatype Outcome = Done | Failed(error: Error)

  /** Outcome of an operation that returns a value on success. */
  datatype Result<T> = Ok(value: T) | Err(error: Error)

  /** The contents of one repository: id -> item. */
  type Store = map<int, Item>

  /** What an operation did: its outcome and the store afterwards. */
  datatype Step = Step(outcome: Outcome, store: Store)

  /** Every entry is filed under its own id. */
  ghost predicate KeyedById(m: Store) {
    forall k | k in m :: m[k].id == k
  }

  /** Every entry belongs to category `c`. */
  ghost predicate AllOf(m: Store, c: Category) {
    forall k | k in m :: m[k].Kind() == c
  }

  ghost predicate QuantitiesNonNegative(m: Store) {
    forall k | k in m :: m[k].quantity >= 0
  }

  // ---------------------------------------------------------------------------
  // The repository operations as functions of the store
  // ---------------------------------------------------------------------------

  /** AddItem: refuses an id already present, otherwise inserts the item. */
  function AddItemStep(m: Store, item: Item): (r: Step)
    ensures item.id in m ==> r == Step(Failed(DuplicateItem(item.id)), m)
    ensures item.id !in m ==>
      && r.outcome == Done
      && r.store.Keys == m.Keys + {item.id}
      && r.store[item.id] == item
      && (forall k | k in m :: r.store[k] == m[k])
      && |r.store| == |m| + 1
    ensures KeyedById(m) ==> KeyedById(r.store)
  {
    if item.id in m then Step(Failed(DuplicateItem(item.id)), m)
    else Step(Done, m[item.id := item])
  }

  /** GetItemById: the stored item, or not-found. */
  function GetItem(m: Store, id: int): (r: Result<Item>)
    ensures r.Ok? <==> id in m
    ensures r.Ok? ==> r.value == m[id]
    ensures r.Ok? && KeyedById(m) ==> r.value.id == id
    ensures r.Err? ==> r.error == ItemNotFound(id)
  {
    if id in m then Ok(m[id]) else Err(ItemNotFound(id))
  }

  /** RemoveItem: refuses an absent id, otherwise deletes exactly that key. */
  function RemoveItemStep(m: Store, id: int): (r: Step)
    ensures id !in m ==> r == Step(Failed(ItemNotFound(id)), m)
    ensures id in m ==>
      && r.outcome == Done
      && r.store.Keys == m.Keys - {id}
      && (forall k | k in r.store :: r.store[k] == m[k])
      && |r.store| == |m| - 1
    ensures KeyedById(m) ==> KeyedById(r.store)
  {
    if id !in m then Step(Failed(ItemNotFound(id)), m)
    else
      var rest := map k | k in m && k != id :: m[k];
      assert rest.Keys == m.Keys - {id};
      Step(Done, rest)
  }

  /**
   * UpdateQuantity: a negative quantity is refused before the id is looked
   * up; otherwise an absent id is refused; otherwise only the quantity of
   * that one item changes.
   */
  function UpdateQuantityStep(m: Store, id: int, newQuantity: int): (r: Step)
    ensures newQuantity < 0 ==> r == Step(Failed(InvalidQuantity(newQuantity)), m)
    ensures newQuantity >= 0 && id !in m ==> r == Step(Failed(ItemNotFound(id)), m)
    ensures newQuantity >= 0 && id in m ==>
      && r.outcome == Done
      && r.store.Keys == m.Keys
      && r.store[id] == m[id].(quantity := newQuantity)
      && (forall k | k in m && k != id :: r.store[k] == m[k])
    ensures KeyedById(m) ==> KeyedById(r.store)
    ensures QuantitiesNonNegative(m) ==> QuantitiesNonNegative(r.store)
  {
    if newQuantity < 0 then Step(Failed(InvalidQuantity(newQuantity)), m)
    else match GetItem(m, id)
      case Err(e) => Step(Failed(e), m)
      case Ok(item) => Step(Done, m[id := item.(quantity := newQuantity)])
  }

  /** Sequential AddItem calls that stop at the first one that throws. */
  function AddAll(m: Store, items: seq<Item>): (r: Step)
    ensures r.outcome.Failed? ==> r.outcome.error.DuplicateItem?
    ensures KeyedById(m) ==> KeyedById(r.store)
    ensures forall c :: AllOf(m, c) && (forall i | 0 <= i < |items| :: items[i].Kind() == c) ==> AllOf(r.store, c)
    decreases |items|
  {
    if items == [] then Step(Done, m)
    else
      var s := AddItemStep(m, items[0]);
      if s.outcome.Failed? then s else AddAll(s.store, items[1..])
  }

  /** Two sequential adds: the second runs only when the first succeeded. */
  lemma AddAllPair(m: Store, a: Item, b: Item)
    ensures AddAll(m, [a, b]) ==
      var s := AddItemStep(m, a);
      if s.outcome.Failed? then s else AddItemStep(s.store, b)
  {
    var s := AddItemStep(m, a);
    if s.outcome.Done? {
      assert [a, b][1..] == [b];
      var t := AddItemStep(s.store, b);
      if t.outcome.Done? {
        assert [b][1..] == [];
        assert AddAll(t.store, []) == t;
      }
    }
  }

  // ---------------------------------------------------------------------------
  // Properties of the repository operations
  // ---------------------------------------------------------------------------

  /** A second add under an id already taken fails and keeps the first item. */
  lemma AddTwiceKeepsFirst(m: Store, x: Item, y: Item)
    requires x.id !in m && y.id == x.id
    ensures AddItemStep(AddItemStep(m, x).store, y) == Step(Failed(DuplicateItem(x.id)), AddItemStep(m, x).store)
    ensures GetItem(AddItemStep(AddItemStep(m, x).store, y).store, x.id) == Ok(x)
  {
  }

  /** After a successful add the item can be fetched by its id. */
  lemma AddThenGet(m: Store, item: Item)
    requires item.id !in m
    ensures GetItem(AddItemStep(m, item).store, item.id) == Ok(item)
  {
  }

  /** After a successful remove the id is no longer found. */
  lemma RemoveThenGet(m: Store, id: int)
    requires id in m
    ensures GetItem(RemoveItemStep(m, id).store, id) == Err(ItemNotFound(id))
  {
  }

  /** AddItem does not look at the quantity, so it can store a negative one. */
  lemma AddItemAcceptsNegativeQuantity()
    ensures var m := AddItemStep(map[], Electronic(1, "Laptop", -5, "Dell", 24)).store;
      !QuantitiesNonNegative(m)
  {
    var m := AddItemStep(map[], Electronic(1, "Laptop", -5, "Dell", 24)).store;
    assert m[1].quantity == -5;
  }

  /** One repository operation in a history. */
  datatype Op = AddOp(item: Item) | RemoveOp(id: int) | UpdateOp(id: int, quantity: int) | GetOp(id: int)

  function Apply(m: Store, op: Op): (r: Step)
    ensures KeyedById(m) ==> KeyedById(r.store)
    ensures op.GetOp? ==> r.store == m
  {
    match op
    case AddOp(item) => AddItemStep(m, item)
    case RemoveOp(id) => RemoveItemStep(m, id)
    case UpdateOp(id, q) => UpdateQuantityStep(m, id, q)
    case GetOp(id) =>
      match GetItem(m, id)
      case Ok(_) => Step(Done, m)
      case Err(e) => Step(Failed(e), m)
  }

  /** The store after running `ops` in order from `m`. */
  function Replay(m: Store, ops: seq<Op>): Store
    decreases |ops|
  {
    if ops == [] then m else Replay(Apply(m, ops[0]).store, ops[1..])
  }

  /** Successful adds minus successful removes along the history. */
  function NetAdded(m: Store, ops: seq<Op>): int
    decreases |ops|
  {
    if ops == [] then 0
    else
      var s := Apply(m, ops[0]);
      var delta := if s.outcome.Failed? then 0
                   else if ops[0].AddOp? then 1
                   else if ops[0].RemoveOp? then -1
                   else 0;
      delta + NetAdded(s.store, ops[1..])
  }

  /** Size accounting: the store's size moves only with successful adds and removes. */
  lemma {:induction false} SizeAccounting(m: Store, ops: seq<Op>)
    ensures |Replay(m, ops)| == |m| + NetAdded(m, ops)
    decreases |ops|
  {
    if ops != [] {
      var s := Apply(m, ops[0]);
      SizeAccounting(s.store, ops[1..]);
      match ops[0]
      case AddOp(item) =>
      case RemoveOp(id) =>
      case UpdateOp(id, q) =>
      case GetOp(id) =>
    }
  }

  /** Any history keeps every item filed under its own id. */
  lemma {:induction false} ReplayKeyedById(m: Store, ops: seq<Op>)
    requires KeyedById(m)
    ensures KeyedById(Replay(m, ops))
    decreases |ops|
  {
    if ops != [] {
      ReplayKeyedById(Apply(m, ops[0]).store, ops[1..]);
    }
  }

  /** A failed operation, whatever it is, leaves the store as it was. */
  lemma FailedStepChangesNothing(m: Store, op: Op)
    requires Apply(m, op).outcome.Failed?
    ensures Apply(m, op).store == m
  {
  }

  // ---------------------------------------------------------------------------
  // The repository
  // ---------------------------------------------------------------------------

  lemma EmptyIfNoMember(s: set<int>)
    requires forall y :: y !in s
    ensures s == {}
  {
    assert forall y :: y in s <==> y in {};
  }

  /** A set is empty or has a member (used to pick the next key to list). */
  lemma EmptyOrMember(s: set<int>)
    ensures s == {} || exists y :: y in s
  {
    if forall y :: y !in s {
      EmptyIfNoMember(s);
    }
  }

  /**
   * A repository for one category of items. `kind` stands for the type
   * argument of the generic repository: it only ever holds items of that
   * category.
   */
  class InventoryRepository {
    const kind: Category
    var items: Store

    ghost predicate Valid()
      reads this
    {
      KeyedById(items) && AllOf(items, kind)
    }

    constructor (kind: Category)
      ensures Valid() && this.kind == kind && items == map[]
    {
      this.kind := kind;
      items := map[];
    }

    method AddItem(item: Item) returns (r: Outcome)
      requires Valid() && item.Kind() == kind
      modifies this
      ensures Valid()
      ensures Step(r, items) == AddItemStep(old(items), item)
    {
      if item.id in items {
        r := Failed(DuplicateItem(item.id));
        return;
      }
      items := items[item.id := item];
      r := Done;
    }

    method GetItemById(id: int) returns (r: Result<Item>)
      requires Valid()
      ensures r == GetItem(items, id)
      ensures r.Ok? ==> r.value.id == id && r.value.Kind() == kind
    {
      if id !in items {
        r := Err(ItemNotFound(id));
        return;
      }
      r := Ok(items[id]);
    }

    method RemoveItem(id: int) returns (r: Outcome)
      requires Valid()
      modifies this
      ensures Valid()
      ensures Step(r, items) == RemoveItemStep(old(items), id)
    {
      if id !in items {
        r := Failed(ItemNotFound(id));
        return;
      }
      items := map k | k in items && k != id :: items[k];
      r := Done;
    }

    /**
     * A fresh list of all stored items, one per id. The order is left open:
     * the dictionary the repository is built on does not promise one.
     */
    method GetAllItems() returns (all: seq<Item>)
      requires Valid()
      ensures |all| == |items|
      ensures forall id | id in items :: items[id] in all
      ensures forall i | 0 <= i < |all| :: all[i].id in items && items[all[i].id] == all[i]
      ensures forall i, j | 0 <= i < j < |all| :: all[i].id != all[j].id
      ensures forall i | 0 <= i < |all| :: all[i].Kind() == kind
    {
      all := [];
      var rest := items.Keys;
      while rest != {}
        invariant rest <= items.Keys
        invariant |all| + |rest| == |items|
        invariant forall i | 0 <= i < |all| :: all[i].id in items && all[i].id !in rest && items[all[i].id] == all[i]
        invariant forall k | k in items && k !in rest :: items[k] in all
        invariant forall i, j | 0 <= i < j < |all| :: all[i].id != all[j].id
        decreases rest
      {
        EmptyOrMember(rest);
        var id :| id in rest;
        all := all + [items[id]];
        rest := rest - {id};
      }
    }

    method UpdateQuantity(id: int, newQuantity: int) returns (r: Outcome)
      requires Valid()
      modifies this
      ensures Valid()
      ensures Step(r, items) == UpdateQuantityStep(old(items), id, newQuantity)
    {
      if newQuantity < 0 {
        r := Failed(InvalidQuantity(newQuantity));
        return;
      }
      var found := GetItemById(id);
      if found.Err? {
        r := Failed(found.error);
        return;
      }
      items := items[id := found.value.(quantity := newQuantity)];
      r := Done;
    }
  }

  // ---------------------------------------------------------------------------
  // The manager
  // ---------------------------------------------------------------------------

  function Other(c: Category): Category {
    if c == Electronics then Groceries else Electronics
  }

  const SeedElectronics: seq<Item> :=
    [Electronic(1, "Laptop", 10, "Dell", 24), Electronic(2, "Smartphone", 25, "Samsung", 12)]

  /** The seeded groceries expire 7 and 3 days after `today`. */
  function SeedGroceries(today: Date): seq<Item> {
    [Grocery(1, "Milk", 50, today + 7), Grocery(2, "Bread", 30, today + 3)]
  }

  /**
   * SeedData as a function of the two stores: the electronics first, then the
   * groceries, stopping at the first add that fails.
   */
  function SeedSteps(e: Store, g: Store, today: Date): (r: (Outcome, Store, Store))
    ensures r.0.Failed? ==> r.0.error.DuplicateItem?
  {
    var se := AddAll(e, SeedElectronics);
    if se.outcome.Failed? then (se.outcome, se.store, g)
    else
      var sg := AddAll(g, SeedGroceries(today));
      (sg.outcome, se.store, sg.store)
  }

  /** Seeding fresh stores succeeds and fills each with its two starter items. */
  lemma SeedFromEmpty(today: Date)
    ensures var r := SeedSteps(map[], map[], today);
      && r.0 == Done
      && r.1 == map[1 := SeedElectronics[0], 2 := SeedElectronics[1]]
      && r.2 == map[1 := SeedGroceries(today)[0], 2 := SeedGroceries(today)[1]]
      && r.1.Keys == r.2.Keys == {1, 2}
  {
    AddAllPair(map[], SeedElectronics[0], SeedElectronics[1]);
    AddAllPair(map[], SeedGroceries(today)[0], SeedGroceries(today)[1]);
  }

  /** Seeding twice is refused: the second run fails on electronics id 1. */
  lemma SeedTwiceFails(today: Date)
    ensures var r := SeedSteps(map[], map[], today);
      SeedSteps(r.1, r.2, today).0 == Failed(DuplicateItem(1))
  {
    SeedFromEmpty(today);
  }

  /**
   * The warehouse: two independent repositories, one per category. The same
   * id may be used in both.
   */
  class WarehouseManager {
    const electronics: InventoryRepository
    const groceries: InventoryRepository

    ghost predicate Valid()
      reads this, electronics, groceries
    {
      && electronics != groceries
      && electronics.kind == Electronics && groceries.kind == Groceries
      && electronics.Valid() && groceries.Valid()
    }

    /** The repository that holds category `c`. */
    function Repo(c: Category): (r: InventoryRepository)
      reads this, electronics, groceries
      ensures Valid() ==> r.kind == c && r.Valid()
    {
      if c == Electronics then electronics else groceries
    }

    /** The two categories never share a repository. */
    lemma ReposDistinct()
      requires Valid()
      ensures Repo(Electronics) != Repo(Groceries)
      ensures Repo(Electronics).kind == Electronics && Repo(Groceries).kind == Groceries
    {
    }

    constructor ()
      ensures Valid() && fresh(electronics) && fresh(groceries)
      ensures electronics.items == map[] && groceries.items == map[]
    {
      electronics := new InventoryRepository(Electronics);
      groceries := new InventoryRepository(Groceries);
    }

    method SeedData(today: Date) returns (r: Outcome)
      requires Valid()
      modifies electronics, groceries
      ensures Valid()
      ensures (r, electronics.items, groceries.items)
           == SeedSteps(old(electronics.items), old(groceries.items), today)
    {
      ghost var e0, g0 := electronics.items, groceries.items;
      AddAllPair(e0, SeedElectronics[0], SeedElectronics[1]);
      r := electronics.AddItem(Electronic(1, "Laptop", 10, "Dell", 24));
      if r.Failed? { return; }
      r := electronics.AddItem(Electronic(2, "Smartphone", 25, "Samsung", 12));
      if r.Failed? { return; }
      AddAllPair(g0, SeedGroceries(today)[0], SeedGroceries(today)[1]);
      r := groceries.AddItem(Grocery(1, "Milk", 50, today + 7));
      if r.Failed? { return; }
      r := groceries.AddItem(Grocery(2, "Bread", 30, today + 3));
    }

    /** Routes an add to the repository of `c`; the other one is not touched. */
    method AddItem(c: Category, item: Item) returns (r: Outcome)
      requires Valid() && item.Kind() == c
      modifies Repo(c)
      ensures Valid()
      ensures Step(r, Repo(c).items) == AddItemStep(old(Repo(c).items), item)
      ensures unchanged(Repo(Other(c)))
    {
      r := Repo(c).AddItem(item);
    }

    /** Routes a quantity update to the repository of `c`. */
    method UpdateQuantity(c: Category, id: int, newQuantity: int) returns (r: Outcome)
      requires Valid()
      modifies Repo(c)
      ensures Valid()
      ensures Step(r, Repo(c).items) == UpdateQuantityStep(old(Repo(c).items), id, newQuantity)
      ensures unchanged(Repo(Other(c)))
    {
      r := Repo(c).UpdateQuantity(id, newQuantity);
    }

    /** Routes a removal to the repository of `c`. */
    method RemoveItem(c: Category, id: int) returns (r: Outcome)
      requires Valid()
      modifies Repo(c)
      ensures Valid()
      ensures Step(r, Repo(c).items) == RemoveItemStep(old(Repo(c).items), id)
      ensures unchanged(Repo(Other(c)))
    {
      r := Repo(c).RemoveItem(id);
    }

    /** All electronics, then all groceries. */
    method ViewAllInventory() returns (e: seq<Item>, g: seq<Item>)
      requires Valid()
      ensures |e| == |electronics.items| && |g| == |groceries.items|
      ensures forall id | id in electronics.items :: electronics.items[id] in e
      ensures forall id | id in groceries.items :: groceries.items[id] in g
      ensures forall i | 0 <= i < |e| :: e[i].id in electronics.items && electronics.items[e[i].id] == e[i]
      ensures forall i | 0 <= i < |g| :: g[i].id in groceries.items && groceries.items[g[i].id] == g[i]
      ensures forall i | 0 <= i < |e| :: e[i].Electronic?
      ensures forall i | 0 <= i < |g| :: g[i].Grocery?
    {
      e := electronics.GetAllItems();
      g := groceries.GetAllItems();
    }
  }

  /**
   * A client run on a fresh manager: the same id is accepted once per
   * category, a second electronics item under id 1 is refused, a negative
   * quantity is refused and leaves the stored quantity alone, and removing an
   * unknown grocery id is refused.
   */
  method CategoryScenario() returns (outcomes: seq<Outcome>, laptop: Result<Item>)
    ensures outcomes == [Done, Done, Failed(DuplicateItem(1)), Failed(InvalidQuantity(-3)), Failed(ItemNotFound(99))]
    ensures laptop.Ok? && laptop.value.quantity == 10 && laptop.value.name == "Laptop"
  {
    var w := new WarehouseManager();
    var a := w.AddItem(Electronics, Electronic(1, "Laptop", 10, "Dell", 24));
    var b := w.AddItem(Groceries, Grocery(1, "Milk", 50, 7));
    var c := w.AddItem(Electronics, Electronic(1, "Phone", 5, "Acme", 12));
    var d := w.UpdateQuantity(Electronics, 1, -3);
    laptop := w.electronics.GetItemById(1);
    var e := w.RemoveItem(Groceries, 99);
    outcomes := [a, b, c, d, e];
  }
}
