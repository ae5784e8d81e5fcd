/** The cart of the mobile client (client/context/cartContext.js): a pure
    reducer over a list of items and a running total. */
module CartContext {
  import opened Wrappers

  datatype CartItem = CartItem(id: string, price: real, quantity: real,
                               title: Option<string>, thumbnail: Option<string>)

  datatype CartState = CartState(items: seq<CartItem>, total: real)

  /** The product handed to `ADD_TO_CART`; `quantity` may be left out. */
  datatype ItemPayload = ItemPayload(id: string, price: real, quantity: Option<real>,
                                     title: Option<string>, thumbnail: Option<string>)

  datatype Action =
    | AddToCart(item: ItemPayload)
    | RemoveFromCart(id: string)
    | UpdateQuantity(id: string, quantity: real)
    | ClearCart
    | LoadCart(state: CartState)
    | Unknown(kind: string)

  /** The state the provider starts from: no items and a zero total. */
  function InitialState(): (s: CartState)
    ensures s.items == [] && s.total == 0.0
  {
    CartState([], 0.0)
  }

  /** The quantity an added item brings: a missing or zero quantity counts as one. */
  function QtyOrOne(q: Option<real>): (r: real)
    ensures r != 0.0
    ensures q.Some? && q.value != 0.0 ==> r == q.value
  {
    if q.Some? && q.value != 0.0 then q.value else 1.0
  }

  /** The first position holding `id`, or -1 when there is none. */
  function FindIndex(items: seq<CartItem>, id: string): (r: int)
    ensures -1 <= r < |items|
    ensures r == -1 <==> forall i :: 0 <= i < |items| ==> items[i].id != id
    ensures r >= 0 ==> items[r].id == id && forall i :: 0 <= i < r ==> items[i].id != id
  {
    if items == [] then -1
    else if items[0].id == id then 0
    else
      var k := FindIndex(items[1..], id);
      if k == -1 then -1 else k + 1
  }

  /** The sum of price times quantity over the items, folded from the left. */
  function Total(items: seq<CartItem>): real
  {
    if items == [] then 0.0 else Total(items[..|items| - 1]) + items[|items| - 1].price * items[|items| - 1].quantity
  }

  /** The running total agrees with the items. */
  predicate Consistent(s: CartState)
  {
    s.total == Total(s.items)
  }

  predicate DistinctIds(items: seq<CartItem>)
  {
    forall i, j :: 0 <= i < j < |items| ==> items[i].id != items[j].id
  }

  function NewItem(p: ItemPayload): CartItem
  {
    CartItem(p.id, p.price, QtyOrOne(p.quantity), p.title, p.thumbnail)
  }

  /** The `map` of `ADD_TO_CART` over an id already present. */
  function Bump(items: seq<CartItem>, index: int, add: real): (r: seq<CartItem>)
    ensures |r| == |items|
    ensures forall i :: 0 <= i < |items| ==> r[i] == if i == index then items[i].(quantity := items[i].quantity + add) else items[i]
  {
    if items == [] then []
    else [if index == 0 then items[0].(quantity := items[0].quantity + add) else items[0]] + Bump(items[1..], index - 1, add)
  }

  /** The `filter` of `REMOVE_FROM_CART`. */
  function Without(items: seq<CartItem>, id: string): seq<CartItem>
  {
    if items == [] then []
    else (if items[0].id == id then [] else [items[0]]) + Without(items[1..], id)
  }

  /** The `map` of `UPDATE_QUANTITY`. */
  function SetQuantity(items: seq<CartItem>, id: string, q: real): (r: seq<CartItem>)
    ensures |r| == |items|
    ensures forall i :: 0 <= i < |items| ==> r[i] == if items[i].id == id then items[i].(quantity := q) else items[i]
  {
    if items == [] then []
    else [if items[0].id == id then items[0].(quantity := q) else items[0]] + SetQuantity(items[1..], id, q)
  }

  /** The cart reducer: the next state for one dispatched action. */
  function Reducer(state: CartState, action: Action): CartState
  {
    match action
    case AddToCart(p) =>
      var k := FindIndex(state.items, p.id);
      if k > -1 then
        var updated := Bump(state.items, k, QtyOrOne(p.quantity));
        state.(items := updated, total := Total(updated))
      else
        var item := NewItem(p);
        state.(items := state.items + [item], total := state.total + item.price * item.quantity)
    case RemoveFromCart(id) =>
      var filtered := Without(state.items, id);
      state.(items := filtered, total := Total(filtered))
    case UpdateQuantity(id, q) =>
      var updated := SetQuantity(state.items, id, q);
      state.(items := updated, total := Total(updated))
    case ClearCart => InitialState()
    case LoadCart(s) => s
    case Unknown(_) => state
  }

  /* ---------------- ADD_TO_CART ---------------- */

  /** Adding an id already present keeps the length; that item's quantity
      grows by the payload's quantity (or one) and every other item stays as
      it was; the total is recomputed. */
  lemma AddExisting(state: CartState, p: ItemPayload)
    requires exists i :: 0 <= i < |state.items| && state.items[i].id == p.id
    ensures var r := Reducer(state, AddToCart(p));
      var k := FindIndex(state.items, p.id);
      && 0 <= k < |state.items| && state.items[k].id == p.id
      && |r.items| == |state.items|
      && r.items[k] == state.items[k].(quantity := state.items[k].quantity + QtyOrOne(p.quantity))
      && (forall i :: 0 <= i < |state.items| && i != k ==> r.items[i] == state.items[i])
      && Consistent(r)
  {
  }

  /** Adding a new id appends it at the end with the payload's quantity (or
      one), and adds its price times quantity to the running total. */
  lemma AddNew(state: CartState, p: ItemPayload)
    requires forall i :: 0 <= i < |state.items| ==> state.items[i].id != p.id
    ensures var r := Reducer(state, AddToCart(p));
      && r.items == state.items + [CartItem(p.id, p.price, QtyOrOne(p.quantity), p.title, p.thumbnail)]
      && r.total == state.total + p.price * QtyOrOne(p.quantity)
      && r.total - Total(r.items) == state.total - Total(state.items)
  {
    var r := Reducer(state, AddToCart(p));
    assert r.items[..|r.items| - 1] == state.items;
  }

  /** Adding keeps the ids pairwise distinct. */
  lemma AddKeepsDistinct(state: CartState, p: ItemPayload)
    requires DistinctIds(state.items)
    ensures DistinctIds(Reducer(state, AddToCart(p)).items)
  {
    var r := Reducer(state, AddToCart(p));
    if FindIndex(state.items, p.id) == -1 {
      forall i, j | 0 <= i < j < |r.items|
        ensures r.items[i].id != r.items[j].id
      {
        if j == |state.items| {
          assert r.items[i] == state.items[i];
        }
      }
    }
  }

  /* ---------------- REMOVE_FROM_CART ---------------- */

  lemma {:induction false} WithoutMembers(items: seq<CartItem>, id: string)
    ensures forall x :: x in Without(items, id) <==> x in items && x.id != id
  {
    if items != [] {
      WithoutMembers(items[1..], id);
      assert items == [items[0]] + items[1..];
    }
  }

  /** The survivors keep their relative order: filtering a concatenation
      filters each part. */
  lemma {:induction false} WithoutConcat(a: seq<CartItem>, b: seq<CartItem>, id: string)
    ensures Without(a + b, id) == Without(a, id) + Without(b, id)
  {
    if a == [] {
      assert a + b == b;
    } else {
      var ab := a + b;
      assert ab[0] == a[0];
      assert ab[1..] == a[1..] + b;
      var head := if a[0].id == id then [] else [a[0]];
      assert Without(ab, id) == head + Without(ab[1..], id);
      WithoutConcat(a[1..], b, id);
      assert Without(a, id) == head + Without(a[1..], id);
    }
  }

  /** Items without the removed id are all kept, in order. */
  lemma {:induction false} WithoutNone(items: seq<CartItem>, id: string)
    requires forall i :: 0 <= i < |items| ==> items[i].id != id
    ensures Without(items, id) == items
  {
    if items != [] {
      WithoutNone(items[1..], id);
    }
  }

  lemma {:induction false} WithoutSubsequence(items: seq<CartItem>, id: string)
    ensures |Without(items, id)| <= |items|
    ensures DistinctIds(items) ==> DistinctIds(Without(items, id))
  {
    if items != [] {
      WithoutSubsequence(items[1..], id);
      WithoutMembers(items[1..], id);
      var rest := Without(items[1..], id);
      if DistinctIds(items) && items[0].id != id {
        forall j | 0 <= j < |rest|
          ensures rest[j].id != items[0].id
        {
          assert rest[j] in rest;
          var m :| 0 <= m < |items[1..]| && items[1..][m] == rest[j];
          assert items[m + 1] == rest[j];
        }
      }
    }
  }

  /** After a removal no item carries the id, exactly the other items remain
      in their order, and the total is recomputed over the survivors. */
  lemma Remove(state: CartState, id: string)
    ensures var r := Reducer(state, RemoveFromCart(id));
      && (forall i :: 0 <= i < |r.items| ==> r.items[i].id != id)
      && (forall x :: x in r.items <==> x in state.items && x.id != id)
      && (forall a, b :: state.items == a + b ==> r.items == Without(a, id) + Without(b, id))
      && Consistent(r)
      && (DistinctIds(state.items) ==> DistinctIds(r.items))
  {
    var r := Reducer(state, RemoveFromCart(id));
    WithoutMembers(state.items, id);
    WithoutSubsequence(state.items, id);
    forall i | 0 <= i < |r.items|
      ensures r.items[i].id != id
    {
      assert r.items[i] in r.items;
    }
    forall a, b | state.items == a + b
      ensures r.items == Without(a, id) + Without(b, id)
    {
      WithoutConcat(a, b, id);
    }
  }

  /* ---------------- UPDATE_QUANTITY ---------------- */

  /** Updating keeps the length, the order and every id; only the quantity of
      items with the id changes, and the total is recomputed. */
  lemma Update(state: CartState, id: string, q: real)
    ensures var r := Reducer(state, UpdateQuantity(id, q));
      && |r.items| == |state.items|
      && (forall i :: 0 <= i < |r.items| ==> r.items[i].id == state.items[i].id)
      && (forall i :: 0 <= i < |r.items| && state.items[i].id == id ==> r.items[i] == state.items[i].(quantity := q))
      && (forall i :: 0 <= i < |r.items| && state.items[i].id != id ==> r.items[i] == state.items[i])
      && Consistent(r)
      && (DistinctIds(state.items) ==> DistinctIds(r.items))
  {
  }

  /* ---------------- the rest, and the invariant ---------------- */

  /** Clearing empties the cart, loading takes the payload as it is, and an
      unknown action changes nothing. */
  lemma OtherActions(state: CartState, loaded: CartState, kind: string)
    ensures Reducer(state, ClearCart) == CartState([], 0.0)
    ensures Reducer(state, LoadCart(loaded)) == loaded
    ensures Reducer(state, Unknown(kind)) == state
  {
  }

  /** Every action keeps the total equal to the sum of price times quantity
      when it held before (and, for `LOAD_CART`, holds of the payload); the
      only action that relies on the old total is adding a new item. */
  lemma ReducerKeepsConsistent(state: CartState, action: Action)
    requires Consistent(state)
    requires action.LoadCart? ==> Consistent(action.state)
    ensures Consistent(Reducer(state, action))
  {
    match action
    case AddToCart(p) =>
      if FindIndex(state.items, p.id) == -1 {
        AddNew(state, p);
      }
    case RemoveFromCart(id) =>
    case UpdateQuantity(id, q) =>
    case ClearCart =>
    case LoadCart(s) =>
    case Unknown(_) =>
  }

  /** Every action keeps the ids pairwise distinct (for `LOAD_CART`, when the
      payload's are). */
  lemma ReducerKeepsDistinct(state: CartState, action: Action)
    requires DistinctIds(state.items)
    requires action.LoadCart? ==> DistinctIds(action.state.items)
    ensures DistinctIds(Reducer(state, action).items)
  {
    match action
    case AddToCart(p) => AddKeepsDistinct(state, p);
    case RemoveFromCart(id) => Remove(state, id);
    case UpdateQuantity(id, q) => Update(state, id, q);
    case ClearCart =>
    case LoadCart(s) =>
    case Unknown(_) =>
  }

  /** A total that has drifted from the items stays off by the same amount
      when a new item is added. */
  lemma AddNewKeepsDrift(state: CartState, p: ItemPayload)
    requires !Consistent(state)
    requires forall i :: 0 <= i < |state.items| ==> state.items[i].id != p.id
    ensures !Consistent(Reducer(state, AddToCart(p)))
  {
    AddNew(state, p);
  }
}
