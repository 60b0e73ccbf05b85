/**
 * The storefront view-model: the inventory of lessons, the cart and the
 * checkout form, with the computed views and the handlers that change them.
 * Calls to the catalog service are not made here: their outcome is a
 * parameter of the handler that awaits it.
 */
module App {
  import opened Model
  import opened Sorting
  import opened Filtering
  import opened Forms
  import opened Cart

  class Storefront {
    /** The inventory; its lessons are updated in place by the cart handlers. */
    const lessons: array<Lesson>
    var cart: seq<CartLine>
    var sortKey: SortKey
    var ascending: bool
    var searchQuery: string
    var name: string
    var phone: string
    var orderConfirmed: bool

    /** The inventory and the cart as one value. */
    ghost function State(): Shelf
      reads this, lessons
    {
      Shelf(lessons[..], cart)
    }

    ghost predicate Valid()
      reads this, lessons
    {
      WellFormed(State())
    }

    /** The view-model once the inventory has been loaded. */
    constructor (inventory: seq<Lesson>)
      requires WellFormed(Shelf(inventory, []))
      ensures Valid() && fresh(lessons)
      ensures State() == Shelf(inventory, [])
      ensures sortKey == Subject && ascending && searchQuery == ""
      ensures name == "" && phone == "" && !orderConfirmed
    {
      lessons := new Lesson[|inventory|](j requires 0 <= j < |inventory| => inventory[j]);
      cart := [];
      sortKey, ascending, searchQuery := Subject, true, "";
      name, phone, orderConfirmed := "", "", false;
      new;
      assert lessons[..] == inventory;
    }

    /** `sortedLessons`: the inventory, sorted on `sortKey` in the current direction. */
    function SortedLessons(): (r: seq<Lesson>)
      reads this, lessons
      ensures multiset(r) == multiset(lessons[..])
      ensures Sorted(r, sortKey, ascending)
      ensures StableFor(r, lessons[..], sortKey)
    {
      SortByStable(lessons[..], sortKey, ascending);
      SortBy(lessons[..], sortKey, ascending)
    }

    /** `filteredLessons`: the sorted lessons that match the search query. */
    function FilteredLessons(): (r: seq<Lesson>)
      reads this, lessons
      ensures Sorted(r, sortKey, ascending)
      ensures IsSubsequence(r, SortedLessons())
      ensures forall l :: l in r <==> l in lessons[..] && Matches(searchQuery, l)
      ensures searchQuery == "" ==> r == SortedLessons()
    {
      var sorted := SortedLessons();
      FilterKeepsSorted(sorted, searchQuery, sortKey, ascending);
      EmptyQueryKeepsAll(sorted);
      assert forall l :: l in sorted <==> l in multiset(lessons[..]);
      FilterLessons(sorted, searchQuery)
    }

    /** `toggleOrder`: flips the sort direction. */
    method ToggleOrder()
      modifies this`ascending
      ensures ascending == !old(ascending)
    {
      ascending := !ascending;
    }

    /**
     * `addToCart` on the lesson at position `i` of the inventory. The
     * spaces update sent to the catalog service afterwards changes no local
     * state either way.
     */
    method AddToCart(i: nat)
      requires Valid() && i < lessons.Length
      modifies this`cart, lessons
      ensures Valid()
      ensures State() == AddStep(old(State()), i)
      ensures Conserved(old(State()), State())
    {
      AddStepKeepsWellFormed(State(), i);
      AddStepConserves(State(), i);
      var lesson := lessons[i];
      if lesson.spaces <= 0 {
        return;
      }
      var existing := LineIndex(cart, lesson.id);
      match existing {
        case Some(k) =>
          cart := cart[k := cart[k].(quantity := cart[k].quantity + 1)];
        case None =>
          cart := cart + [CartLine(lesson, 1)];
      }
      lessons[i] := lesson.(spaces := lesson.spaces - 1);
    }

    /**
     * `removeFromCart` on the line at position `index`; `updateOk` is the
     * outcome of the spaces update, awaited when the line's lesson is in
     * the inventory. `resolved` is false when the handler throws.
     */
    method RemoveFromCart(index: int, updateOk: bool) returns (resolved: bool)
      requires Valid()
      modifies this`cart, lessons
      ensures Valid()
      ensures State() == RemoveStep(old(State()), index, updateOk)
      ensures resolved == RemoveResolves(old(State()), index, updateOk)
      ensures updateOk ==> Conserved(old(State()), State())
    {
      RemoveStepKeepsWellFormed(State(), index, updateOk);
      RemoveStepConserves(State(), index);
      if 0 <= index < |cart| {
        var item := cart[index];
        var found := FindLesson(lessons[..], item.Id());
        match found {
          case Some(j) =>
            lessons[j] := lessons[j].(spaces := lessons[j].spaces + item.quantity);
            if !updateOk {
              // the awaited update rejects before the line is spliced out
              return false;
            }
          case None =>
        }
      } else if lessons.Length > 0 {
        // the line is undefined: the lookup reads its id on the first lesson and throws
        return false;
      }
      cart := SpliceOne(cart, index);
      resolved := true;
    }

    /**
     * `checkout`; `submitOk` is the outcome of posting the order. `sent` is
     * the order posted, or None when the form or the cart stops checkout.
     */
    method Checkout(submitOk: bool) returns (sent: Option<Order>)
      requires Valid()
      modifies this`cart, this`name, this`phone, this`orderConfirmed
      ensures Valid()
      ensures sent == OrderFor(old(name), old(phone), old(cart))
      ensures sent.Some? && submitOk ==> cart == [] && name == "" && phone == "" && orderConfirmed
      ensures !(sent.Some? && submitOk) ==>
        cart == old(cart) && name == old(name) && phone == old(phone) && orderConfirmed == old(orderConfirmed)
    {
      if !ValidForm(name, phone) || |cart| == 0 {
        return None;
      }
      sent := Some(Order(name, phone, OrderLines(cart)));
      if submitOk {
        cart := [];
        name := "";
        phone := "";
        orderConfirmed := true;
      }
    }
  }

  /** A client session: three adds of one lesson. */
  method ThreeAddsSession()
  {
    var math := Lesson("1", "Math", "London", 10, 5);
    var store := new Storefront([math]);
    store.AddToCart(0);
    store.AddToCart(0);
    store.AddToCart(0);
    assert store.cart == [CartLine(math, 3)];
    assert store.lessons[0].spaces == 2;
    assert LineSum(store.cart) == 10 * 3 + LineSum([]);
    assert CartTotal(store.cart) == 30;
  }

  /** A client session: one add, then a checkout that the service accepts. */
  method CheckoutSession()
  {
    var math := Lesson("1", "Math", "London", 10, 5);
    var store := new Storefront([math]);
    store.AddToCart(0);
    assert store.cart == [CartLine(math, 1)];
    assert store.lessons[0].spaces == 4;
    ghost var shelf := store.State();
    store.name, store.phone := "Jo Ann", "1234567890";
    assert store.State() == shelf;
    ValidFormAccepts();
    var sent := store.Checkout(true);
    assert sent.Some? && |sent.value.lessons| == 1;
    assert sent.value.lessons[0].id == "1" && sent.value.lessons[0].quantity == 1;
    assert store.cart == [] && store.name == "" && store.phone == "" && store.orderConfirmed;
  }
}
