/**
 * The cart and its reservation protocol. A shelf is the inventory together
 * with the cart; the step functions give the shelf after `addToCart`,
 * `removeFromCart` and `checkout`, and the lemmas state what the
 * storefront promises about them: one line per lesson, quantities that
 * move by one, and capacity that is neither created nor lost.
 */
module Cart {
  import opened Model
  import opened Forms

  /** The first cart line for lesson `id`, as the cart lookup in `addToCart` finds it. */
  function LineIndex(cart: seq<CartLine>, id: LessonId): (r: Option<nat>)
    ensures r.Some? ==> r.value < |cart| && cart[r.value].Id() == id
    ensures r.Some? ==> forall k :: 0 <= k < r.value ==> cart[k].Id() != id
    ensures r.None? ==> forall k :: 0 <= k < |cart| ==> cart[k].Id() != id
  {
    if cart == [] then None
    else if cart[0].Id() == id then Some(0)
    else match LineIndex(cart[1..], id)
      case None => None
      case Some(k) => Some(k + 1)
  }

  /** The first inventory lesson for `id`, as the lookup in `removeFromCart` finds it. */
  function FindLesson(inventory: seq<Lesson>, id: LessonId): (r: Option<nat>)
    ensures r.Some? ==> r.value < |inventory| && inventory[r.value].id == id
    ensures r.Some? ==> forall j :: 0 <= j < r.value ==> inventory[j].id != id
    ensures r.None? ==> forall j :: 0 <= j < |inventory| ==> inventory[j].id != id
  {
    if inventory == [] then None
    else if inventory[0].id == id then Some(0)
    else match FindLesson(inventory[1..], id)
      case None => None
      case Some(j) => Some(j + 1)
  }

  /** The quantity of the cart line for `id`, or 0 when there is none. */
  function LineQuantity(cart: seq<CartLine>, id: LessonId): int
  {
    match LineIndex(cart, id)
    case Some(k) => cart[k].quantity
    case None => 0
  }

  /** What one line reserves of lesson `id`. */
  function Share(line: CartLine, id: LessonId): int
  {
    if line.Id() == id then line.quantity else 0
  }

  /** The places the cart reserves of lesson `id`: the sum of its lines' quantities. */
  function Reserved(cart: seq<CartLine>, id: LessonId): int
  {
    if cart == [] then 0 else Share(cart[0], id) + Reserved(cart[1..], id)
  }

  /** `splice(k, 1)`: the cart without its line at position `k`. */
  function Splice(cart: seq<CartLine>, k: nat): (r: seq<CartLine>)
    requires k < |cart|
    ensures |r| == |cart| - 1
    ensures forall j :: 0 <= j < k ==> r[j] == cart[j]
    ensures forall j :: k <= j < |r| ==> r[j] == cart[j + 1]
  {
    cart[..k] + cart[k + 1..]
  }

  predicate UniqueLessonIds(inventory: seq<Lesson>)
  {
    forall a, b :: 0 <= a < b < |inventory| ==> inventory[a].id != inventory[b].id
  }

  predicate UniqueLineIds(cart: seq<CartLine>)
  {
    forall a, b :: 0 <= a < b < |cart| ==> cart[a].Id() != cart[b].Id()
  }

  /** The inventory and the cart. */
  datatype Shelf = Shelf(inventory: seq<Lesson>, cart: seq<CartLine>)

  /**
   * The storefront's invariant: lesson identifiers are unique, the cart
   * holds at most one line per lesson, every line reserves at least one
   * place and no lesson has negative capacity.
   */
  ghost predicate WellFormed(s: Shelf)
  {
    UniqueLessonIds(s.inventory) && UniqueLineIds(s.cart)
    && (forall j :: 0 <= j < |s.inventory| ==> s.inventory[j].spaces >= 0)
    && (forall k :: 0 <= k < |s.cart| ==> s.cart[k].quantity >= 1)
  }

  /** `t` has the lessons of `s`, in the same places, differing at most in `spaces`. */
  ghost predicate SameCatalog(s: Shelf, t: Shelf)
  {
    |t.inventory| == |s.inventory|
    && forall j :: 0 <= j < |s.inventory| ==> t.inventory[j] == s.inventory[j].(spaces := t.inventory[j].spaces)
  }

  /** The capacity held for the lesson at position `j`: its spaces plus what the cart reserves of it. */
  function Held(s: Shelf, j: nat): int
    requires j < |s.inventory|
  {
    s.inventory[j].spaces + Reserved(s.cart, s.inventory[j].id)
  }

  /** From `s` to `t` no lesson's capacity was created or lost. */
  ghost predicate Conserved(s: Shelf, t: Shelf)
  {
    SameCatalog(s, t) && forall j :: 0 <= j < |s.inventory| ==> Held(t, j) == Held(s, j)
  }

  /**
   * `addToCart` on the lesson at position `i`: nothing when it has no
   * space left; otherwise one more place on its cart line (a new line
   * holding a copy of the lesson when there is none) and one space less.
   */
  function AddStep(s: Shelf, i: nat): (t: Shelf)
    requires i < |s.inventory|
    ensures SameCatalog(s, t)
  {
    var lesson := s.inventory[i];
    if lesson.spaces <= 0 then s
    else
      var cart := match LineIndex(s.cart, lesson.id)
        case Some(k) => s.cart[k := s.cart[k].(quantity := s.cart[k].quantity + 1)]
        case None => s.cart + [CartLine(lesson, 1)];
      Shelf(s.inventory[i := lesson.(spaces := lesson.spaces - 1)], cart)
  }

  /**
   * Where `splice(k, 1)` starts on a cart of `n` lines: a negative `k`
   * counts from the end and stops at the first line; a `k` past the end
   * stops at the end.
   */
  function SpliceStart(n: nat, k: int): nat
  {
    if k < 0 then (if n + k < 0 then 0 else n + k)
    else if k > n then n
    else k
  }

  /** `splice(k, 1)` for any integer `k`: removes the line where it starts, or nothing at the end. */
  function SpliceOne(cart: seq<CartLine>, k: int): seq<CartLine>
  {
    var start := SpliceStart(|cart|, k);
    if start < |cart| then Splice(cart, start) else cart
  }

  /**
   * The index rule of `splice(k, 1)`: a position inside the cart removes
   * that line, `-1` the last line and so on, a negative position beyond the
   * length the first line, and a position at or past the end nothing.
   */
  lemma SpliceOneIndexRule(cart: seq<CartLine>, k: int)
    ensures 0 <= k < |cart| ==> SpliceOne(cart, k) == Splice(cart, k)
    ensures -|cart| <= k < 0 ==> SpliceOne(cart, k) == Splice(cart, |cart| + k)
    ensures k < -|cart| && cart != [] ==> SpliceOne(cart, k) == cart[1..]
    ensures k >= |cart| ==> SpliceOne(cart, k) == cart
  {
  }

  /**
   * `removeFromCart(k)` when the update of the lesson's spaces succeeds
   * (`updateOk`) or fails. For a position inside the cart, the line's
   * quantity goes back to the first inventory lesson with its id, if there
   * is one, and the line is spliced out unless that spaces update was
   * attempted and failed. For a position outside the cart the line is
   * undefined: the inventory lookup throws on reading its id as soon as it
   * inspects a lesson, so nothing changes; with an empty inventory the
   * lookup finds nothing and `splice` runs with its own index rule.
   */
  function RemoveStep(s: Shelf, k: int, updateOk: bool): (t: Shelf)
    ensures SameCatalog(s, t)
  {
    if 0 <= k < |s.cart| then
      var line := s.cart[k];
      match FindLesson(s.inventory, line.Id())
      case None => Shelf(s.inventory, Splice(s.cart, k))
      case Some(j) =>
        var inventory := s.inventory[j := s.inventory[j].(spaces := s.inventory[j].spaces + line.quantity)];
        Shelf(inventory, if updateOk then Splice(s.cart, k) else s.cart)
    else if |s.inventory| > 0 then s
    else Shelf(s.inventory, SpliceOne(s.cart, k))
  }

  /**
   * Whether the promise of `removeFromCart(k)` resolves rather than
   * rejects: it resolves exactly when the handler reaches the splice.
   */
  function RemoveResolves(s: Shelf, k: int, updateOk: bool): (r: bool)
    ensures r ==> RemoveStep(s, k, updateOk).cart == SpliceOne(s.cart, k)
    ensures !r ==> RemoveStep(s, k, updateOk).cart == s.cart
  {
    if 0 <= k < |s.cart| then FindLesson(s.inventory, s.cart[k].Id()).None? || updateOk
    else |s.inventory| == 0
  }

  lemma {:induction false} ReservedAppend(a: seq<CartLine>, b: seq<CartLine>, id: LessonId)
    ensures Reserved(a + b, id) == Reserved(a, id) + Reserved(b, id)
  {
    if a == [] {
      assert a + b == b;
    } else {
      ReservedAppend(a[1..], b, id);
      assert (a + b)[1..] == a[1..] + b;
    }
  }

  lemma {:induction false} ReservedUpdate(cart: seq<CartLine>, k: nat, line: CartLine, id: LessonId)
    requires k < |cart|
    ensures Reserved(cart[k := line], id) == Reserved(cart, id) - Share(cart[k], id) + Share(line, id)
  {
    if k > 0 {
      ReservedUpdate(cart[1..], k - 1, line, id);
      assert cart[k := line][1..] == cart[1..][k - 1 := line];
    }
  }

  lemma ReservedSplice(cart: seq<CartLine>, k: nat, id: LessonId)
    requires k < |cart|
    ensures Reserved(Splice(cart, k), id) == Reserved(cart, id) - Share(cart[k], id)
  {
    ReservedAppend(cart[..k], cart[k + 1..], id);
    ReservedAppend(cart[..k], cart[k..], id);
    assert cart == cart[..k] + cart[k..];
    assert cart[k..] == [cart[k]] + cart[k + 1..];
  }

  /** With one line per lesson, what the cart reserves of a lesson is that line's quantity. */
  lemma {:induction false} ReservedIsLineQuantity(cart: seq<CartLine>, id: LessonId)
    requires UniqueLineIds(cart)
    ensures Reserved(cart, id) == LineQuantity(cart, id)
  {
    if cart != [] {
      assert UniqueLineIds(cart[1..]) by {
        forall a, b | 0 <= a < b < |cart[1..]|
          ensures cart[1..][a].Id() != cart[1..][b].Id()
        {
          assert cart[1..][a] == cart[a + 1] && cart[1..][b] == cart[b + 1];
        }
      }
      ReservedIsLineQuantity(cart[1..], id);
      if cart[0].Id() == id {
        ReservedZero(cart[1..], id);
      }
    }
  }

  lemma {:induction false} ReservedZero(cart: seq<CartLine>, id: LessonId)
    requires forall k :: 0 <= k < |cart| ==> cart[k].Id() != id
    ensures Reserved(cart, id) == 0
  {
    if cart != [] {
      ReservedZero(cart[1..], id);
    }
  }

  /** `addToCart` does nothing on a lesson without spaces, and never makes spaces negative. */
  lemma AddStepGuard(s: Shelf, i: nat)
    requires i < |s.inventory|
    ensures s.inventory[i].spaces <= 0 ==> AddStep(s, i) == s
    ensures forall j :: 0 <= j < |s.inventory| && s.inventory[j].spaces >= 0 ==> AddStep(s, i).inventory[j].spaces >= 0
  {
  }

  /**
   * `addToCart` on a lesson with space left: its line's quantity goes up by
   * exactly one, and an existing line keeps the lesson copy it already holds;
   * a line is appended only when the lesson had none, and then it holds a
   * copy of the lesson taken before the decrement and quantity 1;
   * the lines of other lessons are untouched and one line per lesson is kept.
   */
  lemma AddStepLine(s: Shelf, i: nat)
    requires i < |s.inventory| && s.inventory[i].spaces > 0
    ensures var id, t := s.inventory[i].id, AddStep(s, i);
      && LineQuantity(t.cart, id) == LineQuantity(s.cart, id) + 1
      && |t.cart| == |s.cart| + (if LineIndex(s.cart, id).None? then 1 else 0)
      && (LineIndex(s.cart, id).None? ==> t.cart[|s.cart|] == CartLine(s.inventory[i], 1))
      && (LineIndex(s.cart, id).Some? ==>
            var k := LineIndex(s.cart, id).value;
            t.cart[k] == s.cart[k].(quantity := s.cart[k].quantity + 1))
      && (forall k :: 0 <= k < |s.cart| && s.cart[k].Id() != id ==> t.cart[k] == s.cart[k])
      && (UniqueLineIds(s.cart) ==> UniqueLineIds(t.cart))
  {
    var id, t := s.inventory[i].id, AddStep(s, i);
    match LineIndex(s.cart, id)
    case Some(k) =>
      assert LineIndex(t.cart, id) == Some(k) by {
        LineIndexFirst(t.cart, id, k);
      }
    case None =>
      LineIndexFirst(t.cart, id, |s.cart|);
  }

  /** A line for `id` with no earlier one is the line that the lookup finds. */
  lemma {:induction false} LineIndexFirst(cart: seq<CartLine>, id: LessonId, k: nat)
    requires k < |cart| && cart[k].Id() == id
    requires forall j :: 0 <= j < k ==> cart[j].Id() != id
    ensures LineIndex(cart, id) == Some(k)
  {
    if k > 0 {
      LineIndexFirst(cart[1..], id, k - 1);
    }
  }

  /** `addToCart` reserves one more place of the chosen lesson and no other. */
  lemma AddStepReserves(s: Shelf, i: nat, id: LessonId)
    requires i < |s.inventory| && s.inventory[i].spaces > 0
    ensures Reserved(AddStep(s, i).cart, id) == Reserved(s.cart, id) + (if id == s.inventory[i].id then 1 else 0)
  {
    var lesson := s.inventory[i];
    match LineIndex(s.cart, lesson.id)
    case Some(k) =>
      ReservedUpdate(s.cart, k, s.cart[k].(quantity := s.cart[k].quantity + 1), id);
    case None =>
      ReservedAppend(s.cart, [CartLine(lesson, 1)], id);
      assert Reserved([CartLine(lesson, 1)], id) == Share(CartLine(lesson, 1), id) + Reserved([], id);
  }

  /** Conservation: `addToCart` moves one place from the lesson's spaces to the cart. */
  lemma AddStepConserves(s: Shelf, i: nat)
    requires i < |s.inventory| && UniqueLessonIds(s.inventory)
    ensures Conserved(s, AddStep(s, i))
  {
    var t := AddStep(s, i);
    if s.inventory[i].spaces > 0 {
      forall j | 0 <= j < |s.inventory|
        ensures Held(t, j) == Held(s, j)
      {
        AddStepReserves(s, i, s.inventory[j].id);
      }
    }
  }

  /** `addToCart` keeps the storefront's invariant. */
  lemma AddStepKeepsWellFormed(s: Shelf, i: nat)
    requires i < |s.inventory| && WellFormed(s)
    ensures WellFormed(AddStep(s, i))
  {
    if s.inventory[i].spaces > 0 {
      AddStepLine(s, i);
    }
  }

  /** A removed line's lesson gets its quantity back; when the update succeeded the line is gone. */
  lemma RemoveStepReserves(s: Shelf, k: int, id: LessonId)
    requires 0 <= k < |s.cart|
    ensures Reserved(RemoveStep(s, k, true).cart, id) == Reserved(s.cart, id) - Share(s.cart[k], id)
  {
    ReservedSplice(s.cart, k, id);
  }

  /**
   * Conservation: a successful `removeFromCart` gives the line's places
   * back to its lesson; when no inventory lesson has the line's id, the
   * line is dropped and no inventory lesson is affected.
   */
  lemma RemoveStepConserves(s: Shelf, k: int)
    requires UniqueLessonIds(s.inventory)
    ensures Conserved(s, RemoveStep(s, k, true))
    ensures 0 <= k < |s.cart| ==> RemoveStep(s, k, true).cart == Splice(s.cart, k)
  {
    var t := RemoveStep(s, k, true);
    if 0 <= k < |s.cart| {
      forall j | 0 <= j < |s.inventory|
        ensures Held(t, j) == Held(s, j)
      {
        RemoveStepReserves(s, k, s.inventory[j].id);
      }
    }
  }

  /**
   * When the spaces update fails, `removeFromCart` has already given the
   * line's places back but never reaches the splice: the line stays, and
   * the lesson's held capacity grows by the line's quantity.
   */
  lemma RemoveStepFailure(s: Shelf, k: int)
    requires 0 <= k < |s.cart| && FindLesson(s.inventory, s.cart[k].Id()).Some?
    ensures var t, j := RemoveStep(s, k, false), FindLesson(s.inventory, s.cart[k].Id()).value;
      && t.cart == s.cart
      && Held(t, j) == Held(s, j) + s.cart[k].quantity
      && forall m :: 0 <= m < |s.inventory| && m != j ==> t.inventory[m] == s.inventory[m]
  {
  }

  /** `removeFromCart` keeps the storefront's invariant, whether or not the update succeeds. */
  lemma RemoveStepKeepsWellFormed(s: Shelf, k: int, updateOk: bool)
    requires WellFormed(s)
    ensures WellFormed(RemoveStep(s, k, updateOk))
  {
    var t := RemoveStep(s, k, updateOk);
    if t.cart != s.cart {
      var start := if 0 <= k < |s.cart| then k else SpliceStart(|s.cart|, k);
      assert start < |s.cart| && t.cart == Splice(s.cart, start);
      forall a, b | 0 <= a < b < |t.cart|
        ensures t.cart[a].Id() != t.cart[b].Id()
      {
        var a', b' := if a < start then a else a + 1, if b < start then b else b + 1;
        assert t.cart[a] == s.cart[a'] && t.cart[b] == s.cart[b'];
      }
    }
  }

  /** A cart operation without network failure. */
  datatype CartAction = Add(index: nat) | Remove(position: int)

  function Step(s: Shelf, a: CartAction): (t: Shelf)
    requires a.Add? ==> a.index < |s.inventory|
    ensures SameCatalog(s, t)
  {
    match a
    case Add(i) => AddStep(s, i)
    case Remove(k) => RemoveStep(s, k, true)
  }

  function Run(s: Shelf, actions: seq<CartAction>): (t: Shelf)
    requires forall a :: a in actions && a.Add? ==> a.index < |s.inventory|
    ensures |t.inventory| == |s.inventory|
    decreases |actions|
  {
    if actions == [] then s
    else Run(Step(s, actions[0]), actions[1..])
  }

  /**
   * Conservation over any session of adds and successful removes: every
   * lesson's spaces plus its reserved quantity stays what it was before
   * the first cart operation.
   */
  lemma {:induction false} RunConserves(s: Shelf, actions: seq<CartAction>)
    requires forall a :: a in actions && a.Add? ==> a.index < |s.inventory|
    requires UniqueLessonIds(s.inventory)
    ensures Conserved(s, Run(s, actions))
    decreases |actions|
  {
    if actions != [] {
      assert actions[0] in actions;
      var t := Step(s, actions[0]);
      match actions[0] {
        case Add(i) => AddStepConserves(s, i);
        case Remove(k) => RemoveStepConserves(s, k);
      }
      assert UniqueLessonIds(t.inventory);
      RunConserves(t, actions[1..]);
      var u := Run(t, actions[1..]);
      assert forall j :: 0 <= j < |s.inventory| ==> Held(u, j) == Held(t, j) == Held(s, j);
    }
  }

  /** `cartTotal` as the reduction writes it: a running total, left to right. */
  function Reduce(cart: seq<CartLine>, total: int): (r: int)
    ensures r == total + LineSum(cart)
  {
    if cart == [] then total
    else Reduce(cart[1..], total + cart[0].lesson.price * cart[0].quantity)
  }

  /** The sum of price times quantity over the cart lines. */
  function LineSum(cart: seq<CartLine>): int
  {
    if cart == [] then 0 else cart[0].lesson.price * cart[0].quantity + LineSum(cart[1..])
  }

  /** The cart total shown to the customer. */
  function CartTotal(cart: seq<CartLine>): (r: int)
    ensures r == LineSum(cart)
  {
    Reduce(cart, 0)
  }

  lemma {:induction false} LineSumAppend(a: seq<CartLine>, b: seq<CartLine>)
    ensures LineSum(a + b) == LineSum(a) + LineSum(b)
  {
    if a == [] {
      assert a + b == b;
    } else {
      LineSumAppend(a[1..], b);
      assert (a + b)[1..] == a[1..] + b;
    }
  }

  lemma {:induction false} LineSumUpdate(cart: seq<CartLine>, k: nat, line: CartLine)
    requires k < |cart|
    ensures LineSum(cart[k := line]) == LineSum(cart) - cart[k].lesson.price * cart[k].quantity + line.lesson.price * line.quantity
  {
    if k > 0 {
      LineSumUpdate(cart[1..], k - 1, line);
      assert cart[k := line][1..] == cart[1..][k - 1 := line];
    }
  }

  /** Each effective `addToCart` raises the total by the price of one place on the lesson's line. */
  lemma AddStepTotal(s: Shelf, i: nat)
    requires i < |s.inventory| && s.inventory[i].spaces > 0
    ensures var lesson := s.inventory[i];
      CartTotal(AddStep(s, i).cart) == CartTotal(s.cart) + match LineIndex(s.cart, lesson.id)
        case Some(k) => s.cart[k].lesson.price
        case None => lesson.price
  {
    var lesson := s.inventory[i];
    match LineIndex(s.cart, lesson.id)
    case Some(k) =>
      var line := s.cart[k];
      LineSumUpdate(s.cart, k, line.(quantity := line.quantity + 1));
      assert line.lesson.price * (line.quantity + 1) == line.lesson.price * line.quantity + line.lesson.price;
    case None =>
      LineSumAppend(s.cart, [CartLine(lesson, 1)]);
  }

  /** With non-negative prices and quantities the total is non-negative. */
  lemma {:induction false} CartTotalNonNegative(cart: seq<CartLine>)
    requires forall k :: 0 <= k < |cart| ==> cart[k].lesson.price >= 0 && cart[k].quantity >= 0
    ensures CartTotal(cart) >= 0
  {
    if cart != [] {
      CartTotalNonNegative(cart[1..]);
      assert cart[0].lesson.price * cart[0].quantity >= 0;
    }
  }

  /** The order lines: one (id, subject, quantity) per cart line, in cart order. */
  function OrderLines(cart: seq<CartLine>): (r: seq<OrderLine>)
    ensures |r| == |cart|
    ensures forall k :: 0 <= k < |cart| ==>
      r[k].id == cart[k].Id() && r[k].subject == cart[k].lesson.subject && r[k].quantity == cart[k].quantity
  {
    if cart == [] then []
    else [OrderLine(cart[0].Id(), cart[0].lesson.subject, cart[0].quantity)] + OrderLines(cart[1..])
  }

  /**
   * The order `checkout` submits: none unless the form is valid and the
   * cart is non-empty; otherwise the customer's name and phone with the
   * cart's lines.
   */
  function OrderFor(name: string, phone: string, cart: seq<CartLine>): (r: Option<Order>)
    ensures r.Some? <==> ValidForm(name, phone) && |cart| > 0
    ensures r.Some? ==> r.value.name == name && r.value.phone == phone && |r.value.lessons| == |cart|
    ensures r.Some? ==> forall k :: 0 <= k < |cart| ==>
      (r.value.lessons[k].id == cart[k].Id() && r.value.lessons[k].subject == cart[k].lesson.subject
       && r.value.lessons[k].quantity == cart[k].quantity)
  {
    if !ValidForm(name, phone) || |cart| == 0 then None
    else Some(Order(name, phone, OrderLines(cart)))
  }

  /**
   * Three adds of a lesson with five spaces at price 10 leave one line of
   * quantity 3, two spaces and a total of 30.
   */
  lemma ThreeAddsExample()
    ensures var math := Lesson("1", "Math", "London", 10, 5);
      var t := Run(Shelf([math], []), [Add(0), Add(0), Add(0)]);
      && t.inventory == [math.(spaces := 2)]
      && t.cart == [CartLine(math, 3)]
      && CartTotal(t.cart) == 30
  {
    var math := Lesson("1", "Math", "London", 10, 5);
    var s0 := Shelf([math], []);
    var s1 := AddStep(s0, 0);
    assert s1 == Shelf([math.(spaces := 4)], [CartLine(math, 1)]);
    var s2 := AddStep(s1, 0);
    assert s2 == Shelf([math.(spaces := 3)], [CartLine(math, 2)]);
    var s3 := AddStep(s2, 0);
    assert s3 == Shelf([math.(spaces := 2)], [CartLine(math, 3)]);
    var acts := [Add(0), Add(0), Add(0)];
    assert Run(s0, acts) == Run(s1, acts[1..]);
    assert Run(s1, acts[1..]) == Run(s2, acts[2..]);
    assert Run(s2, acts[2..]) == Run(s3, []);
    assert LineSum(s3.cart) == 10 * 3 + LineSum([]);
  }
}
