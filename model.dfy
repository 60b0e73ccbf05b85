/**
 * The entities of the lesson storefront: catalog lessons, cart lines and
 * the order that checkout submits.
 */
module Model {

  datatype Option<T> = None | Some(value: T)

  /** The catalog's identifier of a lesson (the `_id` field). */
  type LessonId = string

  /**
   * A lesson of the catalog. `price` is an integer number of the smallest
   * currency unit; `spaces` is the remaining capacity.
   */
  datatype Lesson = Lesson(id: LessonId, subject: string, location: string, price: int, spaces: int)

  /**
   * A cart line: the copy of the lesson taken when it was first added to
   * the cart, plus the number of places reserved. The copy's own `spaces`
   * is never updated afterwards.
   */
  datatype CartLine = CartLine(lesson: Lesson, quantity: int)
  {
    function Id(): LessonId { lesson.id }
  }

  /** One entry of a submitted order. */
  datatype OrderLine = OrderLine(id: LessonId, subject: string, quantity: int)

  /** The body that checkout posts to the catalog service. */
  datatype Order = Order(name: string, phone: string, lessons: seq<OrderLine>)

  /** The lesson field the inventory is sorted on. */
  datatype SortKey = Subject | Location | Price | Spaces
}
