/** Shared vocabulary of the model: optional values, the exceptions the
    engine raises, and Python's rules for indexing a list. */
module Common {

  datatype Option<+T> = None | Some(value: T)

  /** The exceptions raised by the engine, one constructor per distinct
      `raise` (or implicit Python fault) in the source. */
  datatype Error =
    | IndexError          // list index out of range
    | KeyError            // missing dictionary key
    | ValueError          // int() of a malformed text, unknown direction, empty choice
    | TypeError           // a goal kind that is not in the class table
    | WallCollision       // "Opps You Hit the walls"
    | WallAlreadyExists   // "Wall Already exists"
    | NoWallExists        // "No Wall exists"
    | CapacityExceeded    // "Can't Carry more than N items"
    | CantPick            // "Can't Pick From this Cell"
    | CantDrop            // "Can't drop to this Cell"
    | NothingToPick       // "No Items to Pick."
    | AlreadyChecked      // "Already Checked once."
    | QuotaExceeded       // "Instruction Quota Exceeded"

  datatype Result<+T> = Success(value: T) | Failure(error: Error)

  /** Outcome of an operation that returns nothing but may raise. */
  datatype Outcome = Pass | Fail(error: Error)

  /** The slot that Python's `xs[i]` reads in a list of length `len`:
      non-negative indices address from the front, negative ones from
      the back, anything else raises IndexError. */
  function PyIndex(len: int, i: int): (r: Option<nat>)
    ensures r.Some? <==> -len <= i < len
    ensures r.Some? ==> r.value < len && (r.value == i || r.value == i + len)
  {
    if 0 <= i < len then Some(i)
    else if -len <= i < 0 then Some(i + len)
    else None
  }

  function Min(a: int, b: int): int { if a <= b then a else b }
  function Max(a: int, b: int): int { if a >= b then a else b }

  /** A scalar read from a world file as it stands there: a number, a
      text (such as the range "2-5") or a list of numbers to choose from. */
  datatype Scalar = Num(n: int) | Text(s: string) | Choices(items: seq<int>)

  /** What `objects["x,y"]` holds: the single-key mapping `{name: count}`. */
  datatype Pile = Pile(name: string, count: int)
}
