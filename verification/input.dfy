/** The requests of input/input.go that front-ends hand to the processor. */
module Input {
  import opened Catalog
  import opened Wrappers

  datatype ActionType = Price | Help | Set | Close

  /** The integer an action stands for: consecutive from 0, in the order
      Price, Help, Set, Close. */
  function ActionCode(a: ActionType): (c: nat)
    ensures c < 4
    ensures ActionOfCode(c) == Some(a)
  {
    match a
    case Price => 0
    case Help => 1
    case Set => 2
    case Close => 3
  }

  /** The action an integer stands for, if any. */
  function ActionOfCode(c: int): (a: Option<ActionType>)
    ensures a.None? <==> !(0 <= c < 4)
  {
    if c == 0 then Some(Price)
    else if c == 1 then Some(Help)
    else if c == 2 then Some(Set)
    else if c == 3 then Some(Close)
    else None
  }

  /** The identity of a front-end's private reply channel. */
  type Channel = nat

  /** A request: the action, the race whose catalog it concerns, the item
      text (a name or a pattern), a whole-number price (used by Set) and the
      channel the reply must go to. */
  datatype Command = Command(action: ActionType, race: Race, item: string, price: int, out: Channel)
}
