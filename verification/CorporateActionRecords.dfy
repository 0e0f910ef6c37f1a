/** Stock splits and symbol changes as their constructors admit them.

    Instruments and symbols are numbers. A moment carries its instant and the place of its ISO text among texts,
    because the canonical order sorts by text and everything else compares instants. */
module CorporateActionRecords {
  type Instrument = int

  type Symbol = int

  datatype Moment = Moment(instant: int, text: int)

  datatype ActionData =
    | Split(instrument: Instrument, at: Moment, newShares: nat, oldShares: nat)
    | SymbolChange(instrument: Instrument, at: Moment, oldSymbol: Symbol, newSymbol: Symbol)

  /** An action as its constructor admits it. */
  type Action = a: ActionData |
      match a
      case Split(_, _, newShares, oldShares) => newShares > 0 && oldShares > 0 && newShares != oldShares
      case SymbolChange(_, _, oldSymbol, newSymbol) => oldSymbol != newSymbol
    witness SymbolChange(0, Moment(0, 0), 0, 1)

  /** The declared type, in the order of its text. The direction of a split's ratio is its type. */
  datatype ActionType = ReverseSplit | ForwardSplit | Rename

  function TypeOf(a: Action): ActionType {
    match a
    case Split(_, _, newShares, oldShares) => if newShares > oldShares then ForwardSplit else ReverseSplit
    case SymbolChange(_, _, _, _) => Rename
  }

  function Rank(t: ActionType): int {
    match t
    case ReverseSplit => 0
    case ForwardSplit => 1
    case Rename => 2
  }

  datatype Key = Key(instrument: Instrument, instant: int, kind: ActionType)

  function KeyOf(a: Action): Key {
    Key(a.instrument, a.at.instant, TypeOf(a))
  }
}
