/** Which symbol an instrument had at a moment: the backward walk from the current symbol against the history
    replayed forward. */
module SymbolHistory {
  import opened CorporateActionRecords
  import opened CorporateActions

  predicate AllChanges(changes: seq<Action>) {
    forall k :: 0 <= k < |changes| ==> changes[k].SymbolChange?
  }

  /** Undo, from the last change back, every change that `instant` had not seen yet. */
  function Walk(symbol: Symbol, changes: seq<Action>, instant: int): Symbol
    requires AllChanges(changes)
    decreases |changes|
  {
    if changes == [] || instant >= changes[|changes| - 1].at.instant then symbol
    else Walk(changes[|changes| - 1].oldSymbol, changes[..|changes| - 1], instant)
  }

  /** Make, from the first change on, every change that `instant` has seen. */
  function Replay(symbol: Symbol, changes: seq<Action>, instant: int): Symbol
    requires AllChanges(changes)
    decreases |changes|
  {
    if changes == [] || instant < changes[0].at.instant then symbol
    else Replay(changes[0].newSymbol, changes[1..], instant)
  }

  lemma ChangesOnly(actions: seq<Action>, i: Instrument)
    ensures AllChanges(ChangesOf(actions, i))
  {
    var t := ChangesOf(actions, i);
    forall k | 0 <= k < |t|
      ensures t[k].SymbolChange?
    {
      InChanges(actions, i, t[k]);
    }
  }

  method SymbolAt(actions: seq<Action>, i: Instrument, current: Symbol, instant: int) returns (symbol: Symbol)
    ensures AllChanges(ChangesOf(actions, i))
    ensures symbol == Walk(current, ChangesOf(actions, i), instant)
  {
    ChangesOnly(actions, i);
    var changes := ChangesOf(actions, i);
    symbol := current;
    var n := |changes|;
    assert changes[..n] == changes;
    while n > 0
      invariant 0 <= n <= |changes|
      invariant Walk(current, changes, instant) == Walk(symbol, changes[..n], instant)
    {
      assert changes[..n][..n - 1] == changes[..n - 1];
      if instant < changes[n - 1].at.instant {
        symbol := changes[n - 1].oldSymbol;
      } else {
        break;
      }
      n := n - 1;
    }
  }

  /** Replaying one change more: it decides if it has happened, and otherwise changes nothing. */
  lemma {:induction false} ReplayLast(symbol: Symbol, changes: seq<Action>, last: Action, instant: int)
    requires AllChanges(changes + [last]) && Rising(changes + [last])
    ensures AllChanges(changes) && last.SymbolChange?
    ensures Replay(symbol, changes + [last], instant)
         == if instant < last.at.instant then Replay(symbol, changes, instant) else last.newSymbol
    decreases |changes|
  {
    var all := changes + [last];
    assert all[|changes|] == last && forall k :: 0 <= k < |changes| ==> changes[k] == all[k];
    if changes == [] {
    } else {
      assert all[1..] == changes[1..] + [last];
      assert all[0].at.instant < all[|changes|].at.instant;
      ReplayLast(changes[0].newSymbol, changes[1..], last, instant);
    }
  }

  /** The symbol after the first `n` changes. */
  function SymbolAfter(changes: seq<Action>, n: nat): Symbol
    requires AllChanges(changes) && changes != [] && n <= |changes|
  {
    if n == 0 then changes[0].oldSymbol else changes[n - 1].newSymbol
  }

  lemma {:induction false} WalkIsReplay(changes: seq<Action>, n: nat, instant: int)
    requires AllChanges(changes) && Rising(changes) && AdjacentLinked(changes) && changes != [] && n <= |changes|
    ensures Walk(SymbolAfter(changes, n), changes[..n], instant) == Replay(changes[0].oldSymbol, changes[..n], instant)
  {
    if n == 0 {
    } else {
      WalkIsReplay(changes, n - 1, instant);
      assert changes[..n] == changes[..n - 1] + [changes[n - 1]];
      ReplayLast(changes[0].oldSymbol, changes[..n - 1], changes[n - 1], instant);
      assert n > 1 ==> Linked(changes[n - 2], changes[n - 2 + 1]);
    }
  }

  /** The backward walk agrees with the forward replay exactly at the moments before the last change, and after it
      exactly when `current` is the symbol the last change left. */
  lemma WalkAgreesWhen(changes: seq<Action>, current: Symbol, instant: int)
    requires AllChanges(changes) && Rising(changes) && AdjacentLinked(changes) && changes != []
    ensures Walk(current, changes, instant) == Replay(changes[0].oldSymbol, changes, instant)
       <==> instant < changes[|changes| - 1].at.instant || current == changes[|changes| - 1].newSymbol
  {
    var n := |changes|;
    assert changes[..n] == changes;
    WalkIsReplay(changes, n, instant);
    assert changes == changes[..n - 1] + [changes[n - 1]];
    ReplayLast(changes[0].oldSymbol, changes[..n - 1], changes[n - 1], instant);
  }

  /** In a validated manifest the backward walk is the forward replay at every moment if and only if it starts from
      the symbol the last change left. */
  lemma WalkIsHistory(actions: seq<Action>, i: Instrument, current: Symbol)
    requires DistinctKeys(actions) && Chained(actions) && ChangesOf(actions, i) != []
    ensures AllChanges(ChangesOf(actions, i))
    ensures var changes := ChangesOf(actions, i);
            (forall instant: int :: Walk(current, changes, instant) == Replay(changes[0].oldSymbol, changes, instant))
            <==> current == changes[|changes| - 1].newSymbol
  {
    ChangesOnly(actions, i);
    ChangesRise(actions, i);
    AdjacentIsNext(actions, i);
    var changes := ChangesOf(actions, i);
    forall instant: int | true
      ensures Walk(current, changes, instant) == Replay(changes[0].oldSymbol, changes, instant)
         <==> instant < changes[|changes| - 1].at.instant || current == changes[|changes| - 1].newSymbol
    {
      WalkAgreesWhen(changes, current, instant);
    }
    var last := changes[|changes| - 1].at.instant;
    assert Walk(current, changes, last) == Replay(changes[0].oldSymbol, changes, last)
      <==> last < last || current == changes[|changes| - 1].newSymbol;
  }

  /** From a change on, and until the next, its new symbol is held; before the first change, its old one. The change is
      in effect at its own moment. */
  lemma {:induction false} SymbolHeld(changes: seq<Action>, k: nat, instant: int)
    requires AllChanges(changes) && Rising(changes) && AdjacentLinked(changes) && changes != []
    requires k <= |changes| && (k > 0 ==> changes[k - 1].at.instant <= instant)
    requires k < |changes| ==> instant < changes[k].at.instant
    ensures Walk(changes[|changes| - 1].newSymbol, changes, instant)
         == if k == 0 then changes[0].oldSymbol else changes[k - 1].newSymbol
    decreases |changes|
  {
    var n := |changes| - 1;
    if k <= n {
      assert instant < changes[n].at.instant;
      if n > 0 {
        var front := changes[..n];
        assert Linked(changes[n - 1], changes[n - 1 + 1]);
        assert AdjacentLinked(front) by {
          forall j | 0 <= j < |front| - 1
            ensures Linked(front[j], front[j + 1])
          {
            assert Linked(changes[j], changes[j + 1]);
          }
        }
        SymbolHeld(front, k, instant);
      } else {
        assert changes[..0] == [];
      }
    }
  }
}
