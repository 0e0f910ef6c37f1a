/** Splitting the targets of a secret scan into batches that fit one command line each.

    The length of the command before the first target is a parameter. */
module SecretScanBatches {
  import opened Sorting

  type Target = string

  type Batch = seq<Target>

  /** A target takes its own length and the blank before it. */
  function Cost(t: Target): int {
    |t| + 1
  }

  function CommandLength(prefix: nat, batch: Batch): int {
    prefix + Sum(Cost, batch)
  }

  function Concat(batches: seq<Batch>): Batch {
    if batches == [] then [] else Concat(batches[..|batches| - 1]) + batches[|batches| - 1]
  }

  /** A batch may be issued: it is not empty, and fits the limit unless it is a single target. */
  predicate Issuable(prefix: nat, limit: int, batch: Batch) {
    batch != [] && (|batch| == 1 || CommandLength(prefix, batch) <= limit)
  }

  predicate Split(prefix: nat, limit: int, batches: seq<Batch>) {
    forall k :: 0 <= k < |batches| ==> Issuable(prefix, limit, batches[k])
  }

  /** A split whose every batch, the last excepted, has no room for the target that follows it. */
  predicate Greedy(prefix: nat, limit: int, batches: seq<Batch>) {
    && Split(prefix, limit, batches)
    && forall k :: 0 <= k < |batches| - 1 ==> CommandLength(prefix, batches[k]) + Cost(batches[k + 1][0]) > limit
  }

  lemma ConcatAppend(batches: seq<Batch>, batch: Batch)
    ensures Concat(batches + [batch]) == Concat(batches) + batch
  {
    assert (batches + [batch])[..|batches|] == batches;
  }

  lemma {:induction false} ConcatCons(head: Batch, tail: seq<Batch>)
    ensures Concat([head] + tail) == head + Concat(tail)
  {
    if tail == [] {
      assert [head] + tail == [] + [head];
      ConcatAppend([], head);
    } else {
      var front, last := tail[..|tail| - 1], tail[|tail| - 1];
      assert tail == front + [last] && [head] + tail == ([head] + front) + [last];
      ConcatCons(head, front);
      ConcatAppend([head] + front, last);
      ConcatAppend(front, last);
    }
  }

  lemma ConcatHead(batches: seq<Batch>)
    requires batches != []
    ensures Concat(batches) == batches[0] + Concat(batches[1..])
  {
    assert batches == [batches[0]] + batches[1..];
    ConcatCons(batches[0], batches[1..]);
  }

  lemma {:induction false} CostPositive(batch: Batch)
    ensures Sum(Cost, batch) >= |batch|
  {
    if batch == [] {
    } else {
      CostPositive(batch[..|batch| - 1]);
    }
  }

  lemma OneTooMany(first: Batch, rest: Batch, before: Batch, after: Batch)
    requires first + rest == before + after && |first| > |before|
    ensures after != [] && first == before + [after[0]] + first[|before| + 1..]
  {
    var whole := before + after;
    assert first == whole[..|first|];
    assert first[|before|] == whole[|before|] == after[0];
  }

  lemma PartsCost(a: Batch, b: Batch, next: Target, c: Batch)
    ensures Sum(Cost, a + b + [next] + c) >= Sum(Cost, b) + Cost(next)
  {
    SumConcat(Cost, a + b + [next], c);
    SumExtend(Cost, a + b, next);
    SumConcat(Cost, a, b);
    CostPositive(a);
    CostPositive(c);
  }

  /** A batch that starts no later than a greedy one ends no later. */
  lemma EndsNoLater(prefix: nat, limit: int, greedy: seq<Batch>, first: Batch, rest: Batch, behind: Batch)
    requires Greedy(prefix, limit, greedy) && greedy != [] && Issuable(prefix, limit, first)
    requires first + rest == behind + Concat(greedy)
    ensures |first| <= |behind| + |greedy[0]|
  {
    ConcatHead(greedy);
    var before, after := behind + greedy[0], Concat(greedy[1..]);
    assert behind + Concat(greedy) == before + after;
    if |first| > |before| {
      OneTooMany(first, rest, before, after);
      ConcatHead(greedy[1..]);
      assert after[0] == greedy[1][0];
      PartsCost(behind, greedy[0], after[0], first[|before| + 1..]);
    }
  }

  /** A greedy split of the targets not yet covered needs no more batches than any other split, even one that is
      still `behind`. */
  lemma {:induction false} GreedyLeads(prefix: nat, limit: int, greedy: seq<Batch>, other: seq<Batch>, behind: Batch)
    requires Greedy(prefix, limit, greedy) && Split(prefix, limit, other)
    requires Concat(other) == behind + Concat(greedy)
    ensures |greedy| <= |other|
  {
    if greedy == [] {
    } else {
      ConcatHead(greedy);
      ConcatHead(other);
      var first, rest := other[0], Concat(other[1..]);
      EndsNoLater(prefix, limit, greedy, first, rest, behind);
      var covered, tail := behind + greedy[0], Concat(greedy[1..]);
      assert first + rest == covered + tail;
      assert first == (covered + tail)[..|first|] && rest == (covered + tail)[|first|..];
      assert rest == covered[|first|..] + tail;
      GreedyLeads(prefix, limit, greedy[1..], other[1..], covered[|first|..]);
    }
  }

  /** Being greedy determines the batches: the result is a function of the targets. */
  lemma {:induction false} GreedyUnique(prefix: nat, limit: int, a: seq<Batch>, b: seq<Batch>)
    requires Greedy(prefix, limit, a) && Greedy(prefix, limit, b) && Concat(a) == Concat(b)
    ensures a == b
  {
    if a == [] {
      if b != [] {
        ConcatHead(b);
      }
    } else {
      ConcatHead(a);
      assert Issuable(prefix, limit, a[0]);
      assert b != [];
      ConcatHead(b);
      EndsNoLater(prefix, limit, a, b[0], Concat(b[1..]), []);
      EndsNoLater(prefix, limit, b, a[0], Concat(a[1..]), []);
      var whole := Concat(a);
      assert a[0] == whole[..|a[0]|] && b[0] == whole[..|b[0]|];
      assert Concat(a[1..]) == whole[|a[0]|..] && Concat(b[1..]) == whole[|b[0]|..];
      GreedyUnique(prefix, limit, a[1..], b[1..]);
    }
  }

  /** The batches finished so far and the one being filled. */
  function With(batches: seq<Batch>, current: Batch): seq<Batch> {
    if current == [] then batches else batches + [current]
  }

  /** The loop has dealt with the targets `seen`. */
  predicate Filling(prefix: nat, limit: int, seen: seq<Target>, batches: seq<Batch>, current: Batch) {
    && Concat(batches) + current == seen && (current == [] ==> batches == [])
    && Greedy(prefix, limit, With(batches, current))
  }

  lemma Extended(prefix: nat, limit: int, seen: seq<Target>, batches: seq<Batch>, current: Batch, target: Target)
    requires Filling(prefix, limit, seen, batches, current)
    requires current == [] || CommandLength(prefix, current) + Cost(target) <= limit
    ensures Filling(prefix, limit, seen + [target], batches, current + [target])
  {
    SumExtend(Cost, current, target);
    var before, after := With(batches, current), With(batches, current + [target]);
    var n := |batches|;
    assert Issuable(prefix, limit, after[n]);
    forall k | 0 <= k < n
      ensures Issuable(prefix, limit, after[k])
    {
      assert Issuable(prefix, limit, before[k]);
    }
    forall k | 0 <= k < n
      ensures CommandLength(prefix, after[k]) + Cost(after[k + 1][0]) > limit
    {
      assert Issuable(prefix, limit, before[k + 1]);
      assert after[k] == before[k] && after[k + 1][0] == before[k + 1][0];
    }
  }

  lemma Opened(prefix: nat, limit: int, seen: seq<Target>, batches: seq<Batch>, current: Batch, target: Target)
    requires Filling(prefix, limit, seen, batches, current) && current != []
    requires CommandLength(prefix, current) + Cost(target) > limit
    ensures Filling(prefix, limit, seen + [target], batches + [current], [target])
  {
    var before, after := With(batches, current), With(batches + [current], [target]);
    assert after == before + [[target]];
    assert Issuable(prefix, limit, [target]);
    ConcatAppend(batches, current);
  }

  lemma Finished(prefix: nat, limit: int, seen: seq<Target>, batches: seq<Batch>, current: Batch)
    requires Filling(prefix, limit, seen, batches, current)
    ensures Concat(With(batches, current)) == seen
  {
    ConcatAppend(batches, current);
  }

  lemma GreedyIsShortest(prefix: nat, limit: int, batches: seq<Batch>, targets: seq<Target>)
    requires Greedy(prefix, limit, batches) && Concat(batches) == targets
    ensures forall other :: Split(prefix, limit, other) && Concat(other) == targets ==> |batches| <= |other|
  {
    forall other | Split(prefix, limit, other) && Concat(other) == targets
      ensures |batches| <= |other|
    {
      assert [] + targets == targets;
      GreedyLeads(prefix, limit, batches, other, []);
    }
  }

  /** The batches hold the targets in order, each may be issued, and no other such split uses fewer. */
  method BatchTargets(prefix: nat, limit: int, targets: seq<Target>) returns (batches: seq<Batch>)
    ensures Concat(batches) == targets && Split(prefix, limit, batches)
    ensures forall other :: Split(prefix, limit, other) && Concat(other) == targets ==> |batches| <= |other|
  {
    batches := [];
    var current: Batch := [];
    var length: int := prefix;
    for i := 0 to |targets|
      invariant length == CommandLength(prefix, current) && Filling(prefix, limit, targets[..i], batches, current)
    {
      var target := targets[i];
      assert targets[..i + 1] == targets[..i] + [target];
      SumExtend(Cost, current, target);
      if current != [] && length + Cost(target) > limit {
        Opened(prefix, limit, targets[..i], batches, current, target);
        batches := batches + [current];
        current := [target];
        length := prefix + Cost(target);
        continue;
      }
      Extended(prefix, limit, targets[..i], batches, current, target);
      current := current + [target];
      length := length + Cost(target);
    }
    assert targets[..|targets|] == targets;
    Finished(prefix, limit, targets, batches, current);
    if current != [] {
      batches := batches + [current];
    }
    GreedyIsShortest(prefix, limit, batches, targets);
  }

  /** The command line as it is issued: the command, and each target behind a blank. */
  function CommandText(command: string, batch: Batch): string {
    if batch == [] then command else CommandText(command, batch[..|batch| - 1]) + " " + batch[|batch| - 1]
  }

  /** What is compared with the limit is the length of the command line. */
  lemma {:induction false} LengthIsOfText(command: string, batch: Batch)
    ensures |CommandText(command, batch)| == CommandLength(|command|, batch)
  {
    if batch == [] {
    } else {
      LengthIsOfText(command, batch[..|batch| - 1]);
    }
  }
}
