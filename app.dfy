/**
 * The session state of the quiz page: the loaded word rows, the index of the
 * word on show, and whether its answer is revealed. `Math.random()` is an
 * oracle: each call to `RandomizeWord` is handed the sequence of values the
 * calls to `Math.random()` would return, each in [0, 1).
 */
module App {
  import opened Wrappers

  /** One spreadsheet row: column header to cell text. */
  type Word = map<string, string>

  /** A value `Math.random()` can return. */
  predicate IsRandomDraw(r: real) {
    0.0 <= r < 1.0
  }

  predicate AllRandomDraws(draws: seq<real>) {
    forall k :: 0 <= k < |draws| ==> IsRandomDraw(draws[k])
  }

  /** `Math.floor(r * n)`. */
  function DrawIndex(r: real, n: nat): int {
    (r * n as real).Floor
  }

  /** A draw ends the redraw loop when its index is not the one on show (`null` never equals an index). */
  predicate Accepts(r: real, n: nat, current: Option<int>) {
    current != Some(DrawIndex(r, n))
  }

  /** Some draw, at or after position `from`, ends the redraw loop. */
  predicate CanAdvanceFrom(draws: seq<real>, n: nat, current: Option<int>, from: nat) {
    exists k :: from <= k < |draws| && Accepts(draws[k], n, current)
  }

  predicate CanAdvance(draws: seq<real>, n: nat, current: Option<int>) {
    CanAdvanceFrom(draws, n, current, 0)
  }

  /** The position of the first draw, at or after `from`, that ends the redraw loop. */
  function FirstAccepted(draws: seq<real>, n: nat, current: Option<int>, from: nat): (k: nat)
    requires CanAdvanceFrom(draws, n, current, from)
    ensures from <= k < |draws| && Accepts(draws[k], n, current)
    ensures forall j :: from <= j < k ==> !Accepts(draws[j], n, current)
    decreases |draws| - from
  {
    if Accepts(draws[from], n, current) then from
    else FirstAccepted(draws, n, current, from + 1)
  }

  /** The index `randomizeWord` stores, for the given draws. */
  function NextIndex(draws: seq<real>, n: nat, current: Option<int>): (i: int)
    requires CanAdvance(draws, n, current)
    ensures current != Some(i)
    ensures exists k :: 0 <= k < |draws| && i == DrawIndex(draws[k], n)
  {
    DrawIndex(draws[FirstAccepted(draws, n, current, 0)], n)
  }

  /** `Math.floor(r * n)` is a valid index of a non-empty list. */
  lemma DrawIndexInRange(r: real, n: nat)
    requires IsRandomDraw(r) && n > 0
    ensures 0 <= DrawIndex(r, n) < n
  {
    assert r * n as real < n as real;
  }

  /** On an empty list every draw is index 0. */
  lemma DrawIndexOfEmpty(r: real)
    ensures DrawIndex(r, 0) == 0
  {
  }

  /** The draw `j / n` selects index `j`: every index of the list can be drawn. */
  lemma DrawHits(j: nat, n: nat)
    requires j < n
    ensures IsRandomDraw(j as real / n as real)
    ensures DrawIndex(j as real / n as real, n) == j
  {
    assert (j as real / n as real) * n as real == j as real;
  }

  /**
   * The redraw loop can end for some value of `Math.random()` exactly when the list
   * has at least two words or nothing is on show yet. With one word (or none) and
   * index 0 on show, every draw repeats index 0 and the loop never ends.
   */
  lemma AdvancePossible(n: nat, current: Option<int>)
    requires current == None || (0 <= current.value && (current.value < n || current.value == 0))
    ensures (exists r :: IsRandomDraw(r) && Accepts(r, n, current)) <==> (n >= 2 || current == None)
  {
    if n >= 2 {
      var j := if current == Some(0) then 1 else 0;
      DrawHits(j, n);
      assert Accepts(j as real / n as real, n, current);
    } else if current == None {
      assert Accepts(0.0, n, current);
    } else {
      forall r | IsRandomDraw(r) ensures !Accepts(r, n, current) {
        if n == 1 { DrawIndexInRange(r, n); }
      }
    }
  }

  /** With at most one word and index 0 on show, no sequence of draws ends the redraw loop. */
  lemma RedrawNeverEnds(draws: seq<real>, n: nat)
    requires n <= 1 && AllRandomDraws(draws)
    ensures !CanAdvance(draws, n, Some(0))
  {
    forall k | 0 <= k < |draws| ensures !Accepts(draws[k], n, Some(0)) {
      if n == 1 { DrawIndexInRange(draws[k], n); }
    }
  }

  /**
   * Only the index on show is avoided: after showing `a` then `b`, the next
   * call may show `a` again.
   */
  lemma NoMemoryBeyondCurrent(n: nat, a: nat, b: nat)
    requires a < n && b < n && a != b
    ensures CanAdvance([b as real / n as real], n, Some(a))
    ensures NextIndex([b as real / n as real], n, Some(a)) == b
    ensures CanAdvance([a as real / n as real], n, Some(b))
    ensures NextIndex([a as real / n as real], n, Some(b)) == a
  {
    DrawHits(a, n);
    DrawHits(b, n);
    assert Accepts([b as real / n as real][0], n, Some(a));
    assert Accepts([a as real / n as real][0], n, Some(b));
  }

  class AppState {
    var words: seq<Word>
    var randomIndex: Option<int>
    var showAnswer: bool

    /** The index on show is unset, or a valid index, or the 0 drawn while the list was still empty. */
    ghost predicate Valid()
      reads this
    {
      randomIndex == None ||
      (0 <= randomIndex.value && (randomIndex.value < |words| || randomIndex.value == 0))
    }

    constructor ()
      ensures Valid()
      ensures words == [] && randomIndex == None && !showAnswer
      ensures Card() == None
    {
      words := [];
      randomIndex := None;
      showAnswer := false;
    }

    /** The parsed rows arrive (`setWords`); the loading effect runs once, while the list is still empty. */
    method LoadWords(rows: seq<Word>)
      requires Valid() && words == []
      modifies this`words
      ensures Valid() && words == rows
    {
      words := rows;
    }

    /** The word the page shows, if any: only with a non-empty list and a drawn index. */
    function Card(): (w: Option<Word>)
      reads this
      requires Valid()
      ensures w.Some? <==> |words| > 0 && randomIndex.Some?
      ensures w.Some? ==> 0 <= randomIndex.value < |words| && w.value == words[randomIndex.value]
    {
      if |words| > 0 && randomIndex.Some? then Some(words[randomIndex.value]) else None
    }

    /**
     * `randomizeWord`: draw until the index differs from the one on show, store it
     * and hide the answer. Returns how many draws were used.
     */
    method RandomizeWord(draws: seq<real>) returns (used: nat)
      requires Valid()
      requires AllRandomDraws(draws)
      requires CanAdvance(draws, |words|, randomIndex)
      modifies this`randomIndex, this`showAnswer
      ensures Valid()
      ensures used == FirstAccepted(draws, |words|, old(randomIndex), 0) + 1
      ensures randomIndex == Some(NextIndex(draws, |words|, old(randomIndex)))
      ensures randomIndex != old(randomIndex)
      ensures |words| > 0 ==> 0 <= randomIndex.value < |words|
      ensures |words| == 0 ==> randomIndex == Some(0)
      ensures !showAnswer
      ensures words == old(words)
    {
      var n := |words|;
      var k := 0;
      var newIndex := DrawIndex(draws[k], n);
      while Some(newIndex) == randomIndex
        invariant 0 <= k <= FirstAccepted(draws, n, randomIndex, 0)
        invariant newIndex == DrawIndex(draws[k], n)
        decreases |draws| - k
      {
        k := k + 1;
        newIndex := DrawIndex(draws[k], n);
      }
      if n > 0 { DrawIndexInRange(draws[k], n); }
      randomIndex := Some(newIndex);
      showAnswer := false;
      used := k + 1;
    }

    /** `handleShowAnswer`: reveal the answer; nothing else changes. */
    method HandleShowAnswer()
      requires Valid()
      modifies this`showAnswer
      ensures Valid()
      ensures showAnswer
      ensures words == old(words) && randomIndex == old(randomIndex)
    {
      showAnswer := true;
    }
  }
}
