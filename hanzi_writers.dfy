/**
 * `generateHanziWriter`: fill a container with one stroke writer per character
 * and, in quiz mode, call the caller's `onComplete` once the per-character
 * completions counted by a shared counter reach the number of characters.
 */
module HanziWriters {
  import opened Wrappers

  /** What a writer does with its character. */
  datatype Mode = Quiz | ShowCharacter | LoopAnimation

  datatype Writer = Writer(character: char, mode: Mode)

  /** Quiz unless animating; animation shows the character at once in fast mode, else loops the strokes. */
  function ModeFor(shouldAnimate: bool, isFastMode: bool): (m: Mode)
    ensures m == Quiz <==> !shouldAnimate
    ensures m == ShowCharacter <==> shouldAnimate && isFastMode
    ensures m == LoopAnimation <==> shouldAnimate && !isFastMode
  {
    if shouldAnimate then (if isFastMode then ShowCharacter else LoopAnimation) else Quiz
  }

  /** One writer per character, in order. */
  function WritersFor(hanzis: string, mode: Mode): (ws: seq<Writer>)
    ensures |ws| == |hanzis|
    ensures forall i :: 0 <= i < |hanzis| ==> ws[i] == Writer(hanzis[i], mode)
  {
    seq(|hanzis|, i requires 0 <= i < |hanzis| => Writer(hanzis[i], mode))
  }

  /**
   * The values of the counter at which `onComplete` is called, after `events`
   * completion callbacks: one call whenever the incremented counter equals `total`.
   */
  function FiringTrace(total: nat, events: nat): seq<nat> {
    if events == 0 then []
    else FiringTrace(total, events - 1) + (if events == total then [events] else [])
  }

  /** `onComplete` has been called once, at count `total`, if at least `total` completions came in, and never otherwise. */
  lemma {:induction false} FiringTraceClosedForm(total: nat, events: nat)
    ensures FiringTrace(total, events) == if 1 <= total <= events then [total] else []
  {
    if events > 0 {
      FiringTraceClosedForm(total, events - 1);
    }
  }

  /** Before every character is complete, `onComplete` has not been called. */
  lemma {:induction false} NeverFiresEarly(total: nat, events: nat)
    requires events < total
    ensures FiringTrace(total, events) == []
  {
    FiringTraceClosedForm(total, events);
  }

  /** When each character completes exactly once, `onComplete` is called exactly once. */
  lemma {:induction false} FiresOnceWhenAllComplete(total: nat)
    requires total >= 1
    ensures |FiringTrace(total, total)| == 1
  {
    FiringTraceClosedForm(total, total);
  }

  /** Extra completions past `total` never call `onComplete` again. */
  lemma {:induction false} NeverFiresAgain(total: nat, events: nat, more: nat)
    requires 1 <= total <= events
    ensures FiringTrace(total, events + more) == FiringTrace(total, events)
  {
    FiringTraceClosedForm(total, events);
    FiringTraceClosedForm(total, events + more);
  }

  /** The DOM element behind `ref.current`: the writers it holds. */
  class Container {
    var writers: seq<Writer>

    constructor ()
      ensures writers == []
    {
      writers := [];
    }
  }

  /** The closure shared by all quiz writers of one call: `completed`, `total`, and the calls made to `onComplete`. */
  class CompletionCounter {
    const total: nat
    var completed: nat
    /** The value of `completed` at each call of `onComplete`. */
    var firedAt: seq<nat>

    ghost predicate Valid()
      reads this
    {
      total >= 1 && firedAt == FiringTrace(total, completed)
    }

    constructor (total: nat)
      requires total >= 1
      ensures Valid() && this.total == total && completed == 0 && firedAt == []
    {
      this.total := total;
      completed := 0;
      firedAt := [];
    }

    /** One writer's quiz is complete: count it, and call `onComplete` when the count equals `total`. */
    method OnCharacterComplete()
      requires Valid()
      modifies this`completed, this`firedAt
      ensures Valid()
      ensures completed == old(completed) + 1
      ensures firedAt == old(firedAt) + (if completed == total then [total] else [])
    {
      completed := completed + 1;
      if completed == total {
        firedAt := firedAt + [total];
      }
    }
  }

  /** The early exit: no container element, or a missing or empty `hanzis`. */
  predicate Proceeds(container: Container?, hanzis: Option<string>) {
    container != null && hanzis.Some? && hanzis.value != ""
  }

  /**
   * `generateHanziWriter`. Returns the completion counter the quiz writers
   * report to, or `null` when no quiz was registered (early exit or animate mode).
   */
  method GenerateHanziWriter(container: Container?, hanzis: Option<string>, shouldAnimate: bool, isFastMode: bool)
    returns (counter: CompletionCounter?)
    modifies container
    ensures !Proceeds(container, hanzis) ==> counter == null
    ensures !Proceeds(container, hanzis) && container != null ==> container.writers == old(container.writers)
    ensures Proceeds(container, hanzis) ==>
              container.writers == WritersFor(hanzis.value, ModeFor(shouldAnimate, isFastMode))
    ensures shouldAnimate ==> counter == null
    ensures Proceeds(container, hanzis) && !shouldAnimate ==>
              counter != null && fresh(counter) && counter.Valid() &&
              counter.total == |hanzis.value| && counter.completed == 0 && counter.firedAt == []
  {
    counter := null;
    if !Proceeds(container, hanzis) {
      return;
    }
    var h := hanzis.value;
    var mode := ModeFor(shouldAnimate, isFastMode);
    container.writers := [];
    if !shouldAnimate {
      counter := new CompletionCounter(|h|);
    }
    for i := 0 to |h|
      invariant container.writers == WritersFor(h[..i], mode)
      invariant counter != null ==> counter.completed == 0 && counter.firedAt == []
    {
      container.writers := container.writers + [Writer(h[i], mode)];
    }
    assert h[..|h|] == h;
  }
}
