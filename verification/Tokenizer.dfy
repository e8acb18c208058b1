/**
 The incremental log tokenizer of the acceptance collector.

 It is called again and again on a growing log, each call reading at most 200
 lines, and once more at the end without that bound.  What a line does to the
 collected markers and phases is the parameter `handle`, so everything below holds
 for every line handler.
 */
module Tokenizer {
  import opened Text

  const LINE_LIMIT: nat := 4096
  const LINES_PER_CALL: nat := 200

  type Handler<!S> = (S, string) -> S

  /** One line's effect: lines over the limit, terminator included, are skipped whole. */
  function Effect<S>(content: string, from: nat, end: nat, state: S, handle: Handler<S>): S
    requires from <= end < |content|
  {
    if end + 1 - from <= LINE_LIMIT then handle(state, content[from..end + 1]) else state
  }

  /** The one-shot reading: every complete line of a range, in order, once. */
  function Fold<S>(content: string, from: nat, upto: nat, state: S, handle: Handler<S>): S
    requires from <= upto <= |content|
    decreases upto - from
  {
    var n := Newline(content, from, upto);
    if n == upto then state else Fold(content, n + 1, upto, Effect(content, from, n, state, handle), handle)
  }

  lemma {:induction false} FoldConcat<S>(content: string, from: nat, mid: nat, upto: nat, state: S, handle: Handler<S>)
    requires from <= mid <= upto <= |content| && (mid == from || content[mid - 1] == '\n')
    ensures Fold(content, from, upto, state, handle) ==
              Fold(content, mid, upto, Fold(content, from, mid, state, handle), handle)
    decreases mid - from
  {
    if mid != from {
      var n := Newline(content, from, mid);
      NewlineIs(content, from, n, upto);
      FoldConcat(content, n + 1, mid, upto, Effect(content, from, n, state, handle), handle);
    }
  }

  lemma {:induction false} FoldAppended<S>(content: string, grown: string, from: nat, upto: nat, state: S,
                                           handle: Handler<S>)
    requires from <= upto <= |content| && content <= grown
    ensures Fold(grown, from, upto, state, handle) == Fold(content, from, upto, state, handle)
    decreases upto - from
  {
    var n := Newline(content, from, upto);
    if n < upto {
      NewlineIs(grown, from, n, upto);
      assert grown[from..n + 1] == content[from..n + 1];
      FoldAppended(content, grown, n + 1, upto, Effect(content, from, n, state, handle), handle);
    } else {
      assert Newline(grown, from, upto) == upto;
    }
  }

  /** A pass over one complete line. */
  lemma FoldLine<S>(content: string, from: nat, end: nat, state: S, handle: Handler<S>)
    requires from <= end < |content| && content[end] == '\n' && forall i :: from <= i < end ==> content[i] != '\n'
    ensures Fold(content, from, end + 1, state, handle) == Effect(content, from, end, state, handle)
  {
    NewlineIs(content, from, end, end + 1);
  }

  /** The states between these lines: a line of at most 4096 characters is handled, a longer one is not. */
  ghost predicate Handles<S>(content: string, lines: seq<Extent>, states: seq<S>, handle: Handler<S>)
    requires forall i :: 0 <= i < |lines| ==> lines[i].start <= lines[i].end < |content|
  {
    && |states| == |lines| + 1
    && forall i :: 0 <= i < |lines| ==>
         states[i + 1] == if lines[i].end + 1 - lines[i].start <= 4096
                          then handle(states[i], content[lines[i].start..lines[i].end + 1]) else states[i]
  }

  lemma HandlesFirst<S>(content: string, first: Extent, rest: seq<Extent>, state: S, later: seq<S>, handle: Handler<S>)
    requires first.start <= first.end < |content|
    requires forall i :: 0 <= i < |rest| ==> rest[i].start <= rest[i].end < |content|
    requires Handles(content, rest, later, handle) && later[0] == Effect(content, first.start, first.end, state, handle)
    ensures forall i :: 0 <= i < |[first] + rest| ==> ([first] + rest)[i].start <= ([first] + rest)[i].end < |content|
    ensures Handles(content, [first] + rest, [state] + later, handle)
  {
    var lines, states := [first] + rest, [state] + later;
    assert forall i :: 1 <= i < |lines| ==> lines[i] == rest[i - 1] && states[i] == later[i - 1];
  }

  /** The one-shot reading handles every complete line that is not too long, in order, once. */
  lemma {:induction false} FoldReads<S>(content: string, from: nat, upto: nat, state: S, handle: Handler<S>)
    returns (lines: seq<Extent>, states: seq<S>)
    requires from <= upto <= |content|
    ensures Cuts(content, from, upto, lines) && Handles(content, lines, states, handle)
    ensures states[0] == state && states[|lines|] == Fold(content, from, upto, state, handle)
    decreases upto - from
  {
    var n := Newline(content, from, upto);
    if n == upto {
      return [], [state];
    }
    var rest, later := FoldReads(content, n + 1, upto, Effect(content, from, n, state, handle), handle);
    CutsFirst(content, from, n, upto, rest);
    HandlesFirst(content, Extent(from, n), rest, state, later, handle);
    lines, states := [Extent(from, n)] + rest, [state] + later;
  }

  /** The line that contains an offset started here, has no terminator before it, and is already too long. */
  predicate Overlong(content: string, start: nat, offset: nat) {
    && start <= offset <= |content| && Boundary(content, start) && offset - start > LINE_LIMIT
    && forall i :: start <= i < offset ==> content[i] != '\n'
  }

  /** How a position corresponds to the one-shot reading; `start` is the line start when discarding. */
  ghost predicate At<S>(content: string, offset: nat, discard: bool, start: nat, state: S, initial: S,
                        handle: Handler<S>) {
    && start <= offset <= |content| && Boundary(content, start)
    && (if discard then Overlong(content, start, offset) else start == offset)
    && state == Fold(content, 0, start, initial, handle)
  }

  /** Reading on past a complete line. */
  lemma NextLine<S>(content: string, offset: nat, discard: bool, start: nat, end: nat, state: S, initial: S,
                    handle: Handler<S>)
    requires At(content, offset, discard, start, state, initial, handle)
    requires offset <= end < |content| && content[end] == '\n' && forall i :: offset <= i < end ==> content[i] != '\n'
    ensures At(content, end + 1, false, end + 1, Effect(content, start, end, state, handle), initial, handle)
  {
    FoldLine(content, start, end, state, handle);
    FoldConcat(content, 0, start, end + 1, initial, handle);
  }

  /** One bounded readline: where it stops, and whether it met the terminator. */
  method ReadLine(content: string, offset: nat) returns (end: nat, terminated: bool)
    requires offset <= |content|
    ensures offset <= end <= |content| && end - offset <= LINE_LIMIT + 1
    ensures terminated <==> end > offset && content[end - 1] == '\n'
    ensures NoLine(content, offset, if terminated then end - 1 else end)
    ensures !terminated && end - offset <= LINE_LIMIT ==> end == |content|
  {
    var stop := if offset + LINE_LIMIT + 1 < |content| then offset + LINE_LIMIT + 1 else |content|;
    var n := Newline(content, offset, stop);
    end := if n < stop then n + 1 else stop;
    terminated := n < stop;
  }

  /**
   One call.  It keeps the correspondence with the one-shot reading, and the final
   call reaches the end of the log: nothing complete is left.
   */
  method PhaseEvents<S>(content: string, from: nat, discarding: bool, ghost begun: nat, current: S, final: bool,
                        handle: Handler<S>, ghost initial: S)
    returns (offset: nat, discard: bool, ghost start: nat, state: S)
    requires At(content, from, discarding, begun, current, initial, handle)
    ensures At(content, offset, discard, start, state, initial, handle)
    ensures from <= offset && (final || offset == from ==> NoLine(content, offset, |content|))
    ensures final ==> NoLine(content, start, |content|)
  {
    offset, discard, start, state := from, discarding, begun, current;
    var count := 0;
    while final || count < LINES_PER_CALL
      invariant At(content, offset, discard, start, state, initial, handle)
      invariant from <= offset && (count > 0 ==> from < offset)
      decreases |content| - offset
    {
      count := count + 1;
      var end, terminated := ReadLine(content, offset);
      if end == offset {
        break;
      }
      if discard || end - offset > LINE_LIMIT {
        if terminated {
          NextLine(content, offset, discard, start, end - 1, state, initial, handle);
          start := end;
        }
        discard, offset := !terminated, end;
        continue;
      }
      if !terminated {
        break;
      }
      NextLine(content, offset, discard, start, end - 1, state, initial, handle);
      state := handle(state, content[offset..end]);
      offset, start := end, end;
    }
  }

  /**
   The incremental tokenizer refines the one-shot one: for every way the log grows
   and every sequence of bounded calls, followed by the final one, exactly the
   complete lines within the limit have been handled, in order, once.
   */
  method Follow<S>(logs: seq<string>, initial: S, handle: Handler<S>) returns (state: S)
    requires logs != [] && forall k :: 0 <= k < |logs| - 1 ==> logs[k] <= logs[k + 1]
    ensures var log := logs[|logs| - 1]; state == Fold(log, 0, |log|, initial, handle)
  {
    state := initial;
    var offset, discard := 0, false;
    ghost var start := 0;
    for k := 0 to |logs| - 1
      invariant At(logs[k], offset, discard, start, state, initial, handle)
    {
      offset, discard, start, state := PhaseEvents(logs[k], offset, discard, start, state, false, handle, initial);
      FoldAppended(logs[k], logs[k + 1], 0, start, initial, handle);
    }
    var log := logs[|logs| - 1];
    offset, discard, start, state := PhaseEvents(log, offset, discard, start, state, true, handle, initial);
    FoldConcat(log, 0, start, |log|, initial, handle);
  }
}
