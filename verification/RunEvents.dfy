/**
 The bounded reader of a line-delimited run journal.

 Each poll reads a capped slice behind a cursor.  What one line means (decoding,
 heartbeat filtering, compaction) is the parameter `decode`, applied to the line's
 text and its absolute offset; everything below holds for every such function.
 */
module RunEvents {
  import opened Text

  /** An open journal: its identity and its bytes. */
  datatype File = File(stream: nat, content: string)

  /** Where the caller stopped; the anchor stands for the digest of the bytes just before it. */
  datatype Cursor = Cursor(stream: nat, offset: nat, size: nat, anchor: string)

  datatype Batch<E> = Batch(cursor: Cursor, events: seq<E>, backlog: bool, eof: nat, incomplete: nat)

  const ANCHOR_BYTES: nat := 256
  const MAX_BYTES: nat := 1048576
  const MAX_LINES: nat := 1000

  type Decoder<!E> = (string, nat) -> Result<Option<E>>

  function Anchor(content: string, offset: nat): string
    requires offset <= |content|
  {
    content[if offset < ANCHOR_BYTES then 0 else offset - ANCHOR_BYTES..offset]
  }

  // ---------- the one-pass reader ----------

  /** What one decoded line contributes. */
  function Material<E>(decoded: Result<Option<E>>): Result<seq<E>> {
    match decoded
    case Refused => Refused
    case Ok(None) => Ok([])
    case Ok(Some(event)) => Ok([event])
  }

  /** One reading after another; a refusal anywhere refuses the whole. */
  function Then<E>(first: Result<seq<E>>, second: Result<seq<E>>): Result<seq<E>> {
    if first.Refused? || second.Refused? then Refused else Ok(first.value + second.value)
  }

  /** The events of every complete line of a range, in order; an unterminated tail is left. */
  function Pass<E>(content: string, from: nat, upto: nat, decode: Decoder<E>): Result<seq<E>>
    requires from <= upto <= |content|
    decreases upto - from
  {
    var n := Newline(content, from, upto);
    if n == upto then Ok([]) else Then(Material(decode(content[from..n], from)), Pass(content, n + 1, upto, decode))
  }

  lemma ThenAssociates<E>(a: Result<seq<E>>, b: Result<seq<E>>, c: Result<seq<E>>)
    ensures Then(Then(a, b), c) == Then(a, Then(b, c))
  {
    if a.Ok? && b.Ok? && c.Ok? {
      assert a.value + b.value + c.value == a.value + (b.value + c.value);
    }
  }

  lemma ThenNothing<E>(a: Result<seq<E>>)
    ensures Then(a, Ok([])) == a && Then(Ok([]), a) == a
  {
    if a.Ok? {
      assert a.value + [] == a.value && [] + a.value == a.value;
    }
  }

  /** The first line of a range and the rest of it. */
  lemma PassFirst<E>(content: string, from: nat, n: nat, upto: nat, decode: Decoder<E>)
    requires from <= n < upto <= |content| && content[n] == '\n' && NoLine(content, from, n)
    ensures Pass(content, from, upto, decode) ==
              Then(Material(decode(content[from..n], from)), Pass(content, n + 1, upto, decode))
  {
    NewlineIs(content, from, n, upto);
  }

  /** Two passes that meet at a line boundary are one pass. */
  lemma {:induction false} PassConcat<E>(content: string, from: nat, mid: nat, upto: nat, decode: Decoder<E>)
    requires from <= mid <= upto <= |content|
    requires mid == from || content[mid - 1] == '\n'
    ensures Pass(content, from, upto, decode) ==
              Then(Pass(content, from, mid, decode), Pass(content, mid, upto, decode))
    decreases upto - from
  {
    if mid == from {
      ThenNothing(Pass(content, mid, upto, decode));
    } else {
      var n := Newline(content, from, mid);
      PassConcat(content, n + 1, mid, upto, decode);
      PassConcatFirst(content, from, n, mid, upto, decode);
    }
  }

  lemma PassConcatFirst<E>(content: string, from: nat, n: nat, mid: nat, upto: nat, decode: Decoder<E>)
    requires from <= n < mid <= upto <= |content| && content[n] == '\n' && NoLine(content, from, n)
    requires Pass(content, n + 1, upto, decode) ==
               Then(Pass(content, n + 1, mid, decode), Pass(content, mid, upto, decode))
    ensures Pass(content, from, upto, decode) ==
              Then(Pass(content, from, mid, decode), Pass(content, mid, upto, decode))
  {
    var line := Material(decode(content[from..n], from));
    var left, right := Pass(content, n + 1, mid, decode), Pass(content, mid, upto, decode);
    calc {
      Pass(content, from, upto, decode);
      { PassFirst(content, from, n, upto, decode); }
      Then(line, Then(left, right));
      { ThenAssociates(line, left, right); }
      Then(Then(line, left), right);
      { PassFirst(content, from, n, mid, decode); }
      Then(Pass(content, from, mid, decode), right);
    }
  }

  /** A pass over one complete line. */
  lemma PassLine<E>(content: string, from: nat, end: nat, decode: Decoder<E>)
    requires from <= end < |content| && content[end] == '\n' && forall i :: from <= i < end ==> content[i] != '\n'
    ensures Pass(content, from, end + 1, decode) == Material(decode(content[from..end], from))
  {
    assert Newline(content, from, end + 1) == end;
    ThenNothing(Material(decode(content[from..end], from)));
  }

  /** Reading on by one complete line. */
  lemma PassNext<E>(content: string, from: nat, next: nat, end: nat, decode: Decoder<E>)
    requires from <= next <= end < |content| && (next == from || content[next - 1] == '\n')
    requires content[end] == '\n' && forall i :: next <= i < end ==> content[i] != '\n'
    ensures Pass(content, from, end + 1, decode)
         == Then(Pass(content, from, next, decode), Material(decode(content[next..end], next)))
  {
    PassLine(content, next, end, decode);
    PassConcat(content, from, next, end + 1, decode);
  }

  /** A complete line that does not decode refuses every pass over it. */
  lemma PassRefused<E>(content: string, from: nat, next: nat, end: nat, upto: nat, decode: Decoder<E>)
    requires from <= next <= end < upto <= |content| && (next == from || content[next - 1] == '\n')
    requires content[end] == '\n' && forall i :: next <= i < end ==> content[i] != '\n'
    requires Material(decode(content[next..end], next)).Refused?
    ensures Pass(content, from, upto, decode).Refused?
  {
    PassNext(content, from, next, end, decode);
    PassConcat(content, from, end + 1, upto, decode);
  }

  /** Bytes appended later do not change what was read. */
  lemma {:induction false} PassAppended<E>(content: string, grown: string, from: nat, upto: nat, decode: Decoder<E>)
    requires from <= upto <= |content| && content <= grown
    ensures Pass(grown, from, upto, decode) == Pass(content, from, upto, decode)
    decreases upto - from
  {
    var n := Newline(content, from, upto);
    assert n == Newline(grown, from, upto);
    if n < upto {
      assert grown[from..n] == content[from..n];
      PassAppended(content, grown, n + 1, upto, decode);
    }
  }

  // ---------- what a pass reads ----------

  /** The values chosen at these positions, in order, are all there are. */
  ghost predicate Chosen<E>(found: seq<Option<E>>, at: seq<nat>, events: seq<E>) {
    && |at| == |events| && (forall i, k :: 0 <= i < k < |at| ==> at[i] < at[k])
    && (forall i :: 0 <= i < |at| ==> at[i] < |found| && found[at[i]] == Some(events[i]))
    && (forall k :: 0 <= k < |found| && found[k].Some? ==> k in at)
  }

  /** What each line decodes to. */
  ghost predicate Decodes<E>(content: string, lines: seq<Extent>, decode: Decoder<E>, found: seq<Option<E>>)
    requires forall i :: 0 <= i < |lines| ==> lines[i].start <= lines[i].end < |content|
  {
    && |found| == |lines|
    && forall i :: 0 <= i < |lines| ==>
         decode(content[lines[i].start..lines[i].end], lines[i].start) == Ok(found[i])
  }

  lemma ChosenFirst<E>(first: Option<E>, found: seq<Option<E>>, at: seq<nat>, events: seq<E>) returns (all: seq<nat>)
    requires Chosen(found, at, events)
    ensures Chosen([first] + found, all, (if first.Some? then [first.value] else []) + events)
  {
    var later: seq<nat> := seq(|at|, i requires 0 <= i < |at| => at[i] + 1);
    all := (if first.Some? then [0] else []) + later;
    forall k | 0 <= k < |[first] + found| && ([first] + found)[k].Some?
      ensures k in all
    {
      if k > 0 {
        assert found[k - 1].Some?;
        var j :| 0 <= j < |at| && at[j] == k - 1;
        assert later[j] == k && later[j] in later;
      }
    }
  }

  lemma DecodesFirst<E>(content: string, first: Extent, rest: seq<Extent>, decode: Decoder<E>, found: Option<E>,
                        later: seq<Option<E>>)
    requires first.start <= first.end < |content|
    requires decode(content[first.start..first.end], first.start) == Ok(found)
    requires forall i :: 0 <= i < |rest| ==> rest[i].start <= rest[i].end < |content|
    requires Decodes(content, rest, decode, later)
    ensures forall i :: 0 <= i < |[first] + rest| ==> ([first] + rest)[i].start <= ([first] + rest)[i].end < |content|
    ensures Decodes(content, [first] + rest, decode, [found] + later)
  {
  }

  /** The first line of a pass that succeeds, and the rest of it. */
  lemma PassSplits<E>(content: string, from: nat, upto: nat, decode: Decoder<E>)
    requires from <= upto <= |content| && Pass(content, from, upto, decode).Ok?
    requires Newline(content, from, upto) < upto
    ensures var n := Newline(content, from, upto);
            && decode(content[from..n], from).Ok? && Pass(content, n + 1, upto, decode).Ok?
            && var found := decode(content[from..n], from).value;
               Pass(content, from, upto, decode).value ==
                 (if found.Some? then [found.value] else []) + Pass(content, n + 1, upto, decode).value
  {
  }

  /** A pass that succeeds has decoded every complete line, and its events are the decoded ones in order. */
  lemma {:induction false} PassReads<E>(content: string, from: nat, upto: nat, decode: Decoder<E>)
    returns (lines: seq<Extent>, found: seq<Option<E>>, at: seq<nat>)
    requires from <= upto <= |content| && Pass(content, from, upto, decode).Ok?
    ensures Cuts(content, from, upto, lines) && Decodes(content, lines, decode, found)
    ensures Chosen(found, at, Pass(content, from, upto, decode).value)
    decreases upto - from
  {
    var n := Newline(content, from, upto);
    if n == upto {
      return [], [], [];
    }
    PassSplits(content, from, upto, decode);
    var rest, later, after := PassReads(content, n + 1, upto, decode);
    var first := decode(content[from..n], from).value;
    CutsFirst(content, from, n, upto, rest);
    at := ChosenFirst(first, later, after, Pass(content, n + 1, upto, decode).value);
    DecodesFirst(content, Extent(from, n), rest, decode, first, later);
    lines, found := [Extent(from, n)] + rest, [first] + later;
  }

  /** A pass is refused exactly when some complete line does not decode. */
  lemma {:induction false} PassRefuses<E>(content: string, from: nat, upto: nat, decode: Decoder<E>)
    requires from <= upto <= |content|
    ensures Pass(content, from, upto, decode).Refused? <==>
            exists s: nat, n: nat :: LineAt(content, from, upto, s, n) && decode(content[s..n], s).Refused?
    decreases upto - from
  {
    var n := Newline(content, from, upto);
    if n < upto {
      PassRefuses(content, n + 1, upto, decode);
      assert LineAt(content, from, upto, from, n);
      assert forall s: nat, e: nat :: LineAt(content, from, upto, s, e) <==>
               (s == from && e == n) || LineAt(content, n + 1, upto, s, e);
    }
  }

  // ---------- one poll ----------

  /** The checks a cursor must pass before anything is read. */
  predicate Accepted(file: File, cursor: Cursor) {
    && cursor.offset <= cursor.size
    && cursor.stream == file.stream
    && |file.content| >= cursor.size
    && cursor.anchor == Anchor(file.content, cursor.offset)
    && Boundary(file.content, cursor.offset)
  }

  function Start(cursor: Option<Cursor>): nat {
    if cursor.None? then 0 else cursor.value.offset
  }

  /** The next line, or the tail if there is none, fits the byte limit. */
  predicate ShortFirst(content: string, from: nat, upto: nat, maxBytes: nat)
    requires from <= upto <= |content|
  {
    var n := Newline(content, from, upto);
    if n == upto then n - from <= maxBytes else n - from < maxBytes
  }

  /** Limits in range, an acceptable cursor, decodable lines of which the first fits, and a journal that only grows. */
  predicate Readable<E>(file: File, cursor: Option<Cursor>, maxBytes: nat, maxLines: nat, decode: Decoder<E>,
                        until: Option<nat>, later: File) {
    var eof := if until.None? then |file.content| else until.value;
    && 1 <= maxBytes <= MAX_BYTES && 1 <= maxLines <= MAX_LINES
    && (cursor.Some? ==> Accepted(file, cursor.value))
    && Start(cursor) <= eof <= |file.content|
    && ShortFirst(file.content, Start(cursor), eof, maxBytes)
    && Pass(file.content, Start(cursor), eof, decode).Ok?
    && later.stream == file.stream && |later.content| >= |file.content|
  }

  /** What a successful poll promises. */
  ghost predicate Polled<E>(file: File, offset: nat, eof: nat, decode: Decoder<E>, batch: Batch<E>) {
    var next := batch.cursor.offset;
    && offset <= next <= eof <= |file.content| && batch.eof == eof
    && batch.cursor == Cursor(file.stream, next, |file.content|, Anchor(file.content, next))
    && (next == offset || file.content[next - 1] == '\n')
    && Pass(file.content, offset, next, decode) == Ok(batch.events)
    && (batch.backlog ==> next > offset && batch.incomplete == 0)
    && (!batch.backlog ==> NoLine(file.content, next, eof) && batch.incomplete == eof - next)
  }

  /** The batch stays within both limits and goes as far as they let it. */
  predicate Full(content: string, offset: nat, next: nat, eof: nat, maxBytes: nat, maxLines: nat)
    requires offset <= next <= eof <= |content|
  {
    && next <= offset + maxBytes && LineCount(content, offset, next) <= maxLines
    && (LineCount(content, offset, next) == maxLines
        || NoLine(content, next, if offset + maxBytes < eof then offset + maxBytes else eof))
  }

  /**
   One bounded poll.  On success the batch holds exactly the events of the lines
   between the old and the new cursor; a backlog means the cursor advanced, and no
   backlog means that only an unterminated tail remains before the end.
   */
  method Poll<E>(file: File, cursor: Option<Cursor>, maxBytes: nat, maxLines: nat, decode: Decoder<E>,
                 until: Option<nat>, later: File)
    returns (r: Result<Batch<E>>)
    ensures r.Ok? ==>
              && 1 <= maxBytes <= MAX_BYTES && 1 <= maxLines <= MAX_LINES
              && (cursor.Some? ==> Accepted(file, cursor.value))
    ensures r.Ok? ==> Polled(file, Start(cursor), if until.None? then |file.content| else until.value, decode, r.value)
    ensures r.Ok? ==> Full(file.content, Start(cursor), r.value.cursor.offset, r.value.eof, maxBytes, maxLines)
    ensures Readable(file, cursor, maxBytes, maxLines, decode, until, later) ==> r.Ok?
  {
    if !(1 <= maxBytes <= MAX_BYTES) || !(1 <= maxLines <= MAX_LINES) {
      return Refused;
    }
    if cursor.Some? && !Accepted(file, cursor.value) {
      return Refused;
    }
    var offset := Start(cursor);
    var eof := if until.None? then |file.content| else until.value;
    if !(offset <= eof <= |file.content|) {
      return Refused;
    }
    var read := offset + if maxBytes + 1 < eof - offset then maxBytes + 1 else eof - offset;
    var next, events := Consume(file.content, offset, read, eof, maxBytes, maxLines, decode);
    if events.Refused? {
      return Refused;
    }
    var backlog := Newline(file.content, next, read) < read || eof > read;
    if later.stream != file.stream || |later.content| < |file.content| {
      return Refused;
    }
    return Ok(Batch(Cursor(file.stream, next, |file.content|, Anchor(file.content, next)), events.value, backlog, eof,
                    if backlog then 0 else eof - next));
  }

  /** The loop over at most `maxLines` lines that end within the first `maxBytes` bytes of what was read. */
  method Consume<E>(content: string, offset: nat, read: nat, ghost eof: nat, maxBytes: nat, maxLines: nat,
                    decode: Decoder<E>)
    returns (next: nat, events: Result<seq<E>>)
    requires 1 <= maxBytes && 1 <= maxLines && offset <= read <= eof <= |content| && read <= offset + maxBytes + 1
    ensures offset <= next <= read && (next == offset || content[next - 1] == '\n')
    ensures events.Ok? ==> Pass(content, offset, next, decode) == events
    ensures events.Ok? && next == offset ==> read <= offset + maxBytes && NoLine(content, offset, read)
    ensures events.Ok? ==> Full(content, offset, next, read, maxBytes, maxLines)
    ensures ShortFirst(content, offset, eof, maxBytes) && Pass(content, offset, eof, decode).Ok? ==> events.Ok?
  {
    next, events := offset, Ok([]);
    var limit := if offset + maxBytes < read then offset + maxBytes else read;
    for lines := 0 to maxLines
      invariant offset <= next <= limit && (next == offset || content[next - 1] == '\n')
                && (next == offset ==> lines == 0)
      invariant LineCount(content, offset, next) == lines
      invariant events.Ok? && Pass(content, offset, next, decode) == events
    {
      var end := Newline(content, next, limit);
      if end == limit {
        if read - next > maxBytes {
          return next, Refused;
        }
        return;
      }
      PassNext(content, offset, next, end, decode);
      LineCounted(content, offset, next, end);
      var decoded := Material(decode(content[next..end], next));
      if decoded.Refused? {
        PassRefused(content, offset, next, end, eof, decode);
        return next, Refused;
      }
      events := Then(events, decoded);
      next := end + 1;
    }
  }

  // ---------- many polls ----------

  /** The same journal, later: only appended to. */
  predicate Appended(file: File, later: File) {
    later.stream == file.stream && file.content <= later.content
  }

  /** Two anchors agree exactly when the last 256 bytes do. */
  lemma AnchorExact(a: string, b: string, offset: nat)
    requires offset <= |a| && offset <= |b|
    ensures Anchor(a, offset) == Anchor(b, offset) <==>
            forall i :: 0 <= i < offset && offset - 256 <= i ==> a[i] == b[i]
  {
    var from := if offset < 256 then 0 else offset - 256;
    forall i | from <= i < offset
      ensures Anchor(a, offset)[i - from] == a[i] && Anchor(b, offset)[i - from] == b[i]
    {
    }
  }

  /**
   A returned cursor, shown any journal at all, is accepted exactly when that is the same
   stream, not shorter than it was, with the same last 256 bytes before the cursor.
   */
  lemma CursorExact<E>(file: File, offset: nat, eof: nat, decode: Decoder<E>, batch: Batch<E>, later: File)
    requires Polled(file, offset, eof, decode, batch) && Boundary(file.content, offset)
    ensures var next := batch.cursor.offset;
            Accepted(later, batch.cursor) <==>
              && later.stream == file.stream && |later.content| >= |file.content|
              && forall i :: 0 <= i < next && next - 256 <= i ==> later.content[i] == file.content[i]
  {
    var next := batch.cursor.offset;
    if |later.content| >= |file.content| {
      AnchorExact(later.content, file.content, next);
      assert next > 0 ==> file.content[next - 1] == '\n';
    }
  }

  /** The cursor a poll returns is accepted again after appends. */
  lemma CursorAccepted<E>(file: File, offset: nat, eof: nat, decode: Decoder<E>, batch: Batch<E>, later: File)
    requires Polled(file, offset, eof, decode, batch) && Boundary(file.content, offset) && Appended(file, later)
    ensures Accepted(later, batch.cursor)
  {
    CursorExact(file, offset, eof, decode, batch, later);
  }

  datatype Limits = Limits(maxBytes: nat, maxLines: nat)

  /** The events so far are one pass over the bytes before the cursor, which the next poll will accept. */
  ghost predicate CaughtUp<E>(file: File, cursor: Option<Cursor>, decode: Decoder<E>, events: seq<E>) {
    && (cursor.Some? ==> Accepted(file, cursor.value))
    && Start(cursor) <= |file.content| && Boundary(file.content, Start(cursor))
    && Pass(file.content, 0, Start(cursor), decode) == Ok(events)
  }

  lemma CaughtUpLater<E>(file: File, later: File, cursor: Option<Cursor>, decode: Decoder<E>, events: seq<E>)
    requires CaughtUp(file, cursor, decode, events) && Appended(file, later)
    ensures CaughtUp(later, cursor, decode, events)
  {
    PassAppended(file.content, later.content, 0, Start(cursor), decode);
    assert Anchor(later.content, Start(cursor)) == Anchor(file.content, Start(cursor));
  }

  lemma CaughtUpMore<E>(file: File, cursor: Option<Cursor>, decode: Decoder<E>, events: seq<E>, eof: nat,
                        batch: Batch<E>)
    requires CaughtUp(file, cursor, decode, events) && Polled(file, Start(cursor), eof, decode, batch)
    ensures CaughtUp(file, Some(batch.cursor), decode, events + batch.events)
  {
    PassConcat(file.content, 0, Start(cursor), batch.cursor.offset, decode);
  }

  /**
   Batching independence.  However the journal grows and whatever limits each poll
   has, refused polls included, the accepted batches together are exactly one pass
   over the bytes before the last cursor: no event lost, none repeated, every
   offset absolute.
   */
  method PollAll<E>(files: seq<File>, limits: seq<Limits>, decode: Decoder<E>)
    returns (events: seq<E>, cursor: Option<Cursor>)
    requires |files| == |limits| + 1
    requires forall k :: 0 <= k < |limits| ==> Appended(files[k], files[k + 1])
    ensures CaughtUp(files[|limits|], cursor, decode, events)
  {
    events, cursor := [], None;
    for k := 0 to |limits|
      invariant CaughtUp(files[k], cursor, decode, events)
    {
      var r := Poll(files[k], cursor, limits[k].maxBytes, limits[k].maxLines, decode, None, files[k + 1]);
      if r.Ok? {
        CaughtUpMore(files[k], cursor, decode, events, |files[k].content|, r.value);
        events, cursor := events + r.value.events, Some(r.value.cursor);
      }
      CaughtUpLater(files[k], files[k + 1], cursor, decode, events);
    }
  }

  /** Every line of a range fits the byte limit. */
  predicate ShortLines(content: string, from: nat, upto: nat, maxBytes: nat)
    requires from <= upto <= |content|
    decreases upto - from
  {
    && ShortFirst(content, from, upto, maxBytes)
    && (Newline(content, from, upto) < upto ==> ShortLines(content, Newline(content, from, upto) + 1, upto, maxBytes))
  }

  lemma {:induction false} ShortAfter(content: string, from: nat, mid: nat, upto: nat, maxBytes: nat)
    requires from <= mid <= upto <= |content| && (mid == from || content[mid - 1] == '\n')
    requires ShortLines(content, from, upto, maxBytes)
    ensures ShortLines(content, mid, upto, maxBytes)
    decreases mid - from
  {
    if mid != from {
      ShortAfter(content, Newline(content, from, upto) + 1, mid, upto, maxBytes);
    }
  }

  lemma PassTail<E>(content: string, from: nat, upto: nat, decode: Decoder<E>)
    requires from <= upto <= |content| && NoLine(content, from, upto)
    ensures Pass(content, from, upto, decode) == Ok([])
  {
  }

  lemma {:induction false} ShortAppended(content: string, grown: string, from: nat, upto: nat, maxBytes: nat)
    requires from <= upto <= |content| && content <= grown
    ensures ShortLines(grown, from, upto, maxBytes) == ShortLines(content, from, upto, maxBytes)
    decreases upto - from
  {
    var n := Newline(content, from, upto);
    assert n == Newline(grown, from, upto);
    if n < upto {
      ShortAppended(content, grown, n + 1, upto, maxBytes);
    }
  }

  /** The lines before the end fit the limits and decode. */
  predicate Drainable<E>(content: string, eof: nat, limits: Limits, decode: Decoder<E>) {
    && 1 <= limits.maxBytes <= MAX_BYTES && 1 <= limits.maxLines <= MAX_LINES && eof <= |content|
    && ShortLines(content, 0, eof, limits.maxBytes) && Pass(content, 0, eof, decode).Ok?
  }

  lemma DrainableLater<E>(file: File, later: File, eof: nat, limits: Limits, decode: Decoder<E>)
    requires Appended(file, later) && Drainable(file.content, eof, limits, decode)
    ensures Drainable(later.content, eof, limits, decode)
  {
    ShortAppended(file.content, later.content, 0, eof, limits.maxBytes);
    PassAppended(file.content, later.content, 0, eof, decode);
  }

  /** Such lines can be read from wherever the reader stands. */
  lemma DrainableFrom<E>(file: File, cursor: Option<Cursor>, eof: nat, limits: Limits, decode: Decoder<E>, later: File)
    requires Drainable(file.content, eof, limits, decode) && Appended(file, later)
    requires (cursor.Some? ==> Accepted(file, cursor.value)) && Start(cursor) <= eof
             && Boundary(file.content, Start(cursor))
    ensures Readable(file, cursor, limits.maxBytes, limits.maxLines, decode, Some(eof), later)
  {
    ShortAfter(file.content, 0, Start(cursor), eof, limits.maxBytes);
    PassConcat(file.content, 0, Start(cursor), eof, decode);
  }

  /** Everything before the end is consumed once nothing complete is left before it. */
  lemma DrainedAll<E>(file: File, cursor: Option<Cursor>, eof: nat, decode: Decoder<E>, events: seq<E>)
    requires CaughtUp(file, cursor, decode, events) && Start(cursor) <= eof <= |file.content|
    requires NoLine(file.content, Start(cursor), eof)
    ensures Pass(file.content, 0, eof, decode) == Ok(events)
  {
    PassConcat(file.content, 0, Start(cursor), eof, decode);
    PassTail(file.content, Start(cursor), eof, decode);
    assert events + [] == events;
  }

  /** One poll of a drain: it catches up further, and stops short of the end only by advancing. */
  method DrainOnce<E>(file: File, later: File, cursor: Option<Cursor>, eof: nat, limits: Limits, decode: Decoder<E>,
                      ghost events: seq<E>)
    returns (r: Result<Batch<E>>)
    requires CaughtUp(file, cursor, decode, events) && Appended(file, later)
    ensures r.Ok? ==> Start(cursor) <= r.value.cursor.offset <= eof <= |file.content|
    ensures r.Ok? ==> CaughtUp(later, Some(r.value.cursor), decode, events + r.value.events)
    ensures r.Ok? ==> if r.value.backlog then Start(cursor) < r.value.cursor.offset
                      else NoLine(later.content, r.value.cursor.offset, eof)
    ensures Drainable(file.content, eof, limits, decode) && Start(cursor) <= eof ==> r.Ok?
  {
    if Drainable(file.content, eof, limits, decode) && Start(cursor) <= eof {
      DrainableFrom(file, cursor, eof, limits, decode, later);
    }
    r := Poll(file, cursor, limits.maxBytes, limits.maxLines, decode, Some(eof), later);
    if r.Ok? {
      CaughtUpMore(file, cursor, decode, events, eof, r.value);
      CaughtUpLater(file, later, Some(r.value.cursor), decode, events + r.value.events);
    }
  }

  /**
   Polling a growing journal to a fixed end terminates, because a backlog always
   advances the cursor, and reads exactly the complete lines before that end; it
   succeeds whenever they decode and fit the byte limit.  `journal` gives the file as
   each poll finds it.
   */
  method Drain<E>(journal: nat -> File, eof: nat, limits: Limits, decode: Decoder<E>) returns (r: Result<seq<E>>)
    requires forall i, k {:trigger Appended(journal(i), journal(k))} :: i <= k ==> Appended(journal(i), journal(k))
    ensures r.Ok? ==> eof <= |journal(0).content| && r == Pass(journal(0).content, 0, eof, decode)
    ensures Drainable(journal(0).content, eof, limits, decode) ==> r.Ok?
  {
    var events: seq<E> := [];
    var cursor: Option<Cursor> := None;
    var backlog := true;
    var k := 0;
    while backlog
      invariant Appended(journal(0), journal(k)) && CaughtUp(journal(k), cursor, decode, events)
      invariant if cursor.Some? then Start(cursor) <= eof <= |journal(0).content| else k == 0
      invariant !backlog ==> cursor.Some? && NoLine(journal(k).content, Start(cursor), eof)
      decreases backlog, eof - Start(cursor)
    {
      if Drainable(journal(0).content, eof, limits, decode) {
        DrainableLater(journal(0), journal(k), eof, limits, decode);
      }
      var batch := DrainOnce(journal(k), journal(k + 1), cursor, eof, limits, decode, events);
      if batch.Refused? {
        return Refused;
      }
      events, cursor, backlog := events + batch.value.events, Some(batch.value.cursor), batch.value.backlog;
      k := k + 1;
    }
    DrainedAll(journal(k), cursor, eof, decode, events);
    PassAppended(journal(0).content, journal(k).content, 0, eof, decode);
    return Ok(events);
  }
}
