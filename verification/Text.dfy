/**
 Line and field splitting of account files.

 A payload is the decoded text of a file.  `Lines` cuts it the way Python's
 `bytes.splitlines(keepends=True)` does (at LF, CR and CR LF), and every line
 keeps its own terminator, so that a rewritten file can be reassembled exactly.
 */
module Text {

  datatype Option<+T> = None | Some(value: T)

  datatype Result<+T> = Ok(value: T) | Refused

  /** A line without its terminator, and the terminator itself ("" at end of file). */
  datatype Line = Line(body: string, ending: string)

  predicate Free(s: string, c: char) {
    forall i :: 0 <= i < |s| ==> s[i] != c
  }

  predicate Unbroken(s: string) {
    Free(s, '\n') && Free(s, '\r')
  }

  /** Fit to be one field of a colon-separated row. */
  predicate Plain(s: string) {
    Unbroken(s) && Free(s, ':')
  }

  // ---------- lines ----------

  function BodyLength(s: string): (n: nat)
    ensures n <= |s|
    ensures Unbroken(s[..n])
    ensures n < |s| ==> s[n] == '\n' || s[n] == '\r'
  {
    if s == "" || s[0] == '\n' || s[0] == '\r' then 0
    else
      var n := BodyLength(s[1..]);
      assert s[..n + 1] == [s[0]] + s[1..][..n];
      n + 1
  }

  predicate IsEnding(s: string) {
    s == "\n" || s == "\r" || s == "\r\n"
  }

  /** The terminator that a text starting with CR or LF begins with. */
  function EndingOf(s: string): (ending: string)
    requires s != "" && (s[0] == '\n' || s[0] == '\r')
    ensures IsEnding(ending) && ending <= s
  {
    if s[0] == '\n' then "\n" else if |s| >= 2 && s[1] == '\n' then "\r\n" else "\r"
  }

  datatype Cutting = Cutting(line: Line, rest: string)

  /** The first line of a text and what follows it. */
  function Cut(s: string): (r: Cutting)
    requires s != ""
    ensures r.line.body + r.line.ending + r.rest == s
    ensures |r.rest| < |s|
    ensures Unbroken(r.line.body)
    ensures IsEnding(r.line.ending) || (r.line.ending == "" && r.rest == "")
  {
    var n := BodyLength(s);
    if n == |s| then Cutting(Line(s, ""), "")
    else
      var tail := s[n..];
      var ending := EndingOf(tail);
      Cutting(Line(s[..n], ending), tail[|ending|..])
  }

  function Lines(s: string): (ls: seq<Line>)
    decreases |s|
  {
    if s == "" then [] else [Cut(s).line] + Lines(Cut(s).rest)
  }

  function Unlines(ls: seq<Line>): string {
    if ls == [] then "" else ls[0].body + ls[0].ending + Unlines(ls[1..])
  }

  /** Lines whose concatenation cuts back into the same lines. */
  predicate Separable(ls: seq<Line>) {
    && (forall i :: 0 <= i < |ls| ==> ls[i].body != "" && Unbroken(ls[i].body))
    && (forall i :: 0 <= i < |ls| ==> IsEnding(ls[i].ending) || (ls[i].ending == "" && i == |ls| - 1))
  }

  lemma {:induction false} UnlinesOfLines(s: string)
    ensures Unlines(Lines(s)) == s
    decreases |s|
  {
    if s != "" {
      var cut := Cut(s);
      UnlinesOfLines(cut.rest);
      assert Lines(s)[1..] == Lines(cut.rest);
    }
  }

  /** Every line is unbroken and only the last may lack a terminator. */
  predicate Shaped(ls: seq<Line>) {
    && (forall i :: 0 <= i < |ls| ==> Unbroken(ls[i].body))
    && (forall i :: 0 <= i < |ls| ==> IsEnding(ls[i].ending) || (ls[i].ending == "" && i == |ls| - 1))
  }

  lemma ShapedFirst(line: Line, rest: seq<Line>)
    requires Shaped(rest) && Unbroken(line.body) && (IsEnding(line.ending) || (line.ending == "" && rest == []))
    ensures Shaped([line] + rest)
  {
  }

  /** A text is cut into such lines. */
  lemma {:induction false} LinesShape(s: string)
    ensures Shaped(Lines(s))
    decreases |s|
  {
    if s != "" {
      LinesShape(Cut(s).rest);
      ShapedFirst(Cut(s).line, Lines(Cut(s).rest));
    }
  }

  lemma {:induction false} BodyLengthOfConcat(body: string, rest: string)
    requires Unbroken(body)
    requires rest == "" || rest[0] == '\n' || rest[0] == '\r'
    ensures BodyLength(body + rest) == |body|
  {
    if body == "" {
      assert body + rest == rest;
    } else {
      assert (body + rest)[1..] == body[1..] + rest;
      BodyLengthOfConcat(body[1..], rest);
    }
  }

  /** A line followed by text that does not start with a terminator is cut off whole. */
  lemma CutOfConcat(line: Line, rest: string)
    requires line.body != "" && Unbroken(line.body)
    requires IsEnding(line.ending) || (line.ending == "" && rest == "")
    requires rest == "" || (rest[0] != '\n' && rest[0] != '\r')
    ensures Cut(line.body + line.ending + rest) == Cutting(line, rest)
  {
    var s, tail := line.body + line.ending + rest, line.ending + rest;
    assert s == line.body + tail;
    BodyLengthOfConcat(line.body, tail);
    assert s[|line.body|..] == tail && s[..|line.body|] == line.body;
    if tail != "" {
      assert EndingOf(tail) == line.ending;
      assert tail[|line.ending|..] == rest;
    }
  }

  lemma {:induction false} LinesOfUnlines(ls: seq<Line>)
    requires Separable(ls)
    ensures Lines(Unlines(ls)) == ls
  {
    if ls != [] {
      assert Separable(ls[1..]) by {
        assert forall i :: 0 <= i < |ls[1..]| ==> ls[1..][i] == ls[i + 1];
      }
      LinesOfUnlines(ls[1..]);
      NextCharacter(ls[1..]);
      CutOfConcat(ls[0], Unlines(ls[1..]));
    }
  }

  /** Reassembled text never starts with a terminator, so CR and LF of two lines cannot fuse. */
  lemma NextCharacter(ls: seq<Line>)
    requires Separable(ls)
    ensures Unlines(ls) == "" || (Unlines(ls)[0] != '\n' && Unlines(ls)[0] != '\r')
  {
    if ls != [] {
      assert Unlines(ls)[0] == ls[0].body[0];
    }
  }

  // ---------- fields ----------

  function Split(s: string, c: char): (parts: seq<string>)
    ensures |parts| >= 1
  {
    if s == "" then [""]
    else
      var rest := Split(s[1..], c);
      if s[0] == c then [""] + rest else [[s[0]] + rest[0]] + rest[1..]
  }

  function Join(parts: seq<string>, c: char): string {
    if parts == [] then ""
    else if |parts| == 1 then parts[0]
    else parts[0] + [c] + Join(parts[1..], c)
  }

  lemma {:induction false} JoinOfSplit(s: string, c: char)
    ensures Join(Split(s, c), c) == s
  {
    if s != "" {
      JoinOfSplit(s[1..], c);
      var rest := Split(s[1..], c);
      if s[0] == c {
        assert Split(s, c)[1..] == rest;
        assert Join(Split(s, c), c) == "" + [c] + Join(rest, c);
      } else {
        assert Split(s, c)[1..] == rest[1..];
      }
    }
  }

  lemma {:induction false} SplitOfFree(s: string, c: char)
    requires Free(s, c)
    ensures Split(s, c) == [s]
  {
    if s != "" {
      SplitOfFree(s[1..], c);
      assert [s[0]] + s[1..] == s;
    }
  }

  /** Cutting at the first separator. */
  lemma {:induction false} SplitFirst(a: string, b: string, c: char)
    requires Free(a, c)
    ensures Split(a + [c] + b, c) == [a] + Split(b, c)
  {
    if a == "" {
      assert (a + [c] + b)[1..] == b;
    } else {
      assert (a + [c] + b)[1..] == a[1..] + [c] + b;
      SplitFirst(a[1..], b, c);
      assert [a[0]] + a[1..] == a;
    }
  }

  /** Cutting at any separator. */
  lemma {:induction false} SplitConcat(a: string, b: string, c: char)
    ensures Split(a + [c] + b, c) == Split(a, c) + Split(b, c)
  {
    if a == "" {
      assert (a + [c] + b)[1..] == b;
    } else {
      assert (a + [c] + b)[1..] == a[1..] + [c] + b;
      SplitConcat(a[1..], b, c);
    }
  }

  lemma {:induction false} SplitOfJoin(parts: seq<string>, c: char)
    requires parts != []
    requires forall i :: 0 <= i < |parts| ==> Free(parts[i], c)
    ensures Split(Join(parts, c), c) == parts
  {
    if |parts| == 1 {
      SplitOfFree(parts[0], c);
    } else {
      SplitOfJoin(parts[1..], c);
      SplitFirst(parts[0], Join(parts[1..], c), c);
    }
  }

  /** No part contains the separator, nor anything the whole text did not. */
  lemma {:induction false} SplitParts(s: string, c: char)
    ensures forall i :: 0 <= i < |Split(s, c)| ==> Free(Split(s, c)[i], c)
    ensures forall d, i :: Free(s, d) && 0 <= i < |Split(s, c)| ==> Free(Split(s, c)[i], d)
  {
    if s != "" {
      SplitParts(s[1..], c);
      var parts, rest := Split(s, c), Split(s[1..], c);
      forall d, i | (d == c || Free(s, d)) && 0 <= i < |parts|
        ensures Free(parts[i], d)
      {
        assert d != c ==> Free(s[1..], d) && s[0] != d;
        if s[0] == c {
          assert i > 0 ==> parts[i] == rest[i - 1];
        } else {
          assert parts[i] == if i == 0 then [s[0]] + rest[0] else rest[i];
        }
      }
    }
  }

  lemma {:induction false} JoinFree(parts: seq<string>, c: char, d: char)
    requires c != d
    requires forall i :: 0 <= i < |parts| ==> Free(parts[i], d)
    ensures Free(Join(parts, c), d)
  {
    if |parts| > 1 {
      JoinFree(parts[1..], c, d);
    }
  }

  // ---------- newlines by position ----------

  /** An offset that starts a line. */
  predicate Boundary(content: string, offset: nat) {
    offset == 0 || (offset <= |content| && content[offset - 1] == '\n')
  }

  /** The first newline in a range, or its end. */
  function Newline(content: string, from: nat, upto: nat): (n: nat)
    requires from <= upto <= |content|
    ensures from <= n <= upto
    ensures forall i :: from <= i < n ==> content[i] != '\n'
    ensures n < upto ==> content[n] == '\n'
    decreases upto - from
  {
    if from == upto || content[from] == '\n' then from else Newline(content, from + 1, upto)
  }

  /** The number of complete lines in a range. */
  function LineCount(content: string, from: nat, upto: nat): nat
    requires from <= upto <= |content|
    decreases upto - from
  {
    if from == upto then 0 else LineCount(content, from, upto - 1) + (if content[upto - 1] == '\n' then 1 else 0)
  }

  /** A line adds one. */
  lemma {:induction false} LineCounted(content: string, from: nat, start: nat, end: nat)
    requires from <= start <= end < |content| && content[end] == '\n'
    requires forall i :: start <= i < end ==> content[i] != '\n'
    ensures LineCount(content, from, end + 1) == LineCount(content, from, start) + 1
    decreases end - start
  {
    NothingCounted(content, from, start, end);
  }

  lemma {:induction false} NothingCounted(content: string, from: nat, start: nat, end: nat)
    requires from <= start <= end <= |content| && forall i :: start <= i < end ==> content[i] != '\n'
    ensures LineCount(content, from, end) == LineCount(content, from, start)
    decreases end - start
  {
    if start < end {
      NothingCounted(content, from, start, end - 1);
    }
  }

  lemma NewlineIs(content: string, from: nat, n: nat, upto: nat)
    requires from <= n < upto <= |content| && content[n] == '\n' && forall i :: from <= i < n ==> content[i] != '\n'
    ensures Newline(content, from, upto) == n
  {
  }

  /** Nothing complete is left in a range. */
  predicate NoLine(content: string, from: nat, upto: nat)
    requires from <= upto <= |content|
  {
    forall i :: from <= i < upto ==> content[i] != '\n'
  }

  /** Where one complete line starts, and where its newline is. */
  datatype Extent = Extent(start: nat, end: nat)

  /** The complete lines of a range, one behind the other, with no newline after the last. */
  ghost predicate Cuts(content: string, from: nat, upto: nat, lines: seq<Extent>)
    requires from <= upto <= |content|
  {
    && (forall i :: 0 <= i < |lines| ==>
          && lines[i].start == (if i == 0 then from else lines[i - 1].end + 1)
          && lines[i].start <= lines[i].end < upto && content[lines[i].end] == '\n'
          && NoLine(content, lines[i].start, lines[i].end))
    && NoLine(content, if lines == [] then from else lines[|lines| - 1].end + 1, upto)
  }

  lemma CutsFirst(content: string, from: nat, n: nat, upto: nat, rest: seq<Extent>)
    requires from <= n < upto <= |content| && content[n] == '\n' && NoLine(content, from, n)
    requires Cuts(content, n + 1, upto, rest)
    ensures Cuts(content, from, upto, [Extent(from, n)] + rest)
  {
    var all := [Extent(from, n)] + rest;
    forall i | 0 <= i < |all|
      ensures && all[i].start == (if i == 0 then from else all[i - 1].end + 1)
              && all[i].start <= all[i].end < upto && content[all[i].end] == '\n'
              && NoLine(content, all[i].start, all[i].end)
    {
      if i > 0 {
        var k := i - 1;
        assert all[i] == rest[k] && rest[k].start == (if k == 0 then n + 1 else rest[k - 1].end + 1);
        assert k > 0 ==> all[k] == rest[k - 1];
      }
    }
  }

  /** A complete line of the range, from its first character to its newline. */
  predicate LineAt(content: string, from: nat, upto: nat, s: nat, n: nat)
    requires from <= upto <= |content|
  {
    && from <= s <= n < upto && content[n] == '\n' && NoLine(content, s, n)
    && (s == from || content[s - 1] == '\n')
  }

  // ---------- decimal numbers ----------

  predicate IsDigit(c: char) {
    '0' <= c <= '9'
  }

  predicate IsNumber(s: string) {
    s != "" && forall i :: 0 <= i < |s| ==> IsDigit(s[i])
  }

  function Number(s: string): nat
    requires forall i :: 0 <= i < |s| ==> IsDigit(s[i])
  {
    if s == "" then 0
    else
      assert IsDigit(s[|s| - 1]);
      10 * Number(s[..|s| - 1]) + (s[|s| - 1] as int - '0' as int)
  }

  /** The decimal spelling of a number, `str(n)`. */
  function Decimal(n: nat): (s: string)
  {
    if n < 10 then [Digit(n)] else Decimal(n / 10) + [Digit(n % 10)]
  }

  lemma NumberOfConcat(s: string, c: char)
    requires (forall i :: 0 <= i < |s| ==> IsDigit(s[i])) && IsDigit(c)
    ensures Number(s + [c]) == 10 * Number(s) + (c as int - '0' as int)
  {
    assert (s + [c])[..|s|] == s;
  }

  function Digit(n: nat): (c: char)
    requires n < 10
    ensures IsDigit(c) && c as int - '0' as int == n
  {
    ('0' as int + n) as char
  }

  /** Spelling a number and reading it back. */
  lemma {:induction false} NumberOfDecimal(n: nat)
    ensures IsNumber(Decimal(n)) && Number(Decimal(n)) == n
  {
    if n >= 10 {
      NumberOfDecimal(n / 10);
      NumberOfConcat(Decimal(n / 10), Digit(n % 10));
    } else {
      NumberOfConcat("", Digit(n));
      assert "" + [Digit(n)] == [Digit(n)];
    }
  }

  // ---------- sequences ----------

  function Filter<T>(s: seq<T>, keep: T -> bool): seq<T> {
    if s == [] then [] else (if keep(s[0]) then [s[0]] else []) + Filter(s[1..], keep)
  }

  function Map<T, U>(s: seq<T>, f: T -> U): (r: seq<U>)
    ensures |r| == |s|
    ensures forall i :: 0 <= i < |s| ==> r[i] == f(s[i])
  {
    if s == [] then [] else [f(s[0])] + Map(s[1..], f)
  }

  /** Apply a partial function to every element, refusing if any element is refused. */
  function Traverse<T, U>(s: seq<T>, f: T -> Result<U>): (r: Result<seq<U>>)
    ensures r.Ok? <==> forall i :: 0 <= i < |s| ==> f(s[i]).Ok?
    ensures r.Ok? ==> |r.value| == |s|
    ensures r.Ok? ==> forall i :: 0 <= i < |s| ==> r.value[i] == f(s[i]).value
  {
    if s == [] then Ok([])
    else
      var first, rest := f(s[0]), Traverse(s[1..], f);
      assert forall i :: 1 <= i < |s| ==> s[i] == s[1..][i - 1];
      if first.Ok? && rest.Ok? then Ok([first.value] + rest.value) else Refused
  }

  /** The only result that agrees with every element's. */
  lemma TraverseIs<T, U>(s: seq<T>, f: T -> Result<U>, r: seq<U>)
    requires |r| == |s| && forall i :: 0 <= i < |s| ==> f(s[i]) == Ok(r[i])
    ensures Traverse(s, f) == Ok(r)
  {
    assert Traverse(s, f).value == r;
  }

  /** Extending a traversed prefix by one element. */
  lemma TraverseNext<T, U>(s: seq<T>, f: T -> Result<U>, i: nat)
    requires i < |s| && Traverse(s[..i], f).Ok?
    ensures f(s[i]).Ok? ==> Traverse(s[..i + 1], f) == Ok(Traverse(s[..i], f).value + [f(s[i]).value])
    ensures f(s[i]).Refused? ==> Traverse(s, f).Refused?
  {
    if f(s[i]).Ok? {
      var done, first := Traverse(s[..i], f).value, s[..i];
      assert s[..i + 1] == first + [s[i]];
      assert forall k :: 0 <= k < i ==> f(first[k]) == Ok(done[k]);
      TraverseIs(first + [s[i]], f, done + [f(s[i]).value]);
    }
  }

  lemma {:induction false} FilterMembers<T>(s: seq<T>, keep: T -> bool)
    ensures forall x :: x in Filter(s, keep) <==> x in s && keep(x)
  {
    if s != [] {
      FilterMembers(s[1..], keep);
      assert s == [s[0]] + s[1..];
    }
  }

  /** One element at this position is kept, and no other. */
  ghost predicate KeptAt<T>(s: seq<T>, keep: T -> bool, k: nat) {
    k < |s| && forall i :: 0 <= i < |s| ==> (keep(s[i]) <==> i == k)
  }

  lemma {:induction false} FilterNone<T>(s: seq<T>, keep: T -> bool)
    ensures Filter(s, keep) == [] <==> forall i :: 0 <= i < |s| ==> !keep(s[i])
  {
    if s != [] {
      FilterNone(s[1..], keep);
      assert forall i :: 1 <= i < |s| ==> s[i] == s[1..][i - 1];
    }
  }

  lemma {:induction false} FilterAt<T>(s: seq<T>, keep: T -> bool, k: nat)
    requires KeptAt(s, keep, k)
    ensures Filter(s, keep) == [s[k]]
  {
    assert forall i :: 1 <= i < |s| ==> s[i] == s[1..][i - 1];
    if k == 0 {
      FilterNone(s[1..], keep);
    } else {
      assert KeptAt(s[1..], keep, k - 1);
      FilterAt(s[1..], keep, k - 1);
    }
  }

  /** A filter that keeps one element keeps it at one position. */
  lemma {:induction false} FilterOne<T>(s: seq<T>, keep: T -> bool) returns (k: nat)
    requires |Filter(s, keep)| == 1
    ensures KeptAt(s, keep, k) && Filter(s, keep) == [s[k]]
  {
    assert forall i :: 1 <= i < |s| ==> s[i] == s[1..][i - 1];
    if keep(s[0]) {
      FilterNone(s[1..], keep);
      k := 0;
    } else {
      var rest := FilterOne(s[1..], keep);
      k := rest + 1;
    }
  }

  lemma {:induction false} FilterSame<T>(s: seq<T>, p: T -> bool, q: T -> bool)
    requires forall x :: x in s ==> p(x) == q(x)
    ensures Filter(s, p) == Filter(s, q)
  {
    if s != [] {
      assert s[0] in s;
      FilterSame(s[1..], p, q);
    }
  }

  /** A renaming that a filter cannot see commutes with the filter. */
  lemma {:induction false} FilterOfMap<T>(s: seq<T>, f: T -> T, p: T -> bool)
    requires forall x :: x in s ==> p(f(x)) == p(x)
    ensures Filter(Map(s, f), p) == Map(Filter(s, p), f)
  {
    if s != [] {
      assert s[0] in s;
      FilterOfMap(s[1..], f, p);
      assert Map(s, f)[1..] == Map(s[1..], f);
      if p(s[0]) {
        var kept := Filter(s, p);
        assert kept[1..] == Filter(s[1..], p);
      }
    }
  }
}
