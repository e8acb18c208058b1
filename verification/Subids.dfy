/**
 Subordinate uid and gid ranges: parsing, observing and relabelling one owner.
 */
module Subids {
  import opened Text

  /** One delegated range and the line that declares it. */
  datatype Row = Row(owner: string, start: nat, count: nat, line: Line)

  datatype Range = Range(start: nat, count: nat)

  predicate IsLabelChar(c: char) {
    'a' <= c <= 'z' || 'A' <= c <= 'Z' || IsDigit(c) || c == '_' || c == '.' || c == '-'
  }

  predicate IsLabel(s: string) {
    s != "" && forall i :: 0 <= i < |s| ==> IsLabelChar(s[i])
  }

  const ID_LIMIT: nat := 0x1_0000_0000

  function RowOf(line: Line): Result<Row> {
    var fields := Split(line.body, ':');
    if |fields| != 3 || !IsLabel(fields[0]) || !IsNumber(fields[1]) || !IsNumber(fields[2]) then Refused
    else
      var start, count := Number(fields[1]), Number(fields[2]);
      if count < 1 || start + count > ID_LIMIT then Refused else Ok(Row(fields[0], start, count, line))
  }

  lemma ThreeFields(a: string, b: string, c: string)
    requires Free(a, ':') && Free(b, ':') && Free(c, ':')
    ensures Split(a + ":" + b + ":" + c, ':') == [a, b, c]
  {
    assert a + ":" + b + ":" + c == a + [':'] + (b + [':'] + c);
    SplitFirst(a, b + [':'] + c, ':');
    SplitFirst(b, c, ':');
    SplitOfFree(c, ':');
  }

  /** A row that is written out is read back, unless its range is empty or leaves the 32-bit ids. */
  lemma RowWritten(owner: string, start: nat, count: nat, ending: string)
    requires IsLabel(owner)
    ensures var line := Line(owner + ":" + Decimal(start) + ":" + Decimal(count), ending);
            RowOf(line) ==
              if 1 <= count && start + count <= 0x1_0000_0000 then Ok(Row(owner, start, count, line)) else Refused
  {
    NumberOfDecimal(start);
    NumberOfDecimal(count);
    ThreeFields(owner, Decimal(start), Decimal(count));
  }

  /** The rows of a file; an absent file has none. */
  function Rows(payload: Option<string>): Result<seq<Row>> {
    Traverse(Lines(if payload.None? then "" else payload.value), RowOf)
  }

  /** The source's accumulating loop. */
  method ReadRows(payload: Option<string>) returns (r: Result<seq<Row>>)
    ensures r == Rows(payload)
  {
    var lines := Lines(if payload.None? then "" else payload.value);
    var result := [];
    for i := 0 to |lines|
      invariant Traverse(lines[..i], RowOf) == Ok(result)
    {
      TraverseNext(lines, RowOf, i);
      var row := RowOf(lines[i]);
      if row.Refused? {
        return Refused;
      }
      result := result + [row.value];
    }
    assert lines[..|lines|] == lines;
    return Ok(result);
  }

  function Relabelled(row: Row, prior: string, next: string): Row
    requires row.owner == prior ==> |prior| <= |row.line.body|
  {
    if row.owner != prior then row
    else row.(owner := next, line := Line(next + row.line.body[|prior|..], row.line.ending))
  }

  /** A row as the parser delivers it. */
  predicate Parsed(row: Row) {
    Unbroken(row.line.body) && RowOf(row.line) == Ok(row)
  }

  lemma ParsedStart(row: Row)
    requires Parsed(row)
    ensures |row.owner| < |row.line.body| && row.owner == row.line.body[..|row.owner|]
    ensures row.line.body[|row.owner|] == ':'
  {
    var fields := Split(row.line.body, ':');
    JoinOfSplit(row.line.body, ':');
    assert row.line.body == fields[0] + [':'] + Join(fields[1..], ':');
  }

  /** Relabelling the text of a row relabels the row it parses to. */
  lemma RelabelledParses(row: Row, prior: string, next: string)
    requires Parsed(row) && IsLabel(next)
    ensures row.owner == prior ==> |prior| <= |row.line.body|
    ensures Parsed(Relabelled(row, prior, next)) && Relabelled(row, prior, next).line.body != ""
  {
    ParsedStart(row);
    if row.owner == prior {
      var fields := Split(row.line.body, ':');
      JoinOfSplit(row.line.body, ':');
      var tail := Join(fields[1..], ':');
      assert row.line.body[|prior|..] == [':'] + tail;
      SplitParts(row.line.body, ':');
      SplitOfJoin(fields[1..], ':');
      assert Free(next, ':') && Unbroken(next);
      SplitFirst(next, tail, ':');
      assert next + row.line.body[|prior|..] == next + [':'] + tail;
    }
  }

  predicate AllParsed(rows: seq<Row>) {
    forall i :: 0 <= i < |rows| ==> Parsed(rows[i])
  }

  lemma RowsParsed(payload: Option<string>)
    requires Rows(payload).Ok?
    ensures AllParsed(Rows(payload).value)
    ensures |Rows(payload).value| == |Lines(if payload.None? then "" else payload.value)|
    ensures forall i :: 0 <= i < |Rows(payload).value| ==>
              Rows(payload).value[i].line == Lines(if payload.None? then "" else payload.value)[i]
  {
    LinesShape(if payload.None? then "" else payload.value);
  }

  function LineFor(row: Row, prior: string, next: string): Line {
    if row.owner == prior && |prior| <= |row.line.body| then Line(next + row.line.body[|prior|..], row.line.ending)
    else row.line
  }

  /** The rewritten text: the label replaced on the owner's lines, every other line as it was. */
  function Rewritten(rows: seq<Row>, prior: string, next: string): string {
    Unlines(Map(rows, (row: Row) => LineFor(row, prior, next)))
  }

  function Owned(rows: seq<Row>, owner: string): seq<Range> {
    if rows == [] then []
    else (if rows[0].owner == owner then [Range(rows[0].start, rows[0].count)] else []) + Owned(rows[1..], owner)
  }

  function Foreign(rows: seq<Row>, owner: string): string {
    if rows == [] then ""
    else (if rows[0].owner != owner then rows[0].line.body + rows[0].line.ending else "") + Foreign(rows[1..], owner)
  }

  /** The foreign text is the lines of the other owners, in order. */
  lemma {:induction false} ForeignLines(rows: seq<Row>, owner: string)
    ensures Foreign(rows, owner) ==
              Unlines(Map(Filter(rows, (row: Row) => row.owner != owner), (row: Row) => row.line))
  {
    if rows != [] {
      ForeignLines(rows[1..], owner);
      var others, line := (row: Row) => row.owner != owner, (row: Row) => row.line;
      var rest := Filter(rows[1..], others);
      if rows[0].owner != owner {
        assert Filter(rows, others) == [rows[0]] + rest;
        assert Map([rows[0]] + rest, line) == [rows[0].line] + Map(rest, line);
        assert ([rows[0].line] + Map(rest, line))[1..] == Map(rest, line);
      } else {
        assert Filter(rows, others) == rest;
      }
    }
  }

  predicate Overlap(a: Range, b: Range) {
    a.start < b.start + b.count && b.start < a.start + a.count
  }

  /** No range of another owner, the numeric alias of the same account excepted, meets these ranges. */
  predicate Disjoint(rows: seq<Row>, ranges: seq<Range>, owner: string, alias: string) {
    forall i, k :: 0 <= i < |rows| && 0 <= k < |ranges| && rows[i].owner != owner && rows[i].owner != alias ==>
      !Overlap(Range(rows[i].start, rows[i].count), ranges[k])
  }

  predicate NoDuplicates(ranges: seq<Range>) {
    forall i, k :: 0 <= i < k < |ranges| ==> ranges[i] != ranges[k]
  }

  predicate Unowned(rows: seq<Row>, owner: string) {
    forall i :: 0 <= i < |rows| ==> rows[i].owner != owner
  }

  // ---------- the captured recipe ----------

  datatype Subordinate = Subordinate(subuid: Option<string>, subgid: Option<string>) {
    function Get(gid: bool): Option<string> {
      if gid then subgid else subuid
    }

    function With(gid: bool, payload: Option<string>): Subordinate {
      if gid then this.(subgid := payload) else this.(subuid := payload)
    }
  }

  /** Ranges, and the two recognised contents of one file; a digest stands for the payload it was taken of. */
  datatype Recipe = Recipe(ranges: seq<Range>, before: Option<string>, after: Option<string>, foreign: string) {
    predicate Knows(payload: Option<string>) {
      payload == before || payload == after
    }
  }

  datatype Recipes = Recipes(subuid: Recipe, subgid: Recipe) {
    function Get(gid: bool): Recipe {
      if gid then subgid else subuid
    }
  }

  function After(payload: Option<string>, rows: seq<Row>, prior: string, next: string): Option<string> {
    if payload.None? then None else Some(Rewritten(rows, prior, next))
  }

  function ObserveOne(payload: Option<string>, prior: string, next: string, uid: nat): Result<Recipe> {
    var rows := Rows(payload);
    if rows.Refused? || !Unowned(rows.value, next) then Refused
    else
      var ranges := Owned(rows.value, prior);
      if !NoDuplicates(ranges) || !Disjoint(rows.value, ranges, prior, Decimal(uid)) then Refused
      else Ok(Recipe(ranges, payload, After(payload, rows.value, prior, next), Foreign(rows.value, prior)))
  }

  function Observe(files: Subordinate, prior: string, next: string, uid: nat): Result<Recipes> {
    var u, g := ObserveOne(files.subuid, prior, next, uid), ObserveOne(files.subgid, prior, next, uid);
    if u.Ok? && g.Ok? then Ok(Recipes(u.value, g.value)) else Refused
  }

  /** A recipe that `observe` could have captured. */
  predicate Captured(recipe: Recipe, prior: string, next: string, uid: nat) {
    ObserveOne(recipe.before, prior, next, uid) == Ok(recipe)
  }

  // ---------- what an observed file is ----------

  /** This id is delegated by this row. */
  predicate Covers(row: Row, id: nat) {
    row.start <= id < row.start + row.count
  }

  lemma OverlapExact(a: Row, b: Row)
    requires a.count >= 1 && b.count >= 1
    ensures Overlap(Range(a.start, a.count), Range(b.start, b.count)) <==> exists id :: Covers(a, id) && Covers(b, id)
  {
    if Overlap(Range(a.start, a.count), Range(b.start, b.count)) {
      assert Covers(a, if a.start < b.start then b.start else a.start);
    }
  }

  lemma {:induction false} OwnedMembers(rows: seq<Row>, owner: string)
    ensures forall range :: range in Owned(rows, owner) <==>
              exists i :: 0 <= i < |rows| && rows[i].owner == owner && Range(rows[i].start, rows[i].count) == range
    ensures NoDuplicates(Owned(rows, owner)) <==>
            forall i, k :: 0 <= i < k < |rows| && rows[i].owner == rows[k].owner == owner ==>
              rows[i].start != rows[k].start || rows[i].count != rows[k].count
  {
    if rows != [] {
      OwnedMembers(rows[1..], owner);
      assert forall i :: 1 <= i < |rows| ==> rows[i] == rows[1..][i - 1];
      var rest, first := Owned(rows[1..], owner), Range(rows[0].start, rows[0].count);
      if rows[0].owner == owner {
        HeadDuplicates(first, rest);
      } else {
        assert Owned(rows, owner) == rest;
      }
    }
  }

  lemma HeadDuplicates(first: Range, rest: seq<Range>)
    ensures NoDuplicates([first] + rest) <==> first !in rest && NoDuplicates(rest)
  {
    var all := [first] + rest;
    assert forall k :: 1 <= k < |all| ==> all[k] == rest[k - 1];
    if first in rest {
      var k :| 0 <= k < |rest| && rest[k] == first;
      assert all[0] == all[k + 1];
    }
    if !NoDuplicates(rest) {
      var i, k :| 0 <= i < k < |rest| && rest[i] == rest[k];
      assert all[i + 1] == all[k + 1];
    }
  }

  /** No id is delegated both to the owner and to somebody else, the owner's numeric alias excepted. */
  ghost predicate IdsApart(rows: seq<Row>, owner: string, alias: string) {
    forall i, k, id: nat :: 0 <= i < |rows| && 0 <= k < |rows| && rows[i].owner == owner
                            && rows[k].owner != owner && rows[k].owner != alias ==>
      !(Covers(rows[i], id) && Covers(rows[k], id))
  }

  /** A file that can be relabelled: readable, without the new owner, without a repeated range, ids apart. */
  ghost predicate Relabellable(payload: Option<string>, prior: string, next: string, uid: nat) {
    Rows(payload).Ok? && RowsRelabellable(Rows(payload).value, prior, next, Decimal(uid))
  }

  ghost predicate RowsRelabellable(rows: seq<Row>, prior: string, next: string, alias: string) {
    && (forall i :: 0 <= i < |rows| ==> rows[i].owner != next)
    && (forall i, k :: 0 <= i < k < |rows| && rows[i].owner == rows[k].owner == prior ==>
          rows[i].start != rows[k].start || rows[i].count != rows[k].count)
    && IdsApart(rows, prior, alias)
  }

  lemma RowsExact(rows: seq<Row>, prior: string, next: string, alias: string)
    requires forall i :: 0 <= i < |rows| ==> rows[i].count >= 1
    ensures RowsRelabellable(rows, prior, next, alias) <==>
            && Unowned(rows, next) && NoDuplicates(Owned(rows, prior))
            && Disjoint(rows, Owned(rows, prior), prior, alias)
  {
    OwnedMembers(rows, prior);
    DisjointExact(rows, prior, alias);
  }

  lemma DisjointExact(rows: seq<Row>, owner: string, alias: string)
    requires forall i :: 0 <= i < |rows| ==> rows[i].count >= 1
    ensures Disjoint(rows, Owned(rows, owner), owner, alias) <==> IdsApart(rows, owner, alias)
  {
    OwnedMembers(rows, owner);
    var ranges := Owned(rows, owner);
    if Disjoint(rows, ranges, owner, alias) {
      forall i, k, id: nat | 0 <= i < |rows| && 0 <= k < |rows| && rows[i].owner == owner
                             && rows[k].owner != owner && rows[k].owner != alias
        ensures !(Covers(rows[i], id) && Covers(rows[k], id))
      {
        assert Range(rows[i].start, rows[i].count) in ranges;
        var j :| 0 <= j < |ranges| && ranges[j] == Range(rows[i].start, rows[i].count);
        assert !Overlap(Range(rows[k].start, rows[k].count), ranges[j]);
        OverlapExact(rows[k], rows[i]);
      }
    }
    if IdsApart(rows, owner, alias) {
      forall i, k | 0 <= i < |rows| && 0 <= k < |ranges| && rows[i].owner != owner && rows[i].owner != alias
        ensures !Overlap(Range(rows[i].start, rows[i].count), ranges[k])
      {
        assert ranges[k] in ranges;
        var j :| 0 <= j < |rows| && rows[j].owner == owner && Range(rows[j].start, rows[j].count) == ranges[k];
        OverlapExact(rows[i], rows[j]);
      }
    }
  }

  lemma RowsNonempty(payload: Option<string>)
    requires Rows(payload).Ok?
    ensures forall i :: 0 <= i < |Rows(payload).value| ==> Rows(payload).value[i].count >= 1
  {
  }

  /** Exactly the relabellable files can be observed. */
  lemma ObserveExact(payload: Option<string>, prior: string, next: string, uid: nat)
    ensures ObserveOne(payload, prior, next, uid).Ok? <==> Relabellable(payload, prior, next, uid)
  {
    if Rows(payload).Ok? {
      RowsNonempty(payload);
      RowsExact(Rows(payload).value, prior, next, Decimal(uid));
    }
  }

  // ---------- what relabelling keeps ----------

  /** Parsing the rewritten file gives the parsed original with only the owner's label changed. */
  lemma RewrittenParses(payload: string, prior: string, next: string)
    requires Rows(Some(payload)).Ok? && IsLabel(next)
    ensures var rows := Rows(Some(payload)).value;
            && AllParsed(rows)
            && (forall i :: 0 <= i < |rows| ==> rows[i].owner == prior ==> |prior| <= |rows[i].line.body|)
            && var now := Rows(Some(Rewritten(rows, prior, next)));
               && now.Ok? && |now.value| == |rows|
               && forall i :: 0 <= i < |rows| ==> now.value[i] == Relabelled(rows[i], prior, next)
  {
    var rows := Rows(Some(payload)).value;
    RowsParsed(Some(payload));
    LinesShape(payload);
    var out := Map(rows, (row: Row) => LineFor(row, prior, next));
    forall i | 0 <= i < |rows|
      ensures rows[i].owner == prior ==> |prior| <= |rows[i].line.body|
      ensures RowOf(out[i]) == Ok(Relabelled(rows[i], prior, next))
      ensures out[i].body != "" && Unbroken(out[i].body) && out[i].ending == rows[i].line.ending
    {
      RelabelledParses(rows[i], prior, next);
      ParsedStart(rows[i]);
    }
    LinesOfUnlines(out);
  }

  predicate RelabelledAll(was: seq<Row>, now: seq<Row>, prior: string, next: string) {
    && |now| == |was|
    && forall i :: 0 <= i < |was| ==>
         && now[i].start == was[i].start && now[i].count == was[i].count
         && now[i].line.ending == was[i].line.ending
         && now[i].owner == (if was[i].owner == prior then next else was[i].owner)
         && (was[i].owner != prior ==> now[i] == was[i])
  }

  lemma {:induction false} OwnedRelabelled(was: seq<Row>, now: seq<Row>, prior: string, next: string)
    requires RelabelledAll(was, now, prior, next) && Unowned(was, next) && prior != next
    ensures Owned(now, next) == Owned(was, prior)
    ensures Foreign(now, next) == Foreign(was, prior)
    ensures Unowned(now, prior)
  {
    if was != [] {
      OwnedRelabelled(was[1..], now[1..], prior, next);
    }
  }

  /**
   Relabelling keeps what was delegated: the owner's ranges in order, the foreign
   lines in order and byte for byte, and the disjointness that was checked; the
   old label is gone.
   */
  lemma RelabellingPreserves(payload: string, prior: string, next: string, uid: nat)
    requires prior != next && IsLabel(next)
    requires ObserveOne(Some(payload), prior, next, uid).Ok?
    ensures var recipe := ObserveOne(Some(payload), prior, next, uid).value;
            && recipe.after.Some?
            && var was, now := Rows(Some(payload)).value, Rows(recipe.after);
               && now.Ok? && RelabelledAll(was, now.value, prior, next)
               && Owned(now.value, next) == recipe.ranges
               && Foreign(now.value, next) == recipe.foreign
               && Unowned(now.value, prior)
               && Disjoint(now.value, recipe.ranges, next, Decimal(uid))
               && ObserveOne(recipe.after, next, prior, uid).Ok?
  {
    var recipe := ObserveOne(Some(payload), prior, next, uid).value;
    RewrittenParses(payload, prior, next);
    var was, now := Rows(Some(payload)).value, Rows(recipe.after).value;
    OwnedRelabelled(was, now, prior, next);
  }

  /** Round trip: relabelling back gives the original text. */
  lemma RelabellingUndone(payload: string, prior: string, next: string)
    requires prior != next && IsLabel(next)
    requires Rows(Some(payload)).Ok? && Unowned(Rows(Some(payload)).value, next)
    ensures var now := Rows(Some(Rewritten(Rows(Some(payload)).value, prior, next)));
            now.Ok? && Rewritten(now.value, next, prior) == payload
  {
    var was := Rows(Some(payload)).value;
    RewrittenParses(payload, prior, next);
    RowsParsed(Some(payload));
    var now := Rows(Some(Rewritten(was, prior, next))).value;
    forall i | 0 <= i < |was|
      ensures LineFor(now[i], next, prior) == was[i].line
    {
      RelabelledBack(was[i], prior, next);
    }
    assert Map(now, (row: Row) => LineFor(row, next, prior)) == Lines(payload);
    UnlinesOfLines(payload);
  }

  lemma RelabelledBack(row: Row, prior: string, next: string)
    requires Parsed(row) && row.owner != next && (row.owner == prior ==> |prior| <= |row.line.body|)
    ensures LineFor(Relabelled(row, prior, next), next, prior) == row.line
  {
    ParsedStart(row);
    if row.owner == prior {
      assert (next + row.line.body[|prior|..])[|next|..] == row.line.body[|prior|..];
    }
  }

  /** A file in which the owner has no range is rewritten to itself. */
  lemma RewrittenWithoutRanges(payload: Option<string>, prior: string, next: string)
    requires Rows(payload).Ok? && Owned(Rows(payload).value, prior) == []
    ensures After(payload, Rows(payload).value, prior, next) == payload
  {
    if payload.Some? {
      var rows := Rows(payload).value;
      RowsParsed(payload);
      OwnedEmpty(rows, prior);
      assert Map(rows, (row: Row) => LineFor(row, prior, next)) == Lines(payload.value);
      UnlinesOfLines(payload.value);
    }
  }

  lemma {:induction false} OwnedEmpty(rows: seq<Row>, owner: string)
    requires Owned(rows, owner) == []
    ensures Unowned(rows, owner)
  {
    if rows != [] {
      OwnedEmpty(rows[1..], owner);
    }
  }
}
