/**
 The rename projections of the four account databases.

 `Projected` rewrites the rows of one developer login; with `group` false it
 performs the login half of the rename (what usermod does), with `group` true it
 also renames the primary group (what groupmod does).  Everything else in a
 database is carried through byte for byte.
 */
module Accounts {
  import opened Text

  datatype Database = Passwd | Shadow | Group | Gshadow

  /** One passwd record; password and GECOS fields stay in the file. */
  datatype Account = Account(user: string, uid: nat, gid: nat, home: string, shell: string)

  /** One group record. */
  datatype GroupRow = GroupRow(name: string, gid: nat, members: seq<string>)

  function FieldCount(db: Database): nat {
    match db
    case Passwd => 7
    case Shadow => 9
    case Group => 4
    case Gshadow => 4
  }

  // ---------- one member list ----------

  function Members(field: string): seq<string> {
    if field == "" then [] else Split(field, ',')
  }

  function Without(members: seq<string>, name: string): (rest: seq<string>)
    ensures name !in rest
    ensures forall x :: x in rest <==> x in members && x != name
  {
    if members == [] then []
    else
      assert members == [members[0]] + members[1..];
      (if members[0] == name then [] else [members[0]]) + Without(members[1..], name)
  }

  /** The list after the rename: the old member removed, the new one appended unless present. */
  function Renamed(members: seq<string>, prior: string, next: string): seq<string> {
    if prior in members then
      var rest := Without(members, prior);
      if next in rest then rest else rest + [next]
    else members
  }

  function RenameMember(field: string, prior: string, next: string): string {
    var members := Members(field);
    if prior in members then Join(Renamed(members, prior, next), ',') else field
  }

  // ---------- one row ----------

  function RenameGroup(name: string, prior: Account, next: Account, group: bool): string {
    if group && name == prior.user then next.user else name
  }

  function ProjectFields(fields: seq<string>, db: Database, prior: Account, next: Account,
                         group: bool): Result<seq<string>> {
    if |fields| != FieldCount(db) then Refused
    else
      match db
      case Passwd =>
        if fields[0] != prior.user then Ok(fields)
        else if fields[5] != prior.home then Refused
        else Ok(fields[0 := next.user][5 := next.home])
      case Shadow =>
        Ok(if fields[0] == prior.user then fields[0 := next.user] else fields)
      case Group =>
        Ok(fields[0 := RenameGroup(fields[0], prior, next, group)]
                 [3 := RenameMember(fields[3], prior.user, next.user)])
      case Gshadow =>
        Ok(fields[0 := RenameGroup(fields[0], prior, next, group)]
                 [2 := RenameMember(fields[2], prior.user, next.user)]
                 [3 := RenameMember(fields[3], prior.user, next.user)])
  }

  function ProjectLine(line: Line, db: Database, prior: Account, next: Account, group: bool): Result<Line> {
    match ProjectFields(Split(line.body, ':'), db, prior, next, group)
    case Refused => Refused
    case Ok(fields) => Ok(Line(Join(fields, ':'), line.ending))
  }

  // ---------- one database ----------

  function ProjectLines(lines: seq<Line>, db: Database, prior: Account, next: Account,
                        group: bool): (r: Result<seq<Line>>)
    ensures r.Ok? <==> forall i :: 0 <= i < |lines| ==> ProjectLine(lines[i], db, prior, next, group).Ok?
    ensures r.Ok? ==> |r.value| == |lines|
    ensures r.Ok? ==> forall i :: 0 <= i < |lines| ==> r.value[i] == ProjectLine(lines[i], db, prior, next, group).value
  {
    Traverse(lines, (line: Line) => ProjectLine(line, db, prior, next, group))
  }

  /** The projection of a whole database; an absent database stays absent. */
  function Projected(payload: Option<string>, db: Database, prior: Account, next: Account,
                     group: bool): Result<Option<string>> {
    match payload
    case None => Ok(None)
    case Some(text) =>
      match ProjectLines(Lines(text), db, prior, next, group)
      case Refused => Refused
      case Ok(lines) => Ok(Some(Unlines(lines)))
  }

  /** What `prepare` guarantees of the two logins before any projection is made. */
  predicate Distinct(prior: Account, next: Account) {
    && prior.user != next.user
    && next.user != "" && Free(next.user, ',')
    && Plain(next.user) && Plain(next.home)
  }

  /** The loop over the fields of a group row that list members. */
  method RenameLists(row: seq<string>, db: Database, prior: Account, next: Account) returns (fields: seq<string>)
    requires |row| == 4 && (db == Group || db == Gshadow)
    ensures |fields| == 4 && fields[0] == row[0] && fields[1] == row[1]
    ensures fields[2] == if db == Gshadow then RenameMember(row[2], prior.user, next.user) else row[2]
    ensures fields[3] == RenameMember(row[3], prior.user, next.user)
  {
    fields := row;
    var index := if db == Group then 3 else 2;
    while index < 4
      invariant 2 <= index <= 4 && |fields| == 4
      invariant fields[0] == row[0] && fields[1] == row[1]
      invariant fields[2] ==
                  if db == Gshadow && index > 2 then RenameMember(row[2], prior.user, next.user) else row[2]
      invariant fields[3] == if index > 3 then RenameMember(row[3], prior.user, next.user) else row[3]
    {
      var members := if fields[index] == "" then [] else Split(fields[index], ',');
      if prior.user in members {
        members := Without(members, prior.user);
        if next.user !in members {
          members := members + [next.user];
        }
        fields := fields[index := Join(members, ',')];
      }
      index := index + 1;
    }
  }

  /** The per-row assignments of the source, over a copy of the row's fields. */
  method ProjectRow(row: seq<string>, db: Database, prior: Account, next: Account, group: bool)
    returns (r: Result<seq<string>>)
    ensures r == ProjectFields(row, db, prior, next, group)
    ensures r.Ok? <==> Fits(row, db, prior)
    ensures r.Ok? && Distinct(prior, next) ==> RowRenamed(row, r.value, db, prior, next, group)
  {
    var fields := row;
    if |fields| != FieldCount(db) {
      return Refused;
    }
    if (db == Passwd || db == Shadow) && fields[0] == prior.user {
      fields := fields[0 := next.user];
      if db == Passwd {
        if fields[5] != prior.home {
          return Refused;
        }
        fields := fields[5 := next.home];
      }
    }
    if db == Group || db == Gshadow {
      fields := RenameLists(row, db, prior, next);
      if group && fields[0] == prior.user {
        fields := fields[0 := next.user];
      }
    }
    assert fields == ProjectFields(row, db, prior, next, group).value;
    if Distinct(prior, next) {
      FieldsRenamed(row, db, prior, next, group);
    }
    return Ok(fields);
  }

  lemma Projection(lines: seq<Line>, result: seq<Line>, db: Database, prior: Account, next: Account, group: bool)
    requires |result| == |lines|
    requires forall k :: 0 <= k < |lines| ==> ProjectLine(lines[k], db, prior, next, group) == Ok(result[k])
    ensures ProjectLines(lines, db, prior, next, group) == Ok(result)
  {
    TraverseIs(lines, (line: Line) => ProjectLine(line, db, prior, next, group), result);
  }

  /** One line, rewritten with its own terminator. */
  method ProjectOne(line: Line, db: Database, prior: Account, next: Account, group: bool) returns (r: Result<Line>)
    ensures r == ProjectLine(line, db, prior, next, group)
  {
    var fields := ProjectRow(Split(line.body, ':'), db, prior, next, group);
    return if fields.Refused? then Refused else Ok(Line(Join(fields.value, ':'), line.ending));
  }

  /** The source's loop over lines, appending each rewritten row with its own terminator. */
  method Project(payload: Option<string>, db: Database, prior: Account, next: Account, group: bool)
    returns (r: Result<Option<string>>)
    ensures r == Projected(payload, db, prior, next, group)
  {
    if payload.None? {
      return Ok(None);
    }
    var lines := Lines(payload.value);
    var result := [];
    var i := 0;
    while i < |lines|
      invariant 0 <= i <= |lines| && |result| == i
      invariant forall k :: 0 <= k < i ==> ProjectLine(lines[k], db, prior, next, group) == Ok(result[k])
    {
      var line := ProjectOne(lines[i], db, prior, next, group);
      if line.Refused? {
        return Refused;
      }
      result := result + [line.value];
      i := i + 1;
    }
    Projection(lines, result, db, prior, next, group);
    return Ok(Some(Unlines(result)));
  }

  // ---------- the projection algebra ----------

  /** Renaming a member list twice changes nothing further. */
  lemma RenameMemberTwice(field: string, prior: string, next: string)
    requires prior != next && next != "" && Free(next, ',')
    ensures RenameMember(RenameMember(field, prior, next), prior, next) == RenameMember(field, prior, next)
  {
    if prior in Members(field) {
      RenamedField(field, prior, next);
    }
  }

  /** A renamed member list is read back as the renamed list of members. */
  lemma RenamedField(field: string, prior: string, next: string)
    requires prior != next && next != "" && Free(next, ',')
    ensures Members(RenameMember(field, prior, next)) == Renamed(Members(field), prior, next)
    ensures prior !in Members(RenameMember(field, prior, next))
  {
    var members := Members(field);
    if prior in members {
      var renamed := Renamed(members, prior, next);
      SplitParts(field, ',');
      assert forall i :: 0 <= i < |renamed| ==> renamed[i] in renamed && (renamed[i] in members || renamed[i] == next);
      SplitOfJoin(renamed, ',');
      if |renamed| == 1 {
        assert renamed[0] == next;
      }
    }
  }

  lemma RenamedFieldPlain(field: string, prior: string, next: string)
    requires Plain(field) && Plain(next)
    ensures Plain(RenameMember(field, prior, next))
  {
    var members := Members(field);
    if prior in members {
      var renamed := Renamed(members, prior, next);
      SplitParts(field, ',');
      assert forall i :: 0 <= i < |renamed| ==> renamed[i] in renamed && (renamed[i] in members || renamed[i] == next);
      forall d | d in [':', '\n', '\r']
        ensures Free(Join(renamed, ','), d)
      {
        JoinFree(renamed, ',', d);
      }
      assert ':' in [':', '\n', '\r'] && '\n' in [':', '\n', '\r'] && '\r' in [':', '\n', '\r'];
    }
  }

  /**
   The row law behind all four composition laws: projecting again, in either
   mode, is projecting once in the stronger of the two modes.
   */
  lemma FieldsCompose(fields: seq<string>, db: Database, prior: Account, next: Account, first: bool, second: bool)
    requires Distinct(prior, next)
    requires ProjectFields(fields, db, prior, next, first).Ok?
    ensures ProjectFields(ProjectFields(fields, db, prior, next, first).value, db, prior, next, second)
         == ProjectFields(fields, db, prior, next, first || second)
  {
    if db == Group || db == Gshadow {
      RenameMemberTwice(fields[2], prior.user, next.user);
      RenameMemberTwice(fields[3], prior.user, next.user);
      var once := ProjectFields(fields, db, prior, next, first).value;
      assert ProjectFields(once, db, prior, next, second).value ==
               ProjectFields(fields, db, prior, next, first || second).value;
    }
  }

  lemma FieldsPlain(fields: seq<string>, db: Database, prior: Account, next: Account, group: bool)
    requires Distinct(prior, next)
    requires forall k :: 0 <= k < |fields| ==> Plain(fields[k])
    requires ProjectFields(fields, db, prior, next, group).Ok?
    ensures forall k :: 0 <= k < |fields| ==> Plain(ProjectFields(fields, db, prior, next, group).value[k])
  {
    if db == Group || db == Gshadow {
      RenamedFieldPlain(fields[2], prior.user, next.user);
      RenamedFieldPlain(fields[3], prior.user, next.user);
    }
  }

  /** A projected line splits back into the projected fields. */
  lemma LineFields(line: Line, db: Database, prior: Account, next: Account, group: bool)
    requires Distinct(prior, next) && Unbroken(line.body)
    requires ProjectLine(line, db, prior, next, group).Ok?
    ensures var out := ProjectLine(line, db, prior, next, group).value;
            && Split(out.body, ':') == ProjectFields(Split(line.body, ':'), db, prior, next, group).value
            && Unbroken(out.body) && out.body != "" && out.ending == line.ending
  {
    var fields := Split(line.body, ':');
    var out := ProjectFields(fields, db, prior, next, group).value;
    SplitParts(line.body, ':');
    FieldsPlain(fields, db, prior, next, group);
    SplitOfJoin(out, ':');
    JoinFree(out, ':', '\n');
    JoinFree(out, ':', '\r');
    assert |Split("", ':')| == 1;
  }

  lemma LineComposes(line: Line, db: Database, prior: Account, next: Account, first: bool, second: bool)
    requires Distinct(prior, next) && Unbroken(line.body)
    requires ProjectLine(line, db, prior, next, first).Ok?
    ensures ProjectLine(ProjectLine(line, db, prior, next, first).value, db, prior, next, second)
         == ProjectLine(line, db, prior, next, first || second)
  {
    LineFields(line, db, prior, next, first);
    FieldsCompose(Split(line.body, ':'), db, prior, next, first, second);
  }

  /** A projected database is cut back into exactly the projected lines. */
  lemma ProjectedLines(text: string, db: Database, prior: Account, next: Account, group: bool)
    requires Distinct(prior, next)
    requires ProjectLines(Lines(text), db, prior, next, group).Ok?
    ensures var out := ProjectLines(Lines(text), db, prior, next, group).value;
            Separable(out) && Lines(Unlines(out)) == out
  {
    var lines := Lines(text);
    var out := ProjectLines(lines, db, prior, next, group).value;
    LinesShape(text);
    forall i | 0 <= i < |out|
      ensures out[i].body != "" && Unbroken(out[i].body) && out[i].ending == lines[i].ending
    {
      LineFields(lines[i], db, prior, next, group);
    }
    LinesOfUnlines(out);
  }

  /**
   The projection algebra.  For every payload that can be projected at all:
   login then login is login, login then final is final, final then login is
   final, and final then final is final.
   */
  lemma ProjectionsCompose(payload: Option<string>, db: Database, prior: Account, next: Account, first: bool,
                           second: bool)
    requires Distinct(prior, next)
    requires Projected(payload, db, prior, next, first).Ok?
    ensures Projected(Projected(payload, db, prior, next, first).value, db, prior, next, second)
         == Projected(payload, db, prior, next, first || second)
  {
    if payload.Some? {
      var lines := Lines(payload.value);
      var once := ProjectLines(lines, db, prior, next, first).value;
      ProjectedLines(payload.value, db, prior, next, first);
      LinesShape(payload.value);
      forall i | 0 <= i < |lines|
        ensures ProjectLine(once[i], db, prior, next, second) == ProjectLine(lines[i], db, prior, next, first || second)
      {
        LineComposes(lines[i], db, prior, next, first, second);
      }
      var twice := ProjectLines(once, db, prior, next, second);
      var direct := ProjectLines(lines, db, prior, next, first || second);
      assert twice.Ok? == direct.Ok?;
      if direct.Ok? {
        assert twice.value == direct.value;
      }
    }
  }

  // ---------- reading the databases ----------

  function AccountOf(line: Line): Result<Account> {
    var fields := Split(line.body, ':');
    if |fields| == 7 && IsNumber(fields[2]) && IsNumber(fields[3]) then
      Ok(Account(fields[0], Number(fields[2]), Number(fields[3]), fields[5], fields[6]))
    else Refused
  }

  function GroupOf(line: Line): Result<GroupRow> {
    var fields := Split(line.body, ':');
    if |fields| == 4 && IsNumber(fields[2]) then
      Ok(GroupRow(fields[0], Number(fields[2]), Members(fields[3])))
    else Refused
  }

  function ReadAccounts(passwd: Option<string>): Result<seq<Account>> {
    if passwd.None? then Refused else Traverse(Lines(passwd.value), AccountOf)
  }

  function ReadGroups(group: Option<string>): Result<seq<GroupRow>> {
    if group.None? then Refused else Traverse(Lines(group.value), GroupOf)
  }

  /** An account that is written out is read back. */
  lemma AccountWritten(account: Account, password: string, gecos: string, ending: string)
    requires Plain(account.user) && Plain(account.home) && Plain(account.shell) && Plain(password) && Plain(gecos)
    ensures AccountOf(Line(Join([account.user, password, Decimal(account.uid), Decimal(account.gid), gecos,
                                 account.home, account.shell], ':'), ending)) == Ok(account)
  {
    NumberOfDecimal(account.uid);
    NumberOfDecimal(account.gid);
    var fields := [account.user, password, Decimal(account.uid), Decimal(account.gid), gecos, account.home,
                   account.shell];
    SplitOfJoin(fields, ':');
  }

  /** A group that is written out is read back. */
  lemma GroupWritten(row: GroupRow, password: string, ending: string)
    requires Plain(row.name) && Plain(password)
    requires forall i :: 0 <= i < |row.members| ==> Plain(row.members[i]) && Free(row.members[i], ',')
    requires row.members != [""]
    ensures GroupOf(Line(Join([row.name, password, Decimal(row.gid), Join(row.members, ',')], ':'), ending)) == Ok(row)
  {
    NumberOfDecimal(row.gid);
    JoinFree(row.members, ',', ':');
    SplitOfJoin([row.name, password, Decimal(row.gid), Join(row.members, ',')], ':');
    if row.members != [] {
      SplitOfJoin(row.members, ',');
    }
  }

  function RenameAccount(account: Account, prior: Account, next: Account): Account {
    if account.user == prior.user then account.(user := next.user, home := next.home) else account
  }

  function RenameRow(row: GroupRow, prior: Account, next: Account, group: bool): GroupRow {
    row.(name := RenameGroup(row.name, prior, next, group), members := Renamed(row.members, prior.user, next.user))
  }

  lemma AccountLineRenamed(line: Line, prior: Account, next: Account, group: bool)
    requires Distinct(prior, next) && Unbroken(line.body)
    requires ProjectLine(line, Passwd, prior, next, group).Ok? && AccountOf(line).Ok?
    ensures AccountOf(ProjectLine(line, Passwd, prior, next, group).value) ==
              Ok(RenameAccount(AccountOf(line).value, prior, next))
  {
    LineFields(line, Passwd, prior, next, group);
  }

  lemma GroupLineRenamed(line: Line, prior: Account, next: Account, group: bool)
    requires Distinct(prior, next) && Unbroken(line.body)
    requires ProjectLine(line, Group, prior, next, group).Ok? && GroupOf(line).Ok?
    ensures GroupOf(ProjectLine(line, Group, prior, next, group).value) ==
              Ok(RenameRow(GroupOf(line).value, prior, next, group))
  {
    LineFields(line, Group, prior, next, group);
    RenamedField(Split(line.body, ':')[3], prior.user, next.user);
  }

  /** Reading a projected passwd database gives the old accounts with one of them renamed. */
  lemma AccountsRenamed(passwd: Option<string>, prior: Account, next: Account, group: bool)
    requires Distinct(prior, next)
    requires Projected(passwd, Passwd, prior, next, group).Ok? && ReadAccounts(passwd).Ok?
    ensures ReadAccounts(Projected(passwd, Passwd, prior, next, group).value)
         == Ok(Map(ReadAccounts(passwd).value, a => RenameAccount(a, prior, next)))
  {
    var lines := Lines(passwd.value);
    var out := ProjectLines(lines, Passwd, prior, next, group).value;
    LinesShape(passwd.value);
    ProjectedLines(passwd.value, Passwd, prior, next, group);
    forall i | 0 <= i < |lines|
      ensures AccountOf(out[i]) == Ok(RenameAccount(AccountOf(lines[i]).value, prior, next))
    {
      AccountLineRenamed(lines[i], prior, next, group);
    }
    assert Traverse(out, AccountOf).value == Map(ReadAccounts(passwd).value, a => RenameAccount(a, prior, next));
  }

  /** Reading a projected group database gives the old groups with members, and perhaps one name, renamed. */
  lemma GroupsRenamed(groups: Option<string>, prior: Account, next: Account, group: bool)
    requires Distinct(prior, next)
    requires Projected(groups, Group, prior, next, group).Ok? && ReadGroups(groups).Ok?
    ensures ReadGroups(Projected(groups, Group, prior, next, group).value)
         == Ok(Map(ReadGroups(groups).value, g => RenameRow(g, prior, next, group)))
  {
    var lines := Lines(groups.value);
    var out := ProjectLines(lines, Group, prior, next, group).value;
    LinesShape(groups.value);
    ProjectedLines(groups.value, Group, prior, next, group);
    forall i | 0 <= i < |lines|
      ensures GroupOf(out[i]) == Ok(RenameRow(GroupOf(lines[i]).value, prior, next, group))
    {
      GroupLineRenamed(lines[i], prior, next, group);
    }
    assert Traverse(out, GroupOf).value == Map(ReadGroups(groups).value, g => RenameRow(g, prior, next, group));
  }

  // ---------- what a projection leaves alone ----------

  predicate MayChange(db: Database, k: nat) {
    match db
    case Passwd => k == 0 || k == 5
    case Shadow => k == 0
    case Group => k == 0 || k == 3
    case Gshadow => k == 0 || k == 2 || k == 3
  }

  /** Rows in which the old login is neither the owner nor a listed member. */
  predicate Unrelated(fields: seq<string>, db: Database, prior: Account)
    requires |fields| == FieldCount(db)
  {
    && fields[0] != prior.user
    && (db == Group ==> prior.user !in Members(fields[3]))
    && (db == Gshadow ==> prior.user !in Members(fields[2]) && prior.user !in Members(fields[3]))
  }

  /** `at` lists, in order, the positions of all members but this one. */
  ghost predicate Others(members: seq<string>, name: string, at: seq<nat>) {
    && (forall i, k :: 0 <= i < k < |at| ==> at[i] < at[k])
    && (forall i :: 0 <= i < |at| ==> at[i] < |members| && members[at[i]] != name)
    && (forall k :: 0 <= k < |members| && members[k] != name ==> k in at)
  }

  /** The other members in their old order, and the new one behind them unless it is among them. */
  ghost predicate MemberReplaced(was: seq<string>, now: seq<string>, prior: string, next: string) {
    if prior !in was then now == was
    else
      exists at: seq<nat> ::
        && Others(was, prior, at) && |now| == |at| + (if next in was then 0 else 1)
        && (forall i :: 0 <= i < |at| ==> now[i] == was[at[i]])
        && (next !in was ==> now[|at|] == next)
  }

  /** The positions of all members but one, in order, from a position on. */
  function OtherPositions(members: seq<string>, name: string, from: nat): (at: seq<nat>)
    requires from <= |members|
    ensures forall i, k :: 0 <= i < k < |at| ==> at[i] < at[k]
    ensures forall i :: 0 <= i < |at| ==> from <= at[i] < |members| && members[at[i]] != name
    ensures forall k :: from <= k < |members| && members[k] != name ==> k in at
    decreases |members| - from
  {
    if from == |members| then []
    else (if members[from] == name then [] else [from]) + OtherPositions(members, name, from + 1)
  }

  /** Dropping a member keeps the positions of the others in order. */
  lemma {:induction false} WithoutKeepsOrder(members: seq<string>, name: string, from: nat)
    requires from <= |members|
    ensures var at, rest := OtherPositions(members, name, from), Without(members[from..], name);
            |rest| == |at| && forall i :: 0 <= i < |at| ==> rest[i] == members[at[i]]
    decreases |members| - from
  {
    if from < |members| {
      WithoutKeepsOrder(members, name, from + 1);
      assert members[from..][1..] == members[from + 1..];
    }
  }

  lemma RenamedInOrder(members: seq<string>, prior: string, next: string)
    requires prior != next
    ensures MemberReplaced(members, Renamed(members, prior, next), prior, next)
  {
    if prior in members {
      WithoutKeepsOrder(members, prior, 0);
      assert members[0..] == members;
      assert Others(members, prior, OtherPositions(members, prior, 0));
      assert next in Without(members, prior) <==> next in members;
    }
  }

  lemma ListRenamed(field: string, prior: string, next: string)
    requires prior != next && next != "" && Free(next, ',')
    ensures MemberReplaced(Members(field), Members(RenameMember(field, prior, next)), prior, next)
  {
    RenamedField(field, prior, next);
    RenamedInOrder(Members(field), prior, next);
  }

  /** The fields that list members. */
  predicate ListsMembers(db: Database, k: nat) {
    (db == Group && k == 3) || (db == Gshadow && (k == 2 || k == 3))
  }

  /**
   What the projection of one row changes, field by field: the login of its owner, the
   home beside it, and one member of its lists.
   */
  ghost predicate RowRenamed(was: seq<string>, now: seq<string>, db: Database, prior: Account, next: Account,
                             group: bool) {
    && |now| == |was| == FieldCount(db)
    && now[0] == (if was[0] == prior.user && (db == Passwd || db == Shadow || group) then next.user else was[0])
    && (db == Passwd ==> now[5] == if was[0] == prior.user then next.home else was[5])
    && ListsReplaced(was, now, db, prior.user, next.user)
    && (forall k :: 0 <= k < |was| && !MayChange(db, k) ==> now[k] == was[k])
  }

  ghost predicate ListsReplaced(was: seq<string>, now: seq<string>, db: Database, prior: string, next: string)
    requires |now| == |was|
  {
    forall k :: 0 <= k < |was| && ListsMembers(db, k) ==>
      MemberReplaced(Members(was[k]), Members(now[k]), prior, next)
  }

  lemma ListsRenamed(was: seq<string>, db: Database, prior: Account, next: Account, group: bool)
    requires Distinct(prior, next) && ProjectFields(was, db, prior, next, group).Ok?
    ensures var now := ProjectFields(was, db, prior, next, group).value;
            |now| == |was| && ListsReplaced(was, now, db, prior.user, next.user)
  {
    var now := ProjectFields(was, db, prior, next, group).value;
    forall k | 0 <= k < |was| && ListsMembers(db, k)
      ensures now[k] == RenameMember(was[k], prior.user, next.user)
      ensures MemberReplaced(Members(was[k]), Members(RenameMember(was[k], prior.user, next.user)), prior.user,
                             next.user)
    {
      ListRenamed(was[k], prior.user, next.user);
    }
  }

  lemma FieldsRenamed(was: seq<string>, db: Database, prior: Account, next: Account, group: bool)
    requires Distinct(prior, next) && ProjectFields(was, db, prior, next, group).Ok?
    ensures RowRenamed(was, ProjectFields(was, db, prior, next, group).value, db, prior, next, group)
  {
    ListsRenamed(was, db, prior, next, group);
  }

  lemma UnrelatedKept(was: seq<string>, db: Database, prior: Account, next: Account, group: bool)
    requires |was| == FieldCount(db) && Unrelated(was, db, prior)
    ensures ProjectFields(was, db, prior, next, group) == Ok(was)
  {
    if db == Group || db == Gshadow {
      assert ProjectFields(was, db, prior, next, group).value == was;
    }
  }

  lemma LineRenamed(line: Line, db: Database, prior: Account, next: Account, group: bool)
    requires Distinct(prior, next) && Unbroken(line.body)
    requires ProjectLine(line, db, prior, next, group).Ok?
    ensures var out := ProjectLine(line, db, prior, next, group).value;
            && out.ending == line.ending
            && RowRenamed(Split(line.body, ':'), Split(out.body, ':'), db, prior, next, group)
            && (Unrelated(Split(line.body, ':'), db, prior) ==> out == line)
  {
    LineFields(line, db, prior, next, group);
    FieldsRenamed(Split(line.body, ':'), db, prior, next, group);
    if Unrelated(Split(line.body, ':'), db, prior) {
      UnrelatedKept(Split(line.body, ':'), db, prior, next, group);
      JoinOfSplit(line.body, ':');
    }
  }

  /**
   What a projection does to a database, field by field: it has the same number of
   lines with the same terminators, unrelated rows are identical, and a related row
   keeps every field (the password among them) but the login, the home beside it and
   the member lists, in which the other members keep their order.
   */
  lemma ProjectionPreserves(text: string, db: Database, prior: Account, next: Account, group: bool)
    requires Distinct(prior, next)
    requires Projected(Some(text), db, prior, next, group).Ok?
    ensures var was, now := Lines(text), Lines(Projected(Some(text), db, prior, next, group).value.value);
            && |now| == |was|
            && forall i :: 0 <= i < |was| ==>
                 && now[i].ending == was[i].ending
                 && RowRenamed(Split(was[i].body, ':'), Split(now[i].body, ':'), db, prior, next, group)
                 && (Unrelated(Split(was[i].body, ':'), db, prior) ==> now[i] == was[i])
  {
    var lines := Lines(text);
    LinesShape(text);
    ProjectedLines(text, db, prior, next, group);
    forall i | 0 <= i < |lines|
      ensures var out := ProjectLine(lines[i], db, prior, next, group).value;
              && out.ending == lines[i].ending
              && RowRenamed(Split(lines[i].body, ':'), Split(out.body, ':'), db, prior, next, group)
              && (Unrelated(Split(lines[i].body, ':'), db, prior) ==> out == lines[i])
    {
      LineRenamed(lines[i], db, prior, next, group);
    }
  }

  /** A row the projection accepts: complete, and the developer's passwd row with the developer's home. */
  predicate Fits(fields: seq<string>, db: Database, prior: Account) {
    |fields| == FieldCount(db) && (db == Passwd && fields[0] == prior.user ==> fields[5] == prior.home)
  }

  lemma LineFits(line: Line, db: Database, prior: Account, next: Account, group: bool)
    ensures ProjectLine(line, db, prior, next, group).Ok? <==> Fits(Split(line.body, ':'), db, prior)
  {
    var fields := Split(line.body, ':');
    assert ProjectFields(fields, db, prior, next, group).Ok? <==> Fits(fields, db, prior);
  }

  /** Every row fits. */
  predicate AllFit(lines: seq<Line>, db: Database, prior: Account) {
    forall i :: 0 <= i < |lines| ==> Fits(Split(lines[i].body, ':'), db, prior)
  }

  lemma LinesFit(lines: seq<Line>, db: Database, prior: Account, next: Account, group: bool)
    ensures ProjectLines(lines, db, prior, next, group).Ok? <==> AllFit(lines, db, prior)
  {
    forall i | 0 <= i < |lines|
      ensures ProjectLine(lines[i], db, prior, next, group).Ok? <==> Fits(Split(lines[i].body, ':'), db, prior)
    {
      LineFits(lines[i], db, prior, next, group);
    }
  }

  /** A database is refused exactly when one of its rows does not fit. */
  lemma ProjectionRefuses(payload: Option<string>, db: Database, prior: Account, next: Account, group: bool)
    ensures Projected(payload, db, prior, next, group).Refused? <==>
            payload.Some? && !AllFit(Lines(payload.value), db, prior)
  {
    if payload.Some? {
      LinesFit(Lines(payload.value), db, prior, next, group);
    }
  }

  // ---------- the captured recipe ----------

  /** The contents of the four files; shadow and gshadow may be absent. */
  datatype Databases = Databases(passwd: Option<string>, shadow: Option<string>, group: Option<string>,
                                 gshadow: Option<string>) {
    function Get(db: Database): Option<string> {
      match db
      case Passwd => passwd
      case Shadow => shadow
      case Group => group
      case Gshadow => gshadow
    }

    function With(db: Database, payload: Option<string>): (r: Databases)
      ensures r.Get(db) == payload
      ensures forall d :: d != db ==> r.Get(d) == Get(d)
    {
      match db
      case Passwd => this.(passwd := payload)
      case Shadow => this.(shadow := payload)
      case Group => this.(group := payload)
      case Gshadow => this.(gshadow := payload)
    }
  }

  /** The three recognised contents of one database; a digest stands for the payload it was taken of. */
  datatype Recipe = Recipe(before: Option<string>, login: Option<string>, final: Option<string>) {
    predicate Knows(payload: Option<string>) {
      payload == before || payload == login || payload == final
    }

    predicate LoggedIn(payload: Option<string>) {
      payload == login || payload == final
    }
  }

  datatype Recipes = Recipes(passwd: Recipe, shadow: Recipe, group: Recipe, gshadow: Recipe) {
    function Get(db: Database): Recipe {
      match db
      case Passwd => passwd
      case Shadow => shadow
      case Group => group
      case Gshadow => gshadow
    }
  }

  function OwnerNames(text: string): seq<string> {
    Map(Lines(text), (line: Line) => Split(line.body, ':')[0])
  }

  /** The old login owns exactly one row and the new one owns none. */
  predicate UniqueOwner(payload: Option<string>, prior: Account, next: Account) {
    payload.None?
    || (next.user !in OwnerNames(payload.value) && multiset(OwnerNames(payload.value))[prior.user] == 1)
  }

  function ObserveOne(payload: Option<string>, db: Database, prior: Account, next: Account): Result<Recipe> {
    var login, final := Projected(payload, db, prior, next, false), Projected(payload, db, prior, next, true);
    if payload.None? && (db == Passwd || db == Group) then Refused
    else if !UniqueOwner(payload, prior, next) then Refused
    else if login.Refused? || final.Refused? then Refused
    else Ok(Recipe(payload, login.value, final.value))
  }

  function Observe(files: Databases, prior: Account, next: Account): Result<Recipes> {
    var p, s, g, h := ObserveOne(files.passwd, Passwd, prior, next), ObserveOne(files.shadow, Shadow, prior, next),
                      ObserveOne(files.group, Group, prior, next), ObserveOne(files.gshadow, Gshadow, prior, next);
    if p.Ok? && s.Ok? && g.Ok? && h.Ok? then Ok(Recipes(p.value, s.value, g.value, h.value)) else Refused
  }

  /** A recipe captured from a projectable database under these two logins. */
  predicate Captured(recipe: Recipe, db: Database, prior: Account, next: Account) {
    && Projected(recipe.before, db, prior, next, false) == Ok(recipe.login)
    && Projected(recipe.before, db, prior, next, true) == Ok(recipe.final)
  }

  /** The owners' names, by position, with the developer's replaced. */
  predicate OwnersRenamed(was: seq<string>, now: seq<string>, prior: Account, next: Account) {
    |now| == |was| && forall i :: 0 <= i < |was| ==> now[i] == if was[i] == prior.user then next.user else was[i]
  }

  lemma ProjectedOwners(text: string, db: Database, prior: Account, next: Account, group: bool)
    requires Distinct(prior, next)
    requires Projected(Some(text), db, prior, next, group).Ok?
    ensures var was, now := OwnerNames(text), OwnerNames(Projected(Some(text), db, prior, next, group).value.value);
            if group || db == Passwd || db == Shadow then OwnersRenamed(was, now, prior, next) else now == was
  {
    ProjectionPreserves(text, db, prior, next, group);
    var now := Projected(Some(text), db, prior, next, group).value.value;
    forall i | 0 <= i < |Lines(text)|
      ensures OwnerNames(now)[i] == Split(Lines(now)[i].body, ':')[0]
      ensures OwnerNames(text)[i] == Split(Lines(text)[i].body, ':')[0]
    {
    }
  }

  /**
   Who owns the rows of each captured content: the final one has the new login wherever
   the old one was, and so has the login content of passwd and shadow.
   */
  lemma CapturedOwners(recipe: Recipe, db: Database, prior: Account, next: Account)
    requires Distinct(prior, next) && Captured(recipe, db, prior, next)
    ensures recipe.login.Some? == recipe.final.Some? == recipe.before.Some?
    ensures recipe.before.Some? ==>
              && OwnersRenamed(OwnerNames(recipe.before.value), OwnerNames(recipe.final.value), prior, next)
              && (if db == Passwd || db == Shadow
                  then OwnersRenamed(OwnerNames(recipe.before.value), OwnerNames(recipe.login.value), prior, next)
                  else OwnerNames(recipe.login.value) == OwnerNames(recipe.before.value))
  {
    if recipe.before.Some? {
      ProjectedOwners(recipe.before.value, db, prior, next, false);
      ProjectedOwners(recipe.before.value, db, prior, next, true);
    }
  }

  lemma {:induction false} CountRenamed(was: seq<string>, now: seq<string>, prior: Account, next: Account)
    requires prior.user != next.user && next.user !in was && OwnersRenamed(was, now, prior, next)
    ensures prior.user !in now && multiset(now)[next.user] == multiset(was)[prior.user]
  {
    if was != [] {
      CountRenamed(was[1..], now[1..], prior, next);
      assert was == [was[0]] + was[1..] && now == [now[0]] + now[1..];
    }
  }

  /** A database that could be observed ends with exactly one row of the new login and none of the old one. */
  lemma ObservedOwner(payload: Option<string>, db: Database, prior: Account, next: Account)
    requires Distinct(prior, next) && ObserveOne(payload, db, prior, next).Ok? && payload.Some?
    ensures var final := ObserveOne(payload, db, prior, next).value.final;
            final.Some? && prior.user !in OwnerNames(final.value) && multiset(OwnerNames(final.value))[next.user] == 1
  {
    var recipe := ObserveOne(payload, db, prior, next).value;
    CapturedOwners(recipe, db, prior, next);
    CountRenamed(OwnerNames(payload.value), OwnerNames(recipe.final.value), prior, next);
  }

  /** From any recognised content, projecting reaches the requested one. */
  lemma RecipeCloses(recipe: Recipe, db: Database, prior: Account, next: Account)
    requires Distinct(prior, next) && Captured(recipe, db, prior, next)
    ensures Projected(recipe.login, db, prior, next, false) == Ok(recipe.login)
    ensures Projected(recipe.login, db, prior, next, true) == Ok(recipe.final)
    ensures Projected(recipe.final, db, prior, next, false) == Ok(recipe.final)
    ensures Projected(recipe.final, db, prior, next, true) == Ok(recipe.final)
  {
    ProjectionsCompose(recipe.before, db, prior, next, false, false);
    ProjectionsCompose(recipe.before, db, prior, next, false, true);
    ProjectionsCompose(recipe.before, db, prior, next, true, false);
    ProjectionsCompose(recipe.before, db, prior, next, true, true);
  }
}
