/**
 Guests on which the rename can be planned: one for every normally spelled old login and
 every number of times that its primary group may list it.  They show that the theorems
 about pending renames are about something, on both sides of both exact conditions.
 */
module Examples {
  import opened Text
  import opened Accounts
  import opened Paths
  import opened Plans
  import opened Protocol
  import Interruption
  import Locks
  import Receipts
  import Subids

  const OPS := Account("ops", 7, 7, "/home/ops", "/bin/sh")
  const HOST := Host("guest", false, false, {}, false, Obeys, {}, false)

  function Developer(user: string): Account {
    Account(user, 7, 7, "/home/" + user, "/bin/sh")
  }

  /** A file of one row. */
  function RowText(fields: seq<string>): string {
    Unlines([Line(Join(fields, ':'), "\n")])
  }

  function Listed(user: string, count: nat): seq<string> {
    seq(count, _ => user)
  }

  function Primary(user: string, count: nat): GroupRow {
    GroupRow(user, 7, Listed(user, count))
  }

  function PasswdFields(user: string): seq<string> {
    [user, "x", "7", "7", "", "/home/" + user, "/bin/sh"]
  }

  function ShadowFields(user: string): seq<string> {
    [user, "x", "1", "0", "9", "7", "", "", ""]
  }

  function GshadowFields(user: string): seq<string> {
    [user, "!", "", user]
  }

  function GroupFields(user: string, count: nat): seq<string> {
    [user, "x", "7", Join(Listed(user, count), ',')]
  }

  /** The receipt that shows whose home this is. */
  function CoreSkills(home: string): map<string, Receipts.Document> {
    map[Receipts.CORE := Receipts.Encoded(Receipts.Skill(home, 1, ""))]
  }

  /** A guest with one account, whose primary group lists it this often. */
  function GuestWith(user: string, count: nat): View {
    View(Databases(Some(RowText(PasswdFields(user))), Some(RowText(ShadowFields(user))),
                   Some(RowText(GroupFields(user, count))), Some(RowText(GshadowFields(user)))),
         Subids.Subordinate(None, None), map[Place("/home/" + user) :=
             1], map[], CoreSkills("/home/" + user), {}, {}, None)
  }

  /** A login that fits an account row and spells a home of its own, slashes included. */
  predicate Spelled(user: string) {
    && Plain(user) && Free(user, ',')
    && (forall x :: x in Split(user, '/') ==> x !in ["", ".", ".."]) && Split(user, '/')[0] != "ops"
  }

  lemma SpelledName(user: string)
    requires Spelled(user)
    ensures user != "" && user != "ops"
  {
    SplitOfFree("ops", '/');
    assert Split("", '/') == [""] && "" in [""];
  }

  // ---------- the files ----------

  lemma OneRow(fields: seq<string>)
    requires |fields| >= 2 && forall i :: 0 <= i < |fields| ==> Plain(fields[i])
    ensures Lines(RowText(fields)) == [Line(Join(fields, ':'), "\n")]
    ensures Split(Join(fields, ':'), ':') == fields
  {
    JoinFree(fields, ':', '\n');
    JoinFree(fields, ':', '\r');
    SplitOfJoin(fields, ':');
    LinesOfUnlines([Line(Join(fields, ':'), "\n")]);
  }

  lemma ListedField(user: string, count: nat)
    requires Plain(user) && Free(user, ',') && user != ""
    ensures Plain(Join(Listed(user, count), ',')) && Members(Join(Listed(user, count), ',')) == Listed(user, count)
  {
    var members := Listed(user, count);
    JoinFree(members, ',', ':');
    JoinFree(members, ',', '\n');
    JoinFree(members, ',', '\r');
    if count > 0 {
      SplitOfJoin(members, ',');
    }
  }

  lemma Seven()
    ensures IsNumber("7") && Number("7") == 7
  {
    assert "7"[..0] == "";
  }

  /** A row of seven fields is read as an account. */
  lemma AccountLine(fields: seq<string>)
    requires |fields| == 7 && (forall i :: 0 <= i < |fields| ==> Plain(fields[i])) && fields[2] == fields[3] == "7"
    ensures AccountOf(Line(Join(fields, ':'), "\n")) == Ok(Account(fields[0], 7, 7, fields[5], fields[6]))
  {
    OneRow(fields);
    Seven();
  }

  /** A row of four fields is read as a group. */
  lemma GroupLine(fields: seq<string>, members: seq<string>)
    requires |fields| == 4 && (forall i :: 0 <= i < |fields| ==> Plain(fields[i]))
    requires fields[2] == "7" && Members(fields[3]) == members
    ensures GroupOf(Line(Join(fields, ':'), "\n")) == Ok(GroupRow(fields[0], 7, members))
  {
    OneRow(fields);
    Seven();
  }

  lemma PasswdFieldsPlain(user: string)
    requires Plain(user)
    ensures forall i :: 0 <= i < |PasswdFields(user)| ==> Plain(PasswdFields(user)[i])
  {
    assert Plain("x") && Plain("7") && Plain("") && Plain("/home/") && Plain("/bin/sh");
  }

  lemma GroupFieldsPlain(user: string, count: nat)
    requires Plain(user) && Free(user, ',') && user != ""
    ensures forall i :: 0 <= i < |GroupFields(user, count)| ==> Plain(GroupFields(user, count)[i])
  {
    ListedField(user, count);
    assert Plain("x") && Plain("7");
  }

  /** The passwd file's one row, read back field by field. */
  lemma PasswdRowReads(user: string)
    requires Plain(user)
    ensures var fields := PasswdFields(user);
            && Lines(RowText(fields)) == [Line(Join(fields, ':'), "\n")] && Split(Join(fields, ':'), ':') == fields
            && AccountOf(Line(Join(fields, ':'), "\n")) == Ok(Developer(user))
  {
    PasswdFieldsPlain(user);
    OneRow(PasswdFields(user));
    AccountLine(PasswdFields(user));
  }

  /** The group file's one row, read back field by field. */
  lemma GroupRowReads(user: string, count: nat)
    requires Plain(user) && Free(user, ',') && user != ""
    ensures var fields := GroupFields(user, count);
            && Lines(RowText(fields)) == [Line(Join(fields, ':'), "\n")] && Split(Join(fields, ':'), ':') == fields
            && GroupOf(Line(Join(fields, ':'), "\n")) == Ok(Primary(user, count))
  {
    ListedField(user, count);
    GroupFieldsPlain(user, count);
    OneRow(GroupFields(user, count));
    GroupLine(GroupFields(user, count), Listed(user, count));
  }

  /** The passwd file holds exactly the developer. */
  lemma PasswdReads(user: string)
    requires Plain(user)
    ensures ReadAccounts(Some(RowText(PasswdFields(user)))) == Ok([Developer(user)])
  {
    PasswdRowReads(user);
    assert ReadAccounts(Some(RowText(PasswdFields(user)))).value == [Developer(user)];
  }

  /** The group file holds exactly the private primary group. */
  lemma GroupReads(user: string, count: nat)
    requires Plain(user) && Free(user, ',') && user != ""
    ensures ReadGroups(Some(RowText(GroupFields(user, count)))) == Ok([Primary(user, count)])
  {
    GroupRowReads(user, count);
    assert ReadGroups(Some(RowText(GroupFields(user, count)))).value == [Primary(user, count)];
  }

  lemma RowProjected(text: string, line: Line, db: Database, prior: Account, next: Account, group: bool)
    requires Lines(text) == [line] && ProjectFields(Split(line.body, ':'), db, prior, next, group).Ok?
    ensures Projected(Some(text), db, prior, next, group).Ok?
  {
    assert ProjectLine(line, db, prior, next, group).Ok?;
  }

  lemma RowOwner(text: string, line: Line, prior: Account, next: Account)
    requires Lines(text) == [line] && Split(line.body, ':')[0] == prior.user != next.user
    ensures UniqueOwner(Some(text), prior, next)
  {
    assert OwnerNames(text) == [prior.user];
  }

  /** A one-row file whose owner is the developer can be observed if its row can be projected. */
  lemma RowObserved(text: string, line: Line, db: Database, prior: Account, next: Account)
    requires Lines(text) == [line] && Split(line.body, ':')[0] == prior.user != next.user
    requires forall group :: ProjectFields(Split(line.body, ':'), db, prior, next, group).Ok?
    ensures ObserveOne(Some(text), db, prior, next).Ok?
  {
    RowOwner(text, line, prior, next);
    RowProjected(text, line, db, prior, next, false);
    RowProjected(text, line, db, prior, next, true);
  }

  lemma PasswdObserved(user: string)
    requires Plain(user) && user != "ops"
    ensures ObserveOne(Some(RowText(PasswdFields(user))), Passwd, Developer(user), OPS).Ok?
  {
    PasswdRowReads(user);
    RowObserved(RowText(PasswdFields(user)), Line(Join(PasswdFields(user), ':'), "\n"), Passwd, Developer(user), OPS);
  }

  lemma GroupObserved(user: string, count: nat)
    requires Plain(user) && Free(user, ',') && user != "" && user != "ops"
    ensures ObserveOne(Some(RowText(GroupFields(user, count))), Group, Developer(user), OPS).Ok?
  {
    GroupRowReads(user, count);
    RowObserved(RowText(GroupFields(user, count)), Line(Join(GroupFields(user, count), ':'), "\n"), Group,
                Developer(user), OPS);
  }

  lemma ShadowObserved(user: string)
    requires Plain(user) && user != "ops"
    ensures ObserveOne(Some(RowText(ShadowFields(user))), Shadow, Developer(user), OPS).Ok?
  {
    var fields := ShadowFields(user);
    assert Plain("x") && Plain("1") && Plain("0") && Plain("9") && Plain("7") && Plain("");
    OneRow(fields);
    RowObserved(RowText(fields), Line(Join(fields, ':'), "\n"), Shadow, Developer(user), OPS);
  }

  lemma GshadowObserved(user: string)
    requires Plain(user) && user != "ops"
    ensures ObserveOne(Some(RowText(GshadowFields(user))), Gshadow, Developer(user), OPS).Ok?
  {
    var fields := GshadowFields(user);
    assert Plain("!") && Plain("");
    OneRow(fields);
    RowObserved(RowText(fields), Line(Join(fields, ':'), "\n"), Gshadow, Developer(user), OPS);
  }

  lemma DatabasesObserved(files: Databases, prior: Account, next: Account)
    requires ObserveOne(files.passwd, Passwd, prior, next).Ok? && ObserveOne(files.group, Group, prior, next).Ok?
    requires ObserveOne(files.shadow, Shadow, prior, next).Ok? && ObserveOne(files.gshadow, Gshadow, prior, next).Ok?
    ensures Observe(files, prior, next).Ok?
  {
  }

  lemma FilesObserved(user: string, count: nat)
    requires Spelled(user)
    ensures Observe(GuestWith(user, count).databases, Developer(user), OPS).Ok?
  {
    SpelledName(user);
    PasswdObserved(user);
    ShadowObserved(user);
    GroupObserved(user, count);
    GshadowObserved(user);
    DatabasesObserved(GuestWith(user, count).databases, Developer(user), OPS);
  }

  // ---------- the home ----------

  /** A normally spelled home is where it says, and is reached through shorter directories only. */
  lemma HomeSpelled(user: string)
    requires Spelled(user)
    ensures Place("/home/" + user) == ["home"] + Split(user, '/')
    ensures forall d :: d in OnTheWay("/home/" + user) ==> |d| <= |Split(user, '/')| && d <= ["home"] + Split(user, '/')
  {
    var parts := Split(user, '/');
    var all := ["home"] + parts;
    FilterAll(parts, (part: string) => part != "" && part != ".");
    HomeComponents(user);
    assert forall x :: x in all ==> x == "home" || x in parts;
    WalkDown([], all);
    assert [] + all == all;
    forall i | 0 <= i < |all|
      ensures Walk([], all[..i]) == all[..i]
    {
      assert forall x :: x in all[..i] ==> x in all;
      WalkDown([], all[..i]);
      assert [] + all[..i] == all[..i];
    }
  }

  /** Neither the home itself nor the new one is on the way to the old one. */
  lemma WayIsFree(user: string)
    requires Spelled(user)
    ensures Place("/home/" + user) !in OnTheWay("/home/" + user) && ["home", "ops"] !in OnTheWay("/home/" + user)
  {
    HomeSpelled(user);
    var place, into := Place("/home/" + user), ["home", "ops"];
    assert place[1] == Split(user, '/')[0] != into[1];
    assert !(into <= place);
  }

  lemma OpsHome()
    ensures Place(OPS.home) == ["home", "ops"] && forall d :: d in OnTheWay(OPS.home) ==> |d| < 2
  {
    assert "/home/" + "ops" == OPS.home;
    HomeOfName("ops");
    WayOfName("ops");
  }

  lemma HomeAlone(place: Directory)
    requires |place| >= 2 && place[1] != "ops"
    ensures !Exists(map[place := 1], ["home", "ops"])
  {
    assert !(["home", "ops"] <= place);
  }

  lemma HomeIsFree(user: string)
    requires Spelled(user)
    ensures HomesFree(map[Place("/home/" + user) := 1], Developer(user), OPS)
  {
    HomeSpelled(user);
    WayIsFree(user);
    OpsHome();
    HomeAlone(Place("/home/" + user));
  }

  // ---------- the assessment ----------

  lemma Sole<T>(x: T, keep: T -> bool)
    ensures Filter([x], keep) == if keep(x) then [x] else []
  {
    assert [x][1..] == [];
    assert Filter<T>([], keep) == [];
  }

  lemma AccountPlanned(user: string)
    requires user != "ops"
    ensures PlannedAccount([Developer(user)], user, "ops", 7) == Ok(Developer(user))
  {
    Sole(Developer(user), (a: Account) => a.user == user);
    Sole(Developer(user), (a: Account) => a.uid == 7);
  }

  lemma GroupPlannedFor(user: string, count: nat)
    requires user != "ops"
    ensures PlannedGroup([Primary(user, count)], [Developer(user)], Developer(user), "ops") == Ok(Primary(user, count))
  {
    Sole(Primary(user, count), (g: GroupRow) => g.gid == Developer(user).gid);
  }

  lemma NoRanges(user: string)
    ensures Subids.Observe(Subids.Subordinate(None, None), user, "ops", 7).Ok?
  {
  }

  /** The files name one developer with a private primary group. */
  predicate Assessable(files: Databases, group: GroupRow, prior: Account, next: Account) {
    && ReadAccounts(files.passwd) == Ok([prior]) && ReadGroups(files.group) == Ok([group])
    && PlannedAccount([prior], prior.user, next.user, prior.uid) == Ok(prior)
    && PlannedGroup([group], [prior], prior, next.user) == Ok(group)
  }

  lemma CoreObservable(prior: Account, next: Account)
    ensures ReceiptsObservable(CoreSkills(prior.home), prior, next, [])
  {
    assert Receipts.CORE != Receipts.INVENTORY by {
      assert |Receipts.CORE| < |Receipts.INVENTORY|;
    }
  }

  /** The assessment of an otherwise empty guest, one observation at a time. */
  lemma Assessed(v: View, host: Host, group: GroupRow, prior: Account, next: Account) returns (plan: Plan)
    requires Assessable(v.databases, group, prior, next) && LoginsPlanned(prior, next)
             && HomesFree(v.homes, prior, next)
    requires Observe(v.databases, prior, next).Ok?
             && Subids.Observe(v.subordinate, prior.user, next.user, prior.uid).Ok?
    requires v.grants == map[] && v.receipts == CoreSkills(prior.home) && v.lingering == {} && host.mounts == {}
    ensures PreparedMatches(v, host, plan) && plan.prior == prior && plan.next == next && plan.group == group
  {
    CoreObservable(prior, next);
    plan := Prepare(v, host, prior.user, next.user, prior.uid, []).value;
  }

  lemma FilesAssessable(user: string, count: nat)
    requires Spelled(user)
    ensures Assessable(GuestWith(user, count).databases, Primary(user, count), Developer(user), OPS)
  {
    SpelledName(user);
    PasswdReads(user);
    GroupReads(user, count);
    AccountPlanned(user);
    GroupPlannedFor(user, count);
  }

  lemma LoginsPlannable(user: string)
    requires user != "ops"
    ensures LoginsPlanned(Developer(user), OPS)
  {
    assert "/home/" + "ops" == "/home/ops";
  }

  lemma Planned(user: string, count: nat) returns (plan: Plan)
    requires Spelled(user)
    ensures PreparedMatches(GuestWith(user, count), HOST, plan)
    ensures plan.prior == Developer(user) && plan.next == OPS && plan.group == Primary(user, count)
  {
    SpelledName(user);
    FilesAssessable(user, count);
    FilesObserved(user, count);
    NoRanges(user);
    LoginsPlannable(user);
    HomeIsFree(user);
    plan := Assessed(GuestWith(user, count), HOST, Primary(user, count), Developer(user), OPS);
  }

  /**
   For every such login and count there is a guest that the assessment accepts: a rename
   that can be planned and is pending, and that can be completed exactly when the login
   has no slash and the primary group lists it at most once.
   */
  lemma Plannable(user: string, count: nat) returns (plan: Plan)
    requires Spelled(user)
    ensures PreparedMatches(GuestWith(user, count), HOST, plan)
    ensures Pending(GuestWith(user, count), plan, GuestWith(user, count))
    ensures plan.prior == Developer(user) && plan.next == OPS && |plan.group.members| == count
    ensures Completable(plan) <==> count <= 1 && Free(user, '/')
  {
    plan := Planned(user, count);
    PreparedIsPending(GuestWith(user, count), HOST, plan);
    ParentOfNormal(user);
    AdjacentIff(plan);
  }

  lemma DevSpelled()
    ensures Spelled("dev")
  {
    SplitOfFree("dev", '/');
  }

  lemma SlashSpelled()
    ensures Spelled("a/b") && !Free("a/b", '/')
  {
    assert "a/b" == "a" + ['/'] + "b";
    SplitFirst("a", "b", '/');
    SplitOfFree("b", '/');
    assert "a/b"[1] == '/';
  }

  /** Both conditions fail on their own: a group that lists dev twice, and the login a/b. */
  lemma Failing() returns (twice: Plan, nested: Plan)
    ensures PreparedMatches(GuestWith("dev", 2), HOST, twice) && !Completable(twice)
    ensures PreparedMatches(GuestWith("a/b", 0), HOST, nested) && !Completable(nested)
  {
    DevSpelled();
    SlashSpelled();
    twice := Plannable("dev", 2);
    nested := Plannable("a/b", 0);
  }

  /**
   A completable rename can be kept from completing too: a process that was killed while it
   held the passwd lock keeps every other one out as long as some live process has its id.
   */
  method StaleLock() returns (d: Locks.Directory)
    ensures fresh(d) && d.Valid() && Locks.WellFormed(d.names, d.inodes) && d.live == {7, 8} && !d.contended
    ensures forall files :: Locks.DatabaseFile(Passwd) in files ==> !d.Lockable(files, 8)
  {
    var wick := new Interruption.Wick();
    d := new Locks.Directory(wick);
    d.live := {7};
    var r, inode := Locks.Acquire(d, Locks.DatabaseFile(Passwd), 7);
    assert Locks.WrittenBy(d.names, d.inodes, Locks.DatabaseFile(Passwd), 7);
    d.live := {};  // killed before it gave the lock back
    d.live := {7, 8};
  }
}
