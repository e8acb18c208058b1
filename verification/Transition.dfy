/**
 The account mutation: quiesce, retire the old grant, move the home, rename the
 login and the group, relabel the ranges and install the new grant, publishing a
 phase of the journal after each part.
 */
module Transition {
  import opened Text
  import opened Accounts
  import opened Paths
  import opened Plans
  import opened Protocol
  import opened Guests
  import opened Interruption
  import Locks
  import Subids
  import Receipts

  // ---------- one part at a time keeps the protocol invariant ----------

  lemma DatabaseStep(v: View, plan: Plan, origin: View, now: Databases)
    requires v.journal.Some? && v.journal.value.phase !in {Prepared, Quiesced}
    requires Consistent(v, plan, origin) && v.homes == MovedHomes(origin.homes, plan)
    requires DatabasesKnown(now, plan.accounts) && Advanced(v.databases, now, plan.accounts)
    ensures Consistent(v.(databases := now), plan, origin)
  {
    assert Final(v.databases, plan.accounts) ==> Final(now, plan.accounts);
    assert LoggedIn(v.databases, plan.accounts) ==> LoggedIn(now, plan.accounts);
  }

  lemma RangeStep(v: View, plan: Plan, origin: View, now: Subids.Subordinate)
    requires v.journal.Some? && Consistent(v, plan, origin) && Final(v.databases, plan.accounts)
    requires PartlyRebound(v.subordinate, now, plan.subids)
    ensures Consistent(v.(subordinate := now), plan, origin)
  {
    forall gid
      ensures plan.subids.Get(gid).Knows(now.Get(gid))
      ensures v.subordinate.Get(gid) == plan.subids.Get(gid).after ==> now.Get(gid) == plan.subids.Get(gid).after
    {
      assert plan.subids.Get(gid).Knows(v.subordinate.Get(gid));
      assert now.Get(gid) == v.subordinate.Get(gid) || now.Get(gid) == plan.subids.Get(gid).after;
    }
    assert Rebound(v.subordinate, plan.subids) ==> Rebound(now, plan.subids);
  }

  lemma ReceiptStep(v: View, plan: Plan, origin: View, now: map<string, Receipts.Document>, commit: bool)
    requires v.journal.Some? && Consistent(v, plan, origin) && AccountDone(v, plan, origin)
    requires PartlyProjected(v.receipts, now, plan.receipts, commit)
    ensures Consistent(v.(receipts := now), plan, origin)
  {
    assert Committed(v.receipts, plan.receipts) ==> Committed(now, plan.receipts);
  }

  /** A recovery or a tool only moves databases forward. */
  lemma RecoveryAdvances(was: Databases, now: Databases, recipes: Recipes, final: bool)
    requires DatabasesKnown(was, recipes) && PartlyRecovered(was, now, recipes, final)
    ensures DatabasesKnown(now, recipes) && Advanced(was, now, recipes)
    ensures LoggedIn(was, recipes) ==> LoggedIn(now, recipes)
    ensures FullyRecovered(was, now, recipes, final) ==> LoggedIn(now, recipes)
    ensures FullyRecovered(was, now, recipes, final) && final ==> Final(now, recipes)
  {
  }

  lemma ToolAdvances(was: Databases, now: Databases, recipes: Recipes, group: bool, prior: Account, next: Account)
    requires DatabasesKnown(was, recipes) && AllCaptured(recipes, prior, next)
    requires forall db :: now.Get(db) == was.Get(db) || now.Get(db) == ToolStep(recipes.Get(db), was.Get(db), group)
    ensures DatabasesKnown(now, recipes) && Advanced(was, now, recipes)
    ensures LoggedIn(was, recipes) ==> LoggedIn(now, recipes)
  {
    forall db
      ensures recipes.Get(db).Knows(now.Get(db))
      ensures was.Get(db) == recipes.Get(db).final ==> now.Get(db) == was.Get(db)
      ensures recipes.Get(db).LoggedIn(was.Get(db)) ==> recipes.Get(db).LoggedIn(now.Get(db))
    {
      assert recipes.Get(db).Knows(was.Get(db));
      RecipeCloses(recipes.Get(db), db, prior, next);
    }
  }

  // ---------- the stages of the account mutation ----------

  method ReleaseLinger(g: Guest, plan: Plan, host: Host) returns (r: Outcome)
    modifies g`lingering, g.wick
    ensures g.lingering == old(g.lingering) || g.lingering == old(g.lingering) - {plan.prior.user}
    ensures r == Done && plan.linger ==> plan.prior.user !in g.lingering
    ensures g.lingering != old(g.lingering) ==> plan.linger && !host.services
    ensures r == Refusal <==>
              && plan.linger && r != Killed
              && (|| host.services || host.manager.Fails?
                  || (plan.prior.user in old(g.lingering) && host.manager.Ignores?))
    ensures old(g.wick.fuse).Never? ==> g.wick.fuse.Never? && r != Killed
  {
    if !plan.linger {
      return Done;
    }
    if host.services || host.manager.Fails? {
      return Refusal;
    }
    if plan.prior.user in g.lingering {
      var alive := g.wick.Survive();
      if !alive {
        return Killed;
      }
      if host.manager.Obeys? {
        g.lingering := g.lingering - {plan.prior.user};
      }
    }
    return if plan.prior.user in g.lingering then Refusal else Done;
  }

  /** What stands in the way of moving the home, or of finding it moved. */
  predicate HomeStuck(homes: map<Directory, nat>, plan: Plan, host: Host) {
    || plan.prior.home in host.mounts || plan.next.home in host.mounts
    || (plan.from in homes) == (plan.into in homes)
    || homes[if plan.from in homes then plan.from else plan.into] != plan.home
    || (plan.from in homes && !Adjacent(plan))
  }

  /** Move the home by one no-replace rename within its parent, or find it already moved. */
  method MoveHome(g: Guest, plan: Plan, host: Host) returns (r: Outcome)
    modifies g`homes, g.wick
    ensures g.homes == old(g.homes)
            || (plan.from in old(g.homes) && Adjacent(plan) && g.homes == MovedHomes(old(g.homes), plan))
    ensures r == Done ==> plan.from !in g.homes && plan.into in g.homes && g.homes[plan.into] == plan.home
    ensures r == Refusal <==> old(HomeStuck(g.homes, plan, host))
    ensures old(g.wick.fuse).Never? ==> g.wick.fuse.Never? && r != Killed
  {
    if plan.prior.home in host.mounts || plan.next.home in host.mounts {
      return Refusal;
    }
    if plan.from in g.homes {
      if plan.into in g.homes || g.homes[plan.from] != plan.home {
        return Refusal;
      }
      if Parent(plan.prior.home) != plan.parent || Parent(plan.next.home) != plan.parent {
        return Refusal;
      }
      var alive := g.wick.Survive();
      if !alive {
        return Killed;
      }
      g.homes := (g.homes - {plan.from})[plan.into := plan.home];
    }
    if plan.into !in g.homes || g.homes[plan.into] != plan.home || plan.from in g.homes {
      return Refusal;
    }
    return Done;
  }

  /** The old record is still in passwd and the new login is not. */
  predicate UsermodDue(accounts: seq<Account>, prior: Account, next: Account) {
    prior in accounts && !exists i :: 0 <= i < |accounts| && accounts[i].user == next.user
  }

  /** What the one account that claims the developer says about the whole list. */
  lemma SoleClaim(accounts: seq<Account>, prior: Account, next: Account, sole: Account)
    requires Filter(accounts, (a: Account) => Claims(a, prior, next)) == [sole] && (sole == prior || sole == next)
    requires prior.user != next.user
    ensures prior in accounts <==> sole == prior
    ensures next in accounts <==> sole == next
    ensures (exists i :: 0 <= i < |accounts| && accounts[i].user == prior.user) <==> sole == prior
    ensures UsermodDue(accounts, prior, next) <==> sole == prior
  {
    var claims := (a: Account) => Claims(a, prior, next);
    FilterMembers(accounts, claims);
    assert sole in Filter(accounts, claims);
    forall i | 0 <= i < |accounts| && accounts[i].user == prior.user
      ensures accounts[i] == sole
    {
      assert accounts[i] in accounts && claims(accounts[i]);
    }
    forall i | 0 <= i < |accounts| && accounts[i].user == next.user
      ensures accounts[i] == sole
    {
      assert accounts[i] in accounts && claims(accounts[i]);
    }
    assert claims(prior) && claims(next);
  }

  /** The passwd rows at each recognised content. */
  lemma LoginVisible(plan: Plan, files: Databases)
    requires WellPlanned(plan) && DatabasesKnown(files, plan.accounts)
    ensures ReadAccounts(files.passwd).Ok?
    ensures plan.prior in ReadAccounts(files.passwd).value <==> files.passwd == plan.accounts.passwd.before
    ensures plan.next in ReadAccounts(files.passwd).value <==> files.passwd != plan.accounts.passwd.before
    ensures (exists i :: 0 <= i < |ReadAccounts(files.passwd).value|
                         && ReadAccounts(files.passwd).value[i].user == plan.prior.user)
            <==> files.passwd == plan.accounts.passwd.before
    ensures files.passwd != plan.accounts.passwd.before <==> plan.accounts.passwd.LoggedIn(files.passwd)
    ensures UsermodDue(ReadAccounts(files.passwd).value, plan.prior, plan.next) <==>
              files.passwd == plan.accounts.passwd.before
  {
    assert plan.accounts.Get(Passwd).Knows(files.Get(Passwd));
    AccountStage(plan.accounts, plan.prior, plan.next, files.passwd);
    SoleClaim(ReadAccounts(files.passwd).value, plan.prior, plan.next, Owner(files.passwd, plan.prior, plan.next)[0]);
  }

  /** The databases of a well-planned rename can be recovered. */
  lemma PlanCaptured(plan: Plan)
    requires WellPlanned(plan)
    ensures AllCaptured(plan.accounts, plan.prior, plan.next)
  {
    LoginsDistinct(plan.prior, plan.next);
  }

  /** Some database has already left its captured content. */
  method Changed(g: Guest, recipes: Recipes) returns (changed: bool)
    ensures changed <==> !Unchanged(g.databases, recipes)
  {
    for k := 0 to |DATABASES|
      invariant forall i :: 0 <= i < k ==> g.databases.Get(DATABASES[i]) == recipes.Get(DATABASES[i]).before
    {
      if g.databases.Get(DATABASES[k]) != recipes.Get(DATABASES[k]).before {
        return true;
      }
    }
    forall db
      ensures g.databases.Get(db) == recipes.Get(db).before
    {
      EveryDatabase(db);
    }
    return false;
  }

  /** No database has left its captured content. */
  predicate Unchanged(files: Databases, recipes: Recipes) {
    forall db :: files.Get(db) == recipes.Get(db).before
  }

  lemma LoginGone(plan: Plan, files: Databases)
    requires WellPlanned(plan) && DatabasesKnown(files, plan.accounts) && LoggedIn(files, plan.accounts)
    ensures files.passwd != plan.accounts.passwd.before
  {
    LoginVisible(plan, files);
    assert plan.accounts.Get(Passwd).LoggedIn(files.Get(Passwd));
  }

  /** Finish a partial rename, if there is one. */
  method FinishPartial(g: Guest, plan: Plan, pid: nat) returns (r: Outcome)
    requires g.etc.Valid() && pid in g.etc.live
    modifies g`databases, g.etc`names, g.etc`inodes, g.etc`next, g.etc`owners, g.wick
    ensures WellPlanned(plan) && DatabasesKnown(old(g.databases), plan.accounts) ==>
              && DatabasesKnown(g.databases, plan.accounts) && Advanced(old(g.databases), g.databases, plan.accounts)
              && (r == Refusal ==> !old(LocksReady(g.etc, Locks.Files(DATABASE_FILES), pid)))
              && (r == Done && !Unchanged(old(g.databases), plan.accounts) ==>
                    g.databases.passwd != plan.accounts.passwd.before)
    ensures Unchanged(old(g.databases), plan.accounts) ==> r == Done && g.databases == old(g.databases)
    ensures !DatabasesKnown(old(g.databases), plan.accounts) ==> r == Refusal && g.databases == old(g.databases)
    ensures LocksUsed(g.etc, {}, pid, {pid}, r)
    ensures old(g.wick.fuse).Never? ==> g.wick.fuse.Never? && r != Killed
  {
    ghost var good := WellPlanned(plan) && DatabasesKnown(g.databases, plan.accounts);
    var valid := Validate(g, plan.accounts);
    if !valid {
      return Refusal;
    }
    var changed := Changed(g, plan.accounts);
    if !changed {
      return Done;
    }
    if good {
      PlanCaptured(plan);
    }
    r := Recover(g, plan.accounts, plan.prior, plan.next, false, pid);
    if good {
      RecoveryAdvances(old(g.databases), g.databases, plan.accounts, false);
      if r == Done {
        LoginGone(plan, g.databases);
      }
    }
  }

  /** Finish any partial rename, then run usermod if passwd is still untouched. */
  method StartLogin(g: Guest, plan: Plan, tool: Tool, pid: nat) returns (r: Outcome)
    requires g.etc.Valid() && pid in g.etc.live
    modifies g`databases, g.etc`names, g.etc`inodes, g.etc`next, g.etc`owners, g.wick
    ensures WellPlanned(plan) && DatabasesKnown(old(g.databases), plan.accounts) ==>
              && DatabasesKnown(g.databases, plan.accounts) && Advanced(old(g.databases), g.databases, plan.accounts)
              && (r == Refusal ==>
                    || (!tool.succeeds && Unchanged(old(g.databases), plan.accounts))
                    || !old(LocksReady(g.etc, Locks.Files(DATABASE_FILES), pid)))
              && (r == Done ==> tool.succeeds || !Unchanged(old(g.databases), plan.accounts))
    ensures !DatabasesKnown(old(g.databases), plan.accounts) ==> r == Refusal && g.databases == old(g.databases)
    ensures LocksUsed(g.etc, {}, pid, {pid, tool.pid}, r)
    ensures old(g.wick.fuse).Never? ==> g.wick.fuse.Never? && r != Killed
  {
    ghost var was := g.databases;
    r := FinishPartial(g, plan, pid);
    if r != Done {
      return;
    }
    ghost var mid := g.databases;
    assert Unchanged(was, plan.accounts) ==> mid.Get(Passwd) == plan.accounts.Get(Passwd).before;
    r := RunUsermod(g, plan, tool, pid);
    if Advanced(was, mid, plan.accounts) && Advanced(mid, g.databases, plan.accounts) {
      AdvancedFurther(was, mid, g.databases, plan.accounts);
    }
  }

  /** Run usermod if the old record is still in passwd and the new one is not. */
  method RunUsermod(g: Guest, plan: Plan, tool: Tool, ghost pid: nat) returns (r: Outcome)
    requires g.etc.Valid()
    modifies g`databases, g.etc`names, g.etc`inodes, g.etc`next, g.etc`owners, g.wick
    ensures WellPlanned(plan) && DatabasesKnown(old(g.databases), plan.accounts) ==>
              && DatabasesKnown(g.databases, plan.accounts) && Advanced(old(g.databases), g.databases, plan.accounts)
              && (r == Refusal ==> !tool.succeeds && old(g.databases).passwd == plan.accounts.passwd.before)
              && (r == Done ==> tool.succeeds || old(g.databases).passwd != plan.accounts.passwd.before)
              && (old(g.databases).passwd != plan.accounts.passwd.before ==> g.databases == old(g.databases))
    ensures LocksUsed(g.etc, {}, pid, {tool.pid}, r)
    ensures old(g.wick.fuse).Never? ==> g.wick.fuse.Never? && r != Killed
  {
    ghost var good := WellPlanned(plan) && DatabasesKnown(g.databases, plan.accounts);
    if good {
      PlanCaptured(plan);
      LoginVisible(plan, g.databases);
    }
    var accounts := ReadAccounts(g.databases.passwd);
    if accounts.Refused? {
      return Refusal;
    }
    if UsermodDue(accounts.value, plan.prior, plan.next) {
      r := RunTool(g, plan.accounts, false, tool);
      if good {
        ToolAdvances(old(g.databases), g.databases, plan.accounts, false, plan.prior, plan.next);
      }
      return;
    }
    return Done;
  }

  /** Finish any partial rename, run usermod on untouched databases, and finish what it left. */
  method RenameLogin(g: Guest, plan: Plan, tool: Tool, pid: nat) returns (r: Outcome)
    requires g.etc.Valid() && pid in g.etc.live
    modifies g`databases, g.etc`names, g.etc`inodes, g.etc`next, g.etc`owners, g.wick
    ensures WellPlanned(plan) && DatabasesKnown(old(g.databases), plan.accounts) ==>
              && DatabasesKnown(g.databases, plan.accounts) && Advanced(old(g.databases), g.databases, plan.accounts)
              && (r == Done ==> LoggedIn(g.databases, plan.accounts))
              && (r == Refusal ==>
                    || (!tool.succeeds && Unchanged(old(g.databases), plan.accounts))
                    || !old(LocksReady(g.etc, Locks.Files(DATABASE_FILES), pid)))
              && (r == Done ==> tool.succeeds || !Unchanged(old(g.databases), plan.accounts))
    ensures !DatabasesKnown(old(g.databases), plan.accounts) ==> r == Refusal && g.databases == old(g.databases)
    ensures LocksUsed(g.etc, Locks.Files(DATABASE_FILES), pid, {pid, tool.pid}, r)
    ensures old(g.wick.fuse).Never? ==> g.wick.fuse.Never? && r != Killed
  {
    ghost var good := WellPlanned(plan) && DatabasesKnown(g.databases, plan.accounts);
    r := StartLogin(g, plan, tool, pid);
    if r != Done {
      return;
    }
    if good {
      PlanCaptured(plan);
    }
    ghost var started := g.databases;
    r := Recover(g, plan.accounts, plan.prior, plan.next, false, pid);
    if good {
      RecoveryAdvances(started, g.databases, plan.accounts, false);
    }
    if r != Done {
      return;
    }
    if good {
      LoginVisible(plan, g.databases);
      assert plan.accounts.Get(Passwd).LoggedIn(g.databases.Get(Passwd));
    }
    var accounts := ReadAccounts(g.databases.passwd);
    if accounts.Refused? || plan.next !in accounts.value
       || exists i :: 0 <= i < |accounts.value| && accounts.value[i].user == plan.prior.user
    {
      return Refusal;
    }
    return Done;
  }

  /** The group rows once every database is logged in. */
  lemma GroupVisible(plan: Plan, files: Databases)
    requires WellPlanned(plan) && Final(files, plan.accounts)
    ensures ReadGroups(files.group).Ok?
    ensures SubstitutedGroup(plan.group, plan.prior, plan.next, true) in ReadGroups(files.group).value <==>
              |plan.group.members| <= 1
  {
    assert files.Get(Group) == plan.accounts.Get(Group).final;
    GroupStage(plan.accounts.group, plan.group, plan.prior, plan.next);
    MemberListsAgree(plan.group, plan.prior, plan.next, true);
    var claims := (row: GroupRow) => ClaimsGroup(row, plan.prior, plan.next);
    FilterMembers(ReadGroups(files.group).value, claims);
    var expected := SubstitutedGroup(plan.group, plan.prior, plan.next, true);
    var owner := OwnerGroup(files.group, plan.prior, plan.next);
    assert claims(expected) && owner[0] in owner;
  }

  /** The group still has its old name, with the login renamed in it, and no group has the new name. */
  predicate GroupmodDue(groups: seq<GroupRow>, plan: Plan) {
    && SubstitutedGroup(plan.group, plan.prior, plan.next, false) in groups
    && !exists i :: 0 <= i < |groups| && groups[i].name == plan.next.user
  }

  /** What the one group that claims the developer says about the whole list. */
  lemma SoleGroupClaim(groups: seq<GroupRow>, plan: Plan, final: bool)
    requires Filter(groups, (g: GroupRow) => ClaimsGroup(g, plan.prior, plan.next)) ==
               [ProjectedGroup(plan.group, plan.prior, plan.next, final)]
    requires plan.prior.user != plan.next.user && plan.group.name == plan.prior.user
    requires plan.group.gid == plan.prior.gid
    requires forall i :: 0 <= i < |plan.group.members| ==> plan.group.members[i] == plan.prior.user
    ensures GroupmodDue(groups, plan) <==> !final && |plan.group.members| <= 1
  {
    var claims := (g: GroupRow) => ClaimsGroup(g, plan.prior, plan.next);
    var sole := ProjectedGroup(plan.group, plan.prior, plan.next, final);
    FilterMembers(groups, claims);
    assert sole in Filter(groups, claims);
    forall row | row in groups && claims(row)
      ensures row == sole
    {
      assert row in Filter(groups, claims);
    }
    forall i | 0 <= i < |groups| && groups[i].name == plan.next.user
      ensures groups[i] == sole
    {
      assert groups[i] in groups && claims(groups[i]);
    }
    assert claims(SubstitutedGroup(plan.group, plan.prior, plan.next, false));
    MemberListsAgree(plan.group, plan.prior, plan.next, false);
  }

  /** Whether groupmod is due, by the content of the group file. */
  lemma GroupmodVisible(plan: Plan, files: Databases)
    requires WellPlanned(plan) && LoggedIn(files, plan.accounts)
    ensures ReadGroups(files.group).Ok?
    ensures GroupmodDue(ReadGroups(files.group).value, plan) <==>
              files.group != plan.accounts.group.final && |plan.group.members| <= 1
  {
    assert plan.accounts.Get(Group).LoggedIn(files.Get(Group));
    GroupStage(plan.accounts.group, plan.group, plan.prior, plan.next);
    SoleGroupClaim(ReadGroups(files.group).value, plan, files.group == plan.accounts.group.final);
  }

  /** Run groupmod while the group still has its old name, and finish what it left. */
  method RenameGroup(g: Guest, plan: Plan, tool: Tool, pid: nat) returns (r: Outcome)
    requires g.etc.Valid() && pid in g.etc.live
    modifies g`databases, g.etc`names, g.etc`inodes, g.etc`next, g.etc`owners, g.wick
    ensures WellPlanned(plan) && LoggedIn(old(g.databases), plan.accounts) ==>
              && LoggedIn(g.databases, plan.accounts) && Advanced(old(g.databases), g.databases, plan.accounts)
              && (r == Done ==> Final(g.databases, plan.accounts) && |plan.group.members| <= 1)
              && (r == Done ==> tool.succeeds || old(g.databases).group == plan.accounts.group.final)
              && (r == Refusal ==>
                    || (!tool.succeeds && old(g.databases).group != plan.accounts.group.final)
                    || |plan.group.members| > 1
                    || !old(LocksReady(g.etc, Locks.Files(DATABASE_FILES), pid)))
    ensures LocksUsed(g.etc, Locks.Files(DATABASE_FILES), pid, {pid, tool.pid}, r)
    ensures old(g.wick.fuse).Never? ==> g.wick.fuse.Never? && r != Killed
  {
    ghost var good := WellPlanned(plan) && LoggedIn(g.databases, plan.accounts);
    if good {
      PlanCaptured(plan);
      LoggedInKnown(g.databases, plan.accounts);
      GroupmodVisible(plan, g.databases);
    }
    var groups := ReadGroups(g.databases.group);
    if groups.Refused? {
      return Refusal;
    }
    if GroupmodDue(groups.value, plan) {
      r := RunTool(g, plan.accounts, true, tool);
      if good {
        ToolAdvances(old(g.databases), g.databases, plan.accounts, true, plan.prior, plan.next);
      }
      if r != Done {
        return;
      }
    }
    ghost var started := g.databases;
    r := Recover(g, plan.accounts, plan.prior, plan.next, true, pid);
    if good {
      RecoveryAdvances(started, g.databases, plan.accounts, true);
    }
    if r != Done {
      return;
    }
    if good {
      GroupVisible(plan, g.databases);
    }
    groups := ReadGroups(g.databases.group);
    if groups.Refused? || SubstitutedGroup(plan.group, plan.prior, plan.next, true) !in groups.value {
      return Refusal;
    }
    return Done;
  }

  // ---------- the account mutation ----------

  const ACCOUNT_PHASES: set<Phase> := {Prepared, Quiesced, HomeMoved, AccountRenamed, AccountReady}

  /** The guest lets the mutation run: same machine, nothing running, nothing mounted, nobody at the databases. */
  predicate Quiet(host: Host, plan: Plan) {
    && host.machine == plan.machine && !host.processes && !(plan.linger && host.services) && host.manager.Obeys?
    && plan.prior.home !in host.mounts && plan.next.home !in host.mounts && !host.contended
  }

  /** The journal admits the mutation and the listener is fenced. */
  predicate Admitted(v: View, plan: Plan) {
    && v.journal.Some? && v.journal.value.plan == plan && v.journal.value.phase in ACCOUNT_PHASES
    && !(plan.owners && v.journal.value.phase == Prepared)
    && v.listener == {}
  }

  /** The one state an uninterrupted mutation ends in. */
  function RenamedView(v: View, plan: Plan, origin: View): View {
    v.(databases := FinalDatabases(plan.accounts),
       subordinate := Subids.Subordinate(plan.subids.subuid.after, plan.subids.subgid.after),
       homes := MovedHomes(origin.homes, plan),
       grants := MovedGrants(origin.grants, plan),
       lingering := v.lingering - {plan.prior.user},
       journal := Some(Journal(plan, AccountReady)))
  }

  /** A recognised set of grants never draws a refusal. */
  lemma GrantsReadable(v: View, plan: Plan, origin: View)
    requires Consistent(v, plan, origin)
    ensures SudoGrant(v.grants, plan.prior.user).Ok? && SudoGrant(v.grants, plan.next.user).Ok?
    ensures !plan.sudo ==> plan.prior.user !in v.grants && plan.next.user !in v.grants
  {
    GrantCases(v.grants, plan, origin.grants);
  }

  lemma GrantCases(grants: map<string, string>, plan: Plan, origin: map<string, string>)
    requires plan.prior.user != plan.next.user && plan.next.user !in origin && plan.sudo == (plan.prior.user in origin)
    requires plan.sudo ==> origin[plan.prior.user] == GrantText(plan.prior.user)
    requires grants == origin || grants == RetiredGrants(origin, plan) || grants == MovedGrants(origin, plan)
    ensures plan.prior.user in grants ==>
              plan.sudo && grants[plan.prior.user] == GrantText(plan.prior.user) && grants == origin
    ensures plan.next.user in grants ==>
              plan.sudo && grants[plan.next.user] == GrantText(plan.next.user) && grants == MovedGrants(origin, plan)
    ensures plan.prior.user in grants ==> RetiredGrants(grants, plan) == RetiredGrants(origin, plan)
    ensures plan.prior.user !in grants && plan.next.user !in grants ==> grants == RetiredGrants(origin, plan)
    ensures plan.prior.user !in grants && plan.next.user !in grants && plan.sudo ==>
              grants[plan.next.user := GrantText(plan.next.user)] == MovedGrants(origin, plan)
    ensures plan.prior.user !in grants && (plan.sudo ==> plan.next.user in grants) ==>
              grants == MovedGrants(origin, plan)
    ensures plan.prior.user !in MovedGrants(origin, plan)
  {
    if plan.prior.user !in grants {
      assert plan.prior.user !in origin ==> RetiredGrants(origin, plan) == origin;
    }
  }

  lemma RetireStep(v: View, plan: Plan, origin: View)
    requires v.journal.Some? && Consistent(v, plan, origin)
    ensures Consistent(v.(grants := RetiredGrants(v.grants, plan)), plan, origin)
  {
    GrantCases(v.grants, plan, origin.grants);
    if plan.prior.user !in v.grants {
      assert RetiredGrants(v.grants, plan) == v.grants;
    }
  }

  lemma LingerStep(v: View, plan: Plan, origin: View)
    requires v.journal.Some? && Consistent(v, plan, origin)
    ensures Consistent(v.(lingering := v.lingering - {plan.prior.user}), plan, origin)
  {
    var without := v.lingering - {plan.prior.user};
    assert v.lingering == origin.lingering - {plan.prior.user} ==> without == v.lingering;
    assert v.lingering == origin.lingering - {plan.prior.user} + {plan.next.user} ==> without == v.lingering;
  }

  lemma HomeStep(v: View, plan: Plan, origin: View)
    requires v.journal.Some? && Consistent(v, plan, origin) && plan.from in v.homes && Adjacent(plan)
    requires plan.prior.user !in v.grants && plan.prior.user !in v.lingering
    ensures MovedHomes(v.homes, plan) == MovedHomes(origin.homes, plan)
    ensures Consistent(v.(homes := MovedHomes(v.homes, plan)), plan, origin)
  {
    HomeHasOneName(v, plan, origin);
    assert v.homes == origin.homes;
    assert v.databases == origin.databases && v.receipts == origin.receipts;
  }

  /** How the mutation may change the journal: to one of its own phases, never back to prepared. */
  predicate JournalMoved(was: Option<Journal>, now: Option<Journal>, plan: Plan) {
    || now == was
    || (was.None? && now == Some(Journal(plan, Prepared)))
    || (now.Some? && now.value.plan == plan && now.value.phase in {HomeMoved, AccountRenamed, AccountReady})
  }

  lemma PreparedStep(v: View, plan: Plan, origin: View)
    requires Consistent(v, plan, origin) && PlannedFrom(v, plan)
    ensures Consistent(v.(journal := Some(Journal(plan, Prepared))), plan, origin)
  {
    SameDatabases(v.databases, origin.databases, plan.accounts);
  }

  lemma SameDatabases(files: Databases, others: Databases, recipes: Recipes)
    requires Unchanged(files, recipes) && Unchanged(others, recipes)
    ensures files == others
  {
    assert files.Get(Passwd) == others.Get(Passwd) && files.Get(Shadow) == others.Get(Shadow);
    assert files.Get(Group) == others.Get(Group) && files.Get(Gshadow) == others.Get(Gshadow);
  }

  /** Publish a rename as prepared, if the guest still yields its plan. */
  method PublishPrepared(g: Guest, plan: Plan, host: Host, ghost origin: View) returns (r: Outcome)
    modifies g`journal, g.wick
    ensures old(Consistent(g.Now(), plan, origin)) ==> Consistent(g.Now(), plan, origin)
    ensures r == Done ==> g.journal == Some(Journal(plan, Prepared)) && old(PreparedMatches(g.Now(), host, plan))
    ensures r != Done ==> g.journal == old(g.journal)
    ensures old(PreparedMatches(g.Now(), host, plan)) ==> r != Refusal
    ensures old(g.wick.fuse).Never? ==> g.wick.fuse.Never? && r != Killed
  {
    if !PreparedMatches(g.Now(), host, plan) {
      return Refusal;
    }
    PreparedIsFrom(g.Now(), host, plan);
    if Consistent(g.Now(), plan, origin) {
      PreparedStep(g.Now(), plan, origin);
    }
    r := g.Publish(plan, Prepared);
  }

  /** The journal admits the mutation, or there is none and the guest still yields the plan. */
  predicate JournalAdmits(v: View, plan: Plan, host: Host) {
    && !(plan.owners && (v.journal.None? || v.journal.value.phase == Prepared))
    && (v.journal.Some? ==> v.journal.value.plan == plan && v.journal.value.phase in ACCOUNT_PHASES)
    && (v.journal.None? ==> PreparedMatches(v, host, plan))
  }

  /** What has to hold before anything of the account may change. */
  predicate MayMutate(v: View, plan: Plan, host: Host) {
    && host.machine == plan.machine && JournalAdmits(v, plan, host)
    && !(plan.linger && host.services) && !host.processes && v.listener == {}
  }

  /** Admission by the journal, published first if the rename is new. */
  method Admit(g: Guest, plan: Plan, host: Host, ghost origin: View) returns (r: Outcome)
    modifies g`journal, g.wick
    ensures old(Consistent(g.Now(), plan, origin)) ==> Consistent(g.Now(), plan, origin)
    ensures g.journal == old(g.journal) || (old(g.journal).None? && g.journal == Some(Journal(plan, Prepared)))
    ensures r == Done ==> g.journal.Some? && g.journal.value.plan == plan && g.journal.value.phase in ACCOUNT_PHASES
    ensures r != Killed ==> (r == Done <==> host.machine == plan.machine && old(JournalAdmits(g.Now(), plan, host)))
    ensures old(Admitted(g.Now(), plan)) && host.machine == plan.machine ==> r == Done
    ensures old(g.wick.fuse).Never? ==> g.wick.fuse.Never? && r != Killed
  {
    if plan.machine != host.machine {
      return Refusal;
    }
    if g.journal.Some? {
      if g.journal.value.phase !in ACCOUNT_PHASES || g.journal.value.plan != plan {
        return Refusal;
      }
    } else {
      r := PublishPrepared(g, plan, host, origin);
      if r != Done {
        return;
      }
    }
    if plan.owners && g.journal.value.phase == Prepared {
      return Refusal;
    }
    return Done;
  }

  /** Release of lingering, which only happens once the journal admits the rename. */
  method ReleaseStage(g: Guest, plan: Plan, host: Host, ghost origin: View) returns (r: Outcome)
    modifies g`lingering, g.wick
    ensures old(Consistent(g.Now(), plan, origin)) && g.journal.Some? ==>
              Consistent(g.Now(), plan, origin) && (r == Done ==> plan.prior.user !in g.lingering)
    ensures g.lingering == old(g.lingering) || g.lingering == old(g.lingering) - {plan.prior.user}
    ensures r == Refusal ==> plan.linger && (host.services || !host.manager.Obeys?)
    ensures r == Done || g.lingering != old(g.lingering) ==> !(plan.linger && host.services)
    ensures old(g.wick.fuse).Never? ==> g.wick.fuse.Never? && r != Killed
  {
    if Consistent(g.Now(), plan, origin) && g.journal.Some? {
      LingerStep(g.Now(), plan, origin);
    }
    r := ReleaseLinger(g, plan, host);
  }

  /** Admission, then release of lingering, in a guest whose processes and listener are gone. */
  method Quiesce(g: Guest, plan: Plan, host: Host, ghost origin: View) returns (r: Outcome)
    modifies g`journal, g`lingering, g.wick
    ensures old(Consistent(g.Now(), plan, origin)) ==>
              Consistent(g.Now(), plan, origin) && (r == Done ==> plan.prior.user !in g.lingering)
    ensures g.lingering == old(g.lingering) || g.lingering == old(g.lingering) - {plan.prior.user}
    ensures g.journal == old(g.journal) || (old(g.journal).None? && g.journal == Some(Journal(plan, Prepared)))
    ensures r == Done ==> g.journal.Some? && old(MayMutate(g.Now(), plan, host))
    ensures g.lingering != old(g.lingering) ==>
              old(JournalAdmits(g.Now(), plan, host)) && !(plan.linger && host.services)
    ensures old(Admitted(g.Now(), plan)) && Quiet(host, plan) ==> r != Refusal
    ensures old(g.wick.fuse).Never? ==> g.wick.fuse.Never? && r != Killed
  {
    r := Admit(g, plan, host, origin);
    if r != Done {
      return;
    }
    r := ReleaseStage(g, plan, host, origin);
    if r != Done {
      return;
    }
    if host.processes || g.listener != {} {
      return Refusal;
    }
  }

  method Retire(g: Guest, plan: Plan, ghost origin: View) returns (r: Outcome)
    modifies g`grants, g.wick
    ensures old(Consistent(g.Now(), plan, origin)) && g.journal.Some? ==>
              Consistent(g.Now(), plan, origin) && r != Refusal
    ensures r == Done ==> plan.prior.user !in g.grants
    ensures old(g.wick.fuse).Never? ==> g.wick.fuse.Never? && r != Killed
  {
    if Consistent(g.Now(), plan, origin) && g.journal.Some? {
      GrantsReadable(g.Now(), plan, origin);
      RetireStep(g.Now(), plan, origin);
    }
    r := RebindSudo(g, plan, true);
  }

  method Relocate(g: Guest, plan: Plan, host: Host, ghost origin: View) returns (r: Outcome)
    modifies g`homes, g.wick
    ensures (old(Consistent(g.Now(), plan, origin)) && g.journal.Some?
             && plan.prior.user !in g.grants && plan.prior.user !in g.lingering) ==>
              && Consistent(g.Now(), plan, origin)
              && (r == Done ==> g.homes == MovedHomes(origin.homes, plan) && Adjacent(plan))
              && (Quiet(host, plan) && Adjacent(plan) ==> r != Refusal)
    ensures old(g.wick.fuse).Never? ==> g.wick.fuse.Never? && r != Killed
  {
    ghost var good := Consistent(g.Now(), plan, origin) && g.journal.Some?
                      && plan.prior.user !in g.grants && plan.prior.user !in g.lingering;
    if good {
      HomeHasOneName(g.Now(), plan, origin);
      if plan.from in g.homes && Adjacent(plan) {
        HomeStep(g.Now(), plan, origin);
      }
    }
    r := MoveHome(g, plan, host);
    if good && r == Done {
      HomeHasOneName(g.Now(), plan, origin);
    }
  }

  method PublishPhase(g: Guest, plan: Plan, phase: Phase, ghost origin: View) returns (r: Outcome)
    modifies g`journal, g.wick
    ensures r == Done || r == Killed
    ensures r == Done ==> g.journal == Some(Journal(plan, phase))
    ensures r == Killed ==> g.journal == old(g.journal)
    ensures old(Consistent(g.Now(), plan, origin)) && g.homes == MovedHomes(origin.homes, plan)
            && phase in {HomeMoved, AccountRenamed, AccountReady}
            && (phase == AccountRenamed ==> LoggedIn(g.databases, plan.accounts))
            && (phase == AccountReady ==> old(AccountDone(g.Now(), plan, origin)) && |plan.group.members| <= 1)
            ==> Consistent(g.Now(), plan, origin)
    ensures old(g.wick.fuse).Never? ==> g.wick.fuse.Never? && r == Done
  {
    if Consistent(g.Now(), plan, origin) && g.homes == MovedHomes(origin.homes, plan)
       && phase in {HomeMoved, AccountRenamed, AccountReady}
       && (phase == AccountRenamed ==> LoggedIn(g.databases, plan.accounts))
       && (phase == AccountReady ==> AccountDone(g.Now(), plan, origin) && |plan.group.members| <= 1)
    {
      PublishStep(g.Now(), plan, origin, phase);
    }
    r := g.Publish(plan, phase);
  }

  lemma PublishStep(v: View, plan: Plan, origin: View, phase: Phase)
    requires Consistent(v, plan, origin) && v.homes == MovedHomes(origin.homes, plan)
    requires phase == AccountRenamed ==> LoggedIn(v.databases, plan.accounts)
    requires phase == AccountReady ==> AccountDone(v, plan, origin) && |plan.group.members| <= 1
    requires phase in {HomeMoved, AccountRenamed, AccountReady}
    ensures Consistent(v.(journal := Some(Journal(plan, phase))), plan, origin)
  {
    assert AccountDone(v, plan, origin) ==> LoggedIn(v.databases, plan.accounts);
  }

  /** Quiesce the guest, then retire the old grant. */
  method Unseat(g: Guest, plan: Plan, host: Host, ghost origin: View) returns (r: Outcome)
    modifies g`journal, g`lingering, g`grants, g.wick
    ensures old(Consistent(g.Now(), plan, origin)) ==>
              Consistent(g.Now(), plan, origin) && (r == Done ==> plan.prior.user !in g.lingering)
    ensures g.lingering == old(g.lingering) || g.lingering == old(g.lingering) - {plan.prior.user}
    ensures g.journal == old(g.journal) || (old(g.journal).None? && g.journal == Some(Journal(plan, Prepared)))
    ensures r == Done ==> g.journal.Some? && plan.prior.user !in g.grants
    ensures r == Done || g.grants != old(g.grants) ==> old(MayMutate(g.Now(), plan, host))
    ensures old(Consistent(g.Now(), plan, origin) && Admitted(g.Now(), plan)) && Quiet(host, plan) ==> r != Refusal
    ensures old(g.wick.fuse).Never? ==> g.wick.fuse.Never? && r != Killed
  {
    r := Quiesce(g, plan, host, origin);
    if r != Done {
      return;
    }
    r := Retire(g, plan, origin);
  }

  /** The first half of the mutation: quiesced, the old grant retired, the home moved, and that phase published. */
  method EnterMutation(g: Guest, plan: Plan, host: Host, ghost origin: View) returns (r: Outcome)
    modifies g`journal, g`lingering, g`grants, g`homes, g.wick
    ensures old(Consistent(g.Now(), plan, origin)) ==> Consistent(g.Now(), plan, origin)
    ensures g.lingering == old(g.lingering) || g.lingering == old(g.lingering) - {plan.prior.user}
    ensures old(Consistent(g.Now(), plan, origin)) && r == Done ==>
              && g.homes == MovedHomes(origin.homes, plan) && plan.prior.user !in g.grants
              && plan.prior.user !in g.lingering
              && g.journal == Some(Journal(plan, HomeMoved)) && Adjacent(plan)
    ensures r == Done ==> g.journal == Some(Journal(plan, HomeMoved))
    ensures r == Done || g.homes != old(g.homes) || g.grants != old(g.grants) ==>
              old(MayMutate(g.Now(), plan, host))
    ensures old(Consistent(g.Now(), plan, origin) && Admitted(g.Now(), plan)) && Quiet(host, plan) && Adjacent(plan) ==>
              r != Refusal
    ensures JournalMoved(old(g.journal), g.journal, plan)
    ensures old(g.wick.fuse).Never? ==> g.wick.fuse.Never? && r != Killed
  {
    r := Unseat(g, plan, host, origin);
    if r != Done {
      return;
    }
    r := Relocate(g, plan, host, origin);
    if r != Done {
      return;
    }
    r := PublishPhase(g, plan, HomeMoved, origin);
  }

  /** The home has moved, and the login may be renamed. */
  ghost predicate LoginDue(v: View, plan: Plan, origin: View) {
    && Pending(v, plan, origin) && v.homes == MovedHomes(origin.homes, plan)
    && v.journal.Some? && v.journal.value.phase !in {Prepared, Quiesced}
  }

  /** The login is renamed, and the group may be. */
  ghost predicate GroupDue(v: View, plan: Plan, origin: View) {
    LoginDue(v, plan, origin) && LoggedIn(v.databases, plan.accounts)
  }

  /** Rename the login in all four databases. */
  method LoginStage(g: Guest, plan: Plan, tool: Tool, pid: nat, ghost origin: View) returns (r: Outcome)
    requires g.etc.Valid() && pid in g.etc.live
    modifies g`databases, g.etc`names, g.etc`inodes, g.etc`next, g.etc`owners, g.wick
    ensures old(LoginDue(g.Now(), plan, origin)) ==>
              && Consistent(g.Now(), plan, origin) && Advanced(old(g.databases), g.databases, plan.accounts)
              && (r == Done ==> LoggedIn(g.databases, plan.accounts))
              && (tool.succeeds && old(LocksReady(g.etc, Locks.Files(DATABASE_FILES), pid)) ==> r != Refusal)
    ensures LocksUsed(g.etc, Locks.Files(DATABASE_FILES), pid, {pid, tool.pid}, r)
    ensures old(g.wick.fuse).Never? ==> g.wick.fuse.Never? && r != Killed
  {
    ghost var was := g.Now();
    ghost var good := LoginDue(was, plan, origin);
    r := RenameLogin(g, plan, tool, pid);
    if good {
      DatabaseStep(was, plan, origin, g.databases);
    }
  }

  method MutateLogin(g: Guest, plan: Plan, tool: Tool, pid: nat, ghost origin: View) returns (r: Outcome)
    requires g.etc.Valid() && pid in g.etc.live
    modifies g`databases, g`journal, g.etc`names, g.etc`inodes, g.etc`next, g.etc`owners, g.wick
    ensures old(LoginDue(g.Now(), plan, origin)) ==>
              && Consistent(g.Now(), plan, origin) && Advanced(old(g.databases), g.databases, plan.accounts)
              && (r == Done ==> GroupDue(g.Now(), plan, origin))
              && (tool.succeeds && old(LocksReady(g.etc, Locks.Files(DATABASE_FILES), pid)) ==> r != Refusal)
    ensures LocksUsed(g.etc, Locks.Files(DATABASE_FILES), pid, {pid, tool.pid}, r)
    ensures r == Done ==> g.journal == Some(Journal(plan, AccountRenamed))
    ensures g.journal == old(g.journal) || g.journal == Some(Journal(plan, AccountRenamed))
    ensures old(g.wick.fuse).Never? ==> g.wick.fuse.Never? && r != Killed
  {
    r := LoginStage(g, plan, tool, pid, origin);
    if r != Done {
      return;
    }
    r := PublishPhase(g, plan, AccountRenamed, origin);
  }

  /** Rename the primary group. */
  method RenameGroupStage(g: Guest, plan: Plan, tool: Tool, pid: nat, ghost origin: View) returns (r: Outcome)
    requires g.etc.Valid() && pid in g.etc.live
    modifies g`databases, g.etc`names, g.etc`inodes, g.etc`next, g.etc`owners, g.wick
    ensures old(GroupDue(g.Now(), plan, origin)) ==>
              && Consistent(g.Now(), plan, origin) && Advanced(old(g.databases), g.databases, plan.accounts)
              && (r == Done ==> Final(g.databases, plan.accounts) && |plan.group.members| <= 1)
              && (r == Refusal ==> !(tool.succeeds && |plan.group.members| <= 1
                                     && old(LocksReady(g.etc, Locks.Files(DATABASE_FILES), pid))))
    ensures LocksUsed(g.etc, Locks.Files(DATABASE_FILES), pid, {pid, tool.pid}, r)
    ensures old(g.wick.fuse).Never? ==> g.wick.fuse.Never? && r != Killed
  {
    ghost var was := g.Now();
    ghost var good := GroupDue(was, plan, origin);
    r := RenameGroup(g, plan, tool, pid);
    if good {
      LoggedInKnown(g.databases, plan.accounts);
      DatabaseStep(was, plan, origin, g.databases);
    }
  }

  /** Rebind the subordinate ranges of an account whose databases are final. */
  method RangeStage(g: Guest, plan: Plan, pid: nat, ghost origin: View) returns (r: Outcome)
    requires g.etc.Valid() && pid in g.etc.live
    modifies g`subordinate, g.etc`names, g.etc`inodes, g.etc`next, g.etc`owners, g.wick
    ensures old(Consistent(g.Now(), plan, origin) && g.journal.Some? && Final(g.databases, plan.accounts))
            && SubidsPlanned(plan.subids, plan.prior, plan.next) ==>
              && Consistent(g.Now(), plan, origin)
              && (r == Done ==> Rebound(g.subordinate, plan.subids))
              && (old(LocksReady(g.etc, RangeFiles(plan.subids), pid)) ==> r != Refusal)
    ensures LocksUsed(g.etc, RangeFiles(plan.subids), pid, {pid}, r)
    ensures old(g.wick.fuse).Never? ==> g.wick.fuse.Never? && r != Killed
  {
    ghost var was, good :=
        g.Now(), Consistent(g.Now(), plan, origin) && g.journal.Some? && Final(g.databases, plan.accounts);
    r := Rebind(g, plan.subids, plan.prior, plan.next, pid);
    if good {
      RangeStep(was, plan, origin, g.subordinate);
    }
  }

  /** The files whose locks the mutation takes. */
  function LockedFiles(plan: Plan): set<Locks.File> {
    Locks.Files(DATABASE_FILES) + RangeFiles(plan.subids)
  }

  lemma LockedBoth(d: Locks.Directory, plan: Plan, pid: nat)
    ensures d.Lockable(LockedFiles(plan), pid) <==>
              d.Lockable(Locks.Files(DATABASE_FILES), pid) && d.Lockable(RangeFiles(plan.subids), pid)
  {
    assert DATABASE_FILES[0] in Locks.Files(DATABASE_FILES);
  }

  method MutateGroup(g: Guest, plan: Plan, tool: Tool, pid: nat, ghost origin: View) returns (r: Outcome)
    requires g.etc.Valid() && pid in g.etc.live
    modifies g`databases, g`subordinate, g.etc`names, g.etc`inodes, g.etc`next, g.etc`owners, g.wick
    ensures old(GroupDue(g.Now(), plan, origin)) ==>
              && Consistent(g.Now(), plan, origin) && Advanced(old(g.databases), g.databases, plan.accounts)
              && (r == Done ==>
                    && Final(g.databases, plan.accounts) && Rebound(g.subordinate, plan.subids)
                    && |plan.group.members| <= 1)
              && (tool.succeeds && |plan.group.members| <= 1 && old(LocksReady(g.etc, LockedFiles(plan), pid)) ==>
                    r != Refusal)
    ensures LocksUsed(g.etc, LockedFiles(plan), pid, {pid, tool.pid}, r)
    ensures old(g.wick.fuse).Never? ==> g.wick.fuse.Never? && r != Killed
  {
    LockedBoth(g.etc, plan, pid);
    r := RenameGroupStage(g, plan, tool, pid, origin);
    if r != Done {
      return;
    }
    r := RangeStage(g, plan, pid, origin);
  }

  lemma LoggedInKnown(files: Databases, recipes: Recipes)
    requires LoggedIn(files, recipes)
    ensures DatabasesKnown(files, recipes)
  {
  }

  lemma InstallStep(v: View, plan: Plan, origin: View)
    requires v.journal.Some? && Consistent(v, plan, origin) && plan.prior.user !in v.grants
             && v.homes == MovedHomes(origin.homes, plan)
    requires Final(v.databases, plan.accounts) && Rebound(v.subordinate, plan.subids)
    ensures Consistent(v.(grants := MovedGrants(origin.grants, plan)), plan, origin)
    ensures AccountDone(v.(grants := MovedGrants(origin.grants, plan)), plan, origin)
    ensures plan.sudo && plan.next.user !in v.grants ==>
              v.grants[plan.next.user := GrantText(plan.next.user)] == MovedGrants(origin.grants, plan)
    ensures !plan.sudo || plan.next.user in v.grants ==> v.grants == MovedGrants(origin.grants, plan)
  {
    GrantCases(v.grants, plan, origin.grants);
  }

  /** Everything but the new grant is in place. */
  ghost predicate GrantDue(v: View, plan: Plan, origin: View) {
    && Consistent(v, plan, origin) && v.journal.Some? && Final(v.databases, plan.accounts)
    && Rebound(v.subordinate, plan.subids) && v.homes == MovedHomes(origin.homes, plan) && plan.prior.user !in v.grants
  }

  /** Install the new grant. */
  method GrantStage(g: Guest, plan: Plan, ghost origin: View) returns (r: Outcome)
    modifies g`grants, g.wick
    ensures old(GrantDue(g.Now(), plan, origin)) ==>
              && Consistent(g.Now(), plan, origin)
              && (r == Done ==> AccountDone(g.Now(), plan, origin))
              && r != Refusal
    ensures old(g.wick.fuse).Never? ==> g.wick.fuse.Never? && r != Killed
  {
    if GrantDue(g.Now(), plan, origin) {
      GrantsReadable(g.Now(), plan, origin);
      InstallStep(g.Now(), plan, origin);
    }
    r := RebindSudo(g, plan, false);
  }

  /** Install the new grant and publish that the account is ready. */
  method MutateGrant(g: Guest, plan: Plan, ghost origin: View) returns (r: Outcome)
    modifies g`grants, g`journal, g.wick
    ensures old(GrantDue(g.Now(), plan, origin)) && |plan.group.members| <= 1 ==>
              && Consistent(g.Now(), plan, origin)
              && (r == Done ==> AccountDone(g.Now(), plan, origin) && g.journal == Some(Journal(plan, AccountReady)))
              && r != Refusal
    ensures g.journal == old(g.journal) || g.journal == Some(Journal(plan, AccountReady))
    ensures old(g.wick.fuse).Never? ==> g.wick.fuse.Never? && r != Killed
  {
    r := GrantStage(g, plan, origin);
    if r != Done {
      return;
    }
    r := PublishPhase(g, plan, AccountReady, origin);
  }

  lemma AdvancedFurther(was: Databases, mid: Databases, now: Databases, recipes: Recipes)
    requires Advanced(was, mid, recipes) && Advanced(mid, now, recipes)
    ensures Advanced(was, now, recipes)
  {
  }

  /** Login, group and ranges. */
  method MutateAccounts(g: Guest, plan: Plan, usermod: Tool, groupmod: Tool, pid: nat, ghost origin: View)
    returns (r: Outcome)
    requires g.etc.Valid() && pid in g.etc.live
    modifies g`databases, g`subordinate, g`journal, g.etc`names, g.etc`inodes, g.etc`next, g.etc`owners, g.wick
    ensures old(LoginDue(g.Now(), plan, origin)) ==>
              && Consistent(g.Now(), plan, origin) && Advanced(old(g.databases), g.databases, plan.accounts)
              && (r == Done ==>
                    && g.journal.Some? && Final(g.databases, plan.accounts) && Rebound(g.subordinate, plan.subids)
                    && |plan.group.members| <= 1)
              && (r == Refusal ==> !(usermod.succeeds && groupmod.succeeds && |plan.group.members| <= 1
                                     && old(LocksReady(g.etc, LockedFiles(plan), pid))))
    ensures LocksUsed(g.etc, LockedFiles(plan), pid, {pid, usermod.pid, groupmod.pid}, r)
    ensures r == Done ==> g.journal == Some(Journal(plan, AccountRenamed))
    ensures g.journal == old(g.journal) || g.journal == Some(Journal(plan, AccountRenamed))
    ensures old(g.wick.fuse).Never? ==> g.wick.fuse.Never? && r != Killed
  {
    LockedBoth(g.etc, plan, pid);
    ghost var was := g.databases;
    r := MutateLogin(g, plan, usermod, pid, origin);
    if r != Done {
      return;
    }
    ghost var mid := g.databases;
    r := MutateGroup(g, plan, groupmod, pid, origin);
    if Advanced(was, mid, plan.accounts) && Advanced(mid, g.databases, plan.accounts) {
      AdvancedFurther(was, mid, g.databases, plan.accounts);
    }
  }

  /** The second half of the mutation: login, group, ranges and grant. */
  method CompleteMutation(g: Guest, plan: Plan, usermod: Tool, groupmod: Tool, pid: nat, ghost origin: View)
    returns (r: Outcome)
    requires g.etc.Valid() && pid in g.etc.live
    modifies g`databases, g`subordinate, g`grants, g`journal
    modifies g.etc`names, g.etc`inodes, g.etc`next, g.etc`owners, g.wick
    ensures old(LoginDue(g.Now(), plan, origin)) && plan.prior.user !in old(g.grants) ==>
              && Consistent(g.Now(), plan, origin) && Advanced(old(g.databases), g.databases, plan.accounts)
              && (r == Done ==>
                    && AccountDone(g.Now(), plan, origin) && g.journal == Some(Journal(plan, AccountReady))
                    && |plan.group.members| <= 1)
              && (r == Refusal ==> !(usermod.succeeds && groupmod.succeeds && |plan.group.members| <= 1
                                     && old(LocksReady(g.etc, LockedFiles(plan), pid))))
    ensures LocksUsed(g.etc, LockedFiles(plan), pid, {pid, usermod.pid, groupmod.pid}, r)
    ensures JournalMoved(old(g.journal), g.journal, plan)
    ensures old(g.wick.fuse).Never? ==> g.wick.fuse.Never? && r != Killed
  {
    r := MutateAccounts(g, plan, usermod, groupmod, pid, origin);
    if r != Done {
      return;
    }
    r := MutateGrant(g, plan, origin);
  }

  /** Something of the account itself has changed. */
  predicate Touched(was: View, now: View) {
    || now.databases != was.databases || now.subordinate != was.subordinate || now.homes != was.homes
    || now.grants != was.grants
  }

  /** Both halves of the mutation. */
  method Mutate(g: Guest, plan: Plan, host: Host, usermod: Tool, groupmod: Tool, pid: nat, ghost origin: View)
    returns (r: Outcome)
    requires g.etc.Valid() && pid in g.etc.live
    modifies g`databases, g`subordinate, g`homes, g`grants, g`lingering, g`journal
    modifies g.etc`names, g.etc`inodes, g.etc`next, g.etc`owners, g.wick
    ensures old(Pending(g.Now(), plan, origin)) ==>
              && Consistent(g.Now(), plan, origin) && Advanced(old(g.databases), g.databases, plan.accounts)
              && (r == Done ==> AccountDone(g.Now(), plan, origin) && g.journal == Some(Journal(plan, AccountReady))
                                && plan.prior.user !in g.lingering && Completable(plan))
              && (r == Refusal ==> !(old(Admitted(g.Now(), plan)) && Quiet(host, plan)
                                     && usermod.succeeds && groupmod.succeeds && Completable(plan)
                                     && old(LocksReady(g.etc, LockedFiles(plan), pid))))
    ensures r == Done || Touched(old(g.Now()), g.Now()) ==> old(MayMutate(g.Now(), plan, host))
    ensures LocksUsed(g.etc, LockedFiles(plan), pid, {pid, usermod.pid, groupmod.pid}, r)
    ensures g.lingering == old(g.lingering) || g.lingering == old(g.lingering) - {plan.prior.user}
    ensures JournalMoved(old(g.journal), g.journal, plan)
    ensures old(g.wick.fuse).Never? ==> g.wick.fuse.Never? && r != Killed
  {
    ghost var good := Pending(g.Now(), plan, origin);
    r := EnterMutation(g, plan, host, origin);
    if r != Done {
      return;
    }
    assert good ==> LoginDue(g.Now(), plan, origin);
    r := CompleteMutation(g, plan, usermod, groupmod, pid, origin);
  }

  /**
   The account mutation.  Wherever it is killed or refused, the state stays one
   that the protocol recognises.  Uninterrupted, in a quiet guest whose journal
   admits it, it succeeds exactly when the plan can be completed and the locks can be
   taken, and then ends in one state that no interruption history can change.
   */
  method ApplyAccount(g: Guest, plan: Plan, host: Host, usermod: Tool, groupmod: Tool, pid: nat, ghost origin: View)
    returns (r: Outcome)
    requires g.etc.Valid() && pid in g.etc.live
    modifies g`databases, g`subordinate, g`homes, g`grants, g`lingering, g`journal
    modifies g.etc`names, g.etc`inodes, g.etc`next, g.etc`owners, g.wick
    ensures old(Pending(g.Now(), plan, origin)) ==>
              && Pending(g.Now(), plan, origin) && Advanced(old(g.databases), g.databases, plan.accounts)
              && (r == Done ==> g.Now() == RenamedView(old(g.Now()), plan, origin) && Completable(plan))
              && (r == Refusal ==> !(old(Admitted(g.Now(), plan)) && Quiet(host, plan)
                                     && usermod.succeeds && groupmod.succeeds && Completable(plan)
                                     && old(LocksReady(g.etc, LockedFiles(plan), pid))))
    ensures r == Done || Touched(old(g.Now()), g.Now()) ==> old(MayMutate(g.Now(), plan, host))
    ensures LocksUsed(g.etc, LockedFiles(plan), pid, {pid, usermod.pid, groupmod.pid}, r)
    ensures g.lingering == old(g.lingering) || g.lingering == old(g.lingering) - {plan.prior.user}
    ensures JournalMoved(old(g.journal), g.journal, plan)
    ensures old(g.wick.fuse).Never? ==> g.wick.fuse.Never? && r != Killed
  {
    ghost var was, good := g.Now(), Pending(g.Now(), plan, origin);
    r := Mutate(g, plan, host, usermod, groupmod, pid, origin);
    if good && r == Done {
      DoneView(was, g.Now(), plan, origin);
    }
  }

  lemma DoneView(was: View, now: View, plan: Plan, origin: View)
    requires AccountDone(now, plan, origin) && now.journal == Some(Journal(plan, AccountReady))
    requires now.receipts == was.receipts && now.listener == was.listener && plan.prior.user !in now.lingering
    requires now.lingering == was.lingering || now.lingering == was.lingering - {plan.prior.user}
    ensures now == RenamedView(was, plan, origin)
  {
    assert now.databases.Get(Passwd) == plan.accounts.Get(Passwd).final
           && now.databases.Get(Shadow) == plan.accounts.Get(Shadow).final;
    assert now.databases.Get(Group) == plan.accounts.Get(Group).final
           && now.databases.Get(Gshadow) == plan.accounts.Get(Gshadow).final;
    assert now.subordinate.Get(false) == plan.subids.Get(false).after
           && now.subordinate.Get(true) == plan.subids.Get(true).after;
  }
}
