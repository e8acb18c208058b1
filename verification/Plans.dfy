/**
 The plan of one developer rename, the guest state it is made from, and what the
 account files say about the developer at each stage of the rename.
 */
module Plans {
  import opened Text
  import opened Accounts
  import opened Paths
  import Subids
  import Receipts

  datatype Unit = SshService | SshSocket

  /** What systemctl and loginctl do when asked. */
  datatype Manager = Obeys | Ignores | Fails

  datatype Phase = Prepared | Quiesced | HomeMoved | AccountRenamed | AccountReady | Ready | Complete

  /** A plan; `from`, `into` and `parent` are the directories that its two homes and the old one's parent name. */
  datatype Plan = Plan(
    machine: string,
    prior: Account,
    next: Account,
    linger: bool,
    group: GroupRow,
    home: nat,
    from: Directory,
    into: Directory,
    parent: Directory,
    evidence: Receipts.Receipt,
    accounts: Accounts.Recipes,
    subids: Subids.Recipes,
    packages: seq<Receipts.PackageRecipe>,
    receipts: map<string, Receipts.Recipe>,
    sudo: bool,
    listener: set<Unit>,
    owners: bool)

  datatype Journal = Journal(plan: Plan, phase: Phase)

  /**
   Everything in the guest that the rename reads or writes.  Homes are known by directory and
   identity; what lies below a home moves with it and is not listed.
   */
  datatype View = View(
    databases: Databases,
    subordinate: Subids.Subordinate,
    homes: map<Directory, nat>,
    grants: map<string, string>,
    receipts: map<string, Receipts.Document>,
    lingering: set<string>,
    listener: set<Unit>,
    journal: Option<Journal>)

  /**
   What the rename observes but never changes: the guest's identity, its activity, the ids of the
   processes alive in it, and whether one of them holds the password lock.
   */
  datatype Host = Host(
    machine: string, processes: bool, services: bool, mounts: set<string>, rebooted: bool, manager: Manager,
    live: set<nat>, contended: bool)

  // ---------- logins ----------

  predicate IsLoginStart(c: char) {
    'a' <= c <= 'z' || c == '_'
  }

  predicate IsLogin(s: string) {
    && 1 <= |s| <= 32
    && IsLoginStart(s[0])
    && forall i :: 0 <= i < |s| ==> IsLoginStart(s[i]) || IsDigit(s[i]) || s[i] == '-'
  }

  lemma LoginIsClean(s: string)
    requires IsLogin(s)
    ensures Plain(s) && Free(s, ',') && Free(s, '/') && s !in ["", ".", ".."] && Subids.IsLabel(s)
  {
  }

  // ---------- what a plan is made from ----------

  function GrantText(user: string): string {
    user + " ALL=(ALL) NOPASSWD:ALL\n"
  }

  /** The developer's grant, absent or exactly the generated text. */
  function SudoGrant(grants: map<string, string>, user: string): Result<Option<string>> {
    if user !in grants then Ok(None)
    else if grants[user] == GrantText(user) then Ok(Some(grants[user]))
    else Refused
  }

  predicate Claims(account: Account, prior: Account, next: Account) {
    account.uid == prior.uid || account.user == prior.user || account.user == next.user
  }

  predicate ClaimsGroup(row: GroupRow, prior: Account, next: Account) {
    row.gid == prior.gid || row.name == prior.user || row.name == next.user
  }

  predicate ReceiptsObservable(stored: map<string, Receipts.Document>, prior: Account, next: Account,
                               packages: seq<Receipts.PackageRecipe>) {
    && (forall p :: p in stored ==>
          && (stored[p].value.Inventory? <==> p == Receipts.INVENTORY)
          && Receipts.ObserveReceipt(stored[p], prior, next, packages).Ok?)
    && Receipts.Evidence(stored, prior).Ok?
    && (packages != [] ==> exists p :: p in stored && stored[p].value.Inventory?)
  }

  /** The planned account, when the passwd rows name exactly one developer. */
  function PlannedAccount(accounts: seq<Account>, user: string, login: string, uid: nat): Result<Account> {
    var matches := Filter(accounts, (a: Account) => a.user == user);
    if |matches| != 1 || matches[0].uid != uid || uid == 0 || matches[0].gid == 0 then Refused
    else if |Filter(accounts, (a: Account) => a.uid == uid)| != 1 then Refused
    else if exists i :: 0 <= i < |accounts| && accounts[i].user == login then Refused
    else Ok(matches[0])
  }

  /** The developer's primary group, when it is private. */
  function PlannedGroup(groups: seq<GroupRow>, accounts: seq<Account>, prior: Account,
                        login: string): Result<GroupRow> {
    var primary := Filter(groups, (g: GroupRow) => g.gid == prior.gid);
    if exists i :: 0 <= i < |groups| && groups[i].name == login then Refused
    else if |primary| != 1 || primary[0].name != prior.user then Refused
    else if exists i :: 0 <= i < |primary[0].members| && primary[0].members[i] != prior.user then Refused
    else if exists i :: 0 <= i < |accounts| && accounts[i].gid == prior.gid && accounts[i].user != prior.user
    then Refused
    else Ok(primary[0])
  }

  /**
   The homes allow the rename: the old one is there, nothing is at the new name, and no
   directory is both the developer's and on the way to a home, where it would have to
   belong to root.
   */
  predicate HomesFree(homes: map<Directory, nat>, prior: Account, next: Account) {
    && Place(prior.home) in homes
    && Place(prior.home) !in OnTheWay(prior.home) && Place(prior.home) !in OnTheWay(next.home)
    && !Exists(homes, Place(next.home)) && Place(next.home) !in OnTheWay(prior.home)
  }

  /** The assessment: a plan, or a refusal that leaves the guest untouched. */
  function Prepare(v: View, host: Host, user: string, login: string, uid: nat,
                   packages: seq<Receipts.PackageRecipe>): Result<Plan> {
    var accounts, groups := ReadAccounts(v.databases.passwd), ReadGroups(v.databases.group);
    if !IsLogin(login) || accounts.Refused? || groups.Refused? then Refused
    else
      var account := PlannedAccount(accounts.value, user, login, uid);
      if account.Refused? then Refused
      else
        var prior := account.value;
        var next := prior.(user := login, home := "/home/" + login);
        var group := PlannedGroup(groups.value, accounts.value, prior, login);
        var subordinate := Subids.Observe(v.subordinate, user, login, uid);
        var recipes := Observe(v.databases, prior, next);
        var grant := SudoGrant(v.grants, user);
        if group.Refused? || subordinate.Refused? || recipes.Refused? || grant.Refused? then Refused
        else if user == login || prior.home != "/home/" + user || !HomesFree(v.homes, prior, next) then Refused
        else if login in v.lingering || login in v.grants || prior.home in host.mounts then Refused
        else if user in v.lingering && host.services then Refused
        else if !ReceiptsObservable(v.receipts, prior, next, packages) then Refused
        else
          Ok(Plan(host.machine, prior, next, user in v.lingering, group.value, v.homes[Place(prior.home)],
                  Place(prior.home), Place(next.home), Parent(prior.home), Receipts.Evidence(v.receipts, prior).value,
                  recipes.value, subordinate.value, packages,
                  map p | p in v.receipts :: Receipts.ObserveReceipt(v.receipts[p], prior, next, packages).value,
                  grant.value.Some?, v.listener, false))
  }

  /** The native state still yields this plan; after a reboot the listener may differ. */
  predicate PreparedMatches(v: View, host: Host, plan: Plan) {
    var observed := Prepare(v, host, plan.prior.user, plan.next.user, plan.prior.uid, plan.packages);
    && observed.Ok?
    && observed.value.(owners := plan.owners,
                       listener := if host.rebooted then plan.listener else observed.value.listener) == plan
  }

  // ---------- what the assessment accepts ----------

  /** This passwd row is the developer's: no other has its login or uid, and none has the new login. */
  ghost predicate SoleDeveloper(accounts: seq<Account>, k: nat, user: string, login: string, uid: nat) {
    && k < |accounts| && accounts[k].user == user && accounts[k].uid == uid != 0 && accounts[k].gid != 0
    && (forall i :: 0 <= i < |accounts| && i != k ==> accounts[i].user != user && accounts[i].uid != uid)
    && (forall i :: 0 <= i < |accounts| ==> accounts[i].user != login)
  }

  /** This group row is the developer's own: no other has its gid, and nobody else is in it. */
  ghost predicate SolePrimary(groups: seq<GroupRow>, accounts: seq<Account>, k: nat, prior: Account, login: string) {
    && k < |groups| && groups[k].gid == prior.gid && groups[k].name == prior.user
    && (forall i :: 0 <= i < |groups[k].members| ==> groups[k].members[i] == prior.user)
    && (forall i :: 0 <= i < |groups| && i != k ==> groups[i].gid != prior.gid)
    && (forall i :: 0 <= i < |groups| ==> groups[i].name != login)
    && (forall i :: 0 <= i < |accounts| && accounts[i].gid == prior.gid ==> accounts[i].user == prior.user)
  }

  lemma PlannedAccountExact(accounts: seq<Account>, user: string, login: string, uid: nat, prior: Account)
    ensures PlannedAccount(accounts, user, login, uid) == Ok(prior) <==>
            exists k: nat :: SoleDeveloper(accounts, k, user, login, uid) && accounts[k] == prior
  {
    var byUser, byUid := (a: Account) => a.user == user, (a: Account) => a.uid == uid;
    if PlannedAccount(accounts, user, login, uid) == Ok(prior) {
      var k := FilterOne(accounts, byUser);
      var j := FilterOne(accounts, byUid);
      assert byUser(accounts[k]) && byUid(accounts[k]) && j == k;
      assert forall i :: 0 <= i < |accounts| && i != k ==> !byUser(accounts[i]) && !byUid(accounts[i]);
      assert SoleDeveloper(accounts, k, user, login, uid);
    }
    if k: nat :| SoleDeveloper(accounts, k, user, login, uid) && accounts[k] == prior {
      assert KeptAt(accounts, byUser, k) && KeptAt(accounts, byUid, k);
      FilterAt(accounts, byUser, k);
      FilterAt(accounts, byUid, k);
    }
  }

  lemma PlannedGroupExact(groups: seq<GroupRow>, accounts: seq<Account>, prior: Account, login: string,
                          group: GroupRow)
    ensures PlannedGroup(groups, accounts, prior, login) == Ok(group) <==>
            exists k: nat :: SolePrimary(groups, accounts, k, prior, login) && groups[k] == group
  {
    var byGid := (g: GroupRow) => g.gid == prior.gid;
    if PlannedGroup(groups, accounts, prior, login) == Ok(group) {
      var k := FilterOne(groups, byGid);
      assert byGid(groups[k]);
      assert forall i :: 0 <= i < |groups| && i != k ==> !byGid(groups[i]);
      assert SolePrimary(groups, accounts, k, prior, login);
    }
    if k: nat :| SolePrimary(groups, accounts, k, prior, login) && groups[k] == group {
      assert KeptAt(groups, byGid, k);
      FilterAt(groups, byGid, k);
    }
  }

  /** The developer and their primary group, as passwd and group show them. */
  ghost predicate AccountAssessed(v: View, login: string, prior: Account, group: GroupRow) {
    && ReadAccounts(v.databases.passwd).Ok? && ReadGroups(v.databases.group).Ok?
    && var accounts, groups := ReadAccounts(v.databases.passwd).value, ReadGroups(v.databases.group).value;
       && (exists k: nat :: SoleDeveloper(accounts, k, prior.user, login, prior.uid) && accounts[k] == prior)
       && (exists k: nat :: SolePrimary(groups, accounts, k, prior, login) && groups[k] == group)
  }

  /** Ownership is proved by the applied settings if there are any, and by the core skills otherwise. */
  predicate Evidenced(stored: map<string, Receipts.Document>, prior: Account) {
    var settled := Receipts.INVENTORY in stored && stored[Receipts.INVENTORY].value.Inventory?
                   && stored[Receipts.INVENTORY].value.settings.Some?;
    && (settled ==>
          && stored[Receipts.INVENTORY].value.settings.value.user == prior.user
          && stored[Receipts.INVENTORY].value.settings.value.uid == Decimal(prior.uid))
    && (!settled ==>
          && Receipts.CORE in stored && stored[Receipts.CORE].value.Skill?
          && stored[Receipts.CORE].value.home == prior.home && stored[Receipts.CORE].value.skills > 0)
  }

  /** The receipts prove whose they are, and every one of them can be moved. */
  ghost predicate ReceiptsAssessed(stored: map<string, Receipts.Document>, prior: Account, next: Account,
                                   packages: seq<Receipts.PackageRecipe>) {
    && Evidenced(stored, prior)
    && (packages != [] ==> Receipts.INVENTORY in stored)
    && forall p :: p in stored ==>
         && (stored[p].value.Inventory? <==> p == Receipts.INVENTORY)
         && Receipts.ReceiptOwned(stored[p].value, prior, next, packages)
         && Receipts.Digests(stored[p].value, packages, false)
  }

  /** A database that can be projected: its rows fit, one is the developer's, and none the new login's. */
  ghost predicate DatabaseFits(payload: Option<string>, db: Database, prior: Account, next: Account) {
    && (payload.None? ==> db == Shadow || db == Gshadow)
    && (payload.Some? ==>
          && AllFit(Lines(payload.value), db, prior)
          && next.user !in OwnerNames(payload.value) && multiset(OwnerNames(payload.value))[prior.user] == 1)
  }

  /** The files can be projected and relabelled. */
  ghost predicate FilesAssessed(v: View, prior: Account, next: Account) {
    && DatabaseFits(v.databases.passwd, Passwd, prior, next) && DatabaseFits(v.databases.shadow, Shadow, prior, next)
    && DatabaseFits(v.databases.group, Group, prior, next) && DatabaseFits(v.databases.gshadow, Gshadow, prior, next)
    && (forall gid :: Subids.Relabellable(v.subordinate.Get(gid), prior.user, next.user, prior.uid))
  }

  /** The names that the rename takes are free, and those it gives up are the developer's. */
  predicate NamesAssessed(v: View, host: Host, prior: Account, next: Account) {
    && prior.home == "/home/" + prior.user && HomesFree(v.homes, prior, next) && prior.home !in host.mounts
    && next.user !in v.lingering && next.user !in v.grants
    && (prior.user in v.grants ==> v.grants[prior.user] == GrantText(prior.user))
    && (prior.user in v.lingering ==> !host.services)
  }

  /** Everything the assessment looks at. */
  ghost predicate Assessed(v: View, host: Host, login: string, packages: seq<Receipts.PackageRecipe>, prior: Account,
                           group: GroupRow) {
    var next := prior.(user := login, home := "/home/" + login);
    && IsLogin(login) && prior.user != login
    && AccountAssessed(v, login, prior, group) && FilesAssessed(v, prior, next) && NamesAssessed(v, host, prior, next)
    && ReceiptsAssessed(v.receipts, prior, next, packages)
  }

  // ---------- what holds of every prepared plan ----------

  predicate LoginsPlanned(prior: Account, next: Account) {
    && IsLogin(next.user) && prior.user != next.user
    && prior.home == "/home/" + prior.user
    && next == prior.(user := next.user, home := "/home/" + next.user)
  }

  /** The recipe of every database, and the one account among the passwd rows. */
  predicate AccountsPlanned(recipes: Recipes, prior: Account, next: Account) {
    && (forall db :: Captured(recipes.Get(db), db, prior, next))
    && ReadAccounts(recipes.passwd.before).Ok?
    && Filter(ReadAccounts(recipes.passwd.before).value, (a: Account) => Claims(a, prior, next)) == [prior]
  }

  /** The one group among the group rows, private to the developer. */
  predicate GroupPlanned(recipe: Recipe, group: GroupRow, prior: Account, next: Account) {
    && Captured(recipe, Group, prior, next)
    && ReadGroups(recipe.before).Ok?
    && Filter(ReadGroups(recipe.before).value, (g: GroupRow) => ClaimsGroup(g, prior, next)) == [group]
    && group.name == prior.user && group.gid == prior.gid
    && (forall i :: 0 <= i < |group.members| ==> group.members[i] == prior.user)
  }

  /** The directories are those of the homes, and neither home is reached through the other. */
  predicate HomesPlanned(plan: Plan) {
    && plan.from == Place(plan.prior.home) && plan.into == Place(plan.next.home)
    && plan.parent == Parent(plan.prior.home)
    && Apart(plan.from, plan.into) && plan.into !in OnTheWay(plan.prior.home)
  }

  /** Both homes have the planned parent. */
  predicate Adjacent(plan: Plan) {
    Parent(plan.prior.home) == plan.parent && Parent(plan.next.home) == plan.parent
  }

  /** The plan can be completed: the group lists the old login at most once, and both homes have one parent. */
  predicate Completable(plan: Plan) {
    |plan.group.members| <= 1 && Adjacent(plan)
  }

  predicate SubidsPlanned(recipes: Subids.Recipes, prior: Account, next: Account) {
    forall gid :: Subids.Captured(recipes.Get(gid), prior.user, next.user, prior.uid)
  }

  predicate ReceiptsPlanned(recipes: map<string, Receipts.Recipe>, prior: Account, next: Account,
                            packages: seq<Receipts.PackageRecipe>) {
    forall p :: p in recipes ==> Receipts.Captured(recipes[p], prior, next, packages)
  }

  predicate WellPlanned(plan: Plan) {
    && LoginsPlanned(plan.prior, plan.next)
    && HomesPlanned(plan)
    && AccountsPlanned(plan.accounts, plan.prior, plan.next)
    && GroupPlanned(plan.accounts.group, plan.group, plan.prior, plan.next)
    && SubidsPlanned(plan.subids, plan.prior, plan.next)
    && ReceiptsPlanned(plan.receipts, plan.prior, plan.next, plan.packages)
  }

  /** The guest as it was when the plan was made. */
  predicate PlannedFrom(origin: View, plan: Plan) {
    && (forall db :: origin.databases.Get(db) == plan.accounts.Get(db).before)
    && (forall gid :: origin.subordinate.Get(gid) == plan.subids.Get(gid).before)
    && plan.from in origin.homes && origin.homes[plan.from] == plan.home && plan.into !in origin.homes
    && plan.next.user !in origin.grants && plan.sudo == (plan.prior.user in origin.grants)
    && (plan.sudo ==> origin.grants[plan.prior.user] == GrantText(plan.prior.user))
    && plan.linger == (plan.prior.user in origin.lingering) && plan.next.user !in origin.lingering
    && origin.receipts.Keys == plan.receipts.Keys
    && (forall p :: p in plan.receipts ==> origin.receipts[p] == plan.receipts[p].before)
  }

  lemma LoginsDistinct(prior: Account, next: Account)
    requires LoginsPlanned(prior, next)
    ensures Distinct(prior, next) && Receipts.Relocatable(prior, next) && Subids.IsLabel(next.user)
  {
    LoginIsClean(next.user);
    assert Plain("/home/");
  }

  /** The receipts of a properly made plan can be projected repeatedly. */
  lemma PlanMovable(plan: Plan)
    requires LoginsPlanned(plan.prior, plan.next) && HomesPlanned(plan)
    ensures Receipts.Movable(plan.prior, plan.next)
  {
    LoginsDistinct(plan.prior, plan.next);
    if plan.next.home + "/" <= plan.prior.home {
      BelowIsThrough(plan.prior.user, plan.next.user);
    }
  }

  /**
   Exactly which renames the parent check lets through: the old home must lie directly
   below /home.  For a normally spelled home that is: the old login has no slash.
   */
  lemma AdjacentIff(plan: Plan)
    requires LoginsPlanned(plan.prior, plan.next) && HomesPlanned(plan)
    ensures Adjacent(plan) <==> plan.parent == ["home"]
    ensures Receipts.IsNormal(plan.prior.home) ==> (Adjacent(plan) <==> Free(plan.prior.user, '/'))
  {
    LoginIsClean(plan.next.user);
    HomeOfName(plan.next.user);
    if Receipts.IsNormal(plan.prior.home) {
      Receipts.HomeParts(plan.prior.user);
      ParentOfNormal(plan.prior.user);
    }
  }

  // ---------- the assessment, exactly ----------

  lemma DatabaseAssessed(payload: Option<string>, db: Database, prior: Account, next: Account)
    ensures Accounts.ObserveOne(payload, db, prior, next).Ok? <==> DatabaseFits(payload, db, prior, next)
  {
    ProjectionRefuses(payload, db, prior, next, false);
    ProjectionRefuses(payload, db, prior, next, true);
  }

  lemma DatabasesAssessed(files: Databases, prior: Account, next: Account)
    ensures Accounts.Observe(files, prior, next).Ok? <==>
            && DatabaseFits(files.passwd, Passwd, prior, next) && DatabaseFits(files.shadow, Shadow, prior, next)
            && DatabaseFits(files.group, Group, prior, next) && DatabaseFits(files.gshadow, Gshadow, prior, next)
  {
    DatabaseAssessed(files.passwd, Passwd, prior, next);
    DatabaseAssessed(files.shadow, Shadow, prior, next);
    DatabaseAssessed(files.group, Group, prior, next);
    DatabaseAssessed(files.gshadow, Gshadow, prior, next);
  }

  lemma FilesExact(v: View, prior: Account, next: Account)
    ensures FilesAssessed(v, prior, next) <==>
            && Accounts.Observe(v.databases, prior, next).Ok?
            && Subids.Observe(v.subordinate, prior.user, next.user, prior.uid).Ok?
  {
    DatabasesAssessed(v.databases, prior, next);
    RangesEach(v.subordinate, prior, next);
  }

  lemma RangesEach(files: Subids.Subordinate, prior: Account, next: Account)
    ensures Subids.Observe(files, prior.user, next.user, prior.uid).Ok? <==>
            forall gid :: Subids.Relabellable(files.Get(gid), prior.user, next.user, prior.uid)
  {
    Subids.ObserveExact(files.Get(false), prior.user, next.user, prior.uid);
    Subids.ObserveExact(files.Get(true), prior.user, next.user, prior.uid);
  }

  lemma ReceiptAssessed(stored: Receipts.Document, prior: Account, next: Account,
                        packages: seq<Receipts.PackageRecipe>)
    requires Receipts.Movable(prior, next)
    ensures Receipts.ObserveReceipt(stored, prior, next, packages).Ok? <==>
            Receipts.ReceiptOwned(stored.value, prior, next, packages)
            && Receipts.Digests(stored.value, packages, false)
  {
    Receipts.ReceiptProjected(stored.value, prior, next, false, packages);
    Receipts.ReceiptProjected(stored.value, prior, next, true, packages);
    if Receipts.ReceiptOwned(stored.value, prior, next, packages) {
      Receipts.DigestsMatch(stored.value, prior, next, packages);
    }
  }

  lemma ReceiptsExact(stored: map<string, Receipts.Document>, prior: Account, next: Account,
                      packages: seq<Receipts.PackageRecipe>)
    requires Receipts.Movable(prior, next)
    ensures ReceiptsObservable(stored, prior, next, packages) <==> ReceiptsAssessed(stored, prior, next, packages)
  {
    forall p | p in stored
      ensures Receipts.ObserveReceipt(stored[p], prior, next, packages).Ok? <==>
              Receipts.ReceiptOwned(stored[p].value, prior, next, packages)
              && Receipts.Digests(stored[p].value, packages, false)
    {
      ReceiptAssessed(stored[p], prior, next, packages);
    }
    assert Receipts.Evidence(stored, prior).Ok? <==> Evidenced(stored, prior);
  }

  /** Free homes of a planned rename are apart. */
  lemma FreeMovable(homes: map<Directory, nat>, prior: Account, next: Account)
    requires LoginsPlanned(prior, next) && HomesFree(homes, prior, next)
    ensures Receipts.Movable(prior, next)
  {
    LoginsDistinct(prior, next);
    LoginIsClean(next.user);
    assert Place(next.home) <= Place(prior.home) ==> Exists(homes, Place(next.home));
    HomesApart(prior.user, next.user);
    if next.home + "/" <= prior.home {
      BelowIsThrough(prior.user, next.user);
    }
  }

  /** The account that the assessment would find. */
  ghost predicate Finds(v: View, login: string, user: string, uid: nat, prior: Account, group: GroupRow) {
    && ReadAccounts(v.databases.passwd).Ok? && ReadGroups(v.databases.group).Ok?
    && PlannedAccount(ReadAccounts(v.databases.passwd).value, user, login, uid) == Ok(prior)
    && PlannedGroup(ReadGroups(v.databases.group).value, ReadAccounts(v.databases.passwd).value, prior, login) ==
         Ok(group)
  }

  lemma FindsExact(v: View, login: string, user: string, uid: nat, prior: Account, group: GroupRow)
    ensures Finds(v, login, user, uid, prior, group) <==>
            prior.user == user && prior.uid == uid && AccountAssessed(v, login, prior, group)
  {
    if ReadAccounts(v.databases.passwd).Ok? && ReadGroups(v.databases.group).Ok? {
      var accounts, groups := ReadAccounts(v.databases.passwd).value, ReadGroups(v.databases.group).value;
      PlannedAccountExact(accounts, user, login, uid, prior);
      PlannedGroupExact(groups, accounts, prior, login, group);
    }
  }

  /** The assessment of a found account is the conjunction of its parts. */
  lemma PrepareParts(v: View, host: Host, login: string, packages: seq<Receipts.PackageRecipe>, prior: Account,
                     group: GroupRow)
    requires Finds(v, login, prior.user, prior.uid, prior, group) && IsLogin(login)
    ensures var next := prior.(user := login, home := "/home/" + login);
            Prepare(v, host, prior.user, login, prior.uid, packages).Ok? <==>
              && prior.user != login && NamesAssessed(v, host, prior, next)
              && Accounts.Observe(v.databases, prior, next).Ok?
              && Subids.Observe(v.subordinate, prior.user, login, prior.uid).Ok?
              && ReceiptsObservable(v.receipts, prior, next, packages)
  {
  }

  lemma RestExact(v: View, host: Host, login: string, packages: seq<Receipts.PackageRecipe>, prior: Account,
                  group: GroupRow)
    requires Finds(v, login, prior.user, prior.uid, prior, group) && IsLogin(login)
    ensures Prepare(v, host, prior.user, login, prior.uid, packages).Ok? <==>
              Assessed(v, host, login, packages, prior, group)
  {
    var next := prior.(user := login, home := "/home/" + login);
    PrepareParts(v, host, login, packages, prior, group);
    FindsExact(v, login, prior.user, prior.uid, prior, group);
    FilesExact(v, prior, next);
    if LoginsPlanned(prior, next) && HomesFree(v.homes, prior, next) {
      FreeMovable(v.homes, prior, next);
      ReceiptsExact(v.receipts, prior, next, packages);
    }
  }

  /** The assessment yields a plan exactly for the assessed guests. */
  lemma PrepareExact(v: View, host: Host, user: string, login: string, uid: nat, packages: seq<Receipts.PackageRecipe>)
    ensures Prepare(v, host, user, login, uid, packages).Ok? <==>
            exists prior: Account, group :: prior.user == user && prior.uid == uid
                                            && Assessed(v, host, login, packages, prior, group)
  {
    var plan := Prepare(v, host, user, login, uid, packages);
    if plan.Ok? {
      assert Finds(v, login, user, uid, plan.value.prior, plan.value.group);
      FindsExact(v, login, user, uid, plan.value.prior, plan.value.group);
      RestExact(v, host, login, packages, plan.value.prior, plan.value.group);
    }
    if prior: Account, group :| prior.user == user && prior.uid == uid
                                && Assessed(v, host, login, packages, prior, group) {
      FindsExact(v, login, user, uid, prior, group);
      RestExact(v, host, login, packages, prior, group);
    }
  }

  /** Exactly one account claims the developer's identity. */
  lemma UniqueClaim(accounts: seq<Account>, prior: Account, next: Account)
    requires PlannedAccount(accounts, prior.user, next.user, prior.uid) == Ok(prior)
    ensures Filter(accounts, (a: Account) => Claims(a, prior, next)) == [prior]
  {
    var byUser, byUid := (a: Account) => a.user == prior.user, (a: Account) => a.uid == prior.uid;
    var matches, sharing := Filter(accounts, byUser), Filter(accounts, byUid);
    assert matches == [prior];
    FilterMembers(accounts, byUser);
    FilterMembers(accounts, byUid);
    assert prior in matches && prior in accounts && prior in sharing;
    assert sharing == [prior];
    forall a | a in accounts
      ensures Claims(a, prior, next) == byUser(a)
    {
      if a.uid == prior.uid {
        assert a in sharing;
      }
    }
    FilterSame(accounts, (a: Account) => Claims(a, prior, next), byUser);
  }

  lemma OnlyOnce<T>(s: seq<T>, i: nat, k: nat)
    requires i < k < |s| && s[i] == s[k]
    ensures multiset(s)[s[i]] >= 2
  {
    var head, tail := s[..k], s[k + 1..];
    assert s == head + [s[k]] + tail;
    assert head[i] in head;
  }

  lemma GroupClaim(groups: seq<GroupRow>, names: seq<string>, group: GroupRow, prior: Account, next: Account)
    requires |names| == |groups| && forall i :: 0 <= i < |groups| ==> names[i] == groups[i].name
    requires next.user !in names && multiset(names)[prior.user] == 1
    requires Filter(groups, (g: GroupRow) => g.gid == prior.gid) == [group] && group.name == prior.user
    ensures Filter(groups, (g: GroupRow) => ClaimsGroup(g, prior, next)) == [group]
  {
    var byGid := (g: GroupRow) => g.gid == prior.gid;
    FilterMembers(groups, byGid);
    assert group in Filter(groups, byGid);
    var own :| 0 <= own < |groups| && groups[own] == group;
    forall g | g in groups
      ensures ClaimsGroup(g, prior, next) == byGid(g)
    {
      var i :| 0 <= i < |groups| && groups[i] == g;
      assert names[i] in names;
      if g.name == prior.user && i != own {
        OnlyOnce(names, if i < own then i else own, if i < own then own else i);
      }
    }
    FilterSame(groups, (g: GroupRow) => ClaimsGroup(g, prior, next), byGid);
  }

  lemma NamesOfGroups(text: string)
    requires ReadGroups(Some(text)).Ok?
    ensures |OwnerNames(text)| == |ReadGroups(Some(text)).value|
    ensures forall i :: 0 <= i < |OwnerNames(text)| ==> OwnerNames(text)[i] == ReadGroups(Some(text)).value[i].name
  {
    var lines, names, groups := Lines(text), OwnerNames(text), ReadGroups(Some(text)).value;
    forall i | 0 <= i < |lines|
      ensures names[i] == groups[i].name
    {
      assert groups[i] == GroupOf(lines[i]).value;
      assert names[i] == Split(lines[i].body, ':')[0];
    }
  }

  /** Exactly one group claims the developer's identity. */
  lemma UniqueGroupClaim(payload: Option<string>, accounts: seq<Account>, group: GroupRow, prior: Account,
                         next: Account)
    requires UniqueOwner(payload, prior, next) && ReadGroups(payload).Ok?
    requires PlannedGroup(ReadGroups(payload).value, accounts, prior, next.user) == Ok(group)
    ensures Filter(ReadGroups(payload).value, (g: GroupRow) => ClaimsGroup(g, prior, next)) == [group]
  {
    NamesOfGroups(payload.value);
    GroupClaim(ReadGroups(payload).value, OwnerNames(payload.value), group, prior, next);
  }

  /** What a matching assessment checked, one observation at a time. */
  predicate Observed(v: View, plan: Plan) {
    && LoginsPlanned(plan.prior, plan.next)
    && ReadAccounts(v.databases.passwd).Ok? && ReadGroups(v.databases.group).Ok?
    && PlannedAccount(ReadAccounts(v.databases.passwd).value, plan.prior.user, plan.next.user,
                      plan.prior.uid) == Ok(plan.prior)
    && PlannedGroup(ReadGroups(v.databases.group).value, ReadAccounts(v.databases.passwd).value, plan.prior,
                    plan.next.user) == Ok(plan.group)
    && Accounts.Observe(v.databases, plan.prior, plan.next) == Ok(plan.accounts)
    && Subids.Observe(v.subordinate, plan.prior.user, plan.next.user, plan.prior.uid) == Ok(plan.subids)
    && HomesFree(v.homes, plan.prior, plan.next)
    && plan.from == Place(plan.prior.home) && plan.into == Place(plan.next.home)
    && plan.parent == Parent(plan.prior.home)
    && plan.receipts.Keys == v.receipts.Keys
    && forall p :: p in v.receipts ==>
         Receipts.ObserveReceipt(v.receipts[p], plan.prior, plan.next, plan.packages) == Ok(plan.receipts[p])
  }

  lemma ObservedAccount(accounts: seq<Account>, user: string, login: string, uid: nat)
    requires PlannedAccount(accounts, user, login, uid).Ok?
    ensures PlannedAccount(accounts, user, login, uid).value.user == user
    ensures PlannedAccount(accounts, user, login, uid).value.uid == uid
  {
    FilterMembers(accounts, (a: Account) => a.user == user);
    assert Filter(accounts, (a: Account) => a.user == user)[0] in Filter(accounts, (a: Account) => a.user == user);
  }

  lemma PreparedObserves(v: View, host: Host, plan: Plan)
    requires PreparedMatches(v, host, plan)
    ensures Observed(v, plan)
  {
    var accounts := ReadAccounts(v.databases.passwd).value;
    ObservedAccount(accounts, plan.prior.user, plan.next.user, plan.prior.uid);
  }

  lemma ObservedDatabase(files: Databases, recipes: Recipes, db: Database, prior: Account, next: Account)
    requires Observe(files, prior, next) == Ok(recipes)
    ensures ObserveOne(files.Get(db), db, prior, next) == Ok(recipes.Get(db))
  {
  }

  lemma ObservedDatabases(files: Databases, recipes: Recipes, prior: Account, next: Account)
    requires Observe(files, prior, next) == Ok(recipes)
    ensures forall db :: files.Get(db) == recipes.Get(db).before && Captured(recipes.Get(db), db, prior, next)
    ensures UniqueOwner(files.group, prior, next)
  {
    forall db
      ensures files.Get(db) == recipes.Get(db).before && Captured(recipes.Get(db), db, prior, next)
    {
      ObservedDatabase(files, recipes, db, prior, next);
    }
    ObservedDatabase(files, recipes, Group, prior, next);
  }

  lemma ObservedAccounts(v: View, plan: Plan)
    requires Observed(v, plan)
    ensures AccountsPlanned(plan.accounts, plan.prior, plan.next)
  {
    ObservedDatabases(v.databases, plan.accounts, plan.prior, plan.next);
    UniqueClaim(ReadAccounts(v.databases.passwd).value, plan.prior, plan.next);
    assert v.databases.Get(Passwd) == plan.accounts.Get(Passwd).before;
  }

  lemma ObservedGroup(v: View, plan: Plan)
    requires Observed(v, plan)
    ensures GroupPlanned(plan.accounts.group, plan.group, plan.prior, plan.next)
  {
    ObservedDatabases(v.databases, plan.accounts, plan.prior, plan.next);
    var accounts := ReadAccounts(v.databases.passwd).value;
    UniqueGroupClaim(v.databases.group, accounts, plan.group, plan.prior, plan.next);
    PlannedGroupIsPrivate(ReadGroups(v.databases.group).value, accounts, plan.group, plan.prior, plan.next.user);
    assert v.databases.Get(Group) == plan.accounts.Get(Group).before;
    assert Captured(plan.accounts.Get(Group), Group, plan.prior, plan.next);
  }

  lemma ObservedHomes(v: View, plan: Plan)
    requires Observed(v, plan)
    ensures HomesPlanned(plan)
  {
    LoginIsClean(plan.next.user);
    assert plan.into <= plan.from ==> Exists(v.homes, plan.into);
    HomesApart(plan.prior.user, plan.next.user);
  }

  lemma ObservedSubids(files: Subids.Subordinate, recipes: Subids.Recipes, prior: Account, next: Account)
    requires Subids.Observe(files, prior.user, next.user, prior.uid) == Ok(recipes)
    ensures SubidsPlanned(recipes, prior, next)
    ensures forall gid :: files.Get(gid) == recipes.Get(gid).before
  {
  }

  /** The plan of a matching assessment was properly made. */
  lemma PreparedIsWell(v: View, host: Host, plan: Plan)
    requires PreparedMatches(v, host, plan)
    ensures WellPlanned(plan)
  {
    PreparedObserves(v, host, plan);
    ObservedAccounts(v, plan);
    ObservedGroup(v, plan);
    ObservedHomes(v, plan);
    ObservedSubids(v.subordinate, plan.subids, plan.prior, plan.next);
  }

  /** The plan of a matching assessment was made from this guest. */
  lemma PreparedIsFrom(v: View, host: Host, plan: Plan)
    requires PreparedMatches(v, host, plan)
    ensures PlannedFrom(v, plan)
  {
    PreparedObserves(v, host, plan);
    ObservedDatabases(v.databases, plan.accounts, plan.prior, plan.next);
    ObservedSubids(v.subordinate, plan.subids, plan.prior, plan.next);
  }

  /** The guest of a matching assessment is an assessed one. */
  lemma PreparedAssessed(v: View, host: Host, plan: Plan)
    requires PreparedMatches(v, host, plan)
    ensures Assessed(v, host, plan.next.user, plan.packages, plan.prior, plan.group)
  {
    PreparedObserves(v, host, plan);
    RestExact(v, host, plan.next.user, plan.packages, plan.prior, plan.group);
  }

  /** A matching assessment establishes everything the rename relies on. */
  lemma PreparedEstablishes(v: View, host: Host, plan: Plan)
    requires PreparedMatches(v, host, plan)
    ensures WellPlanned(plan) && PlannedFrom(v, plan) && plan.machine == host.machine
    ensures Assessed(v, host, plan.next.user, plan.packages, plan.prior, plan.group)
    ensures host.rebooted || plan.listener == v.listener
  {
    PreparedAssessed(v, host, plan);
    PreparedIsWell(v, host, plan);
    PreparedIsFrom(v, host, plan);
  }

  lemma PlannedGroupIsPrivate(groups: seq<GroupRow>, accounts: seq<Account>, group: GroupRow, prior: Account,
                              login: string)
    requires PlannedGroup(groups, accounts, prior, login) == Ok(group)
    ensures group.name == prior.user && group.gid == prior.gid
    ensures forall i :: 0 <= i < |group.members| ==> group.members[i] == prior.user
  {
    FilterMembers(groups, (g: GroupRow) => g.gid == prior.gid);
    assert group in Filter(groups, (g: GroupRow) => g.gid == prior.gid);
  }

  // ---------- what the account files say at each stage ----------

  function Owner(payload: Option<string>, prior: Account, next: Account): seq<Account>
    requires ReadAccounts(payload).Ok?
  {
    Filter(ReadAccounts(payload).value, (a: Account) => Claims(a, prior, next))
  }

  function OwnerGroup(payload: Option<string>, prior: Account, next: Account): seq<GroupRow>
    requires ReadGroups(payload).Ok?
  {
    Filter(ReadGroups(payload).value, (g: GroupRow) => ClaimsGroup(g, prior, next))
  }

  lemma RenamedOwner(accounts: seq<Account>, prior: Account, next: Account)
    requires prior.user != next.user && prior.uid == next.uid && next == prior.(user := next.user, home := next.home)
    requires Filter(accounts, (a: Account) => Claims(a, prior, next)) == [prior]
    ensures Filter(Map(accounts, a => RenameAccount(a, prior, next)), (a: Account) => Claims(a, prior, next)) == [next]
  {
    var claims, rename := (a: Account) => Claims(a, prior, next), (a: Account) => RenameAccount(a, prior, next);
    FilterOfMap(accounts, rename, claims);
    assert Map([prior], rename) == [next];
  }

  /** One account claims the developer's identity at every stage: the old record, then the new one. */
  lemma AccountStage(recipes: Recipes, prior: Account, next: Account, payload: Option<string>)
    requires LoginsPlanned(prior, next) && AccountsPlanned(recipes, prior, next) && recipes.passwd.Knows(payload)
    ensures ReadAccounts(payload).Ok?
    ensures Owner(payload, prior, next) == [if payload == recipes.passwd.before then prior else next]
    ensures recipes.passwd.before != recipes.passwd.login && recipes.passwd.before != recipes.passwd.final
  {
    LoginsDistinct(prior, next);
    var before := recipes.passwd.before;
    assert Captured(recipes.Get(Passwd), Passwd, prior, next);
    RenamedOwner(ReadAccounts(before).value, prior, next);
    AccountsRenamed(before, prior, next, false);
    AccountsRenamed(before, prior, next, true);
    assert Owner(recipes.passwd.login, prior, next) == [next];
    assert Owner(recipes.passwd.final, prior, next) == [next];
  }

  /** The primary group as the projection rewrites it. */
  function ProjectedGroup(group: GroupRow, prior: Account, next: Account, final: bool): GroupRow {
    RenameRow(group, prior, next, final)
  }

  /** The primary group as the reader of a pending rename expects it: each member substituted in place. */
  function SubstitutedGroup(group: GroupRow, prior: Account, next: Account, final: bool): GroupRow {
    group.(name := if final then next.user else group.name,
           members := Map(group.members, (m: string) => if m == prior.user then next.user else m))
  }

  lemma RenamedOwnerGroup(groups: seq<GroupRow>, group: GroupRow, prior: Account, next: Account, final: bool)
    requires prior.user != next.user
    requires Filter(groups, (g: GroupRow) => ClaimsGroup(g, prior, next)) == [group]
    ensures Filter(Map(groups, g => RenameRow(g, prior, next, final)), (g: GroupRow) => ClaimsGroup(g, prior, next))
         == [ProjectedGroup(group, prior, next, final)]
  {
    var claims := (g: GroupRow) => ClaimsGroup(g, prior, next);
    var rename := (g: GroupRow) => RenameRow(g, prior, next, final);
    FilterOfMap(groups, rename, claims);
    assert Map([group], rename) == [ProjectedGroup(group, prior, next, final)];
  }

  /** One group claims the developer's identity at every stage. */
  lemma GroupStage(recipe: Recipe, group: GroupRow, prior: Account, next: Account)
    requires LoginsPlanned(prior, next) && GroupPlanned(recipe, group, prior, next)
    ensures ReadGroups(recipe.login).Ok?
            && OwnerGroup(recipe.login, prior, next) == [ProjectedGroup(group, prior, next, false)]
    ensures ReadGroups(recipe.final).Ok?
            && OwnerGroup(recipe.final, prior, next) == [ProjectedGroup(group, prior, next, true)]
    ensures recipe.final != recipe.before && recipe.final != recipe.login
  {
    LoginsDistinct(prior, next);
    RenamedOwnerGroup(ReadGroups(recipe.before).value, group, prior, next, false);
    RenamedOwnerGroup(ReadGroups(recipe.before).value, group, prior, next, true);
    GroupsRenamed(recipe.before, prior, next, false);
    GroupsRenamed(recipe.before, prior, next, true);
  }

  lemma {:induction false} WithoutAll(members: seq<string>, name: string)
    requires forall i :: 0 <= i < |members| ==> members[i] == name
    ensures Without(members, name) == []
  {
    if members != [] {
      WithoutAll(members[1..], name);
    }
  }

  /**
   The writer removes and appends a member, the reader substitutes in place.  On
   the private primary group the two agree exactly when it lists the old login
   at most once.
   */
  lemma MemberListsAgree(group: GroupRow, prior: Account, next: Account, final: bool)
    requires prior.user != next.user && group.name == prior.user
    requires forall i :: 0 <= i < |group.members| ==> group.members[i] == prior.user
    ensures ProjectedGroup(group, prior, next, final) == SubstitutedGroup(group, prior, next, final) <==>
              |group.members| <= 1
  {
    var members := group.members;
    if members != [] {
      assert members[0] in members;
      WithoutAll(members, prior.user);
    }
  }

  /** The smallest disagreement: a group row that lists its own user twice. */
  lemma DuplicateMemberDisagrees()
    ensures var group := GroupRow("dev", 7, ["dev", "dev"]);
            var prior := Account("dev", 7, 7, "/home/dev", "/bin/sh");
            var next := Account("ops", 7, 7, "/home/ops", "/bin/sh");
            && ProjectedGroup(group, prior, next, true) == GroupRow("ops", 7, ["ops"])
            && SubstitutedGroup(group, prior, next, true) == GroupRow("ops", 7, ["ops", "ops"])
  {
    var group := GroupRow("dev", 7, ["dev", "dev"]);
    var prior, next := Account("dev", 7, 7, "/home/dev", "/bin/sh"), Account("ops", 7, 7, "/home/ops", "/bin/sh");
    WithoutAll(group.members, "dev");
    assert "dev" == group.members[0];
    assert SubstitutedGroup(group, prior, next, true).members == ["ops", "ops"];
  }
}
