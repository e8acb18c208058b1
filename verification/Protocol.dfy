/**
 Pending renames: the states a rename may be in, what its journal phase promises
 about them, and the reader that recognises them.
 */
module Protocol {
  import opened Text
  import opened Accounts
  import opened Paths
  import opened Plans
  import Subids
  import Receipts

  // ---------- stages of each owned part ----------

  predicate DatabasesKnown(files: Databases, recipes: Recipes) {
    forall db :: recipes.Get(db).Knows(files.Get(db))
  }

  predicate LoggedIn(files: Databases, recipes: Recipes) {
    forall db :: recipes.Get(db).LoggedIn(files.Get(db))
  }

  predicate Final(files: Databases, recipes: Recipes) {
    forall db :: files.Get(db) == recipes.Get(db).final
  }

  /** Contents only ever move from before to login to final. */
  predicate Advanced(was: Databases, now: Databases, recipes: Recipes) {
    forall db ::
      && (was.Get(db) == recipes.Get(db).final ==> now.Get(db) == was.Get(db))
      && (recipes.Get(db).LoggedIn(was.Get(db)) ==> recipes.Get(db).LoggedIn(now.Get(db)))
  }

  predicate RangesKnown(files: Subids.Subordinate, recipes: Subids.Recipes) {
    forall gid :: recipes.Get(gid).Knows(files.Get(gid))
  }

  predicate Rebound(files: Subids.Subordinate, recipes: Subids.Recipes) {
    forall gid :: files.Get(gid) == recipes.Get(gid).after
  }

  predicate ReceiptsKnown(stored: map<string, Receipts.Document>, recipes: map<string, Receipts.Recipe>) {
    stored.Keys == recipes.Keys && forall p :: p in recipes ==> recipes[p].Knows(stored[p])
  }

  predicate Committed(stored: map<string, Receipts.Document>, recipes: map<string, Receipts.Recipe>) {
    stored.Keys == recipes.Keys && forall p :: p in recipes ==> stored[p] == recipes[p].after
  }

  function MovedHomes(homes: map<Directory, nat>, plan: Plan): map<Directory, nat> {
    (homes - {plan.from})[plan.into := plan.home]
  }

  function RetiredGrants(grants: map<string, string>, plan: Plan): map<string, string> {
    grants - {plan.prior.user}
  }

  function MovedGrants(grants: map<string, string>, plan: Plan): map<string, string> {
    var retired := RetiredGrants(grants, plan);
    if plan.sudo then retired[plan.next.user := GrantText(plan.next.user)] else retired
  }

  function FinalDatabases(recipes: Recipes): Databases {
    Databases(recipes.passwd.final, recipes.shadow.final, recipes.group.final, recipes.gshadow.final)
  }

  // ---------- the pending states ----------

  /** Every part is in one of its recognised states, and everything foreign is as it was. */
  predicate Recognised(v: View, plan: Plan, origin: View) {
    && DatabasesKnown(v.databases, plan.accounts)
    && RangesKnown(v.subordinate, plan.subids)
    && (v.homes == origin.homes || v.homes == MovedHomes(origin.homes, plan))
    && (v.grants == origin.grants || v.grants == RetiredGrants(origin.grants, plan)
        || v.grants == MovedGrants(origin.grants, plan))
    && ReceiptsKnown(v.receipts, plan.receipts)
    && (v.lingering == origin.lingering || v.lingering == origin.lingering - {plan.prior.user}
        || (plan.linger && v.lingering == origin.lingering - {plan.prior.user} + {plan.next.user}))
  }

  /** The account half of the rename is complete. */
  predicate AccountDone(v: View, plan: Plan, origin: View) {
    && v.homes == MovedHomes(origin.homes, plan)
    && Final(v.databases, plan.accounts)
    && Rebound(v.subordinate, plan.subids)
    && v.grants == MovedGrants(origin.grants, plan)
  }

  /** The order in which effects may become visible. */
  predicate Ordered(v: View, plan: Plan, origin: View) {
    && (v.homes != origin.homes ==> Adjacent(plan) && plan.prior.user !in v.grants && plan.prior.user !in v.lingering)
    && (v.databases != origin.databases ==> v.homes == MovedHomes(origin.homes, plan))
    && (v.subordinate != origin.subordinate ==> Final(v.databases, plan.accounts))
    && (plan.next.user in v.grants ==> Final(v.databases, plan.accounts) && Rebound(v.subordinate, plan.subids))
    && (v.receipts != origin.receipts ==> AccountDone(v, plan, origin))
  }

  /** Nothing of the rename has happened. */
  predicate Untouched(v: View, origin: View) {
    && v.databases == origin.databases && v.subordinate == origin.subordinate && v.homes == origin.homes
    && v.grants == origin.grants && v.receipts == origin.receipts && v.lingering == origin.lingering
  }

  /** All of the rename has happened. */
  predicate Completed(v: View, plan: Plan, origin: View) {
    && AccountDone(v, plan, origin) && Committed(v.receipts, plan.receipts)
    && (plan.linger ==> plan.next.user in v.lingering)
  }

  /**
   What the published phase promises, although a repeated run publishes earlier
   phases again.  Without a journal there is nothing in between: the rename has
   not begun or it is complete.
   */
  predicate PhaseHolds(v: View, plan: Plan, origin: View) {
    match v.journal
    case None => Untouched(v, origin) || (Completed(v, plan, origin) && |plan.group.members| <= 1)
    case Some(Journal(owner, phase)) =>
      && owner == plan
      && (phase in {Prepared, Quiesced} ==> v.databases == origin.databases)
      && (phase in {HomeMoved, AccountRenamed, AccountReady, Ready, Complete} ==>
            v.homes == MovedHomes(origin.homes, plan))
      && (phase in {AccountRenamed, AccountReady, Ready, Complete} ==> LoggedIn(v.databases, plan.accounts))
      && (phase in {AccountReady, Ready, Complete} ==> AccountDone(v, plan, origin) && |plan.group.members| <= 1)
      && (phase in {Ready, Complete} ==> Completed(v, plan, origin))
  }

  /** The plan belongs to this origin and moves one login to another. */
  predicate Rooted(plan: Plan, origin: View) {
    PlannedFrom(origin, plan) && plan.prior.user != plan.next.user && plan.from != plan.into
  }

  /** What every step of the protocol keeps. */
  predicate Consistent(v: View, plan: Plan, origin: View) {
    && Rooted(plan, origin)
    && Recognised(v, plan, origin)
    && Ordered(v, plan, origin)
    && PhaseHolds(v, plan, origin)
  }

  /** The invariant of the whole protocol: a plan that was properly made, and a state it can be in. */
  predicate Pending(v: View, plan: Plan, origin: View) {
    WellPlanned(plan) && Consistent(v, plan, origin)
  }

  /** The state in which a plan was just made is pending. */
  lemma PreparedIsPending(v: View, host: Host, plan: Plan)
    requires PreparedMatches(v, host, plan)
    requires v.journal.Some? ==> v.journal.value == Journal(plan, Prepared)
    ensures Pending(v, plan, v)
  {
    PreparedEstablishes(v, host, plan);
  }

  /** The old and the new sudo grant never coexist. */
  lemma GrantsNeverCoexist(v: View, plan: Plan, origin: View)
    requires Consistent(v, plan, origin)
    ensures !(plan.prior.user in v.grants && plan.next.user in v.grants)
  {
  }

  /** The home has exactly one name at every moment, and its identity never changes. */
  lemma HomeHasOneName(v: View, plan: Plan, origin: View)
    requires Consistent(v, plan, origin)
    ensures (plan.from in v.homes) != (plan.into in v.homes)
    ensures v.homes[if plan.from in v.homes then plan.from else plan.into] == plan.home
    ensures (plan.into in v.homes) == (v.homes == MovedHomes(origin.homes, plan))
    ensures plan.into in v.homes ==> Adjacent(plan)
  {
  }

  // ---------- the reader of pending renames ----------

  /** The source's check of every part against the plan; the login now in passwd, or a refusal. */
  function ValidatePending(v: View, plan: Plan, host: Host, receipts: bool): Result<string> {
    if plan.machine != host.machine || !DatabasesKnown(v.databases, plan.accounts) then Refused
    else if ReadAccounts(v.databases.passwd).Refused? || ReadGroups(v.databases.group).Refused? then Refused
    else
      var owned := Owner(v.databases.passwd, plan.prior, plan.next);
      var groups := OwnerGroup(v.databases.group, plan.prior, plan.next);
      if |owned| != 1 || (owned[0] != plan.prior && owned[0] != plan.next) then Refused
      else if (plan.from in v.homes) == (plan.into in v.homes) then Refused
      else if v.homes[if plan.from in v.homes then plan.from else plan.into] != plan.home then Refused
      else if Parent(if plan.from in v.homes then plan.prior.home else plan.next.home) != plan.parent then Refused
      else if plan.prior.home in host.mounts || plan.next.home in host.mounts then Refused
      else if |groups| != 1 || !AllowedGroup(groups[0], plan) then Refused
      else if !RangesKnown(v.subordinate, plan.subids) then Refused
      else if receipts && exists p :: p in plan.receipts && (p !in v.receipts || !plan.receipts[p].Knows(v.receipts[p]))
      then Refused
      else Ok(owned[0].user)
  }

  predicate AllowedGroup(row: GroupRow, plan: Plan) {
    || row == plan.group
    || row == SubstitutedGroup(plan.group, plan.prior, plan.next, false)
    || row == SubstitutedGroup(plan.group, plan.prior, plan.next, true)
  }

  // ---------- what the reader accepts ----------

  /** This passwd row, and no other, has the developer's uid or one of the two logins. */
  ghost predicate SoleAccount(payload: Option<string>, plan: Plan, k: nat)
    requires ReadAccounts(payload).Ok?
  {
    var rows := ReadAccounts(payload).value;
    k < |rows| && forall i :: 0 <= i < |rows| ==>
      ((rows[i].uid == plan.prior.uid || rows[i].user in [plan.prior.user, plan.next.user]) <==> i == k)
  }

  /** This group row, and no other, has the developer's gid or one of the two logins. */
  ghost predicate SoleGroup(payload: Option<string>, plan: Plan, k: nat)
    requires ReadGroups(payload).Ok?
  {
    var rows := ReadGroups(payload).value;
    k < |rows| && forall i :: 0 <= i < |rows| ==>
      ((rows[i].gid == plan.prior.gid || rows[i].name in [plan.prior.user, plan.next.user]) <==> i == k)
  }

  /** The captured group, or the same with every listing of the old login replaced in place and either name. */
  predicate GroupForm(row: GroupRow, plan: Plan) {
    || row == plan.group
    || (&& row.gid == plan.group.gid && row.name in [plan.group.name, plan.next.user]
        && |row.members| == |plan.group.members|
        && forall i :: 0 <= i < |row.members| ==>
             row.members[i] ==
               if plan.group.members[i] == plan.prior.user then plan.next.user else plan.group.members[i])
  }

  /** The passwd file shows one developer, the old or the new one, under this login. */
  ghost predicate AccountRecognised(payload: Option<string>, plan: Plan, user: string) {
    && ReadAccounts(payload).Ok?
    && exists k: nat :: SoleAccount(payload, plan, k)
                        && ReadAccounts(payload).value[k] in [plan.prior, plan.next]
                        && ReadAccounts(payload).value[k].user == user
  }

  ghost predicate GroupRecognised(payload: Option<string>, plan: Plan) {
    && ReadGroups(payload).Ok?
    && exists k: nat :: SoleGroup(payload, plan, k) && GroupForm(ReadGroups(payload).value[k], plan)
  }

  /** One of the two homes exists: the planned directory, in the planned parent. */
  predicate HomeRecognised(homes: map<Directory, nat>, plan: Plan) {
    || (&& plan.from in homes && plan.into !in homes
        && homes[plan.from] == plan.home && Parent(plan.prior.home) == plan.parent)
    || (&& plan.into in homes && plan.from !in homes
        && homes[plan.into] == plan.home && Parent(plan.next.home) == plan.parent)
  }

  /** Every database, subordinate file and, if asked for, receipt has one of its captured contents. */
  predicate ContentsRecognised(v: View, plan: Plan, receipts: bool) {
    && (forall db ::
          var recipe := plan.accounts.Get(db); v.databases.Get(db) in [recipe.before, recipe.login, recipe.final])
    && (forall gid :: v.subordinate.Get(gid) in [plan.subids.Get(gid).before, plan.subids.Get(gid).after])
    && (receipts ==>
          forall p :: p in plan.receipts ==>
            p in v.receipts
            && v.receipts[p] in [plan.receipts[p].before, plan.receipts[p].moved, plan.receipts[p].after])
  }

  /** A guest in which this plan is recognised, with the developer under this login. */
  ghost predicate GuestRecognised(v: View, plan: Plan, host: Host, receipts: bool, user: string) {
    && host.machine == plan.machine && plan.prior.home !in host.mounts && plan.next.home !in host.mounts
    && ContentsRecognised(v, plan, receipts)
    && AccountRecognised(v.databases.passwd, plan, user) && GroupRecognised(v.databases.group, plan)
    && HomeRecognised(v.homes, plan)
  }

  ghost predicate Recognisable(v: View, plan: Plan, host: Host, receipts: bool) {
    exists user :: GuestRecognised(v, plan, host, receipts, user)
  }

  lemma SoleOwner(payload: Option<string>, plan: Plan, k: nat)
    requires ReadAccounts(payload).Ok?
    ensures SoleAccount(payload, plan, k) <==>
            KeptAt(ReadAccounts(payload).value, (a: Account) => Claims(a, plan.prior, plan.next), k)
  {
  }

  lemma SoleOwnerGroup(payload: Option<string>, plan: Plan, k: nat)
    requires ReadGroups(payload).Ok?
    ensures SoleGroup(payload, plan, k) <==>
            KeptAt(ReadGroups(payload).value, (g: GroupRow) => ClaimsGroup(g, plan.prior, plan.next), k)
  {
  }

  lemma AccountRead(payload: Option<string>, plan: Plan, user: string)
    requires ReadAccounts(payload).Ok?
    ensures var owned := Owner(payload, plan.prior, plan.next);
            AccountRecognised(payload, plan, user) <==>
              |owned| == 1 && (owned[0] == plan.prior || owned[0] == plan.next) && owned[0].user == user
  {
    var rows, claims := ReadAccounts(payload).value, (a: Account) => Claims(a, plan.prior, plan.next);
    if |Owner(payload, plan.prior, plan.next)| == 1 {
      var k := FilterOne(rows, claims);
      SoleOwner(payload, plan, k);
    }
    if AccountRecognised(payload, plan, user) {
      var k: nat :| SoleAccount(payload, plan, k) && rows[k] in [plan.prior, plan.next] && rows[k].user == user;
      SoleOwner(payload, plan, k);
      FilterAt(rows, claims, k);
    }
  }

  lemma GroupRead(payload: Option<string>, plan: Plan)
    requires ReadGroups(payload).Ok?
    ensures var owned := OwnerGroup(payload, plan.prior, plan.next);
            GroupRecognised(payload, plan) <==> |owned| == 1 && AllowedGroup(owned[0], plan)
  {
    var rows, claims := ReadGroups(payload).value, (g: GroupRow) => ClaimsGroup(g, plan.prior, plan.next);
    if |OwnerGroup(payload, plan.prior, plan.next)| == 1 {
      var k := FilterOne(rows, claims);
      SoleOwnerGroup(payload, plan, k);
      GroupForms(rows[k], plan);
    }
    if GroupRecognised(payload, plan) {
      var k: nat :| SoleGroup(payload, plan, k) && GroupForm(rows[k], plan);
      SoleOwnerGroup(payload, plan, k);
      FilterAt(rows, claims, k);
      GroupForms(rows[k], plan);
    }
  }

  lemma GroupForms(row: GroupRow, plan: Plan)
    ensures AllowedGroup(row, plan) <==> GroupForm(row, plan)
  {
    var members := Map(plan.group.members, (m: string) => if m == plan.prior.user then plan.next.user else m);
    if GroupForm(row, plan) && row != plan.group {
      assert row.members == members;
    }
  }

  lemma ContentsRead(v: View, plan: Plan, receipts: bool)
    ensures ContentsRecognised(v, plan, receipts) <==>
            && DatabasesKnown(v.databases, plan.accounts) && RangesKnown(v.subordinate, plan.subids)
            && !(receipts && exists p :: p in plan.receipts
                                         && (p !in v.receipts || !plan.receipts[p].Knows(v.receipts[p])))
  {
    assert forall db :: plan.accounts.Get(db).Knows(v.databases.Get(db)) <==>
             v.databases.Get(db) in [plan.accounts.Get(db).before, plan.accounts.Get(db).login,
                                     plan.accounts.Get(db).final];
  }

  /**
   The reader accepts exactly the recognised guests, in any state whatever, and returns the
   developer's login.
   */
  lemma ReaderExact(v: View, plan: Plan, host: Host, receipts: bool, user: string)
    ensures ValidatePending(v, plan, host, receipts) == Ok(user) <==>
            GuestRecognised(v, plan, host, receipts, user)
  {
    ContentsRead(v, plan, receipts);
    if ReadAccounts(v.databases.passwd).Ok? && ReadGroups(v.databases.group).Ok? {
      AccountRead(v.databases.passwd, plan, user);
      GroupRead(v.databases.group, plan);
    }
  }

  /** The login that passwd names while a rename is pending. */
  function CurrentLogin(v: View, plan: Plan): string {
    if v.databases.passwd == plan.accounts.passwd.before then plan.prior.user else plan.next.user
  }

  /** The group rows that claim the developer, at each recognised content, as the reader judges them. */
  lemma GroupAccepted(plan: Plan, payload: Option<string>)
    requires WellPlanned(plan) && plan.accounts.group.Knows(payload)
    ensures ReadGroups(payload).Ok? && |OwnerGroup(payload, plan.prior, plan.next)| == 1
    ensures AllowedGroup(OwnerGroup(payload, plan.prior, plan.next)[0], plan) <==>
            |plan.group.members| <= 1 || payload == plan.accounts.group.before
  {
    GroupStage(plan.accounts.group, plan.group, plan.prior, plan.next);
    MemberListsAgree(plan.group, plan.prior, plan.next, false);
    MemberListsAgree(plan.group, plan.prior, plan.next, true);
    if |plan.group.members| > 1 {
      RenamedMembers(plan.group.members, plan.prior.user, plan.next.user);
    }
  }

  lemma RenamedMembers(members: seq<string>, prior: string, next: string)
    requires members != [] && forall i :: 0 <= i < |members| ==> members[i] == prior
    ensures Renamed(members, prior, next) == [next]
  {
    assert members[0] in members;
    WithoutAll(members, prior);
  }

  /** The parts of a pending guest other than its accounts pass the reader. */
  lemma PendingParts(v: View, plan: Plan, origin: View, receipts: bool)
    requires Consistent(v, plan, origin) && HomesPlanned(plan)
    ensures ContentsRecognised(v, plan, receipts) && HomeRecognised(v.homes, plan)
  {
    HomeHasOneName(v, plan, origin);
    ContentsRead(v, plan, receipts);
  }

  /** The accounts of a pending guest, as the reader judges them. */
  lemma PendingAccount(v: View, plan: Plan, user: string)
    requires WellPlanned(plan) && DatabasesKnown(v.databases, plan.accounts)
    ensures AccountRecognised(v.databases.passwd, plan, user) <==> user == CurrentLogin(v, plan)
    ensures GroupRecognised(v.databases.group, plan) <==>
            |plan.group.members| <= 1 || v.databases.group == plan.accounts.group.before
  {
    assert plan.accounts.Get(Passwd).Knows(v.databases.Get(Passwd))
           && plan.accounts.Get(Group).Knows(v.databases.Get(Group));
    AccountStage(plan.accounts, plan.prior, plan.next, v.databases.passwd);
    AccountRead(v.databases.passwd, plan, user);
    GroupAccepted(plan, v.databases.group);
    GroupRead(v.databases.group, plan);
  }

  /**
   Writer and reader agree.  On every state the rename can leave, in a guest with
   no mount below either home, the reader returns exactly the login now in passwd;
   the one family it refuses is a primary group that lists the old login more than
   once, from the moment its member list has been rewritten.
   */
  lemma ReaderAccepts(v: View, plan: Plan, origin: View, host: Host, receipts: bool)
    requires Pending(v, plan, origin)
    requires host.machine == plan.machine && plan.prior.home !in host.mounts && plan.next.home !in host.mounts
    ensures ValidatePending(v, plan, host, receipts)
         == if |plan.group.members| <= 1 || v.databases.group == plan.accounts.group.before
            then Ok(CurrentLogin(v, plan)) else Refused
  {
    PendingParts(v, plan, origin, receipts);
    var read := ValidatePending(v, plan, host, receipts);
    forall user
      ensures read == Ok(user) <==>
              && user == CurrentLogin(v, plan)
              && (|plan.group.members| <= 1 || v.databases.group == plan.accounts.group.before)
    {
      PendingAccount(v, plan, user);
      ReaderExact(v, plan, host, receipts, user);
    }
  }
}
