/**
 The guest as a mutable object, with the atomic replacements the rename is built
 from and a fuse that can end a run before any one of them.
 */
module Guests {
  import opened Text
  import opened Accounts
  import opened Paths
  import opened Plans
  import opened Protocol
  import opened Interruption
  import Locks
  import Subids
  import Receipts

  /**
   An account tool: its process id, the databases it gets to, in order, and whether it then
   reports success.  If it is killed it leaves what it had of its own locks by then.
   */
  datatype Tool = Tool(pid: nat, targets: seq<Database>, succeeds: bool, locking: Fuse)

  const DATABASES: seq<Database> := [Passwd, Shadow, Group, Gshadow]

  const DATABASE_FILES: seq<Locks.File> :=
    [Locks.DatabaseFile(Passwd), Locks.DatabaseFile(Shadow), Locks.DatabaseFile(Group), Locks.DatabaseFile(Gshadow)]

  const RANGE_FILES: seq<Locks.File> := [Locks.RangeFile(false), Locks.RangeFile(true)]

  class Guest {
    var databases: Databases
    var subordinate: Subids.Subordinate
    var homes: map<Directory, nat>
    var grants: map<string, string>
    var receipts: map<string, Receipts.Document>
    var lingering: set<string>
    var listener: set<Unit>
    var journal: Option<Journal>
    const etc: Locks.Directory
    const wick: Wick := etc.wick

    constructor (v: View)
      ensures Now() == v && etc.Sound() && etc.owners == {} && fresh(etc) && fresh(wick)
    {
      databases, subordinate, homes, grants := v.databases, v.subordinate, v.homes, v.grants;
      receipts, lingering, listener, journal := v.receipts, v.lingering, v.listener, v.journal;
      var fuse := new Wick();
      etc := new Locks.Directory(fuse);
    }

    /** The current state as a value. */
    function Now(): View
      reads this
    {
      View(databases, subordinate, homes, grants, receipts, lingering, listener, journal)
    }

    /** Replace the journal. */
    method Publish(plan: Plan, phase: Phase) returns (r: Outcome)
      modifies this`journal, wick
      ensures r == Done || r == Killed
      ensures r == Done ==> journal == Some(Journal(plan, phase))
      ensures r == Killed ==> journal == old(journal)
      ensures old(wick.fuse).Never? ==> wick.fuse.Never? && r == Done
    {
      var alive := wick.Survive();
      if !alive {
        return Killed;
      }
      journal := Some(Journal(plan, phase));
      return Done;
    }
  }

  // ---------- account databases ----------

  /** The content a recovery leaves a recognised database with. */
  function Recovered(recipe: Recipe, payload: Option<string>, final: bool): Option<string> {
    if final || payload == recipe.final then recipe.final else recipe.login
  }

  /** What holds of the databases after any part of a recovery. */
  predicate PartlyRecovered(was: Databases, now: Databases, recipes: Recipes, final: bool) {
    forall db :: now.Get(db) == was.Get(db) || now.Get(db) == Recovered(recipes.Get(db), was.Get(db), final)
  }

  predicate FullyRecovered(was: Databases, now: Databases, recipes: Recipes, final: bool) {
    forall db :: now.Get(db) == Recovered(recipes.Get(db), was.Get(db), final)
  }

  predicate AllCaptured(recipes: Recipes, prior: Account, next: Account) {
    Distinct(prior, next) && forall db :: Captured(recipes.Get(db), db, prior, next)
  }

  lemma RecoverySteps(recipe: Recipe, db: Database, prior: Account, next: Account, payload: Option<string>, final: bool)
    requires Distinct(prior, next) && Captured(recipe, db, prior, next) && recipe.Knows(payload)
    ensures payload != recipe.final ==>
              Projected(payload, db, prior, next, final) == Ok(Recovered(recipe, payload, final))
  {
    RecipeCloses(recipe, db, prior, next);
  }

  /** Every database still has one of its three captured contents. */
  method Validate(g: Guest, recipes: Recipes) returns (valid: bool)
    ensures valid == DatabasesKnown(g.databases, recipes)
  {
    for k := 0 to |DATABASES|
      invariant forall i :: 0 <= i < k ==> recipes.Get(DATABASES[i]).Knows(g.databases.Get(DATABASES[i]))
    {
      if !recipes.Get(DATABASES[k]).Knows(g.databases.Get(DATABASES[k])) {
        return false;
      }
    }
    forall db
      ensures recipes.Get(db).Knows(g.databases.Get(db))
    {
      EveryDatabase(db);
    }
    return true;
  }

  method RecoverOne(g: Guest, saved: Recipe, db: Database, prior: Account, next: Account, final: bool)
    returns (r: Outcome)
    modifies g`databases, g.wick
    ensures g.databases == old(g.databases)
         || g.databases == old(g.databases).With(db, Recovered(saved, old(g.databases).Get(db), final))
    ensures r == Done ==> g.databases.Get(db) == Recovered(saved, old(g.databases).Get(db), final)
    ensures Distinct(prior, next) && Captured(saved, db, prior, next) && saved.Knows(old(g.databases).Get(db)) ==>
              r != Refusal
    ensures old(g.wick.fuse).Never? ==> g.wick.fuse.Never? && r != Killed
  {
    var payload := g.databases.Get(db);
    var desired := if final then saved.final else saved.login;
    if payload == desired || (!final && payload == saved.final) {
      return Done;
    }
    if Distinct(prior, next) && Captured(saved, db, prior, next) && saved.Knows(payload) {
      RecoverySteps(saved, db, prior, next, payload, final);
    }
    var updated := Project(payload, db, prior, next, final);
    if updated != Ok(desired) {
      return Refusal;
    }
    var alive := g.wick.Survive();
    if !alive {
      return Killed;
    }
    g.databases := g.databases.With(db, updated.value);
    return Done;
  }

  /** With the locks held: every database at or beyond the requested stage, none moved back. */
  method RecoverHeld(g: Guest, recipes: Recipes, prior: Account, next: Account, final: bool, ghost pid: nat,
                     ghost held: seq<nat>)
    returns (r: Outcome)
    requires Locks.Holds(g.etc.names, g.etc.inodes, DATABASE_FILES, held, pid)
    modifies g`databases, g.wick
    ensures PartlyRecovered(old(g.databases), g.databases, recipes, final)
    ensures !DatabasesKnown(old(g.databases), recipes) ==> r == Refusal && g.databases == old(g.databases)
    ensures r == Done ==> FullyRecovered(old(g.databases), g.databases, recipes, final)
    ensures DatabasesKnown(old(g.databases), recipes) && AllCaptured(recipes, prior, next) ==> r != Refusal
    ensures old(g.wick.fuse).Never? ==> g.wick.fuse.Never? && r != Killed
  {
    var valid := Validate(g, recipes);
    if !valid {
      return Refusal;
    }
    ghost var was := g.databases;
    for k := 0 to |DATABASES|
      invariant forall i :: 0 <= i < k ==>
                  g.databases.Get(DATABASES[i]) == Recovered(recipes.Get(DATABASES[i]), was.Get(DATABASES[i]), final)
      invariant forall i :: k <= i < |DATABASES| ==> g.databases.Get(DATABASES[i]) == was.Get(DATABASES[i])
      invariant PartlyRecovered(was, g.databases, recipes, final)
      invariant old(g.wick.fuse).Never? ==> g.wick.fuse.Never?
    {
      var db := DATABASES[k];
      r := RecoverOne(g, recipes.Get(db), db, prior, next, final);
      if r != Done {
        return;
      }
    }
    forall db
      ensures g.databases.Get(db) == Recovered(recipes.Get(db), was.Get(db), final)
    {
      EveryDatabase(db);
    }
    return Done;
  }

  /**
   What a use of the locks of these files by this process keeps: the locks stay sound, entries
   are left only by these processes, success needs the locks to be free, and a use that is
   not killed leaves no new owner and everything as lockable as it was.
   */
  twostate predicate LocksUsed(d: Locks.Directory, files: set<Locks.File>, pid: nat, ids: set<nat>, r: Outcome)
    reads d
  {
    && d.Valid()
    && (old(d.Sound()) ==>
          && d.Sound() && d.owners <= old(d.owners) + ids
          && (r == Done ==> old(d.Lockable(files, pid)))
          && (r != Killed ==>
                d.owners == old(d.owners) && forall any :: d.Lockable(any, pid) <==> old(d.Lockable(any, pid))))
  }

  /** The locks are sound, and nothing keeps this process from those of these files. */
  ghost predicate LocksReady(d: Locks.Directory, files: set<Locks.File>, pid: nat)
    reads d
  {
    d.Sound() && d.Lockable(files, pid)
  }

  lemma FilesDistinct()
    ensures Locks.Distinct(DATABASE_FILES) && Locks.Distinct(RANGE_FILES)
  {
  }

  /**
   Complete a partial rename under the locks of all four databases: every database at or
   beyond the requested stage, none moved back.
   */
  method Recover(g: Guest, recipes: Recipes, prior: Account, next: Account, final: bool, pid: nat) returns (r: Outcome)
    requires g.etc.Valid() && pid in g.etc.live
    modifies g`databases, g.etc`names, g.etc`inodes, g.etc`next, g.etc`owners, g.wick
    ensures PartlyRecovered(old(g.databases), g.databases, recipes, final)
    ensures !DatabasesKnown(old(g.databases), recipes) && r != Killed ==>
              r == Refusal && g.databases == old(g.databases)
    ensures r == Done ==> FullyRecovered(old(g.databases), g.databases, recipes, final)
    ensures LocksUsed(g.etc, Locks.Files(DATABASE_FILES), pid, {pid}, r)
    ensures (old(LocksReady(g.etc, Locks.Files(DATABASE_FILES), pid))
             && DatabasesKnown(old(g.databases), recipes) && AllCaptured(recipes, prior, next)) ==> r != Refusal
    ensures old(g.wick.fuse).Never? ==> g.wick.fuse.Never? && r != Killed
  {
    ghost var names, inodes, owners := g.etc.names, g.etc.inodes, g.etc.owners;
    FilesDistinct();
    var held;
    r, held := Locks.Enter(g.etc, DATABASE_FILES, pid);
    if r != Done {
      return;
    }
    r := RecoverHeld(g, recipes, prior, next, final, pid, held);
    if r == Killed {
      return;
    }
    var left := Locks.Leave(g.etc, DATABASE_FILES, held, pid, names, inodes, owners);
    if left == Killed {
      r := Killed;
    }
  }

  lemma EveryDatabase(db: Database)
    ensures exists k :: 0 <= k < |DATABASES| && DATABASES[k] == db
  {
    match db
    case Passwd => assert DATABASES[0] == db;
    case Shadow => assert DATABASES[1] == db;
    case Group => assert DATABASES[2] == db;
    case Gshadow => assert DATABASES[3] == db;
  }

  /** The content an account tool turns a database into, if it gets to it. */
  function ToolStep(recipe: Recipe, payload: Option<string>, group: bool): Option<string> {
    if !group && payload == recipe.before then recipe.login
    else if group && payload == recipe.login then recipe.final
    else payload
  }

  /** What a tool leaves of its own locks when it is killed. */
  method LeaveLitter(g: Guest, tool: Tool)
    requires g.etc.Valid()
    modifies g.etc`names, g.etc`inodes, g.etc`next, g.etc`owners, g.wick
    ensures LocksUsed(g.etc, {}, tool.pid, {tool.pid}, Killed)
  {
    if tool.pid in g.etc.live {
      g.wick.fuse := tool.locking;
      FilesDistinct();
      var r, held := Locks.Enter(g.etc, DATABASE_FILES, tool.pid);
    }
  }

  /** usermod and groupmod: any of the databases, in any order, may have been written when they end. */
  method RunTool(g: Guest, recipes: Recipes, group: bool, tool: Tool) returns (r: Outcome)
    requires g.etc.Valid()
    modifies g`databases, g.etc`names, g.etc`inodes, g.etc`next, g.etc`owners, g.wick
    ensures forall db :: g.databases.Get(db) == old(g.databases).Get(db)
                      || g.databases.Get(db) == ToolStep(recipes.Get(db), old(g.databases).Get(db), group)
    ensures r == Done ==> tool.succeeds
    ensures r == Refusal ==> !tool.succeeds
    ensures LocksUsed(g.etc, {}, tool.pid, {tool.pid}, Killed) && (r != Killed ==> unchanged(g.etc))
    ensures old(g.wick.fuse).Never? ==> g.wick.fuse.Never? && r != Killed
  {
    ghost var was := g.databases;
    for k := 0 to |tool.targets|
      invariant forall db :: g.databases.Get(db) == was.Get(db)
                          || g.databases.Get(db) == ToolStep(recipes.Get(db), was.Get(db), group)
      invariant forall db :: db !in tool.targets[..k] ==> g.databases.Get(db) == was.Get(db)
      invariant unchanged(g.etc)
      invariant old(g.wick.fuse).Never? ==> g.wick.fuse.Never?
    {
      var db := tool.targets[k];
      if db !in tool.targets[..k] {
        var alive := g.wick.Survive();
        if !alive {
          LeaveLitter(g, tool);
          return Killed;
        }
        g.databases := g.databases.With(db, ToolStep(recipes.Get(db), g.databases.Get(db), group));
      }
    }
    return if tool.succeeds then Done else Refusal;
  }

  // ---------- subordinate ranges ----------

  predicate RangesCaptured(recipes: Subids.Recipes, prior: Account, next: Account) {
    prior.user != next.user && forall gid :: Subids.Captured(recipes.Get(gid), prior.user, next.user, prior.uid)
  }

  predicate PartlyRebound(was: Subids.Subordinate, now: Subids.Subordinate, recipes: Subids.Recipes) {
    forall gid :: now.Get(gid) == was.Get(gid) || now.Get(gid) == recipes.Get(gid).after
  }

  /** Without any captured range both files already are what they should become. */
  lemma NothingToRebind(files: Subids.Subordinate, recipes: Subids.Recipes, prior: Account, next: Account)
    requires RangesCaptured(recipes, prior, next) && RangesKnown(files, recipes)
    requires forall gid :: recipes.Get(gid).ranges == []
    ensures Rebound(files, recipes) && Subids.Observe(files, prior.user, next.user, prior.uid) == Ok(recipes)
  {
    forall gid
      ensures recipes.Get(gid).after == recipes.Get(gid).before
    {
      assert Subids.Captured(recipes.Get(gid), prior.user, next.user, prior.uid);
      Subids.RewrittenWithoutRanges(recipes.Get(gid).before, prior.user, next.user);
    }
    assert recipes.Get(false).Knows(files.Get(false)) && recipes.Get(true).Knows(files.Get(true));
    assert Subids.Captured(recipes.Get(false), prior.user, next.user, prior.uid);
    assert Subids.Captured(recipes.Get(true), prior.user, next.user, prior.uid);
  }

  /** Some file delegates a range to the developer. */
  predicate HasRanges(recipes: Subids.Recipes) {
    recipes.subuid.ranges != [] || recipes.subgid.ranges != []
  }

  /** The files that have to be locked for it. */
  function RangeFiles(recipes: Subids.Recipes): set<Locks.File> {
    if HasRanges(recipes) then Locks.Files(RANGE_FILES) else {}
  }

  /** With the locks held: relabel the owner's lines in both files, skipping one that is already relabelled. */
  method RebindHeld(g: Guest, recipes: Subids.Recipes, prior: Account, next: Account, ghost pid: nat,
                    ghost held: seq<nat>)
    returns (r: Outcome)
    requires Locks.Holds(g.etc.names, g.etc.inodes, RANGE_FILES, held, pid)
    modifies g`subordinate, g.wick
    ensures PartlyRebound(old(g.subordinate), g.subordinate, recipes)
    ensures r == Done ==> Rebound(g.subordinate, recipes)
    ensures !recipes.Get(false).Knows(old(g.subordinate).Get(false)) ==>
              r == Refusal && g.subordinate == old(g.subordinate)
    ensures RangesCaptured(recipes, prior, next) && RangesKnown(old(g.subordinate), recipes) ==> r != Refusal
    ensures old(g.wick.fuse).Never? ==> g.wick.fuse.Never? && r != Killed
  {
    r := RebindFile(g, recipes, prior, next, false);
    if r != Done {
      return;
    }
    r := RebindFile(g, recipes, prior, next, true);
  }

  /** Relabel the owner's lines in both files under their locks; without any range nothing is locked. */
  method Rebind(g: Guest, recipes: Subids.Recipes, prior: Account, next: Account, pid: nat) returns (r: Outcome)
    requires g.etc.Valid() && pid in g.etc.live
    modifies g`subordinate, g.etc`names, g.etc`inodes, g.etc`next, g.etc`owners, g.wick
    ensures PartlyRebound(old(g.subordinate), g.subordinate, recipes)
    ensures RangesCaptured(recipes, prior, next) && RangesKnown(old(g.subordinate), recipes) && r == Done ==>
              Rebound(g.subordinate, recipes)
    ensures LocksUsed(g.etc, RangeFiles(recipes), pid, {pid}, r)
    ensures (old(LocksReady(g.etc, RangeFiles(recipes), pid))
             && RangesCaptured(recipes, prior, next) && RangesKnown(old(g.subordinate), recipes)) ==> r != Refusal
    ensures old(g.wick.fuse).Never? ==> g.wick.fuse.Never? && r != Killed
  {
    if !HasRanges(recipes) {
      if RangesCaptured(recipes, prior, next) && RangesKnown(g.subordinate, recipes) {
        NothingToRebind(g.subordinate, recipes, prior, next);
      }
      if Subids.Observe(g.subordinate, prior.user, next.user, prior.uid) != Ok(recipes) {
        return Refusal;
      }
      return Done;
    }
    ghost var names, inodes, owners := g.etc.names, g.etc.inodes, g.etc.owners;
    FilesDistinct();
    var held;
    r, held := Locks.Enter(g.etc, RANGE_FILES, pid);
    if r != Done {
      return;
    }
    r := RebindHeld(g, recipes, prior, next, pid, held);
    if r == Killed {
      return;
    }
    var left := Locks.Leave(g.etc, RANGE_FILES, held, pid, names, inodes, owners);
    if left == Killed {
      r := Killed;
    }
  }

  /** What a file must hold before its labels are replaced. */
  predicate Rewritable(payload: Option<string>, recipe: Subids.Recipe, prior: string, next: string) {
    && Subids.Rows(payload).Ok?
    && var rows := Subids.Rows(payload).value;
       && Subids.Owned(rows, prior) == recipe.ranges && Subids.Foreign(rows, prior) == recipe.foreign
       && Subids.Unowned(rows, next)
  }

  method RebindFile(g: Guest, recipes: Subids.Recipes, prior: Account, next: Account, gid: bool) returns (r: Outcome)
    modifies g`subordinate, g.wick
    ensures g.subordinate == old(g.subordinate) || g.subordinate == old(g.subordinate).With(gid, recipes.Get(gid).after)
    ensures r == Done ==> g.subordinate.Get(gid) == recipes.Get(gid).after
    ensures g.subordinate != old(g.subordinate) ==>
              Rewritable(old(g.subordinate).Get(gid), recipes.Get(gid), prior.user, next.user)
    ensures !recipes.Get(gid).Knows(old(g.subordinate).Get(gid)) ==> r == Refusal && g.subordinate == old(g.subordinate)
    ensures (Subids.Captured(recipes.Get(gid), prior.user, next.user, prior.uid)
             && recipes.Get(gid).Knows(old(g.subordinate).Get(gid))) ==> r != Refusal
    ensures old(g.wick.fuse).Never? ==> g.wick.fuse.Never? && r != Killed
  {
    var payload, expected := g.subordinate.Get(gid), recipes.Get(gid);
    if !expected.Knows(payload) {
      return Refusal;
    }
    if payload == expected.after {
      return Done;
    }
    var rows := Subids.ReadRows(payload);
    if rows.Refused? || Subids.Owned(rows.value, prior.user) != expected.ranges
       || Subids.Foreign(rows.value, prior.user) != expected.foreign || !Subids.Unowned(rows.value, next.user)
    {
      return Refusal;
    }
    var updated := Subids.Rewritten(rows.value, prior.user, next.user);
    if Some(updated) != expected.after {
      return Refusal;
    }
    var alive := g.wick.Survive();
    if !alive {
      return Killed;
    }
    g.subordinate := g.subordinate.With(gid, Some(updated));
    return Done;
  }

  // ---------- the sudo grant ----------

  /** Retire the old grant, or install the new one once the old is gone. */
  method RebindSudo(g: Guest, plan: Plan, retire: bool) returns (r: Outcome)
    modifies g`grants, g.wick
    ensures g.grants == old(g.grants)
         || (plan.sudo && retire && g.grants == RetiredGrants(old(g.grants), plan))
         || (plan.sudo && !retire && plan.prior.user !in old(g.grants)
             && g.grants == old(g.grants)[plan.next.user := GrantText(plan.next.user)])
    ensures r == Done && retire ==> plan.prior.user !in g.grants
    ensures r == Done && !retire ==> plan.prior.user !in old(g.grants) && plan.sudo == (plan.next.user in g.grants)
    ensures r == Refusal <==>
              || SudoGrant(old(g.grants), plan.prior.user).Refused? || SudoGrant(old(g.grants), plan.next.user).Refused?
              || (!plan.sudo && (plan.prior.user in old(g.grants) || plan.next.user in old(g.grants)))
              || (!retire && plan.sudo && plan.prior.user in old(g.grants))
    ensures old(g.wick.fuse).Never? ==> g.wick.fuse.Never? && r != Killed
  {
    var previous, current := SudoGrant(g.grants, plan.prior.user), SudoGrant(g.grants, plan.next.user);
    if previous.Refused? || current.Refused? {
      return Refusal;
    }
    if !plan.sudo {
      return if previous.value.Some? || current.value.Some? then Refusal else Done;
    }
    if retire {
      if previous.value.Some? {
        var alive := g.wick.Survive();
        if !alive {
          return Killed;
        }
        g.grants := g.grants - {plan.prior.user};
      }
      return Done;
    }
    if previous.value.Some? {
      return Refusal;
    }
    if current.value.None? {
      var alive := g.wick.Survive();
      if !alive {
        return Killed;
      }
      g.grants := g.grants[plan.next.user := GrantText(plan.next.user)];
    }
    return Done;
  }

  // ---------- receipts ----------

  predicate PartlyProjected(was: map<string, Receipts.Document>, now: map<string, Receipts.Document>,
                            recipes: map<string, Receipts.Recipe>, commit: bool) {
    && now.Keys == was.Keys
    && forall p :: p in was ==>
         || now[p] == was[p]
         || (p in recipes && was[p] != recipes[p].after && now[p] == recipes[p].Staged(commit))
  }

  /** Project one receipt to the requested stage, unless it is committed already. */
  method RebindReceipt(g: Guest, plan: Plan, path: string, commit: bool) returns (r: Outcome)
    requires path in g.receipts && path in plan.receipts
    modifies g`receipts, g.wick
    ensures g.receipts == old(g.receipts)
         || (old(g.receipts)[path] != plan.receipts[path].after
             && g.receipts == old(g.receipts)[path := plan.receipts[path].Staged(commit)])
    ensures r == Done ==>
              || g.receipts[path] == plan.receipts[path].after
              || (!commit && g.receipts[path] == plan.receipts[path].moved)
    ensures !plan.receipts[path].Knows(old(g.receipts)[path]) ==> r == Refusal && g.receipts == old(g.receipts)
    ensures (Receipts.Captured(plan.receipts[path], plan.prior, plan.next, plan.packages)
             && Receipts.Movable(plan.prior, plan.next) && plan.receipts[path].Knows(old(g.receipts)[path])) ==>
              r != Refusal
    ensures old(g.wick.fuse).Never? ==> g.wick.fuse.Never? && r != Killed
  {
    var stored, recipe := g.receipts[path], plan.receipts[path];
    if !recipe.Knows(stored) {
      return Refusal;
    }
    if stored == recipe.after {
      return Done;
    }
    if Receipts.Captured(recipe, plan.prior, plan.next, plan.packages) && Receipts.Movable(plan.prior, plan.next) {
      Receipts.ReceiptCloses(recipe, plan.prior, plan.next, plan.packages, stored, commit);
    }
    var projected := Receipts.EditReceipt(stored.value, plan.prior, plan.next, commit, plan.packages);
    if projected.Refused? || Receipts.Encoded(projected.value) != recipe.Staged(commit) {
      return Refusal;
    }
    var alive := g.wick.Survive();
    if !alive {
      return Killed;
    }
    g.receipts := g.receipts[path := Receipts.Encoded(projected.value)];
    return Done;
  }

  /** Project every receipt, in any order, to the requested stage; a committed one is left alone. */
  method RebindReceipts(g: Guest, plan: Plan, commit: bool) returns (r: Outcome)
    modifies g`receipts, g.wick
    ensures PartlyProjected(old(g.receipts), g.receipts, plan.receipts, commit)
    ensures r == Done ==> g.receipts.Keys == plan.receipts.Keys
    ensures r == Done ==> forall p :: p in plan.receipts ==>
              g.receipts[p] == plan.receipts[p].after || (!commit && g.receipts[p] == plan.receipts[p].moved)
    ensures (ReceiptsPlanned(plan.receipts, plan.prior, plan.next, plan.packages)
             && Receipts.Movable(plan.prior, plan.next) && ReceiptsKnown(old(g.receipts), plan.receipts)) ==>
              r != Refusal
    ensures old(g.wick.fuse).Never? ==> g.wick.fuse.Never? && r != Killed
  {
    if g.receipts.Keys != plan.receipts.Keys {
      return Refusal;
    }
    ghost var was := g.receipts;
    var remaining := plan.receipts.Keys;
    while remaining != {}
      invariant remaining <= plan.receipts.Keys && g.receipts.Keys == plan.receipts.Keys
      invariant forall p :: p in remaining ==> g.receipts[p] == was[p]
      invariant forall p :: p in plan.receipts && p !in remaining ==>
                  g.receipts[p] == plan.receipts[p].after || (!commit && g.receipts[p] == plan.receipts[p].moved)
      invariant PartlyProjected(was, g.receipts, plan.receipts, commit)
      invariant old(g.wick.fuse).Never? ==> g.wick.fuse.Never?
    {
      var path :| path in remaining;
      r := RebindReceipt(g, plan, path, commit);
      if r != Done {
        return;
      }
      remaining := remaining - {path};
    }
    return Done;
  }
}
