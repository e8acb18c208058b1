/**
 Whole histories of operator commands, each killed wherever its fuse says, and the
 state every history can be brought to.
 */
module Convergence {
  import opened Text
  import opened Plans
  import opened Protocol
  import opened Guests
  import opened Interruption
  import opened Transition
  import opened Lifecycle
  import Accounts
  import Locks
  import Paths
  import Receipts
  import Subids

  datatype Command =
    | BeginCommand
    | FenceCommand
    | QuiescedCommand
    | AccountCommand
    | ReceiptsCommand
    | CommitCommand
    | FinishCommand
    | Reboot(listener: set<Unit>)

  /** One command: its process, the guest it finds, the account tools it would run, and when it is killed. */
  datatype Run = Run(command: Command, pid: nat, host: Host, usermod: Tool, groupmod: Tool, fuse: Fuse) {

    /** The processes that may leave a lock behind, if this run can be killed at all. */
    function Marks(): set<nat> {
      if fuse.Never? then {} else {pid, usermod.pid, groupmod.pid}
    }

    /** Nothing keeps this run from the locks that the plan needs. */
    ghost predicate LocksOpen(names: Locks.Names, inodes: Locks.Inodes, plan: Plan) {
      Locks.AllFree(names, inodes, host.live + {pid}, LockedFiles(plan), pid)
    }
  }

  function AllMarks(runs: seq<Run>): set<nat> {
    if runs == [] then {} else AllMarks(runs[..|runs| - 1]) + runs[|runs| - 1].Marks()
  }

  /** A new process finds the guest as it is, and may be killed. */
  method Launch(g: Guest, host: Host, pid: nat, fuse: Fuse)
    requires g.etc.Valid()
    modifies g.etc`live, g.etc`contended, g.wick
    ensures g.etc.Valid() && (old(g.etc.Sound()) ==> g.etc.Sound())
    ensures g.etc.live == host.live + {pid} && g.etc.contended == host.contended && g.wick.fuse == fuse
  {
    g.etc.live, g.etc.contended, g.wick.fuse := host.live + {pid}, host.contended, fuse;
  }

  lemma LaunchedReady(d: Locks.Directory, plan: Plan, run: Run)
    requires d.Sound() && d.live == run.host.live + {run.pid} && d.contended == run.host.contended
    ensures LocksReady(d, LockedFiles(plan), run.pid) <==>
              !run.host.contended && run.LocksOpen(d.names, d.inodes, plan)
  {
    assert DATABASE_FILES[0] in Locks.Files(DATABASE_FILES);
  }

  /** One run of the account mutation. */
  method Repeat(g: Guest, plan: Plan, run: Run, ghost origin: View) returns (r: Outcome)
    requires g.etc.Valid()
    modifies g, g.etc, g.wick
    ensures old(Pending(g.Now(), plan, origin)) ==>
              && Pending(g.Now(), plan, origin) && Advanced(old(g.databases), g.databases, plan.accounts)
              && (r == Done ==> g.Now() == RenamedView(old(g.Now()), plan, origin) && Completable(plan))
              && (r == Refusal ==>
                    !(old(Admitted(g.Now(), plan)) && Quiet(run.host, plan) && run.usermod.succeeds
                      && run.groupmod.succeeds && Completable(plan) && old(g.etc.Sound())
                      && run.LocksOpen(old(g.etc.names), old(g.etc.inodes), plan)))
    ensures r == Done || Touched(old(g.Now()), g.Now()) ==> old(MayMutate(g.Now(), plan, run.host))
    ensures JournalMoved(old(g.journal), g.journal, plan)
    ensures g.receipts == old(g.receipts) && g.listener == old(g.listener)
    ensures g.lingering == old(g.lingering) || g.lingering == old(g.lingering) - {plan.prior.user}
    ensures g.etc.Valid()
    ensures old(g.etc.Sound()) ==>
              && g.etc.Sound() && g.etc.owners <= old(g.etc.owners) + run.Marks()
              && (r == Done ==> run.LocksOpen(old(g.etc.names), old(g.etc.inodes), plan))
    ensures run.fuse.Never? ==> r != Killed
  {
    Launch(g, run.host, run.pid, run.fuse);
    if g.etc.Sound() {
      LaunchedReady(g.etc, plan, run);
    }
    r := ApplyAccount(g, plan, run.host, run.usermod, run.groupmod, run.pid, origin);
  }

  /** What a command that succeeds has achieved. */
  predicate Achieved(command: Command, v: View, plan: Plan) {
    match command
    case BeginCommand => v.journal.Some? && v.journal.value.plan == plan
    case FenceCommand => v.listener == {}
    case QuiescedCommand => v.journal == Some(Journal(plan, Quiesced))
    case AccountCommand => v.journal == Some(Journal(plan, AccountReady))
    case ReceiptsCommand => v.journal == Some(Journal(plan, AccountReady))
    case CommitCommand => v.journal == Some(Journal(plan, Ready)) && Committed(v.receipts, plan.receipts)
    case FinishCommand => v.journal.None?
    case Reboot(listener) => v.listener == listener
  }

  /** Every other command; none of them touches the locks. */
  method Operate(g: Guest, plan: Plan, command: Command, host: Host, ghost origin: View) returns (r: Outcome)
    requires !command.AccountCommand?
    modifies g, g.wick
    ensures old(Pending(g.Now(), plan, origin)) ==> Pending(g.Now(), plan, origin) && g.databases == old(g.databases)
    ensures r == Done ==> Achieved(command, g.Now(), plan)
  {
    match command
    case BeginCommand =>
      r := Begin(g, plan, host, origin);
    case FenceCommand =>
      if g.journal.None? || g.journal.value.plan != plan {
        return Refusal;
      }
      r := Fence(g, plan, host, origin);
    case QuiescedCommand =>
      r := MarkQuiesced(g, plan, origin);
    case ReceiptsCommand =>
      r := MoveReceipts(g, plan, host, false, origin);
    case CommitCommand =>
      r := MoveReceipts(g, plan, host, true, origin);
    case FinishCommand =>
      r := Finish(g, plan, host, origin);
    case Reboot(listener) =>
      Switch(g, plan, listener, origin);
      r := Done;
  }

  /** One command, killed when its fuse says. */
  method Perform(g: Guest, plan: Plan, run: Run, ghost origin: View) returns (r: Outcome)
    requires g.etc.Valid()
    modifies g, g.etc, g.wick
    ensures old(Pending(g.Now(), plan, origin)) ==>
              Pending(g.Now(), plan, origin) && Advanced(old(g.databases), g.databases, plan.accounts)
    ensures r == Done && old(Pending(g.Now(), plan, origin)) ==> Achieved(run.command, g.Now(), plan)
    ensures g.etc.Valid() && (old(g.etc.Sound()) ==> g.etc.Sound() && g.etc.owners <= old(g.etc.owners) + run.Marks())
  {
    if !run.command.AccountCommand? {
      Launch(g, run.host, run.pid, run.fuse);
      r := Operate(g, plan, run.command, run.host, origin);
      return;
    }
    if g.journal.None? || g.journal.value.plan != plan {
      return Refusal;
    }
    r := Repeat(g, plan, run, origin);
  }

  /**
   Safety over whole runs: after any sequence of commands, in any order, with any
   kills, refusals, tool failures and reboots, the state is one the protocol
   recognises, the journal phase tells the truth, no database has moved back, and the
   locks are sound, with entries left only by processes of runs that could be killed.
   */
  method Execute(g: Guest, plan: Plan, runs: seq<Run>, ghost origin: View)
    requires g.etc.Valid()
    modifies g, g.etc, g.wick
    ensures old(Pending(g.Now(), plan, origin)) ==>
              Pending(g.Now(), plan, origin) && Advanced(old(g.databases), g.databases, plan.accounts)
    ensures g.etc.Valid()
            && (old(g.etc.Sound()) ==> g.etc.Sound() && g.etc.owners <= old(g.etc.owners) + AllMarks(runs))
  {
    for k := 0 to |runs|
      invariant old(Pending(g.Now(), plan, origin)) ==>
                  Pending(g.Now(), plan, origin) && Advanced(old(g.databases), g.databases, plan.accounts)
      invariant g.etc.Valid()
      invariant old(g.etc.Sound()) ==> g.etc.Sound() && g.etc.owners <= old(g.etc.owners) + AllMarks(runs[..k])
    {
      ghost var before := g.databases;
      var r := Perform(g, plan, runs[k], origin);
      if Advanced(old(g.databases), before, plan.accounts) && Advanced(before, g.databases, plan.accounts) {
        AdvancedFurther(old(g.databases), before, g.databases, plan.accounts);
      }
      assert runs[..k + 1][..k] == runs[..k];
    }
    assert runs[..|runs|] == runs;
  }

  /** Any number of runs of the account mutation. */
  method RepeatAll(g: Guest, plan: Plan, history: seq<Run>, ghost origin: View)
    requires g.etc.Valid()
    modifies g, g.etc, g.wick
    ensures old(Pending(g.Now(), plan, origin) && Admitted(g.Now(), plan)) ==>
              Pending(g.Now(), plan, origin) && Admitted(g.Now(), plan)
    ensures g.receipts == old(g.receipts) && g.listener == old(g.listener)
    ensures g.lingering == old(g.lingering) || g.lingering == old(g.lingering) - {plan.prior.user}
    ensures g.etc.Valid()
    ensures old(g.etc.Sound()) ==> g.etc.Sound() && g.etc.owners <= old(g.etc.owners) + AllMarks(history)
  {
    ghost var good := Pending(g.Now(), plan, origin) && Admitted(g.Now(), plan);
    for k := 0 to |history|
      invariant good ==> Pending(g.Now(), plan, origin) && Admitted(g.Now(), plan)
      invariant g.receipts == old(g.receipts) && g.listener == old(g.listener)
      invariant g.lingering == old(g.lingering) || g.lingering == old(g.lingering) - {plan.prior.user}
      invariant g.etc.Valid()
      invariant old(g.etc.Sound()) ==> g.etc.Sound() && g.etc.owners <= old(g.etc.owners) + AllMarks(history[..k])
    {
      var attempt := Repeat(g, plan, history[k], origin);
      assert history[..k + 1][..k] == history[..k];
    }
    assert history[..|history|] == history;
  }

  lemma SameRenamed(was: View, now: View, plan: Plan, origin: View)
    requires now.receipts == was.receipts && now.listener == was.listener
    requires now.lingering == was.lingering || now.lingering == was.lingering - {plan.prior.user}
    ensures RenamedView(now, plan, origin) == RenamedView(was, plan, origin)
  {
  }

  /**
   Crash convergence of the account mutation.  After any number of runs of it,
   each killed or refused anywhere (inside usermod, groupmod and the locks included),
   one uninterrupted run in a quiet guest succeeds exactly when the plan can be
   completed and the locks that the history left are open to it.  It then ends in the
   state that the first run, had it not been interrupted, would have ended in.  The
   locks are open whenever its process id is new and no live process has the id of one
   that left an entry.
   */
  method Converge(g: Guest, plan: Plan, history: seq<Run>, last: Run, ghost origin: View)
    returns (r: Outcome, ghost names: Locks.Names, ghost inodes: Locks.Inodes)
    requires g.etc.Valid()
    modifies g, g.etc, g.wick
    ensures (old(Pending(g.Now(), plan, origin) && Admitted(g.Now(), plan) && g.etc.Sound()) && last.fuse.Never?
             && Quiet(last.host, plan) && last.usermod.succeeds && last.groupmod.succeeds) ==>
              && (r == Done <==> Completable(plan) && last.LocksOpen(names, inodes, plan))
              && (r == Done ==> g.Now() == RenamedView(old(g.Now()), plan, origin))
    ensures old(g.etc.Sound()) && Stranger(last, old(g.etc.owners) + AllMarks(history)) ==>
              last.LocksOpen(names, inodes, plan)
  {
    ghost var was := g.Now();
    RepeatAll(g, plan, history, origin);
    SameRenamed(was, g.Now(), plan, origin);
    names, inodes := g.etc.names, g.etc.inodes;
    if g.etc.Sound() && Stranger(last, g.etc.owners) {
      StrangerOpen(names, inodes, g.etc.owners, plan, last);
    }
    r := Repeat(g, plan, last, origin);
  }

  /** The process is none of these, and none of these ids is alive. */
  predicate Stranger(run: Run, ids: set<nat>) {
    run.pid !in ids && run.host.live !! ids
  }

  lemma StrangerOpen(names: Locks.Names, inodes: Locks.Inodes, owners: set<nat>, plan: Plan, run: Run)
    requires Locks.LeftBy(names, inodes, owners) && Stranger(run, owners)
    ensures run.LocksOpen(names, inodes, plan)
  {
  }

  /** The guest after a complete rename, listener aside. */
  function FinishedView(plan: Plan, origin: View): View {
    View(FinalDatabases(plan.accounts),
         Subids.Subordinate(plan.subids.subuid.after, plan.subids.subgid.after),
         MovedHomes(origin.homes, plan),
         MovedGrants(origin.grants, plan),
         map p | p in plan.receipts :: plan.receipts[p].after,
         if plan.linger then origin.lingering - {plan.prior.user} + {plan.next.user} else origin.lingering,
         {},
         None)
  }

  // ---------- what the finished guest says ----------

  /** The database with the developer renamed in every row, line by line and field by field. */
  ghost predicate DatabaseRenamed(was: Option<string>, now: Option<string>, db: Accounts.Database,
                                  prior: Accounts.Account, next: Accounts.Account) {
    && was.Some? == now.Some?
    && (was.Some? ==>
          && |Lines(now.value)| == |Lines(was.value)|
          && forall i :: 0 <= i < |Lines(was.value)| ==>
               && Lines(now.value)[i].ending == Lines(was.value)[i].ending
               && Accounts.RowRenamed(Split(Lines(was.value)[i].body, ':'), Split(Lines(now.value)[i].body, ':'), db,
                                      prior, next, true))
  }

  /** The delegated ranges, in order, under the new label and no longer under the old one. */
  ghost predicate RangesRenamed(was: Option<string>, now: Option<string>, prior: string, next: string) {
    && was.Some? == now.Some? && Subids.Rows(was).Ok? && Subids.Rows(now).Ok?
    && Subids.RelabelledAll(Subids.Rows(was).value, Subids.Rows(now).value, prior, next)
    && Subids.Unowned(Subids.Rows(now).value, prior)
  }

  /** The same receipts, moved and committed, none of which mentions the old account. */
  ghost predicate ReceiptsRenamed(was: map<string, Receipts.Document>, now: map<string, Receipts.Document>,
                                  prior: Accounts.Account, next: Accounts.Account,
                                  packages: seq<Receipts.PackageRecipe>) {
    && now.Keys == was.Keys
    && forall p :: p in was ==>
         && Receipts.ReceiptMoved(was[p].value, now[p].value, prior, next, true, packages)
         && Receipts.Digests(now[p].value, packages, true) && Receipts.Forgets(now[p].value, prior)
  }

  /** A value moves from one key to another; all other keys keep theirs. */
  ghost predicate Rekeyed<K(!new), V>(was: map<K, V>, now: map<K, V>, from: K, into: K) {
    && from in was && from !in now && into in now
    && forall k :: k != from && k != into ==> (k in was <==> k in now) && (k in was ==> now[k] == was[k])
  }

  /** The home has its new name, and the grant and lingering, if there were any, are the new login's. */
  ghost predicate NamesRenamed(was: View, now: View, prior: Accounts.Account, next: Accounts.Account) {
    && Rekeyed(was.homes, now.homes, Paths.Place(prior.home), Paths.Place(next.home))
    && now.homes[Paths.Place(next.home)] == was.homes[Paths.Place(prior.home)]
    && (prior.user !in was.grants ==> now.grants == was.grants)
    && (prior.user in was.grants ==>
          Rekeyed(was.grants, now.grants, prior.user, next.user) && now.grants[next.user] == GrantText(next.user))
    && now.lingering ==
         (if prior.user in was.lingering then was.lingering - {prior.user} + {next.user} else was.lingering)
  }

  /** The guest after the rename, described by the guest before it and the two accounts alone. */
  ghost predicate GuestRenamed(was: View, now: View, prior: Accounts.Account, next: Accounts.Account,
                               packages: seq<Receipts.PackageRecipe>) {
    && (forall db :: DatabaseRenamed(was.databases.Get(db), now.databases.Get(db), db, prior, next))
    && (forall gid :: RangesRenamed(was.subordinate.Get(gid), now.subordinate.Get(gid), prior.user, next.user))
    && NamesRenamed(was, now, prior, next)
    && ReceiptsRenamed(was.receipts, now.receipts, prior, next, packages)
    && now.journal.None?
  }

  lemma DatabaseFinal(recipe: Accounts.Recipe, db: Accounts.Database, prior: Accounts.Account, next: Accounts.Account)
    requires Accounts.Distinct(prior, next) && Accounts.Captured(recipe, db, prior, next)
    ensures DatabaseRenamed(recipe.before, recipe.final, db, prior, next)
  {
    if recipe.before.Some? {
      Accounts.ProjectionPreserves(recipe.before.value, db, prior, next, true);
    }
  }

  lemma RangesFinal(recipe: Subids.Recipe, prior: string, next: string, uid: nat)
    requires prior != next && Subids.IsLabel(next) && Subids.Captured(recipe, prior, next, uid)
    ensures RangesRenamed(recipe.before, recipe.after, prior, next)
  {
    if recipe.before.Some? {
      Subids.RelabellingPreserves(recipe.before.value, prior, next, uid);
    }
  }

  lemma ReceiptsFinal(plan: Plan, origin: View)
    requires WellPlanned(plan) && PlannedFrom(origin, plan)
    ensures ReceiptsRenamed(origin.receipts, map p | p in plan.receipts :: plan.receipts[p].after, plan.prior,
                            plan.next, plan.packages)
  {
    PlanMovable(plan);
    forall p | p in plan.receipts
      ensures origin.receipts[p] == plan.receipts[p].before
      ensures Receipts.ReceiptMoved(plan.receipts[p].before.value, plan.receipts[p].after.value, plan.prior, plan.next,
                                    true, plan.packages)
      ensures Receipts.Digests(plan.receipts[p].after.value, plan.packages, true)
              && Receipts.Forgets(plan.receipts[p].after.value, plan.prior)
    {
      Receipts.CapturedReceipt(plan.receipts[p], plan.prior, plan.next, plan.packages);
    }
  }

  lemma DatabasesFinal(plan: Plan, origin: View, db: Accounts.Database)
    requires WellPlanned(plan) && PlannedFrom(origin, plan)
    ensures DatabaseRenamed(origin.databases.Get(db), FinalDatabases(plan.accounts).Get(db), db, plan.prior, plan.next)
  {
    LoginsDistinct(plan.prior, plan.next);
    DatabaseFinal(plan.accounts.Get(db), db, plan.prior, plan.next);
  }

  lemma SubordinateFinal(plan: Plan, origin: View, gid: bool)
    requires WellPlanned(plan) && PlannedFrom(origin, plan)
    ensures RangesRenamed(origin.subordinate.Get(gid), plan.subids.Get(gid).after, plan.prior.user, plan.next.user)
  {
    LoginsDistinct(plan.prior, plan.next);
    RangesFinal(plan.subids.Get(gid), plan.prior.user, plan.next.user, plan.prior.uid);
  }

  lemma NamesFinal(plan: Plan, origin: View)
    requires LoginsPlanned(plan.prior, plan.next) && HomesPlanned(plan) && PlannedFrom(origin, plan)
    ensures NamesRenamed(origin, FinishedView(plan, origin), plan.prior, plan.next)
  {
    assert plan.from != plan.into;
  }

  /**
   What completing a rename means, without the plan's captured contents: every row, range,
   home, grant and receipt of the developer names the new account, nothing names the old
   one, and everything else is as it was.
   */
  lemma FinishedRenames(plan: Plan, origin: View)
    requires WellPlanned(plan) && PlannedFrom(origin, plan)
    ensures GuestRenamed(origin, FinishedView(plan, origin), plan.prior, plan.next, plan.packages)
  {
    var now := FinishedView(plan, origin);
    forall db
      ensures DatabaseRenamed(origin.databases.Get(db), now.databases.Get(db), db, plan.prior, plan.next)
    {
      DatabasesFinal(plan, origin, db);
    }
    forall gid
      ensures RangesRenamed(origin.subordinate.Get(gid), now.subordinate.Get(gid), plan.prior.user, plan.next.user)
    {
      SubordinateFinal(plan, origin, gid);
    }
    NamesFinal(plan, origin);
    ReceiptsFinal(plan, origin);
  }

  lemma CompletedView(v: View, plan: Plan, origin: View)
    requires Consistent(v, plan, origin) && Completed(v, plan, origin) && v.journal.None?
    ensures v.(listener := {}) == FinishedView(plan, origin)
  {
    var ready := v.(journal := Some(Journal(plan, AccountReady)));
    DoneView(ready, ready, plan, origin);
  }

  /** Fence the listener and complete the account. */
  method ResumeAccount(g: Guest, plan: Plan, run: Run, ghost origin: View) returns (r: Outcome)
    requires g.etc.Valid()
    modifies g, g.etc, g.wick
    ensures old(Pending(g.Now(), plan, origin)) ==> Pending(g.Now(), plan, origin)
    ensures old(Pending(g.Now(), plan, origin)) && r == Done ==> g.journal == Some(Journal(plan, AccountReady))
    ensures old(Pending(g.Now(), plan, origin)) && r == Done ==> Completable(plan)
    ensures old(g.etc.Sound()) && r == Done ==> run.LocksOpen(old(g.etc.names), old(g.etc.inodes), plan)
    ensures (old(Pending(g.Now(), plan, origin) && Admitted(g.Now().(listener := {}), plan) && g.etc.Sound())
             && Quiet(run.host, plan) && run.usermod.succeeds && run.groupmod.succeeds && Completable(plan)
             && run.LocksOpen(old(g.etc.names), old(g.etc.inodes), plan)) ==> r == Done
  {
    Launch(g, run.host, run.pid, Never);
    r := Fence(g, plan, run.host, origin);
    if r != Done {
      return;
    }
    if g.etc.Sound() {
      LaunchedReady(g.etc, plan, run);
    }
    r := ApplyAccount(g, plan, run.host, run.usermod, run.groupmod, run.pid, origin);
  }

  /** Move the receipts, then commit them. */
  method ResumeReceipts(g: Guest, plan: Plan, host: Host, ghost origin: View) returns (r: Outcome)
    modifies g, g.wick
    ensures old(Pending(g.Now(), plan, origin)) ==> Pending(g.Now(), plan, origin)
    ensures r == Done ==> g.journal == Some(Journal(plan, Ready))
    ensures old(Pending(g.Now(), plan, origin) && ReceiptsAdmitted(g.Now(), plan, host)) ==> r == Done
  {
    g.wick.fuse := Never;
    r := MoveReceipts(g, plan, host, false, origin);
    if r != Done {
      return;
    }
    r := MoveReceipts(g, plan, host, true, origin);
  }

  /** Quiesce a rename that has only been prepared. */
  method ResumeQuiesce(g: Guest, plan: Plan, ghost origin: View) returns (r: Outcome)
    modifies g, g.wick
    ensures old(Pending(g.Now(), plan, origin)) ==> Pending(g.Now(), plan, origin)
    ensures old(Pending(g.Now(), plan, origin) && g.journal.Some?) ==>
              && r == Done && g.journal.Some? && g.journal.value.plan == plan && g.journal.value.phase != Prepared
              && (g.journal.value.phase in ACCOUNT_PHASES <==> old(g.journal).value.phase in ACCOUNT_PHASES)
  {
    g.wick.fuse := Never;
    if g.journal.None? {
      return Refusal;
    }
    if g.journal.value.phase == Prepared {
      r := MarkQuiesced(g, plan, origin);
      return;
    }
    return Done;
  }

  /** Complete the account of a rename that is at most that far, and commit its receipts. */
  method ResumeMutation(g: Guest, plan: Plan, run: Run, ghost origin: View) returns (r: Outcome)
    requires g.etc.Valid()
    modifies g, g.etc, g.wick
    ensures old(Pending(g.Now(), plan, origin)) ==> Pending(g.Now(), plan, origin)
    ensures r == Done ==> g.journal == Some(Journal(plan, Ready))
    ensures old(g.etc.Sound()) && r == Done ==> run.LocksOpen(old(g.etc.names), old(g.etc.inodes), plan)
    ensures (old(Pending(g.Now(), plan, origin) && Admitted(g.Now().(listener := {}), plan) && g.etc.Sound())
             && Quiet(run.host, plan) && run.usermod.succeeds && run.groupmod.succeeds && Completable(plan)
             && run.LocksOpen(old(g.etc.names), old(g.etc.inodes), plan)) ==> r == Done
  {
    r := ResumeAccount(g, plan, run, origin);
    if r != Done {
      return;
    }
    r := ResumeReceipts(g, plan, run.host, origin);
  }

  lemma LaterPhase(phase: Phase)
    requires phase !in ACCOUNT_PHASES
    ensures phase in {Ready, Complete}
  {
    assert phase.Ready? || phase.Complete?;
  }

  /** The account still has to be completed, for which the locks are needed. */
  predicate AccountOpen(journal: Option<Journal>) {
    journal.Some? && journal.value.phase in ACCOUNT_PHASES
  }

  /** Bring a pending rename to the point where only its journal remains. */
  method ResumeToReady(g: Guest, plan: Plan, run: Run, ghost origin: View) returns (r: Outcome)
    requires g.etc.Valid()
    modifies g, g.etc, g.wick
    ensures old(Pending(g.Now(), plan, origin)) ==> Pending(g.Now(), plan, origin)
    ensures r == Done ==> g.journal.Some? && g.journal.value.phase in {Ready, Complete}
    ensures old(g.etc.Sound()) && r == Done && AccountOpen(old(g.journal)) ==>
              run.LocksOpen(old(g.etc.names), old(g.etc.inodes), plan)
    ensures (old(Pending(g.Now(), plan, origin) && g.journal.Some? && g.journal.value.phase != Prepared
                 && g.etc.Sound())
             && Quiet(run.host, plan) && run.usermod.succeeds && run.groupmod.succeeds && Completable(plan)
             && (AccountOpen(old(g.journal)) ==>
                   run.LocksOpen(old(g.etc.names), old(g.etc.inodes), plan))) ==> r == Done
  {
    if g.journal.None? {
      return Refusal;
    }
    if g.journal.value.phase !in ACCOUNT_PHASES {
      LaterPhase(g.journal.value.phase);
      return Done;
    }
    r := ResumeMutation(g, plan, run, origin);
  }

  /**
   The commands that complete a pending rename, in the operator's order, none of them
   interrupted.  They succeed exactly when the plan can be completed and, while the account
   is not ready yet, the locks are open.
   */
  method Resume(g: Guest, plan: Plan, run: Run, ghost origin: View) returns (r: Outcome)
    requires g.etc.Valid()
    modifies g, g.etc, g.wick
    ensures (old(Pending(g.Now(), plan, origin) && g.journal.Some? && g.etc.Sound())
             && Quiet(run.host, plan) && run.usermod.succeeds && run.groupmod.succeeds) ==>
              && (r == Done <==>
                    Completable(plan)
                    && (AccountOpen(old(g.journal)) ==> run.LocksOpen(old(g.etc.names), old(g.etc.inodes), plan)))
              && (r == Done ==> g.Now().(listener := {}) == FinishedView(plan, origin))
    ensures old(Pending(g.Now(), plan, origin)) ==> Pending(g.Now(), plan, origin)
  {
    r := ResumeQuiesce(g, plan, origin);
    if r != Done {
      return;
    }
    r := ResumeToReady(g, plan, run, origin);
    if r != Done {
      return;
    }
    r := ResumeFinish(g, plan, run.host, origin);
  }

  /** Drop the journal of a rename that is ready. */
  method ResumeFinish(g: Guest, plan: Plan, host: Host, ghost origin: View) returns (r: Outcome)
    modifies g, g.wick
    ensures old(Pending(g.Now(), plan, origin)) ==> Pending(g.Now(), plan, origin)
    ensures old(Pending(g.Now(), plan, origin)) && r == Done ==>
              Completable(plan) && g.Now().(listener := {}) == FinishedView(plan, origin)
    ensures (old(Pending(g.Now(), plan, origin) && g.journal.Some? && g.journal.value.phase in {Ready, Complete})
             && Quiet(host, plan)) ==> r == Done
  {
    ghost var good := Pending(g.Now(), plan, origin);
    g.wick.fuse := Never;
    r := Finish(g, plan, host, origin);
    if good && r == Done {
      CompletedView(g.Now(), plan, origin);
    }
  }

  lemma FinishedIsCompletable(v: View, plan: Plan, origin: View)
    requires Consistent(v, plan, origin) && v.(listener := {}) == FinishedView(plan, origin)
    ensures Completable(plan) && !Untouched(v, origin)
  {
    assert v.homes == MovedHomes(origin.homes, plan) && v.journal.None?;
    HomeHasOneName(v, plan, origin);
  }

  /** Complete a rename that has begun and is not finished. */
  method ResumeBegun(g: Guest, plan: Plan, run: Run, ghost origin: View) returns (r: Outcome)
    requires g.etc.Valid()
    modifies g, g.etc, g.wick
    ensures (old(Pending(g.Now(), plan, origin) && g.etc.Sound()) && Quiet(run.host, plan)
             && run.usermod.succeeds && run.groupmod.succeeds && Completable(plan)
             && run.LocksOpen(old(g.etc.names), old(g.etc.inodes), plan)) ==>
              r == Done && (Untouched(g.Now(), origin) || g.Now().(listener := {}) == FinishedView(plan, origin))
    ensures old(Pending(g.Now(), plan, origin)) ==>
              g.Now().(listener := {}) == FinishedView(plan, origin) ==> Completable(plan)
  {
    ghost var good := Pending(g.Now(), plan, origin);
    if g.journal.None? {
      if good && !Untouched(g.Now(), origin) {
        CompletedView(g.Now(), plan, origin);
      }
      r := Done;
    } else {
      r := Resume(g, plan, run, origin);
    }
    if good && g.Now().(listener := {}) == FinishedView(plan, origin) {
      FinishedIsCompletable(g.Now(), plan, origin);
    }
  }

  /**
   Convergence of the whole protocol.  Start from the state a plan was made in and
   execute any history whatever.  If the plan can be completed, then either nothing has
   happened, or completing the rename by a process whose id is new, while no live process
   has the id of one that left a lock, reaches one and the same guest; if it cannot, no
   history and no completion ever reaches that guest.
   */
  method CompleteRename(g: Guest, plan: Plan, history: seq<Run>, run: Run, ghost origin: View) returns (r: Outcome)
    requires g.etc.Valid()
    modifies g, g.etc, g.wick
    ensures (old(PreparedMatches(g.Now(), run.host, plan) && origin == g.Now() && g.journal.None? && g.etc.Sound())
             && Quiet(run.host, plan) && run.usermod.succeeds && run.groupmod.succeeds && Completable(plan)
             && Stranger(run, old(g.etc.owners) + AllMarks(history))) ==>
              && r == Done && (Untouched(g.Now(), origin) || g.Now().(listener := {}) == FinishedView(plan, origin))
              && GuestRenamed(origin, FinishedView(plan, origin), plan.prior, plan.next, plan.packages)
    ensures old(PreparedMatches(g.Now(), run.host, plan) && origin == g.Now() && g.journal.None?) ==>
              g.Now().(listener := {}) == FinishedView(plan, origin) ==> Completable(plan)
  {
    ghost var good := PreparedMatches(g.Now(), run.host, plan) && origin == g.Now() && g.journal.None?;
    if good {
      PreparedIsPending(g.Now(), run.host, plan);
      FinishedRenames(plan, origin);
    }
    Execute(g, plan, history, origin);
    if g.etc.Sound() && Stranger(run, g.etc.owners) {
      StrangerOpen(g.etc.names, g.etc.inodes, g.etc.owners, plan, run);
    }
    r := ResumeBegun(g, plan, run, origin);
  }
}
