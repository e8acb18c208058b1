/**
 The operator's commands around the account mutation: begin, fence, quiesced,
 receipts, commit and finish.
 */
module Lifecycle {
  import opened Text
  import opened Accounts
  import opened Plans
  import opened Protocol
  import opened Guests
  import opened Interruption
  import opened Transition
  import Receipts

  // ---------- the listener and lingering ----------

  /** The listener is not part of what the protocol keeps. */
  method Switch(g: Guest, plan: Plan, listener: set<Unit>, ghost origin: View)
    modifies g`listener
    ensures g.listener == listener
    ensures old(Consistent(g.Now(), plan, origin)) ==> Consistent(g.Now(), plan, origin)
  {
    g.listener := listener;
  }

  lemma BothUnits(listener: set<Unit>, target: set<Unit>)
    requires SshSocket in listener <==> SshSocket in target
    requires SshService in listener <==> SshService in target
    ensures listener == target
  {
    forall unit: Unit
      ensures unit in listener <==> unit in target
    {
      assert unit == SshSocket || unit == SshService;
    }
  }

  /** Stop one active unit, if the service manager does as it is told. */
  method Stop(g: Guest, plan: Plan, host: Host, unit: Unit, ghost origin: View) returns (r: Outcome)
    modifies g`listener, g.wick
    ensures old(Consistent(g.Now(), plan, origin)) ==> Consistent(g.Now(), plan, origin)
    ensures g.listener == old(g.listener) || g.listener == old(g.listener) - {unit}
    ensures r == Done && host.manager.Obeys? ==> unit !in g.listener
    ensures r == Refusal ==> host.manager.Fails?
    ensures old(g.wick.fuse).Never? ==> g.wick.fuse.Never? && r != Killed
  {
    if unit !in g.listener {
      return Done;
    }
    if host.manager.Fails? {
      return Refusal;
    }
    var alive := g.wick.Survive();
    if !alive {
      return Killed;
    }
    if host.manager.Obeys? {
      Switch(g, plan, g.listener - {unit}, origin);
    }
    return Done;
  }

  /** Stop the listener, socket first, and make sure that it stopped. */
  method Fence(g: Guest, plan: Plan, host: Host, ghost origin: View) returns (r: Outcome)
    modifies g`listener, g.wick
    ensures old(Consistent(g.Now(), plan, origin)) ==> Consistent(g.Now(), plan, origin)
    ensures r == Done ==> g.listener == {}
    ensures r == Refusal ==> !host.manager.Obeys?
    ensures old(g.wick.fuse).Never? ==> g.wick.fuse.Never? && r != Killed
  {
    r := Stop(g, plan, host, SshSocket, origin);
    if r != Done {
      return;
    }
    r := Stop(g, plan, host, SshService, origin);
    if r != Done {
      return;
    }
    if g.listener != {} {
      if host.manager.Obeys? {
        BothUnits(g.listener, {});
      }
      return Refusal;
    }
    return Done;
  }

  /** Start one unit that was active when the plan was made. */
  method Start(g: Guest, plan: Plan, host: Host, unit: Unit, ghost origin: View) returns (r: Outcome)
    modifies g`listener, g.wick
    ensures old(Consistent(g.Now(), plan, origin)) ==> Consistent(g.Now(), plan, origin)
    ensures g.listener == old(g.listener) || (unit in plan.listener && g.listener == old(g.listener) + {unit})
    ensures r == Done && host.manager.Obeys? && unit in plan.listener ==> unit in g.listener
    ensures r == Refusal ==> host.manager.Fails?
    ensures old(g.wick.fuse).Never? ==> g.wick.fuse.Never? && r != Killed
  {
    if unit !in plan.listener || unit in g.listener {
      return Done;
    }
    if host.manager.Fails? {
      return Refusal;
    }
    var alive := g.wick.Survive();
    if !alive {
      return Killed;
    }
    if host.manager.Obeys? {
      Switch(g, plan, g.listener + {unit}, origin);
    }
    return Done;
  }

  /** Start the units that were active when the plan was made. */
  method RestoreListener(g: Guest, plan: Plan, host: Host, ghost origin: View) returns (r: Outcome)
    modifies g`listener, g.wick
    ensures old(Consistent(g.Now(), plan, origin)) ==> Consistent(g.Now(), plan, origin)
    ensures r == Done && host.manager.Obeys? ==> g.listener == old(g.listener) + plan.listener
    ensures r == Refusal ==> host.manager.Fails?
    ensures old(g.wick.fuse).Never? ==> g.wick.fuse.Never? && r != Killed
  {
    r := Start(g, plan, host, SshSocket, origin);
    if r != Done {
      return;
    }
    r := Start(g, plan, host, SshService, origin);
    if r == Done && host.manager.Obeys? {
      BothUnits(g.listener, old(g.listener) + plan.listener);
    }
  }

  /** Move lingering to the new login, and make sure that it moved. */
  method RestoreLinger(g: Guest, plan: Plan, host: Host) returns (r: Outcome)
    modifies g`lingering, g.wick
    ensures g.lingering == old(g.lingering) || (plan.linger && g.lingering == old(g.lingering) + {plan.next.user})
    ensures r == Done && plan.linger ==> plan.next.user in g.lingering
    ensures r == Refusal ==> !host.manager.Obeys?
    ensures old(g.wick.fuse).Never? ==> g.wick.fuse.Never? && r != Killed
  {
    if plan.linger && plan.next.user !in g.lingering {
      if host.manager.Fails? {
        return Refusal;
      }
      var alive := g.wick.Survive();
      if !alive {
        return Killed;
      }
      if host.manager.Ignores? {
        return Refusal;
      }
      g.lingering := g.lingering + {plan.next.user};
    }
    return Done;
  }

  lemma LingerRestored(v: View, plan: Plan, origin: View)
    requires v.journal.Some? && Consistent(v, plan, origin) && AccountDone(v, plan, origin) && plan.linger
    ensures Consistent(v.(lingering := v.lingering + {plan.next.user}), plan, origin)
  {
    assert v.homes != origin.homes;
    var restored := v.lingering + {plan.next.user};
    assert v.lingering == origin.lingering - {plan.prior.user} + {plan.next.user} ==> restored == v.lingering;
  }

  // ---------- the commands ----------

  /** The planned guest, with nothing mounted below either home. */
  predicate Visible(host: Host, plan: Plan) {
    host.machine == plan.machine && plan.prior.home !in host.mounts && plan.next.home !in host.mounts
  }

  /** The reader recognises the guest, receipts included. */
  method Recognises(g: Guest, plan: Plan, host: Host, ghost origin: View) returns (yes: bool)
    ensures yes <==> Recognisable(g.Now(), plan, host, true)
    ensures Pending(g.Now(), plan, origin) && Visible(host, plan) ==>
              (yes <==> |plan.group.members| <= 1 || g.databases.group == plan.accounts.group.before)
  {
    if Pending(g.Now(), plan, origin) && Visible(host, plan) {
      ReaderAccepts(g.Now(), plan, origin, host, true);
    }
    var read := ValidatePending(g.Now(), plan, host, true);
    forall user
      ensures read == Ok(user) <==> GuestRecognised(g.Now(), plan, host, true, user)
    {
      ReaderExact(g.Now(), plan, host, true, user);
    }
    return read.Ok?;
  }

  /** Make the plan the pending one, or find it already pending. */
  method Begin(g: Guest, plan: Plan, host: Host, ghost origin: View) returns (r: Outcome)
    modifies g`journal, g.wick
    ensures old(Consistent(g.Now(), plan, origin)) ==> Consistent(g.Now(), plan, origin)
    ensures r == Done ==> g.journal.Some? && g.journal.value.plan == plan && Recognisable(g.Now(), plan, host, true)
    ensures r == Done && (old(g.journal).None? || old(g.journal).value.phase == Complete) ==>
              g.journal == Some(Journal(plan, Prepared)) && old(PreparedMatches(g.Now(), host, plan))
    ensures old(g.journal).Some? && old(g.journal).value.phase != Complete && old(g.journal).value.plan != plan ==>
              r == Refusal && g.journal == old(g.journal)
    ensures old(Pending(g.Now(), plan, origin)) && Visible(host, plan)
            && (|plan.group.members| <= 1 || g.databases.group == plan.accounts.group.before)
            && (old(PreparedMatches(g.Now(), host, plan))
                || (old(g.journal).Some? && old(g.journal).value.phase != Complete))
            ==> r != Refusal
    ensures old(g.wick.fuse).Never? ==> g.wick.fuse.Never? && r != Killed
  {
    if g.journal.None? || g.journal.value.phase == Complete {
      r := PublishPrepared(g, plan, host, origin);
      if r != Done {
        return;
      }
    } else if g.journal.value.plan != plan {
      return Refusal;
    }
    var recognised := Recognises(g, plan, host, origin);
    return if recognised then Done else Refusal;
  }

  /** Record that the owners have been quiesced. */
  method MarkQuiesced(g: Guest, plan: Plan, ghost origin: View) returns (r: Outcome)
    modifies g`journal, g.wick
    ensures old(Consistent(g.Now(), plan, origin)) ==> Consistent(g.Now(), plan, origin)
    ensures r == Done ==> g.journal == Some(Journal(plan, Quiesced))
    ensures (old(g.journal).Some? && old(g.journal).value.plan == plan
             && old(g.journal).value.phase in {Prepared, Quiesced}) ==>
              r != Refusal
    ensures old(g.wick.fuse).Never? ==> g.wick.fuse.Never? && r != Killed
  {
    if g.journal.None? || g.journal.value.plan != plan || g.journal.value.phase !in {Prepared, Quiesced} {
      return Refusal;
    }
    r := g.Publish(plan, Quiesced);
  }

  /** The guest holds a completed account, nothing hides its homes, and the service manager works. */
  predicate ReceiptsAdmitted(v: View, plan: Plan, host: Host) {
    v.journal == Some(Journal(plan, AccountReady)) && Visible(host, plan) && host.manager.Obeys?
  }

  /** The account is ready, and its receipts may be projected. */
  ghost predicate ReceiptsDue(v: View, plan: Plan, origin: View) {
    Pending(v, plan, origin) && v.journal == Some(Journal(plan, AccountReady))
  }

  /** Projecting the receipts of such a guest is never refused, and any part of it keeps the protocol. */
  lemma DueSteps(v: View, plan: Plan, origin: View, now: map<string, Receipts.Document>, commit: bool)
    requires ReceiptsDue(v, plan, origin)
    ensures Receipts.Movable(plan.prior, plan.next) && ReceiptsKnown(v.receipts, plan.receipts)
    ensures ReceiptsPlanned(plan.receipts, plan.prior, plan.next, plan.packages)
    ensures PartlyProjected(v.receipts, now, plan.receipts, commit) ==>
              Consistent(v.(receipts := now), plan, origin)
  {
    PlanMovable(plan);
    if PartlyProjected(v.receipts, now, plan.receipts, commit) {
      ReceiptStep(v, plan, origin, now, commit);
    }
  }

  /** Project the receipts of an account that is ready. */
  method ProjectStage(g: Guest, plan: Plan, commit: bool, ghost origin: View) returns (r: Outcome)
    modifies g`receipts, g.wick
    ensures old(ReceiptsDue(g.Now(), plan, origin)) ==> Consistent(g.Now(), plan, origin) && r != Refusal
    ensures r == Done && commit ==> Committed(g.receipts, plan.receipts)
    ensures old(g.wick.fuse).Never? ==> g.wick.fuse.Never? && r != Killed
  {
    ghost var was, good := g.Now(), ReceiptsDue(g.Now(), plan, origin);
    if good {
      DueSteps(was, plan, origin, g.receipts, commit);
    }
    r := RebindReceipts(g, plan, commit);
    if good {
      DueSteps(was, plan, origin, g.receipts, commit);
    }
    assert g.Now() == was.(receipts := g.receipts);
  }

  /** Receipts change only once the journal says that the account is ready and the reader agrees. */
  method ReceiptStage(g: Guest, plan: Plan, host: Host, commit: bool, ghost origin: View) returns (r: Outcome)
    modifies g`receipts, g.wick
    ensures old(Pending(g.Now(), plan, origin)) ==> Consistent(g.Now(), plan, origin)
    ensures r == Done ==> g.journal == Some(Journal(plan, AccountReady))
    ensures r == Done || g.receipts != old(g.receipts) ==> old(Recognisable(g.Now(), plan, host, true))
    ensures r == Done && commit ==> Committed(g.receipts, plan.receipts)
    ensures old(Pending(g.Now(), plan, origin) && ReceiptsAdmitted(g.Now(), plan, host)) ==> r != Refusal
    ensures old(g.wick.fuse).Never? ==> g.wick.fuse.Never? && r != Killed
  {
    if g.journal != Some(Journal(plan, AccountReady)) {
      return Refusal;
    }
    var recognised := Recognises(g, plan, host, origin);
    if !recognised {
      return Refusal;
    }
    r := ProjectStage(g, plan, commit, origin);
  }

  /** Restore the listener and lingering of an account that is ready. */
  method Reopen(g: Guest, plan: Plan, host: Host, ghost origin: View) returns (r: Outcome)
    modifies g`listener, g`lingering, g.wick
    ensures old(Consistent(g.Now(), plan, origin) && g.journal.Some? && AccountDone(g.Now(), plan, origin)) ==>
              Consistent(g.Now(), plan, origin)
    ensures r == Done && plan.linger ==> plan.next.user in g.lingering
    ensures r == Done && host.manager.Obeys? ==> g.listener == old(g.listener) + plan.listener
    ensures r == Refusal ==> !host.manager.Obeys?
    ensures old(g.wick.fuse).Never? ==> g.wick.fuse.Never? && r != Killed
  {
    r := RestoreListener(g, plan, host, origin);
    if r != Done {
      return;
    }
    if Consistent(g.Now(), plan, origin) && g.journal.Some? && AccountDone(g.Now(), plan, origin) && plan.linger {
      LingerRestored(g.Now(), plan, origin);
    }
    r := RestoreLinger(g, plan, host);
  }

  lemma ReadyStep(v: View, plan: Plan, origin: View)
    requires Consistent(v, plan, origin) && Completed(v, plan, origin) && |plan.group.members| <= 1
    ensures Consistent(v.(journal := Some(Journal(plan, Ready))), plan, origin)
  {
    assert LoggedIn(v.databases, plan.accounts);
  }

  /** Publish that every receipt is committed. */
  method PublishReady(g: Guest, plan: Plan, ghost origin: View) returns (r: Outcome)
    modifies g`journal, g.wick
    ensures old(Consistent(g.Now(), plan, origin) && Completed(g.Now(), plan, origin)) && |plan.group.members| <= 1 ==>
              Consistent(g.Now(), plan, origin)
    ensures r != Refusal && (r == Done ==> g.journal == Some(Journal(plan, Ready)))
    ensures old(g.wick.fuse).Never? ==> g.wick.fuse.Never? && r == Done
  {
    if Consistent(g.Now(), plan, origin) && Completed(g.Now(), plan, origin) && |plan.group.members| <= 1 {
      ReadyStep(g.Now(), plan, origin);
    }
    r := g.Publish(plan, Ready);
  }

  /** Project the receipts and reopen the listener. */
  method MoveAndReopen(g: Guest, plan: Plan, host: Host, commit: bool, ghost origin: View) returns (r: Outcome)
    modifies g`receipts, g`listener, g`lingering, g.wick
    ensures old(Pending(g.Now(), plan, origin)) ==>
              && Consistent(g.Now(), plan, origin)
              && (r == Done && commit ==> Completed(g.Now(), plan, origin) && |plan.group.members| <= 1)
    ensures r == Done ==> g.journal == Some(Journal(plan, AccountReady))
    ensures r == Done || g.receipts != old(g.receipts) ==> old(Recognisable(g.Now(), plan, host, true))
    ensures r == Done && plan.linger ==> plan.next.user in g.lingering
    ensures r == Done && host.manager.Obeys? ==> g.listener == old(g.listener) + plan.listener
    ensures r == Done && commit ==> Committed(g.receipts, plan.receipts)
    ensures old(Pending(g.Now(), plan, origin) && ReceiptsAdmitted(g.Now(), plan, host)) ==> r != Refusal
    ensures old(g.wick.fuse).Never? ==> g.wick.fuse.Never? && r != Killed
  {
    ghost var good := Pending(g.Now(), plan, origin);
    r := ReceiptStage(g, plan, host, commit, origin);
    if r != Done {
      return;
    }
    assert good ==> Consistent(g.Now(), plan, origin) && AccountDone(g.Now(), plan, origin);
    r := Reopen(g, plan, host, origin);
  }

  /** Project the receipts, reopen the listener, and on commit publish that the rename is ready. */
  method MoveReceipts(g: Guest, plan: Plan, host: Host, commit: bool, ghost origin: View) returns (r: Outcome)
    modifies g`receipts, g`listener, g`lingering, g`journal, g.wick
    ensures old(Pending(g.Now(), plan, origin)) ==> Consistent(g.Now(), plan, origin)
    ensures r == Done ==> g.journal == Some(Journal(plan, if commit then Ready else AccountReady))
    ensures r == Done || g.receipts != old(g.receipts) ==> old(Recognisable(g.Now(), plan, host, true))
    ensures r == Done && plan.linger ==> plan.next.user in g.lingering
    ensures r == Done && host.manager.Obeys? ==> g.listener == old(g.listener) + plan.listener
    ensures r == Done && commit ==> Committed(g.receipts, plan.receipts)
    ensures old(Pending(g.Now(), plan, origin) && ReceiptsAdmitted(g.Now(), plan, host)) ==> r != Refusal
    ensures old(g.wick.fuse).Never? ==> g.wick.fuse.Never? && r != Killed
  {
    r := MoveAndReopen(g, plan, host, commit, origin);
    if r == Done && commit {
      r := PublishReady(g, plan, origin);
    }
  }

  /** What stands in the way of finishing. */
  predicate Unfinishable(v: View, plan: Plan, host: Host) {
    || v.journal.None? || v.journal.value.phase !in {Ready, Complete}
    || !Visible(host, plan)
  }

  /** Drop the journal of a rename that is ready. */
  method Finish(g: Guest, plan: Plan, host: Host, ghost origin: View) returns (r: Outcome)
    modifies g`journal, g.wick
    ensures old(Pending(g.Now(), plan, origin)) ==>
              && Consistent(g.Now(), plan, origin)
              && (r == Done ==> Completed(g.Now(), plan, origin) && Completable(plan))
              && (r == Refusal ==> old(Unfinishable(g.Now(), plan, host)))
    ensures r == Done ==> g.journal.None? && old(GuestRecognised(g.Now(), plan, host, false, plan.next.user))
    ensures old(g.wick.fuse).Never? ==> g.wick.fuse.Never? && r != Killed
  {
    if g.journal.None? || g.journal.value.plan != plan || g.journal.value.phase !in {Ready, Complete} {
      return Refusal;
    }
    var finished := ReadsAsNext(g, plan, host, origin);
    if !finished {
      return Refusal;
    }
    r := DropJournal(g, plan, origin);
  }

  /** The reader recognises the guest and finds the new login. */
  method ReadsAsNext(g: Guest, plan: Plan, host: Host, ghost origin: View) returns (yes: bool)
    ensures yes <==> GuestRecognised(g.Now(), plan, host, false, plan.next.user)
    ensures Pending(g.Now(), plan, origin) && !Unfinishable(g.Now(), plan, host) ==> yes
  {
    if Pending(g.Now(), plan, origin) && !Unfinishable(g.Now(), plan, host) {
      ReadyAccepted(g.Now(), plan, origin, host);
    }
    ReaderExact(g.Now(), plan, host, false, plan.next.user);
    return ValidatePending(g.Now(), plan, host, false) == Ok(plan.next.user);
  }

  method DropJournal(g: Guest, plan: Plan, ghost origin: View) returns (r: Outcome)
    modifies g`journal, g.wick
    ensures r != Refusal && (r == Done ==> g.journal.None?) && (r == Killed ==> g.journal == old(g.journal))
    ensures old(Consistent(g.Now(), plan, origin) && g.journal.Some? && g.journal.value.phase in {Ready, Complete}) ==>
              Consistent(g.Now(), plan, origin) && (r == Done ==> Completed(g.Now(), plan, origin) && Completable(plan))
    ensures old(g.wick.fuse).Never? ==> g.wick.fuse.Never? && r == Done
  {
    var alive := g.wick.Survive();
    if !alive {
      return Killed;
    }
    g.journal := None;
    return Done;
  }

  lemma LoginDone(files: Databases, plan: Plan)
    requires WellPlanned(plan) && Final(files, plan.accounts)
    ensures files.passwd != plan.accounts.passwd.before
  {
    assert files.Get(Passwd) == plan.accounts.Get(Passwd).final;
    AccountStage(plan.accounts, plan.prior, plan.next, plan.accounts.passwd.final);
  }

  /** A rename that is ready reads as the new login. */
  lemma ReadyAccepted(v: View, plan: Plan, origin: View, host: Host)
    requires Pending(v, plan, origin) && !Unfinishable(v, plan, host)
    ensures ValidatePending(v, plan, host, false) == Ok(plan.next.user)
  {
    ReaderAccepts(v, plan, origin, host, false);
    LoginDone(v.databases, plan);
  }
}
