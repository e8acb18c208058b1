/**
 The owning-wait usage ledger: kernel usage is captured before the wait that
 consumes a child, and the ledger's snapshot is judged by a separate validator.
 */
module Usage {
  import opened Text

  /** What the kernel still knows of a child. */
  datatype Kernel = Unspawned | Alive | Zombie | Reaped

  datatype Reason =
    NotSpawned | SpawnFailed | AwaitingTerminal | CaptureFailed | TerminalCaptured | OwningWaitFailed | Unsupported

  /** One bounded attempt record. */
  datatype Record = Record(
    attempt: nat,
    preSpawn: nat,
    ownedPid: Option<nat>,
    terminalPid: Option<nat>,
    terminalCode: Option<int>,
    terminalStatus: Option<int>,
    rawWait: Option<int>,
    returncode: Option<int>,
    postWait: Option<nat>,
    captures: nat,
    reaps: nat,
    captured: bool,
    reason: Reason,
    errno: Option<int>,
    usage: Option<seq<int>>)

  /** A child process, its owner's two flags, and the record they share. */
  datatype Child = Child(record: Record, kernel: Kernel, terminal: bool, failed: bool)

  /** What the non-consuming probe reports. */
  datatype Probe = Running | Terminal(code: int, status: int, usage: seq<int>) | Fault(errno: Option<int>)

  /** What the consuming wait reports: nothing yet, the exit status, or an error. */
  datatype Waited = Nothing | Exited(status: int) | WaitFault(missing: bool)

  const USAGE_FIELDS: nat := 18
  const MICRO: nat := 1000
  const WORD: nat := 0x1_0000_0000_0000_0000
  const HALF: int := 0x8000_0000_0000_0000
  const RECORD_LIMIT: nat := 64

  predicate Word(n: int) {
    -HALF <= n < WORD
  }

  predicate OptionWord(n: Option<int>) {
    n.None? || Word(n.value)
  }

  /** The kernel's answers are machine words, and agree with the child's state. */
  predicate Plausible(kernel: Kernel, probe: Probe, nohang: bool) {
    match probe
    case Running => nohang && kernel == Alive
    case Terminal(code, status, usage) =>
      && kernel == Zombie && Word(code) && Word(status)
      && |usage| == USAGE_FIELDS && forall i :: 0 <= i < |usage| ==> Word(usage[i])
    case Fault(errno) => OptionWord(errno)
  }

  // ---------- the owner's operations on one child ----------

  /** Capture once, without consuming the child; true when the owning wait may go ahead. */
  function Capture(child: Child, probe: Probe): (r: (Child, bool)) {
    if child.terminal || child.failed then (child, true)
    else
      match probe
      case Running => (child, false)
      case Fault(errno) => (child.(failed :=
          true, record := child.record.(reason := CaptureFailed, errno := errno)), true)
      case Terminal(code, status, usage) =>
        (child.(terminal := true,
                record := child.record.(terminalPid := child.record.ownedPid, terminalCode := Some(code),
                                        terminalStatus := Some(status),
                                        captures := 1, reason := TerminalCaptured, usage := Some(usage))),
         true)
  }

  /** The consuming wait of a child that capture has released. */
  function Consume(child: Child, waited: Waited, now: nat): Child {
    match waited
    case Nothing => child
    case WaitFault(_) => child.(failed := true, record := child.record.(captured := false, reason := OwningWaitFailed))
    case Exited(status) =>
      child.(kernel := Reaped,
             record := child.record.(rawWait := Some(status), postWait := Some(now), reaps := child.record.reaps + 1))
  }

  /** Store the exit code and decide whether the observation qualifies. */
  function Qualify(child: Child, code: int): Child {
    var r := child.record;
    child.(record := r.(returncode := Some(code),
                        captured :=
                            child.terminal && !child.failed && r.reaps == 1 && r.rawWait.Some? && r.postWait.Some?))
  }

  /** The owning wait may go ahead: the child was captured before, or cannot be, or the probe settles it now. */
  predicate Released(child: Child, probe: Probe) {
    child.terminal || child.failed || !probe.Running?
  }

  /** What the kernel reported is what the record holds, once; nothing else of the child's identity changes. */
  predicate Observed(was: Child, now: Child, probe: Probe) {
    var r, s := was.record, now.record;
    && s.attempt == r.attempt && s.preSpawn == r.preSpawn && s.ownedPid == r.ownedPid
    && if was.terminal || was.failed || probe.Running? then
         && now.terminal == was.terminal && s.captures == r.captures && s.errno == r.errno
         && s.terminalPid == r.terminalPid && s.terminalCode == r.terminalCode
         && s.terminalStatus == r.terminalStatus && s.usage == r.usage
       else if probe.Terminal? then
         && now.terminal && s.captures == 1 && s.terminalPid == r.ownedPid && s.errno == r.errno
         && s.terminalCode == Some(probe.code) && s.terminalStatus == Some(probe.status)
         && s.usage == Some(probe.usage)
       else
         && !now.terminal && now.failed && s.captures == r.captures && s.errno == probe.errno
         && s.terminalPid == r.terminalPid && s.terminalCode == r.terminalCode
         && s.terminalStatus == r.terminalStatus && s.usage == r.usage
  }

  /** Why the record is as it is after an owned wait. */
  function Explained(was: Child, probe: Probe, raised: bool): Reason {
    if raised then OwningWaitFailed
    else if was.terminal || was.failed || probe.Running? then was.record.reason
    else if probe.Terminal? then TerminalCaptured
    else CaptureFailed
  }

  /** The consuming wait's status and time, if it came to one. */
  predicate Consumed(was: Child, now: Child, probe: Probe, waited: Waited, at: nat) {
    var r, s := was.record, now.record;
    if Released(was, probe) && waited.Exited?
    then s.rawWait == Some(waited.status) && s.postWait == Some(at) && s.reaps == r.reaps + 1 && now.kernel == Reaped
    else s.rawWait == r.rawWait && s.postWait == r.postWait && s.reaps == r.reaps && now.kernel == was.kernel
  }

  /** A child as the owner may find it. */
  predicate Owned(child: Child, clock: nat) {
    var r := child.record;
    && r.preSpawn <= clock && (r.postWait.Some? ==> r.preSpawn <= r.postWait.value <= clock)
    && (child.kernel == Unspawned ==> !child.terminal && r.reaps == 0)
    && r.captures <= 1 && r.reaps <= 1
    && (child.kernel == Reaped <==> r.reaps == 1)
    && (child.kernel == Reaped ==> child.terminal || child.failed)
    && (child.terminal <==> r.captures == 1)
    && (child.terminal ==>
          r.ownedPid.Some? && r.terminalPid == r.ownedPid && r.usage.Some? && |r.usage.value| == USAGE_FIELDS
                           && forall i :: 0 <= i < USAGE_FIELDS ==> Word(r.usage.value[i]))
    && (r.usage.Some? ==> child.terminal)
    && (r.terminalPid.Some? ==> child.terminal)
    && (r.captured ==>
          && child.terminal && !child.failed && child.kernel == Reaped
          && r.rawWait.Some? && r.postWait.Some? && r.returncode.Some?)
    && (r.errno.Some? ==> child.failed)
    && (r.reason == TerminalCaptured ==> child.terminal)
    && (r.ownedPid.Some? ==> Word(r.ownedPid.value))
    && OptionWord(r.terminalCode) && OptionWord(r.terminalStatus) && OptionWord(r.rawWait) && OptionWord(r.returncode)
    && OptionWord(r.errno)
  }

  /** Capture comes before consumption, at most once, and a running child is never consumed. */
  lemma CaptureKeeps(child: Child, probe: Probe, nohang: bool, clock: nat)
    requires Owned(child, clock) && child.kernel != Unspawned && child.record.returncode.None?
             && child.record.ownedPid.Some?
    requires child.kernel != Reaped && Plausible(child.kernel, probe, nohang)
    ensures var (next, ready) := Capture(child, probe);
            && Owned(next, clock) && next.kernel == child.kernel
            && next.record.returncode.None? && next.record.ownedPid == child.record.ownedPid
            && (ready <==> next.terminal || next.failed)
            && (child.kernel == Alive && nohang && probe.Running? && !child.failed && !child.terminal ==> !ready)
  {
  }

  lemma ConsumeKeeps(child: Child, waited: Waited, clock: nat, now: nat)
    requires Owned(child, clock) && child.kernel in {Alive, Zombie} && (child.terminal || child.failed)
    requires clock <= now && (waited.Exited? ==> child.kernel == Zombie && Word(waited.status))
             && child.record.returncode.None?
    ensures Owned(Consume(child, waited, now), now)
    ensures waited.Exited? ==> Consume(child, waited, now).record.reaps == 1
  {
  }

  lemma QualifyKeeps(child: Child, code: int, clock: nat)
    requires Owned(child, clock) && Word(code)
    ensures Owned(Qualify(child, code), clock)
    ensures Qualify(child, code).record.captured <==> child.terminal && !child.failed && child.kernel == Reaped
                                                      && child.record.rawWait.Some? && child.record.postWait.Some?
  {
  }

  // ---------- the ledger ----------

  /** What every schedule of the ledger keeps. */
  predicate LedgerHolds(children: seq<Child>, attempts: nat, overflow: nat, capacity: nat, origin: nat, clock: nat) {
    && |children| <= capacity && attempts == |children| + overflow && (overflow > 0 ==> |children| == capacity)
    && origin <= clock
    && forall i :: 0 <= i < |children| ==>
         && Owned(children[i], clock) && children[i].record.attempt == i + 1 && origin <= children[i].record.preSpawn
         && (children[i].kernel == Reaped ==> children[i].record.returncode.Some?)
         && (children[i].kernel in {Alive, Zombie} ==> children[i].record.ownedPid.Some?)
  }

  /** What a poll that found no exit code and had the lock to itself returns. */
  function PollCode(child: Child, probe: Probe, waited: Waited, code: int, deadstate: Option<int>): Option<int> {
    if !Released(child, probe) || waited.Nothing? then None
    else if waited.Exited? then Some(code)
    else if deadstate.Some? then deadstate
    else if waited.missing then Some(0)
    else None
  }

  class UsageLedger {
    const capacity: nat
    const origin: nat
    var clock: nat
    var attempts: nat
    var overflow: nat
    var children: seq<Child>

    predicate Valid()
      reads this
    {
      LedgerHolds(children, attempts, overflow, capacity, origin, clock)
    }

    constructor (capacity: nat, now: nat)
      ensures Valid() && this.capacity == capacity && origin == now && clock == now
      ensures children == [] && attempts == 0 && overflow == 0
    {
      this.capacity, origin, clock := capacity, now, now;
      attempts, overflow, children := 0, 0, [];
    }

    /** Register an attempt; past the capacity it is only counted. */
    method Begin(now: nat) returns (slot: Option<nat>)
      requires Valid() && clock <= now
      modifies this`clock, this`attempts, this`overflow, this`children
      ensures Valid() && clock == now && attempts == old(attempts) + 1
      ensures slot.None? <==> |old(children)| >= capacity
      ensures slot.None? ==> children == old(children) && overflow == old(overflow) + 1
      ensures slot.Some? ==>
                && |children| > |old(children)| && children[|old(children)|].kernel == Unspawned
                && var record := children[|old(children)|].record;
                   record.preSpawn == now && record.ownedPid.None? && record.returncode.None? && !record.captured
      ensures slot.Some? ==>
                slot.value == |old(children)| && overflow == old(overflow) && |children| == |old(children)| + 1
      ensures old(children) <= children
    {
      clock := now;
      attempts := attempts + 1;
      if |children| >= capacity {
        overflow := overflow + 1;
        return None;
      }
      var record :=
          Record(attempts, now, None, None, None, None, None, None, None, 0, 0, false, NotSpawned, None, None);
      children := children + [Child(record, Unspawned, false, false)];
      return Some(|children| - 1);
    }

    /** The spawn succeeded, failed, or runs unobserved because the runtime is unsupported. */
    method Spawn(slot: nat, pid: Option<nat>, supported: bool)
      requires Valid() && slot < |children| && children[slot].kernel == Unspawned && (pid.Some? ==> Word(pid.value))
      modifies this`children
      ensures Valid() && |children| == |old(children)|
      ensures forall k :: 0 <= k < |children| && k != slot ==> children[k] == old(children)[k]
      ensures children[slot].record.ownedPid == (if pid.Some? then pid else old(children)[slot].record.ownedPid)
      ensures children[slot].kernel == Alive <==> pid.Some? && supported
      ensures children[slot].record.reason ==
                if pid.None? then SpawnFailed else if supported then AwaitingTerminal else Unsupported
    {
      var child := children[slot];
      if pid.None? {
        child := child.(failed := child.failed || supported, record := child.record.(reason := SpawnFailed));
      } else if supported {
        child := child.(kernel := Alive, record := child.record.(ownedPid := pid, reason := AwaitingTerminal));
      } else {
        child := child.(record := child.record.(ownedPid := pid, reason := Unsupported));
      }
      children := children[slot := child];
    }

    /** A child ends on its own. */
    method Exit(slot: nat)
      requires Valid() && slot < |children|
      modifies this`children
      ensures Valid() && |children| == |old(children)|
      ensures forall k :: 0 <= k < |children| && k != slot ==> children[k] == old(children)[k]
      ensures children[slot] == if old(children)[slot].kernel ==
                Alive then old(children)[slot].(kernel := Zombie) else old(children)[slot]
    {
      if children[slot].kernel == Alive {
        children := children[slot := children[slot].(kernel := Zombie)];
      }
    }

    /** One owned wait: capture, then consume only if capture allows it. */
    method OwnedWait(slot: nat, nohang: bool, probe: Probe, waited: Waited, now: nat)
      returns (consumed: bool, raised: bool)
      requires Valid() && slot < |children| && clock <= now
      requires children[slot].kernel in {Alive, Zombie} && children[slot].record.returncode.None?
      requires Plausible(children[slot].kernel, probe, nohang)
      requires waited.Exited? ==> children[slot].kernel == Zombie && Word(waited.status)
      modifies this`children, this`clock
      ensures clock == now && |children| == |old(children)| && forall k :: 0 <= k < |children| && k != slot ==>
                children[k] == old(children)[k]
      ensures Owned(children[slot], clock) && children[slot].record.attempt == old(children)[slot].record.attempt
      ensures children[slot].record.preSpawn == old(children)[slot].record.preSpawn
              && children[slot].record.ownedPid == old(children)[slot].record.ownedPid
      ensures children[slot].record.returncode.None?
      ensures consumed <==> children[slot].kernel == Reaped
      ensures probe.Running? && !old(children)[slot].terminal && !old(children)[slot].failed ==>
                children[slot] == old(children)[slot]
      ensures consumed ==> children[slot].terminal || children[slot].failed
      ensures !consumed ==> children[slot].kernel == old(children)[slot].kernel
      ensures raised ==> waited.WaitFault? && children[slot].failed
      ensures consumed <==> Released(old(children)[slot], probe) && waited.Exited?
      ensures raised <==> Released(old(children)[slot], probe) && waited.WaitFault?
      ensures Observed(old(children)[slot], children[slot], probe)
      ensures Consumed(old(children)[slot], children[slot], probe, waited, now)
      ensures children[slot].record.reason == Explained(old(children)[slot], probe, raised)
      ensures children[slot].record.captured == (old(children)[slot].record.captured && !raised)
    {
      CaptureKeeps(children[slot], probe, nohang, clock);
      var (child, ready) := Capture(children[slot], probe);
      if ready {
        ConsumeKeeps(child, waited, clock, now);
        child := Consume(child, waited, now);
      } else {
        OwnedLater(child, clock, now);
      }
      clock, children := now, children[slot := child];
      consumed, raised := ready && waited.Exited?, ready && waited.WaitFault?;
    }

    /** Store a child whose owner has just learnt or decided its exit code. */
    method Settle(slot: nat, code: int)
      requires slot < |children| && Word(code) && Owned(children[slot], clock)
      requires LedgerHolds(children[slot := Qualify(children[slot], code)], attempts, overflow, capacity, origin, clock)
      modifies this`children
      ensures Valid() && children == old(children)[slot := Qualify(old(children)[slot], code)]
    {
      children := children[slot := Qualify(children[slot], code)];
    }

    /** Poll a child without an exit code, and store the one it gets, if any. */
    method TryPoll(slot: nat, probe: Probe, waited: Waited, code: int, deadstate: Option<int>, now: nat)
      requires Valid() && slot < |children| && clock <= now && Word(code) && OptionWord(deadstate)
      requires children[slot].kernel in {Alive, Zombie} && children[slot].record.returncode.None?
      requires Plausible(children[slot].kernel, probe, true)
      requires waited.Exited? ==> children[slot].kernel == Zombie && Word(waited.status)
      modifies this`children, this`clock
      ensures Valid() && clock == now && |children| == |old(children)|
      ensures forall k :: 0 <= k < |children| && k != slot ==> children[k] == old(children)[k]
      ensures probe.Running? && !old(children)[slot].terminal && !old(children)[slot].failed ==>
                children[slot] == old(children)[slot]
      ensures Observed(old(children)[slot], children[slot], probe)
      ensures Consumed(old(children)[slot], children[slot], probe, waited, now)
      ensures children[slot].record.returncode == PollCode(old(children)[slot], probe, waited, code, deadstate)
      ensures children[slot].record.captured <==>
                Released(old(children)[slot], probe) && waited.Exited? && children[slot].terminal
                && !children[slot].failed
    {
      LedgerLater(children, attempts, overflow, capacity, origin, clock, now);
      var consumed, raised := OwnedWait(slot, true, probe, waited, now);
      if consumed {
        QualifyKeeps(children[slot], code, clock);
        Settle(slot, code);
      } else if raised {
        var known := if deadstate.Some? then deadstate else if waited.missing then Some(0) else None;
        children := children[slot := children[slot].(record := children[slot].record.(returncode := known))];
      }
    }

    /** The owner's poll; it never blocks, and yields to a busy lock. */
    method Poll(slot: nat, busy: bool, probe: Probe, waited: Waited, code: int, deadstate: Option<int>, now: nat)
      returns (returncode: Option<int>)
      requires Valid() && slot < |children| && clock <= now && Word(code) && OptionWord(deadstate)
      requires children[slot].kernel != Unspawned
      requires children[slot].kernel in {Alive, Zombie} ==> Plausible(children[slot].kernel, probe, true)
      requires waited.Exited? ==> children[slot].kernel == Zombie && Word(waited.status)
      modifies this`children, this`clock
      ensures Valid() && clock == now && |children| == |old(children)|
      ensures forall k :: 0 <= k < |children| && k != slot ==> children[k] == old(children)[k]
      ensures returncode == children[slot].record.returncode
      ensures old(children)[slot].record.returncode.Some? || busy ==> children == old(children)
      ensures probe.Running? && !old(children)[slot].terminal && !old(children)[slot].failed ==>
                children == old(children)
      ensures old(children)[slot].record.returncode.None? && !busy ==>
                && Observed(old(children)[slot], children[slot], probe)
                && Consumed(old(children)[slot], children[slot], probe, waited, now)
                && returncode == PollCode(old(children)[slot], probe, waited, code, deadstate)
                && (children[slot].record.captured <==>
                      Released(old(children)[slot], probe) && waited.Exited? && children[slot].terminal
                      && !children[slot].failed)
    {
      if children[slot].record.returncode.Some? || busy {
        LedgerLater(children, attempts, overflow, capacity, origin, clock, now);
        clock := now;
        return children[slot].record.returncode;
      }
      TryPoll(slot, probe, waited, code, deadstate, now);
      return children[slot].record.returncode;
    }

    /** Wait for a child without an exit code, and store the one it gets. */
    method Await(slot: nat, probe: Probe, waited: Waited, code: int, now: nat)
      requires Valid() && slot < |children| && clock <= now && Word(code) && !waited.Nothing?
      requires children[slot].kernel == Zombie && children[slot].record.returncode.None?
      requires Plausible(Zombie, probe, false) && (waited.Exited? ==> Word(waited.status))
      modifies this`children, this`clock
      ensures Valid() && clock == now && |children| == |old(children)|
      ensures forall k :: 0 <= k < |children| && k != slot ==> children[k] == old(children)[k]
      ensures Observed(old(children)[slot], children[slot], probe)
      ensures Consumed(old(children)[slot], children[slot], probe, waited, now)
      ensures children[slot].record.returncode ==
                if waited.Exited? then Some(code) else if waited.missing then Some(0) else None
    {
      LedgerLater(children, attempts, overflow, capacity, origin, clock, now);
      ghost var was := children;
      var consumed, raised := OwnedWait(slot, false, probe, waited, now);
      assert children == was[slot := children[slot]];
      if consumed || waited.missing {
        var settled := if consumed then code else 0;
        QualifyKeeps(children[slot], settled, clock);
        LedgerWith(was, attempts, overflow, capacity, origin, clock, slot, Qualify(children[slot], settled));
        Settle(slot, settled);
      } else {
        LedgerWith(was, attempts, overflow, capacity, origin, clock, slot, children[slot]);
      }
    }

    /** The owner's blocking wait: the child has ended before anything is reported. */
    method Wait(slot: nat, probe: Probe, waited: Waited, code: int, now: nat) returns (returncode: Option<int>)
      requires Valid() && slot < |children| && clock <= now && Word(code) && !waited.Nothing?
      requires children[slot].kernel != Unspawned && Plausible(Zombie, probe, false)
      requires waited.Exited? ==> Word(waited.status)
      modifies this`children, this`clock
      ensures Valid() && clock == now && |children| == |old(children)|
      ensures forall k :: 0 <= k < |children| && k != slot ==> children[k] == old(children)[k]
      ensures returncode == children[slot].record.returncode
      ensures old(children)[slot].record.returncode.Some? ==> children == old(children)
      ensures old(children)[slot].record.returncode.None? ==>
                && Observed(old(children)[slot], children[slot], probe)
                && children[slot].record.rawWait ==
                     (if waited.Exited? then Some(waited.status) else old(children)[slot].record.rawWait)
                && returncode == if waited.Exited? then Some(code) else if waited.missing then Some(0) else None
    {
      if children[slot].record.returncode.Some? {
        LedgerLater(children, attempts, overflow, capacity, origin, clock, now);
        clock := now;
        return children[slot].record.returncode;
      }
      Exit(slot);
      Await(slot, probe, waited, code, now);
      return children[slot].record.returncode;
    }
  }

  lemma LedgerLater(children: seq<Child>, attempts: nat, overflow: nat, capacity: nat, origin: nat, clock: nat,
                    now: nat)
    requires LedgerHolds(children, attempts, overflow, capacity, origin, clock) && clock <= now
    ensures LedgerHolds(children, attempts, overflow, capacity, origin, now)
  {
  }

  lemma LedgerWith(children: seq<Child>, attempts: nat, overflow: nat, capacity: nat, origin: nat, clock: nat,
                   slot: nat, child: Child)
    requires LedgerHolds(children, attempts, overflow, capacity, origin, clock) && slot < |children|
    requires Owned(child, clock) && child.record.attempt == slot + 1 && origin <= child.record.preSpawn
    requires child.kernel == Reaped ==> child.record.returncode.Some?
    requires child.kernel in {Alive, Zombie} ==> child.record.ownedPid.Some?
    ensures LedgerHolds(children[slot := child], attempts, overflow, capacity, origin, clock)
  {
  }

  lemma OwnedLater(child: Child, clock: nat, now: nat)
    requires Owned(child, clock) && clock <= now
    ensures Owned(child, now)
  {
  }

  // ---------- whole schedules ----------

  datatype Action =
    | Launch(pid: Option<nat>, supported: bool)
    | Ends(slot: nat)
    | Polls(slot: nat, busy: bool, probe: Probe, waited: Waited, code: int, deadstate: Option<int>)
    | Waits(slot: nat, probe: Probe, waited: Waited, code: int)

  /** An action the kernel and the runtime could perform on this ledger. */
  predicate Possible(children: seq<Child>, action: Action) {
    match action
    case Launch(pid, _) => pid.Some? ==> Word(pid.value)
    case Ends(slot) => slot < |children|
    case Polls(slot, _, probe, waited, code, deadstate) =>
      && slot < |children| && children[slot].kernel != Unspawned && Word(code) && OptionWord(deadstate)
      && (children[slot].kernel in {Alive, Zombie} ==> Plausible(children[slot].kernel, probe, true))
      && (waited.Exited? ==> children[slot].kernel == Zombie && Word(waited.status))
    case Waits(slot, probe, waited, code) =>
      && slot < |children| && children[slot].kernel != Unspawned && Word(code) && !waited.Nothing?
      && Plausible(Zombie, probe, false) && (waited.Exited? ==> Word(waited.status))
  }

  /** Every schedule of launches, exits, polls and waits, under a clock that never runs back, keeps the ledger sound. */
  method Play(ledger: UsageLedger, actions: seq<Action>, ticks: seq<nat>)
    requires ledger.Valid() && |ticks| == |actions|
    modifies ledger
    ensures ledger.Valid()
  {
    for k := 0 to |actions|
      invariant ledger.Valid()
    {
      var now := ledger.clock + ticks[k];
      if Possible(ledger.children, actions[k]) {
        match actions[k]
        case Launch(pid, supported) =>
          var slot := ledger.Begin(now);
          if slot.Some? {
            ledger.Spawn(slot.value, pid, supported);
          }
        case Ends(slot) =>
          ledger.Exit(slot);
        case Polls(slot, busy, probe, waited, code, deadstate) =>
          var code' := ledger.Poll(slot, busy, probe, waited, code, deadstate, now);
        case Waits(slot, probe, waited, code) =>
          var code' := ledger.Wait(slot, probe, waited, code, now);
      }
    }
  }

  // ---------- snapshots and their validator ----------

  datatype Row = Row(record: Record, start: Option<nat>, end: Option<nat>)

  datatype Snapshot = Snapshot(attempts: nat, overflow: nat, origin: nat, recorded: bool, rows: seq<Row>)

  /** Microseconds since the origin, rounded down, or up; absent when not representable. */
  function Interval(at: Option<nat>, origin: nat, upward: bool): Option<nat> {
    if at.None? || at.value < origin then None
    else
      var rounded := (at.value - origin + if upward then MICRO - 1 else 0) / MICRO;
      if rounded < WORD then Some(rounded) else None
  }

  function RowOf(record: Record, origin: nat): Row {
    Row(record, Interval(Some(record.preSpawn), origin, false), Interval(record.postWait, origin, true))
  }

  function TakeSnapshot(children: seq<Child>, attempts: nat, overflow: nat, origin: nat): Snapshot {
    Snapshot(attempts, overflow, origin, overflow == 0, Map(children, (c: Child) => RowOf(c.record, origin)))
  }

  datatype Verdict = Invalid | Recorded | Unknown

  predicate Scalar(n: nat) {
    n < WORD
  }

  predicate OptionScalar(n: Option<nat>) {
    n.None? || Word(n.value)
  }

  /** The assertions the validator makes about every row. */
  predicate WellTyped(row: Row, attempts: nat) {
    var r := row.record;
    && 1 <= r.attempt <= attempts
    && Word(r.preSpawn) && OptionScalar(r.ownedPid) && OptionScalar(r.terminalPid) && OptionScalar(r.postWait)
    && OptionWord(r.terminalCode) && OptionWord(r.terminalStatus) && OptionWord(r.rawWait) && OptionWord(r.returncode)
    && OptionWord(r.errno)
    && Word(r.captures) && Word(r.reaps) && OptionScalar(row.start) && OptionScalar(row.end)
    && (r.usage.Some? ==> forall i :: 0 <= i < |r.usage.value| ==> Word(r.usage.value[i]))
  }

  /** A row that counts as a complete observation. */
  predicate Good(row: Row, origin: nat) {
    var r := row.record;
    && r.captured && r.captures == 1 && r.reaps == 1 && r.ownedPid.Some? && r.ownedPid == r.terminalPid
    && row.start.Some? && row.end.Some? && r.postWait.Some? && row.end.value >= row.start.value
    && origin + MICRO * row.start.value <= r.preSpawn < origin + MICRO * (row.start.value + 1)
    && origin + MICRO * row.end.value - MICRO < r.postWait.value <= origin + MICRO * row.end.value
    && r.usage.Some? && |r.usage.value| == USAGE_FIELDS && (forall i :: 0 <= i < USAGE_FIELDS ==> r.usage.value[i] >= 0)
    && r.errno.None? && r.rawWait.Some?
  }

  predicate Acceptable(s: Snapshot) {
    && Scalar(s.attempts) && Scalar(s.overflow) && Scalar(s.origin) && |s.rows| <= RECORD_LIMIT
    && (forall i :: 0 <= i < |s.rows| ==> WellTyped(s.rows[i], s.attempts))
    && (forall i, k :: 0 <= i < k < |s.rows| ==> s.rows[i].record.attempt != s.rows[k].record.attempt)
  }

  predicate Complete(s: Snapshot) {
    s.recorded && s.overflow == 0 && s.attempts == |s.rows| && s.attempts > 0
  }

  function Judged(s: Snapshot): Verdict {
    if !Acceptable(s) then Invalid
    else if Complete(s) && forall i :: 0 <= i < |s.rows| ==> Good(s.rows[i], s.origin) then Recorded
    else Unknown
  }

  /** The validator's loop over the rows. */
  method UsageStatus(s: Snapshot) returns (verdict: Verdict)
    ensures verdict == Judged(s)
  {
    if !Scalar(s.attempts) || !Scalar(s.overflow) || !Scalar(s.origin) || |s.rows| > RECORD_LIMIT {
      return Invalid;
    }
    var complete := s.recorded && s.overflow == 0 && s.attempts == |s.rows| && s.attempts > 0;
    var seen: set<nat> := {};
    for k := 0 to |s.rows|
      invariant forall i :: 0 <= i < k ==> WellTyped(s.rows[i], s.attempts)
      invariant forall i, j :: 0 <= i < j < k ==> s.rows[i].record.attempt != s.rows[j].record.attempt
      invariant forall n :: n in seen <==> exists i :: 0 <= i < k && s.rows[i].record.attempt == n
      invariant complete <==> Complete(s) && forall i :: 0 <= i < k ==> Good(s.rows[i], s.origin)
    {
      if !WellTyped(s.rows[k], s.attempts) || s.rows[k].record.attempt in seen {
        return Invalid;
      }
      seen := seen + {s.rows[k].record.attempt};
      complete := complete && Good(s.rows[k], s.origin);
    }
    return if complete then Recorded else Unknown;
  }

  /** Rounding down the start and up the end always satisfies the validator's inequalities. */
  lemma RoundingEncloses(origin: nat, before: nat, after: nat)
    requires origin <= before <= after && after - origin + MICRO < WORD
    ensures var start, end := Interval(Some(before), origin, false), Interval(Some(after), origin, true);
            && start.Some? && end.Some? && start.value <= end.value
            && origin + MICRO * start.value <= before < origin + MICRO * (start.value + 1)
            && origin + MICRO * end.value - MICRO < after <= origin + MICRO * end.value
  {
  }

  /** No negative kernel counter. */
  predicate Counted(child: Child) {
    child.record.usage.Some? ==> forall i :: 0 <= i < |child.record.usage.value| ==> child.record.usage.value[i] >= 0
  }

  predicate AllCounted(children: seq<Child>) {
    forall i :: 0 <= i < |children| ==> children[i].record.captured && Counted(children[i])
  }

  lemma ChildJudged(child: Child, origin: nat, clock: nat, attempts: nat)
    requires Owned(child, clock) && origin <= child.record.preSpawn && clock + MICRO < WORD
             && 1 <= child.record.attempt <= attempts
    ensures WellTyped(RowOf(child.record, origin), attempts)
    ensures Good(RowOf(child.record, origin), origin) <==> child.record.captured && Counted(child)
  {
    var r := child.record;
    if r.postWait.Some? {
      RoundingEncloses(origin, r.preSpawn, r.postWait.value);
    } else {
      RoundingEncloses(origin, r.preSpawn, clock);
    }
  }

  /**
   The ledger always satisfies its validator: while clock and count fit 64 bits, the
   snapshot of any sound ledger is invalid exactly when it holds more than 64 records,
   and is otherwise judged complete exactly when there was an attempt, none overflowed,
   and every child was captured with non-negative counters.
   */
  lemma SnapshotJudged(children: seq<Child>, attempts: nat, overflow: nat, capacity: nat, origin: nat, clock: nat)
    requires LedgerHolds(children, attempts, overflow, capacity, origin, clock)
    requires clock + MICRO < WORD && attempts < WORD
    ensures Judged(TakeSnapshot(children, attempts, overflow, origin))
         == if |children| > RECORD_LIMIT then Invalid
            else if attempts > 0 && overflow == 0 && AllCounted(children) then Recorded
            else Unknown
  {
    var s := TakeSnapshot(children, attempts, overflow, origin);
    forall i | 0 <= i < |children|
      ensures s.rows[i] == RowOf(children[i].record, origin) && s.rows[i].record.attempt == i + 1
      ensures WellTyped(s.rows[i], attempts)
      ensures Good(s.rows[i], origin) <==> children[i].record.captured && Counted(children[i])
    {
      ChildJudged(children[i], origin, clock, attempts);
    }
  }
}
