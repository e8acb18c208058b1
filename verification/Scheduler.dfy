/**
 The acceptance collector's slot workers: live checks taken from one queue by
 concurrent slots, each attempt registered, marked and saved before its child may
 start, and a stop request that can arrive at any moment.
 */
module Scheduler {
  import opened Text

  datatype Status = Pending | Running | Passed | Failed | Blocked | Interrupted | NotApplicable | NotRun

  /** A check's stored result; `diagnostic` and `optional` mark the two fixed not-executed records. */
  datatype CheckResult = CheckResult(
    status: Status,
    exitCode: Option<int>,
    exited: bool,
    leased: bool,
    cleaned: bool,
    cleanup: map<string, int>,
    capacity: bool,
    diagnostic: bool,
    optional: bool)

  type Receipt = map<string, CheckResult>

  const RUNNING := CheckResult(Running, None, false, false, false, map[], false, false, false)

  // ---------- verdicts ----------

  predicate IsLive(name: string) {
    name == "p0-release-smoke" || "profile:" <= name || "vm:" <= name
  }

  predicate OptionalNotRun(name: string, result: CheckResult) {
    ("profile:" <= name || "vm:" <= name) && result.status == NotRun && result.optional
  }

  /** The failed check left its slot usable: a recorded lease, with cleanup and release witnessed as passing. */
  predicate SlotContinues(result: CheckResult) {
    && result.status == Failed && result.exited && result.exitCode != Some(3) && result.exitCode != Some(4)
    && result.leased && result.cleaned && "lease-release" in result.cleanup
    && forall name :: name in result.cleanup ==> result.cleanup[name] == 0
  }

  predicate CapacityBlocked(result: CheckResult) {
    result.status == Blocked && result.exitCode == Some(4) && result.exited && result.capacity
  }

  /** The slot may take another check after this result. */
  predicate Continues(result: CheckResult) {
    result.status == Passed || CapacityBlocked(result) || SlotContinues(result)
  }

  /** What it takes to go on, by status: a failure needs its lease recorded and all of its cleanup witnessed. */
  predicate LeftUsable(result: CheckResult) {
    && result.status in {Passed, Failed, Blocked}
    && (result.status == Blocked ==> result.exited && result.exitCode == Some(4) && result.capacity)
    && (result.status == Failed ==>
          && result.exited && result.exitCode !in {Some(3), Some(4)} && result.leased && result.cleaned
          && "lease-release" in result.cleanup && result.cleanup["lease-release"] == 0
          && forall name :: name in result.cleanup ==> result.cleanup[name] == 0)
  }

  lemma ContinuesExact(result: CheckResult)
    ensures Continues(result) <==> LeftUsable(result)
  {
  }

  datatype Verdict = VerdictPassed | VerdictFailed | Incomplete

  predicate Counts(receipt: Receipt, name: string)
    requires name in receipt
  {
    !OptionalNotRun(name, receipt[name])
  }

  /** The reproducible result of a receipt, as every save recomputes it. */
  function Reproducible(receipt: Receipt, exclusions: set<string>): Verdict {
    if exists name :: name in receipt && Counts(receipt, name) && receipt[name].status == Failed then VerdictFailed
    else if exists name :: name in receipt && Counts(receipt, name) && receipt[name].status !in {Passed, NotApplicable}
    then Incomplete
    else if exists name :: name in exclusions
                           && (name !in receipt || (receipt[name].status != NotApplicable && Counts(receipt, name)))
    then Incomplete
    else VerdictPassed
  }

  /** The overall result also needs every external obligation met and the candidate current. */
  function Overall(receipt: Receipt, exclusions: set<string>, obligations: bool, superseded: bool): Verdict {
    var reproducible := Reproducible(receipt, exclusions);
    if superseded || (reproducible == VerdictPassed && !obligations) then Incomplete else reproducible
  }

  /** What a passed verdict certifies, spelled out over every check and exclusion. */
  ghost predicate Certified(receipt: Receipt, exclusions: set<string>) {
    && (forall name :: name in receipt ==>
          || receipt[name].status in {Passed, NotApplicable}
          || (receipt[name].status == NotRun && receipt[name].optional && ("profile:" <= name || "vm:" <= name)))
    && (forall name :: name in exclusions ==>
          && name in receipt && receipt[name].status in {NotApplicable, NotRun}
          && (receipt[name].status == NotRun ==> receipt[name].optional && ("profile:" <= name || "vm:" <= name)))
  }

  /** Both verdicts, for every receipt: passed means certified, failed means that some check failed. */
  lemma VerdictExact(receipt: Receipt, exclusions: set<string>, obligations: bool, superseded: bool)
    ensures Reproducible(receipt, exclusions) == VerdictPassed <==> Certified(receipt, exclusions)
    ensures Reproducible(receipt, exclusions) == VerdictFailed <==>
            exists name :: name in receipt && receipt[name].status == Failed
    ensures Overall(receipt, exclusions, obligations, superseded) == VerdictPassed <==>
            Certified(receipt, exclusions) && obligations && !superseded
    ensures Overall(receipt, exclusions, obligations, superseded) == VerdictFailed <==>
            !superseded && exists name :: name in receipt && receipt[name].status == Failed
  {
    if Reproducible(receipt, exclusions) == VerdictPassed {
      forall name | name in receipt
        ensures receipt[name].status in {Passed, NotApplicable} || OptionalNotRun(name, receipt[name])
      {
        assert Counts(receipt, name) <==> !OptionalNotRun(name, receipt[name]);
      }
    }
    assert forall name :: name in receipt && receipt[name].status == Failed ==> Counts(receipt, name);
  }

  /** The gate of the live phase: every local check passed, the one diagnostic excepted. */
  predicate GateOpen(receipt: Receipt, locals: set<string>) {
    forall name :: name in locals ==>
      name in receipt && (receipt[name].status == Passed || (name == "process-coverage" && receipt[name].diagnostic))
  }

  /** Neither verdict on a receipt is passed, whatever else it is judged with. */
  ghost predicate Uncertified(stored: Receipt) {
    && (forall exclusions :: Reproducible(stored, exclusions) != VerdictPassed)
    && (forall exclusions, obligations,
        superseded :: Overall(stored, exclusions, obligations, superseded) != VerdictPassed)
  }

  lemma RunningUncertified(stored: Receipt, name: string)
    requires name in stored && stored[name].status == Running
    ensures Uncertified(stored)
  {
    assert Counts(stored, name);
  }

  /** How a save ends: well, with the old receipt still in place, or with an error after the new one is in place. */
  datatype Save = Saved | Unsaved | Late {

    /** The receipt that is then on disk. */
    function Stored(was: Receipt, now: Receipt): Receipt {
      if Unsaved? then was else now
    }
  }

  // ---------- the local phase ----------

  /** How the local phase ended: at its end or a stop, or because a save failed. */
  datatype LocalRun = LocalRun(receipt: Receipt, stored: Receipt, done: nat, started: seq<Receipt>, raised: bool)

  /** The results of the first so many local children are recorded. */
  ghost predicate LocalResults(receipt: Receipt, done: nat, before: Receipt, pending: seq<string>,
                               results: map<string, CheckResult>)
    requires forall k :: 0 <= k < |pending| ==> pending[k] in before && pending[k] in results
  {
    && done <= |pending| && receipt.Keys == before.Keys
    && forall k :: 0 <= k < done ==> receipt[pending[k]] == results[pending[k]]
  }

  /** The stored receipt, as each child found it, marks it as running. */
  ghost predicate LocalStarts(started: seq<Receipt>, pending: seq<string>) {
    && |started| <= |pending|
    && forall k :: 0 <= k < |started| ==> pending[k] in started[k] && started[k][pending[k]] == RUNNING
  }

  /** What the local phase promises; `started` holds the stored receipt as each child found it. */
  ghost predicate RanLocals(r: LocalRun, before: Receipt, pending: seq<string>, results: map<string, CheckResult>)
    requires forall k :: 0 <= k < |pending| ==> pending[k] in before && pending[k] in results
  {
    && r.done <= |r.started| <= r.done + 1
    && LocalResults(r.receipt, r.done, before, pending, results) && LocalStarts(r.started, pending)
    && (forall k :: 0 <= k < r.done - 1 ==> results[pending[k]].status == Passed)
    && (!r.raised ==>
          && |r.started| == r.done && r.stored == r.receipt
          && forall k :: r.done <= k < |pending| ==> r.receipt[pending[k]] == before[pending[k]])
  }

  /** How the save with this number ends. */
  function SaveAt(saves: seq<Save>, k: nat): Save {
    if k < |saves| then saves[k] else Saved
  }

  /** The local phase so far: every child passed, every save succeeded, and no other result changed. */
  ghost predicate PassedSoFar(r: LocalRun, before: Receipt, pending: seq<string>, results: map<string, CheckResult>)
    requires forall k :: 0 <= k < |pending| ==> pending[k] in before && pending[k] in results
  {
    && RanLocals(r, before, pending, results) && !r.raised
    && (forall k :: 0 <= k < r.done ==> results[pending[k]].status == Passed)
    && OthersKept(r.receipt, before, pending)
  }

  ghost predicate OthersKept(receipt: Receipt, before: Receipt, pending: seq<string>) {
    forall name :: name in before && name !in pending ==> name in receipt && receipt[name] == before[name]
  }

  lemma StartsNext(started: seq<Receipt>, pending: seq<string>, receipt: Receipt)
    requires LocalStarts(started, pending) && |started| < |pending|
    requires pending[|started|] in receipt && receipt[pending[|started|]] == RUNNING
    ensures LocalStarts(started + [receipt], pending)
  {
  }

  /** A later check's result leaves the earlier ones alone. */
  lemma ResultsNext(receipt: Receipt, done: nat, before: Receipt, pending: seq<string>,
                    results: map<string, CheckResult>, result: CheckResult)
    requires forall k :: 0 <= k < |pending| ==> pending[k] in before && pending[k] in results
    requires forall i, k :: 0 <= i < k < |pending| ==> pending[i] != pending[k]
    requires LocalResults(receipt, done, before, pending, results) && done < |pending|
    ensures LocalResults(receipt[pending[done] := result], done, before, pending, results)
    ensures result == results[pending[done]] ==>
              LocalResults(receipt[pending[done] := result], done + 1, before, pending, results)
  {
  }

  /** The next attempt: marked and saved, run, recorded and saved; a save that fails ends the phase. */
  method Attempt(r: LocalRun, before: Receipt, pending: seq<string>, results: map<string, CheckResult>, marked: Save,
                 recorded: Save)
    returns (t: LocalRun)
    requires forall k :: 0 <= k < |pending| ==> pending[k] in before && pending[k] in results
    requires forall i, k :: 0 <= i < k < |pending| ==> pending[i] != pending[k]
    requires PassedSoFar(r, before, pending, results) && r.done < |pending|
    ensures RanLocals(t, before, pending, results) && OthersKept(t.receipt, before, pending)
    ensures t.done == (if t.raised then r.done else r.done + 1) && t.raised == !(marked.Saved? && recorded.Saved?)
    ensures !t.raised && results[pending[r.done]].status == Passed ==> PassedSoFar(t, before, pending, results)
  {
    var name := pending[r.done];
    var receipt := r.receipt[name := RUNNING];
    ResultsNext(r.receipt, r.done, before, pending, results, RUNNING);
    if !marked.Saved? {
      return r.(receipt := receipt, stored := marked.Stored(r.stored, receipt), raised := true);
    }
    var started, finished := r.started + [receipt], receipt[name := results[name]];
    StartsNext(r.started, pending, receipt);
    ResultsNext(receipt, r.done, before, pending, results, results[name]);
    var done := if recorded.Saved? then r.done + 1 else r.done;
    return LocalRun(finished, recorded.Stored(receipt, finished), done, started, !recorded.Saved?);
  }

  /**
   Run the pending local checks in order, stopping at the first that does not pass, at a
   stop request or at a save that fails.
   */
  method RunLocals(before: Receipt, pending: seq<string>, results: map<string, CheckResult>, stopAfter: nat,
                   saves: seq<Save>)
    returns (r: LocalRun)
    requires forall k :: 0 <= k < |pending| ==> pending[k] in before && pending[k] in results
    requires forall i, k :: 0 <= i < k < |pending| ==> pending[i] != pending[k]
    ensures RanLocals(r, before, pending, results)
    ensures OthersKept(r.receipt, before, pending)
    ensures r.done < |pending| && !r.raised ==>
              r.done == stopAfter || (r.done > 0 && results[pending[r.done - 1]].status != Passed)
  {
    r := LocalRun(before, before, 0, [], false);
    while r.done < |pending| && r.done != stopAfter
      invariant PassedSoFar(r, before, pending, results)
      decreases |pending| - r.done
    {
      var name := pending[r.done];
      var marked, recorded := SaveAt(saves, 2 * r.done), SaveAt(saves, 2 * r.done + 1);
      r := Attempt(r, before, pending, results, marked, recorded);
      if r.raised || results[name].status != Passed {
        return;
      }
    }
  }

  // ---------- the slot workers ----------

  /** Where one slot's worker is; a worker that stopped may have raised an error. */
  datatype Place =
    | Idle
    | Taken(name: string)
    | Registered(name: string)
    | Cleared(name: string)
    | Marked(name: string)
    | Executing(name: string)
    | Finished(name: string, result: CheckResult)
    | Stopped(raised: bool)

  /** A slot, and the results it has recorded. */
  datatype Slot = Slot(place: Place, outcomes: seq<CheckResult>)

  datatype Start = Start(name: string, slot: nat)

  datatype System = System(
    queue: seq<string>,
    slots: seq<Slot>,
    receipt: Receipt,
    stored: Receipt,
    attempted: set<string>,
    stop: bool,
    starts: seq<Start>)

  /** One step of one worker, or the stop request; `save` says how a save inside the step ends. */
  datatype Action = StopRequest | Step(slot: nat, save: Save, result: CheckResult)

  predicate Occupied(place: Place) {
    !place.Idle? && !place.Stopped?
  }

  /** The attempt has not reached its child yet. */
  predicate Before(place: Place) {
    place.Taken? || place.Registered? || place.Cleared? || place.Marked?
  }

  /** The slots with one of them moved to another place. */
  function Move(slots: seq<Slot>, i: nat, place: Place): seq<Slot>
    requires i < |slots|
  {
    slots[i := slots[i].(place := place)]
  }

  /** What the worker of one slot does next. */
  function Worker(s: System, i: nat, save: Save, result: CheckResult): System
    requires i < |s.slots|
  {
    match s.slots[i].place
    case Idle =>
      if s.stop || s.queue == [] then s.(slots := Move(s.slots, i, Stopped(false)))
      else s.(slots := Move(s.slots, i, Taken(s.queue[0])), queue := s.queue[1..])
    case Taken(name) =>
      if s.stop || !save.Saved? then s.(slots := Move(s.slots, i, Stopped(!s.stop)))
      else s.(slots := Move(s.slots, i, Registered(name)), attempted := s.attempted + {name})
    case Registered(name) =>
      if s.stop then s.(slots := Move(s.slots, i, Stopped(false)), attempted := s.attempted - {name})
      else s.(slots := Move(s.slots, i, Cleared(name)))
    case Cleared(name) =>
      var receipt := s.receipt[name := RUNNING];
      s.(slots := Move(s.slots, i, if save.Saved? then Marked(name) else Stopped(true)), receipt := receipt,
        stored := save.Stored(s.stored, receipt))
    case Marked(name) =>
      s.(slots := Move(s.slots, i, Executing(name)), starts := s.starts + [Start(name, i)])
    case Executing(name) =>
      s.(slots := Move(s.slots, i, Finished(name, result)))
    case Finished(name, outcome) =>
      var receipt := s.receipt[name := outcome];
      var place := if save.Saved? && Continues(outcome) then Idle else Stopped(!save.Saved?);
      s.(slots := s.slots[i := Slot(place, s.slots[i].outcomes + [outcome])], receipt := receipt,
        stored := save.Stored(s.stored, receipt))
    case Stopped(_) =>
      s
  }

  function Next(s: System, a: Action): System {
    match a
    case StopRequest => s.(stop := true)
    case Step(i, save, result) => if i < |s.slots| then Worker(s, i, save, result) else s
  }

  function Run(s: System, actions: seq<Action>): System
    decreases |actions|
  {
    if actions == [] then s else Run(Next(s, actions[0]), actions[1..])
  }

  /** The start of the live phase. */
  predicate Initial(s: System, locals: set<string>) {
    && (forall i, k :: 0 <= i < k < |s.queue| ==> s.queue[i] != s.queue[k])
    && (forall i :: 0 <= i < |s.queue| ==> s.queue[i] in s.receipt && s.queue[i] !in locals)
    && (forall i :: 0 <= i < |s.slots| ==> s.slots[i] == Slot(Idle, []))
    && s.starts == [] && s.attempted == {} && s.stored == s.receipt && GateOpen(s.receipt, locals)
  }

  /** The live phase begins only through the open gate. */
  method EnterLive(receipt: Receipt, locals: set<string>, live: seq<string>, slots: nat, stop: bool)
    returns (s: Option<System>)
    requires forall i, k :: 0 <= i < k < |live| ==> live[i] != live[k]
    requires forall i :: 0 <= i < |live| ==> live[i] in receipt && IsLive(live[i])
    requires forall name :: name in locals ==> !IsLive(name)
    ensures s.Some? <==> GateOpen(receipt, locals)
    ensures s.Some? ==>
              && Initial(s.value, locals) && s.value.queue == live && s.value.receipt == receipt
              && |s.value.slots| == slots && s.value.stop == stop
  {
    if exists name :: name in locals
        && (name !in receipt
            || (receipt[name].status != Passed && !(name == "process-coverage" && receipt[name].diagnostic))) {
      return None;
    }
    return Some(System(live, seq(slots, _ => Slot(Idle, [])), receipt, receipt, {}, stop, []));
  }

  // ---------- what every interleaving keeps ----------

  /** Every check is in one place only: queued, held by one slot, or behind it. */
  predicate Once(s: System) {
    && (forall i, k :: 0 <= i < k < |s.queue| ==> s.queue[i] != s.queue[k])
    && (forall i :: 0 <= i < |s.slots| && Occupied(s.slots[i].place) ==> s.slots[i].place.name !in s.queue)
    && (forall i, k :: 0 <= i < k < |s.slots| && Occupied(s.slots[i].place) && Occupied(s.slots[k].place) ==>
          s.slots[i].place.name != s.slots[k].place.name)
    && (forall k :: 0 <= k < |s.starts| ==> s.starts[k].name !in s.queue)
    && (forall i, k :: 0 <= i < k < |s.starts| ==> s.starts[i].name != s.starts[k].name)
    && (forall i, k :: 0 <= i < |s.slots| && 0 <= k < |s.starts| && Before(s.slots[i].place) ==>
          s.slots[i].place.name != s.starts[k].name)
  }

  /** A running child is marked as running in the receipt and on disk. */
  predicate Announced(s: System) {
    forall i :: 0 <= i < |s.slots| && (s.slots[i].place.Marked? || s.slots[i].place.Executing?) ==>
      var name := s.slots[i].place.name;
      name in s.receipt && s.receipt[name] == RUNNING && name in s.stored && s.stored[name] == RUNNING
  }

  /** The slot recorded another outcome after this one, or still may. */
  predicate WentOn(slot: Slot, k: nat) {
    k < |slot.outcomes| - 1 || !slot.place.Stopped?
  }

  /** A slot only goes on after continuable outcomes. */
  predicate Disciplined(s: System) {
    forall i, k :: 0 <= i < |s.slots| && 0 <= k < |s.slots[i].outcomes| && WentOn(s.slots[i], k) ==>
      Continues(s.slots[i].outcomes[k])
  }

  /** The local gate stays open: workers never touch a local check. */
  predicate Gated(s: System, locals: set<string>) {
    && GateOpen(s.receipt, locals)
    && (forall i :: 0 <= i < |s.queue| ==> s.queue[i] in s.receipt && s.queue[i] !in locals)
    && (forall i :: 0 <= i < |s.slots| && Occupied(s.slots[i].place) ==>
          s.slots[i].place.name in s.receipt && s.slots[i].place.name !in locals)
  }

  /** No local check has been started by a worker. */
  predicate LiveOnly(s: System, locals: set<string>) {
    forall k :: 0 <= k < |s.starts| ==> s.starts[k].name !in locals
  }

  predicate Safe(s: System, locals: set<string>) {
    Once(s) && Announced(s) && Disciplined(s) && Gated(s, locals) && LiveOnly(s, locals)
  }

  /** A step that only moves one slot on with its check, or empties it. */
  predicate Onward(was: Place, now: Place) {
    Occupied(now) ==> Occupied(was) && now.name == was.name && (Before(now) ==> Before(was))
  }

  lemma OnceOnward(s: System, t: System, i: nat)
    requires Once(s) && i < |s.slots| == |t.slots| && t.queue == s.queue && t.starts == s.starts
    requires Onward(s.slots[i].place, t.slots[i].place)
    requires forall k :: 0 <= k < |s.slots| && k != i ==> t.slots[k] == s.slots[k]
    ensures Once(t)
  {
    forall k | 0 <= k < |t.slots| && Occupied(t.slots[k].place)
      ensures Occupied(s.slots[k].place) && t.slots[k].place.name == s.slots[k].place.name
      ensures Before(t.slots[k].place) ==> Before(s.slots[k].place)
    {
    }
  }

  lemma OnceTaken(s: System, i: nat)
    requires Once(s) && i < |s.slots| && s.slots[i].place.Idle? && s.queue != []
    ensures Once(s.(slots := Move(s.slots, i, Taken(s.queue[0])), queue := s.queue[1..]))
  {
    var name, t := s.queue[0], s.(slots := Move(s.slots, i, Taken(s.queue[0])), queue := s.queue[1..]);
    assert name in s.queue;
    assert name !in t.queue && forall x :: x in t.queue ==> x in s.queue;
    forall k | 0 <= k < |t.slots| && k != i && Occupied(t.slots[k].place)
      ensures t.slots[k].place.name != name
    {
      assert s.slots[k].place.name !in s.queue;
    }
  }

  lemma OnceStarted(s: System, i: nat)
    requires Once(s) && i < |s.slots| && s.slots[i].place.Marked?
    ensures Once(s.(slots := Move(s.slots, i, Executing(s.slots[i].place.name)),
                    starts := s.starts + [Start(s.slots[i].place.name, i)]))
  {
    var name := s.slots[i].place.name;
    var t := s.(slots := Move(s.slots, i, Executing(name)), starts := s.starts + [Start(name, i)]);
    forall k | 0 <= k < |t.slots| && Before(t.slots[k].place)
      ensures k != i && t.slots[k].place.name != name
    {
      assert s.slots[k] == t.slots[k];
    }
  }

  /** Nobody else's check changes under a running child. */
  lemma AnnouncedElsewhere(s: System, t: System, i: nat)
    requires Once(s) && Announced(s) && i < |s.slots| == |t.slots| && Occupied(s.slots[i].place)
    requires forall k :: 0 <= k < |s.slots| && k != i ==> t.slots[k] == s.slots[k]
    requires forall name :: name in s.receipt && name != s.slots[i].place.name ==>
               name in t.receipt && t.receipt[name] == s.receipt[name]
    requires t.stored == s.stored || t.stored == t.receipt
    requires t.slots[i].place.Marked? || t.slots[i].place.Executing? ==>
               var name := t.slots[i].place.name;
               name in t.receipt && t.receipt[name] == RUNNING && name in t.stored && t.stored[name] == RUNNING
    ensures Announced(t)
  {
    forall k | 0 <= k < |t.slots| && (t.slots[k].place.Marked? || t.slots[k].place.Executing?)
      ensures var name := t.slots[k].place.name;
              name in t.receipt && t.receipt[name] == RUNNING && name in t.stored && t.stored[name] == RUNNING
    {
      if k != i {
        assert t.slots[k] == s.slots[k];
        assert s.slots[k].place.name != s.slots[i].place.name;
      }
    }
  }

  /** The shape of every worker step: one slot moves, and the receipt on disk is the old one or the current one. */
  lemma WorkerShape(s: System, i: nat, save: Save, result: CheckResult)
    requires i < |s.slots|
    ensures var t := Worker(s, i, save, result);
            && |t.slots| == |s.slots| && (forall k :: 0 <= k < |s.slots| && k != i ==> t.slots[k] == s.slots[k])
            && (t.stored == s.stored || t.stored == t.receipt)
  {
  }

  /** At most the slot's own check changes its result. */
  lemma WorkerReceipt(s: System, i: nat, save: Save, result: CheckResult)
    requires i < |s.slots|
    ensures var t := Worker(s, i, save, result);
            if Occupied(s.slots[i].place)
            then forall name :: name in s.receipt ==>
                   name in t.receipt && (name != s.slots[i].place.name ==> t.receipt[name] == s.receipt[name])
            else t.receipt == s.receipt && t.stored == s.stored
  {
  }

  /** A check is marked and saved before its child starts. */
  lemma WorkerChild(s: System, i: nat, save: Save, result: CheckResult)
    requires i < |s.slots|
    ensures var t := Worker(s, i, save, result);
            && |t.slots| == |s.slots|
            && (!Occupied(s.slots[i].place) ==> !t.slots[i].place.Marked? && !t.slots[i].place.Executing?)
            && (t.slots[i].place.Marked? ==>
                  && t.stored == t.receipt && t.slots[i].place.name in t.receipt
                  && t.receipt[t.slots[i].place.name] == RUNNING)
            && (t.slots[i].place.Executing? ==>
                  s.slots[i].place == Marked(t.slots[i].place.name) && t.receipt == s.receipt && t.stored == s.stored)
  {
  }

  lemma AnnouncedStep(s: System, t: System, i: nat)
    requires Once(s) && Announced(s) && i < |s.slots| == |t.slots|
    requires forall k :: 0 <= k < |s.slots| && k != i ==> t.slots[k] == s.slots[k]
    requires t.stored == s.stored || t.stored == t.receipt
    requires if Occupied(s.slots[i].place)
             then forall name :: name in s.receipt && name != s.slots[i].place.name ==>
                   name in t.receipt && t.receipt[name] == s.receipt[name]
             else t.receipt == s.receipt && t.stored == s.stored
    requires !Occupied(s.slots[i].place) ==> !t.slots[i].place.Marked? && !t.slots[i].place.Executing?
    requires t.slots[i].place.Marked? ==>
               && t.stored == t.receipt && t.slots[i].place.name in t.receipt
               && t.receipt[t.slots[i].place.name] == RUNNING
    requires t.slots[i].place.Executing? ==>
               s.slots[i].place == Marked(t.slots[i].place.name) && t.receipt == s.receipt && t.stored == s.stored
    ensures Announced(t)
  {
    if Occupied(s.slots[i].place) {
      AnnouncedElsewhere(s, t, i);
    } else {
      forall k | 0 <= k < |t.slots| && (t.slots[k].place.Marked? || t.slots[k].place.Executing?)
        ensures t.slots[k] == s.slots[k]
      {
      }
    }
  }

  lemma DisciplinedStep(s: System, i: nat, save: Save, result: CheckResult)
    requires Disciplined(s) && i < |s.slots|
    ensures Disciplined(Worker(s, i, save, result))
  {
    var t := Worker(s, i, save, result);
    forall j, k | 0 <= j < |t.slots| && 0 <= k < |t.slots[j].outcomes| && WentOn(t.slots[j], k)
      ensures Continues(t.slots[j].outcomes[k])
    {
      if k < |s.slots[j].outcomes| {
        assert t.slots[j].outcomes[k] == s.slots[j].outcomes[k];
      }
    }
  }

  /** A slot keeps its check or takes the head of the queue. */
  predicate Follows(s: System, t: System, i: nat)
    requires i < |s.slots| == |t.slots|
  {
    || (t.queue == s.queue && Onward(s.slots[i].place, t.slots[i].place))
    || (s.queue != [] && t.queue == s.queue[1..] && t.slots[i].place == Taken(s.queue[0]))
  }

  lemma WorkerQueue(s: System, i: nat, save: Save, result: CheckResult)
    requires i < |s.slots|
    ensures |Worker(s, i, save, result).slots| == |s.slots|
    ensures Follows(s, Worker(s, i, save, result), i)
  {
    var place, t := s.slots[i].place, Worker(s, i, save, result);
    if place.Idle? && !s.stop && s.queue != [] {
      assert t.queue == s.queue[1..];
    } else {
      assert t.queue == s.queue;
      assert Onward(place, t.slots[i].place);
    }
  }

  /** Outside the two steps that take and start a check, nothing is taken or started. */
  lemma WorkerOnward(s: System, i: nat, save: Save, result: CheckResult)
    requires i < |s.slots| && !s.slots[i].place.Marked?
    requires !(s.slots[i].place.Idle? && !s.stop && s.queue != [])
    ensures var t := Worker(s, i, save, result);
            && |t.slots| == |s.slots| && t.queue == s.queue && t.starts == s.starts
            && Onward(s.slots[i].place, t.slots[i].place)
  {
  }

  lemma OnceStep(s: System, i: nat, save: Save, result: CheckResult)
    requires Once(s) && i < |s.slots|
    ensures Once(Worker(s, i, save, result))
  {
    if s.slots[i].place.Marked? {
      OnceStarted(s, i);
    } else if s.slots[i].place.Idle? && !s.stop && s.queue != [] {
      OnceTaken(s, i);
    } else {
      WorkerShape(s, i, save, result);
      WorkerOnward(s, i, save, result);
      OnceOnward(s, Worker(s, i, save, result), i);
    }
  }

  lemma GatedStep(s: System, t: System, locals: set<string>, i: nat)
    requires Gated(s, locals) && i < |s.slots| == |t.slots|
    requires forall k :: 0 <= k < |s.slots| && k != i ==> t.slots[k] == s.slots[k]
    requires Follows(s, t, i)
    requires if Occupied(s.slots[i].place)
             then forall name :: name in s.receipt ==>
                   name in t.receipt && (name != s.slots[i].place.name ==> t.receipt[name] == s.receipt[name])
             else t.receipt == s.receipt
    ensures Gated(t, locals)
  {
    forall k | 0 <= k < |t.slots| && Occupied(t.slots[k].place)
      ensures t.slots[k].place.name in t.receipt && t.slots[k].place.name !in locals
    {
      if k != i {
        assert t.slots[k] == s.slots[k];
      }
    }
  }

  lemma LiveOnlyStep(s: System, locals: set<string>, i: nat, save: Save, result: CheckResult)
    requires Gated(s, locals) && LiveOnly(s, locals) && i < |s.slots|
    ensures LiveOnly(Worker(s, i, save, result), locals)
  {
    var t := Worker(s, i, save, result);
    assert t.starts == s.starts
           || (s.slots[i].place.Marked? && t.starts == s.starts + [Start(s.slots[i].place.name, i)]);
  }

  /** Safety of the scheduler for every interleaving of workers, saves and the stop request. */
  lemma {:induction false} RunsSafely(s: System, locals: set<string>, actions: seq<Action>)
    requires Safe(s, locals)
    ensures Safe(Run(s, actions), locals)
    decreases |actions|
  {
    if actions != [] {
      match actions[0] {
        case StopRequest =>
        case Step(i, save, result) =>
          if i < |s.slots| {
            OnceStep(s, i, save, result);
            WorkerShape(s, i, save, result);
            WorkerReceipt(s, i, save, result);
            WorkerChild(s, i, save, result);
            AnnouncedStep(s, Worker(s, i, save, result), i);
            DisciplinedStep(s, i, save, result);
            WorkerQueue(s, i, save, result);
            GatedStep(s, Worker(s, i, save, result), locals, i);
            LiveOnlyStep(s, locals, i, save, result);
          }
      }
      RunsSafely(Next(s, actions[0]), locals, actions[1..]);
    }
  }

  // ---------- where every stored result comes from ----------

  /** This slot started the check, and the result in the receipt is one that it recorded. */
  predicate RecordedBy(s: System, name: string, i: nat) {
    && i < |s.slots| && Start(name, i) in s.starts
    && name in s.receipt && s.receipt[name] in s.slots[i].outcomes
  }

  /** Every result is the one the live phase began with, a running mark, or one recorded by the slot that ran it. */
  ghost predicate Honest(s: System, origin: Receipt) {
    && (forall i :: 0 <= i < |s.slots| && (s.slots[i].place.Executing? || s.slots[i].place.Finished?) ==>
          Start(s.slots[i].place.name, i) in s.starts)
    && (forall name :: name in s.receipt ==>
          || (name in origin && s.receipt[name] == origin[name])
          || s.receipt[name] == RUNNING
          || exists i: nat :: RecordedBy(s, name, i))
  }

  /** What a step adds to the history of its slot. */
  predicate Adds(s: System, t: System, i: nat)
    requires i < |s.slots| == |t.slots|
  {
    && s.starts <= t.starts && s.slots[i].outcomes <= t.slots[i].outcomes
    && (t.slots[i].place.Executing? ==> Start(t.slots[i].place.name, i) in t.starts)
    && (t.slots[i].place.Finished? ==> s.slots[i].place == Executing(t.slots[i].place.name))
    && match s.slots[i].place
       case Cleared(name) => t.receipt == s.receipt[name := RUNNING]
       case Finished(name, result) =>
         t.receipt == s.receipt[name := result] && t.slots[i].outcomes == s.slots[i].outcomes + [result]
       case _ => t.receipt == s.receipt
  }

  lemma WorkerAdds(s: System, i: nat, save: Save, result: CheckResult)
    requires i < |s.slots|
    ensures |Worker(s, i, save, result).slots| == |s.slots| && Adds(s, Worker(s, i, save, result), i)
  {
    var t := Worker(s, i, save, result);
    assert s.slots[i].place.Marked? ==> t.starts[|s.starts|] == Start(s.slots[i].place.name, i);
  }

  lemma StillRecorded(s: System, t: System, i: nat, name: string, j: nat)
    requires i < |s.slots| == |t.slots| && Adds(s, t, i) && RecordedBy(s, name, j)
    requires forall k :: 0 <= k < |s.slots| && k != i ==> t.slots[k] == s.slots[k]
    requires name in t.receipt && t.receipt[name] == s.receipt[name]
    ensures RecordedBy(t, name, j)
  {
    assert s.slots[j].outcomes <= t.slots[j].outcomes;
  }

  lemma HonestStep(s: System, t: System, origin: Receipt, i: nat)
    requires Honest(s, origin) && i < |s.slots| == |t.slots| && Adds(s, t, i)
    requires forall k :: 0 <= k < |s.slots| && k != i ==> t.slots[k] == s.slots[k]
    ensures Honest(t, origin)
  {
    var place := s.slots[i].place;
    forall name | name in t.receipt
      ensures || (name in origin && t.receipt[name] == origin[name])
              || t.receipt[name] == RUNNING
              || exists j: nat :: RecordedBy(t, name, j)
    {
      if name in s.receipt && t.receipt[name] == s.receipt[name] {
        if j: nat :| RecordedBy(s, name, j) {
          StillRecorded(s, t, i, name, j);
        }
      } else if t.receipt[name] != RUNNING {
        assert place.Finished? && place.name == name && t.receipt[name] == place.result;
        assert t.slots[i].outcomes[|s.slots[i].outcomes|] == place.result;
        assert RecordedBy(t, name, i);
      }
    }
  }

  /** The queue that the live phase began with is accounted for, unless a worker stopped early. */
  ghost predicate Accounted(s: System, queue: seq<string>) {
    && (forall i :: 0 <= i < |s.slots| && s.slots[i].place.Stopped? ==>
          s.stop || s.slots[i].place.raised || s.queue == [] || LastStops(s.slots[i].outcomes))
    && (NoneRaised(s) && !s.stop ==>
          && s.stored == s.receipt
          && forall name :: name in queue ==>
               name in s.queue || Held(s, name) || exists i: nat :: RecordedBy(s, name, i))
  }

  /** The last recorded outcome does not let its slot go on. */
  predicate LastStops(outcomes: seq<CheckResult>) {
    outcomes != [] && !Continues(outcomes[|outcomes| - 1])
  }

  predicate NoneRaised(s: System) {
    forall i :: 0 <= i < |s.slots| ==> s.slots[i].place != Stopped(true)
  }

  /** A slot is working on this check. */
  predicate Held(s: System, name: string) {
    exists i :: 0 <= i < |s.slots| && Occupied(s.slots[i].place) && s.slots[i].place.name == name
  }

  /** How a step leaves its slot, the queue and the disk. */
  predicate Leaves(s: System, t: System, i: nat)
    requires i < |s.slots| == |t.slots|
  {
    var was, now := s.slots[i].place, t.slots[i].place;
    && t.stop == s.stop
    && (now.Stopped? && !was.Stopped? ==>
          s.stop || now.raised || (s.queue == [] && t.queue == []) || LastStops(t.slots[i].outcomes))
    && (was.Stopped? ==> t == s)
    && (!s.stop && s.stored == s.receipt && now != Stopped(true) ==> t.stored == t.receipt)
    && (Occupied(was) ==> s.stop || now == Stopped(true) || was.Finished? || (Occupied(now) && now.name == was.name))
  }

  lemma WorkerLeaves(s: System, i: nat, save: Save, result: CheckResult)
    requires i < |s.slots|
    ensures |Worker(s, i, save, result).slots| == |s.slots| && Leaves(s, Worker(s, i, save, result), i)
  {
    var t := Worker(s, i, save, result);
    assert s.slots[i].place.Finished? ==> t.slots[i].outcomes[|s.slots[i].outcomes|] == s.slots[i].place.result;
  }

  /** A recorded check stays recorded, since its slot is behind it. */
  lemma RecordedStep(s: System, t: System, i: nat, name: string, j: nat)
    requires Once(s) && Honest(s, s.receipt) && i < |s.slots| == |t.slots| && Adds(s, t, i) && RecordedBy(s, name, j)
    requires forall k :: 0 <= k < |s.slots| && k != i ==> t.slots[k] == s.slots[k]
    ensures exists k: nat :: RecordedBy(t, name, k)
  {
    if t.receipt[name] == s.receipt[name] {
      StillRecorded(s, t, i, name, j);
    } else {
      var place := s.slots[i].place;
      assert place.name == name && place.Finished?;
      assert t.slots[i].outcomes[|s.slots[i].outcomes|] == place.result;
      assert RecordedBy(t, name, i);
    }
  }

  lemma HeldStep(s: System, t: System, i: nat, name: string)
    requires Honest(s, s.receipt) && i < |s.slots| == |t.slots| && Adds(s, t, i) && Leaves(s, t, i)
    requires forall k :: 0 <= k < |s.slots| && k != i ==> t.slots[k] == s.slots[k]
    requires !t.stop && NoneRaised(t) && Held(s, name)
    ensures Held(t, name) || exists k: nat :: RecordedBy(t, name, k)
  {
    var k :| 0 <= k < |s.slots| && Occupied(s.slots[k].place) && s.slots[k].place.name == name;
    if k != i {
      assert t.slots[k] == s.slots[k];
    } else if s.slots[i].place.Finished? {
      assert t.slots[i].outcomes[|s.slots[i].outcomes|] == s.slots[i].place.result;
      assert RecordedBy(t, name, i);
    }
  }

  predicate Begun(s: System, name: string) {
    exists k :: 0 <= k < |s.starts| && s.starts[k].name == name
  }

  /** The place of a worker whose attempt is registered. */
  predicate Enlisted(place: Place) {
    Occupied(place) && !place.Taken?
  }

  /** A slot has this check registered. */
  predicate Awaited(s: System, name: string) {
    exists i :: 0 <= i < |s.slots| && Enlisted(s.slots[i].place) && s.slots[i].place.name == name
  }

  /** The registered attempts are those that were started or are about to be; a cancelled one is none. */
  ghost predicate Enrolled(s: System) {
    && (forall k :: 0 <= k < |s.starts| ==> s.starts[k].name in s.attempted)
    && (forall i :: 0 <= i < |s.slots| && Enlisted(s.slots[i].place) ==> s.slots[i].place.name in s.attempted)
    && (NoneRaised(s) ==> forall name :: name in s.attempted ==> Awaited(s, name) || Begun(s, name))
  }

  /** How a step changes the registered attempts. */
  predicate Enrols(s: System, t: System, i: nat)
    requires i < |s.slots| == |t.slots|
  {
    var was, now := s.slots[i].place, t.slots[i].place;
    && t.attempted == (if was.Taken? && now.Registered? then s.attempted + {was.name}
                       else if was.Registered? && now.Stopped? then s.attempted - {was.name}
                       else s.attempted)
    && (Enlisted(now) ==> Occupied(was) && now.name == was.name)
    && (was.Taken? && Enlisted(now) ==> now.Registered?)
    && (t.starts == s.starts || (was.Marked? && t.starts == s.starts + [Start(was.name, i)]))
    && (Enlisted(was) ==>
          || now == Stopped(true) || (was.Registered? && now.Stopped?) || was.Finished?
          || (Enlisted(now) && now.name == was.name))
    && (was == Stopped(true) ==> now == was)
  }

  lemma WorkerEnrols(s: System, i: nat, save: Save, result: CheckResult)
    requires i < |s.slots|
    ensures |Worker(s, i, save, result).slots| == |s.slots| && Enrols(s, Worker(s, i, save, result), i)
  {
  }

  /** Whoever was registered still is, unless this step cancelled them. */
  lemma EnrolledNames(s: System, t: System, i: nat)
    requires Once(s) && Enrolled(s) && Honest(s, s.receipt)
    requires i < |s.slots| == |t.slots| && Enrols(s, t, i) && Follows(s, t, i)
    requires forall k :: 0 <= k < |s.slots| && k != i ==> t.slots[k] == s.slots[k]
    ensures forall k :: 0 <= k < |t.starts| ==> t.starts[k].name in t.attempted
    ensures forall k :: 0 <= k < |t.slots| && Enlisted(t.slots[k].place) ==> t.slots[k].place.name in t.attempted
  {
    var place := s.slots[i].place;
    forall k | 0 <= k < |t.starts|
      ensures t.starts[k].name in t.attempted
    {
      if k < |s.starts| {
        assert t.starts[k] == s.starts[k];
      }
    }
    forall k | 0 <= k < |t.slots| && Enlisted(t.slots[k].place)
      ensures t.slots[k].place.name in t.attempted
    {
      if k != i {
        assert t.slots[k] == s.slots[k];
      }
    }
  }

  lemma EnrolledStep(s: System, t: System, i: nat)
    requires Once(s) && Enrolled(s) && Honest(s, s.receipt)
    requires i < |s.slots| == |t.slots| && Enrols(s, t, i) && Follows(s, t, i)
    requires forall k :: 0 <= k < |s.slots| && k != i ==> t.slots[k] == s.slots[k]
    ensures Enrolled(t)
  {
    EnrolledNames(s, t, i);
    if NoneRaised(t) {
      forall name | name in t.attempted
        ensures Awaited(t, name) || Begun(t, name)
      {
        HeldOrBegun(s, t, i, name);
      }
    }
  }

  lemma HeldOrBegun(s: System, t: System, i: nat, name: string)
    requires Once(s) && Enrolled(s) && Honest(s, s.receipt) && NoneRaised(t) && name in t.attempted
    requires i < |s.slots| == |t.slots| && Enrols(s, t, i)
    requires forall k :: 0 <= k < |s.slots| && k != i ==> t.slots[k] == s.slots[k]
    ensures Awaited(t, name) || Begun(t, name)
  {
    var was, now := s.slots[i].place, t.slots[i].place;
    if name !in s.attempted {
      assert Enlisted(now) && now.name == name;
    } else {
      assert NoneRaised(s);
      if k :| 0 <= k < |s.starts| && s.starts[k].name == name {
        assert t.starts[k] == s.starts[k];
      } else {
        var k :| 0 <= k < |s.slots| && Enlisted(s.slots[k].place) && s.slots[k].place.name == name;
        assert k != i ==> t.slots[k] == s.slots[k];
      }
    }
  }

  lemma AccountedStep(s: System, t: System, queue: seq<string>, i: nat)
    requires Once(s) && Honest(s, s.receipt) && Accounted(s, queue)
    requires i < |s.slots| == |t.slots| && Adds(s, t, i) && Leaves(s, t, i) && Follows(s, t, i)
    requires forall k :: 0 <= k < |s.slots| && k != i ==> t.slots[k] == s.slots[k]
    ensures Accounted(t, queue)
  {
    if NoneRaised(t) && !t.stop {
      forall name | name in queue
        ensures name in t.queue || Held(t, name) || exists k: nat :: RecordedBy(t, name, k)
      {
        if k: nat :| RecordedBy(s, name, k) {
          RecordedStep(s, t, i, name, k);
        } else if Held(s, name) {
          HeldStep(s, t, i, name);
        } else if name !in t.queue {
          assert t.slots[i].place == Taken(name);
        }
      }
    }
  }

  /** Both, over every interleaving. */
  lemma {:induction false} RunsHonestly(s: System, origin: Receipt, queue: seq<string>, actions: seq<Action>)
    requires Once(s) && Honest(s, origin) && Accounted(s, queue) && Enrolled(s)
    ensures Honest(Run(s, actions), origin) && Accounted(Run(s, actions), queue) && Enrolled(Run(s, actions))
    decreases |actions|
  {
    if actions != [] {
      var t := Next(s, actions[0]);
      match actions[0] {
        case StopRequest =>
          assert forall name, i: nat :: RecordedBy(t, name, i) <==> RecordedBy(s, name, i);
        case Step(i, save, result) =>
          if i < |s.slots| {
            OnceStep(s, i, save, result);
            WorkerShape(s, i, save, result);
            WorkerAdds(s, i, save, result);
            WorkerLeaves(s, i, save, result);
            WorkerQueue(s, i, save, result);
            WorkerEnrols(s, i, save, result);
            HonestStep(s, t, origin, i);
            AccountedStep(s, t, queue, i);
            EnrolledStep(s, t, i);
          }
      }
      RunsHonestly(t, origin, queue, actions[1..]);
    }
  }

  /**
   Nothing is skipped.  When every worker has stopped without an error or a stop request, and
   every recorded outcome let its slot go on, then each queued check was started, its result
   is the one its slot recorded, and the receipt on disk has it.
   */
  lemma EveryCheckRuns(s: System, locals: set<string>, actions: seq<Action>)
    requires Initial(s, locals) && s.slots != []
    ensures var t := Run(s, actions);
            (&& (forall i :: 0 <= i < |t.slots| ==> t.slots[i].place == Stopped(false)) && !t.stop
             && (forall i :: 0 <= i < |t.slots| ==> !LastStops(t.slots[i].outcomes)))
            ==> t.queue == [] && t.stored == t.receipt
                && forall name :: name in s.queue ==> exists i: nat :: RecordedBy(t, name, i)
  {
    InitialSafe(s, locals);
    RunsHonestly(s, s.receipt, s.queue, actions);
    SlotsKept(s, actions);
    assert Run(s, actions).slots[0] in Run(s, actions).slots;
  }

  lemma {:induction false} SlotsKept(s: System, actions: seq<Action>)
    ensures |Run(s, actions).slots| == |s.slots|
    decreases |actions|
  {
    if actions != [] {
      match actions[0] {
        case StopRequest =>
        case Step(i, save, result) =>
          if i < |s.slots| {
            WorkerShape(s, i, save, result);
          }
      }
      SlotsKept(Next(s, actions[0]), actions[1..]);
    }
  }

  lemma InitialSafe(s: System, locals: set<string>)
    requires Initial(s, locals)
    ensures Safe(s, locals)
  {
  }

  /** While a live child runs, the receipt on disk certifies nothing: neither the check nor the candidate has passed. */
  lemma NoPassWhileRunning(s: System, locals: set<string>, i: nat)
    requires Safe(s, locals) && i < |s.slots| && s.slots[i].place.Executing?
    ensures s.slots[i].place.name in s.stored && s.stored[s.slots[i].place.name].status == Running
    ensures Uncertified(s.stored)
  {
    RunningUncertified(s.stored, s.slots[i].place.name);
  }

  /** The promises of the live phase about one state. */
  ghost predicate Promised(t: System, locals: set<string>) {
    && (forall i, k :: 0 <= i < k < |t.starts| ==> t.starts[i].name != t.starts[k].name)
    && LiveOnly(t, locals) && GateOpen(t.receipt, locals)
    && (forall i, k :: 0 <= i < |t.slots| && 0 <= k < |t.slots[i].outcomes| && WentOn(t.slots[i], k) ==>
          LeftUsable(t.slots[i].outcomes[k]))
    && (forall i :: 0 <= i < |t.slots| && t.slots[i].place.Executing? ==> Uncertified(t.stored))
  }

  /**
   The scheduler's promises, for every interleaving of workers, failing saves and the
   stop request, from the moment the local gate opened: each live check starts at most
   once and on one slot, no local check is ever started and the gate is still open, no
   slot records another result after a non-continuable one, and nothing on disk says
   passed while a child runs.
   */
  lemma EveryRun(s: System, locals: set<string>, actions: seq<Action>)
    requires Initial(s, locals)
    ensures Promised(Run(s, actions), locals)
  {
    InitialSafe(s, locals);
    RunsSafely(s, locals, actions);
    var t := Run(s, actions);
    forall i | 0 <= i < |t.slots| && t.slots[i].place.Executing?
      ensures Uncertified(t.stored)
    {
      NoPassWhileRunning(t, locals, i);
    }
    forall i, k | 0 <= i < |t.slots| && 0 <= k < |t.slots[i].outcomes| && WentOn(t.slots[i], k)
      ensures LeftUsable(t.slots[i].outcomes[k])
    {
      ContinuesExact(t.slots[i].outcomes[k]);
    }
  }

  /** One undisturbed round of a slot. */
  function Round(i: nat, result: CheckResult): seq<Action> {
    var step := Step(i, Saved, result);
    [step, step, step, step, step, step, step]
  }

  lemma RunSteps(s: System, first: Action, rest: seq<Action>)
    ensures Run(s, [first] + rest) == Run(Next(s, first), rest)
  {
    assert ([first] + rest)[1..] == rest;
  }

  /**
   Progress: undisturbed, a slot takes the head of the queue, starts it, records its result
   on disk, and is ready for the next one exactly if the result left it usable.
   */
  lemma SlotRound(s: System, i: nat, result: CheckResult)
    requires i < |s.slots| && s.slots[i].place.Idle? && !s.stop && s.queue != []
    ensures var t, name := Run(s, Round(i, result)), s.queue[0];
            && t.queue == s.queue[1..] && t.starts == s.starts + [Start(name, i)] && name in t.attempted
            && t.receipt == s.receipt[name := result] && t.stored == t.receipt
            && |t.slots| == |s.slots| && t.slots[i].outcomes == s.slots[i].outcomes + [result]
            && t.slots[i].place == (if LeftUsable(result) then Idle else Stopped(false))
            && forall k :: 0 <= k < |s.slots| && k != i ==> t.slots[k] == s.slots[k]
  {
    var step, name := Step(i, Saved, result), s.queue[0];
    var started := RoundStarts(s, i, result);
    var executed := Next(started, step);
    var t := Next(executed, step);
    assert executed.slots[i].place == Finished(name, result);
    RunSteps(executed, step, []);
    RunSteps(started, step, [step]);
    ContinuesExact(result);
    assert s.receipt[name := RUNNING][name := result] == s.receipt[name := result];
  }

  /** The first five steps of the round. */
  lemma RoundStarts(s: System, i: nat, result: CheckResult) returns (t: System)
    requires i < |s.slots| && s.slots[i].place.Idle? && !s.stop && s.queue != []
    ensures t == s.(queue := s.queue[1..], slots := s.slots[i := s.slots[i].(place := Executing(s.queue[0]))],
                    receipt := s.receipt[s.queue[0] := RUNNING], stored := s.receipt[s.queue[0] := RUNNING],
                    attempted := s.attempted + {s.queue[0]}, starts := s.starts + [Start(s.queue[0], i)])
    ensures Run(s, Round(i, result)) == Run(t, [Step(i, Saved, result), Step(i, Saved, result)])
  {
    var step := Step(i, Saved, result);
    var taken := Next(s, step);
    var registered := Next(taken, step);
    var cleared := Next(registered, step);
    var marked := Next(cleared, step);
    t := Next(marked, step);
    RunSteps(marked, step, [step, step]);
    RunSteps(cleared, step, [step, step, step]);
    RunSteps(registered, step, [step, step, step, step]);
    RunSteps(taken, step, [step, step, step, step, step]);
    RunSteps(s, step, [step, step, step, step, step, step]);
  }

  /** Every worker has come to its end. */
  predicate Over(s: System) {
    forall i :: 0 <= i < |s.slots| ==> s.slots[i].place.Stopped?
  }

  /** The last save; a source that changed meanwhile fails the candidate's own verification. */
  method Conclude(receipt: Receipt, stored: Receipt, changed: bool, save: Save, exclusions: set<string>,
                  obligations: bool, superseded: bool, stop: bool)
    returns (now: Receipt, code: nat)
    ensures code == 0 <==>
            && save.Saved? && !stop && !changed && Certified(receipt, exclusions) && obligations && !superseded
    ensures code == 0 ==> now == receipt
    ensures !changed ==> now == if save.Unsaved? then stored else receipt
    ensures changed && save.Saved? && "verify" in receipt ==>
              forall exclusions :: Reproducible(now, exclusions) == VerdictFailed
  {
    if changed && "verify" !in receipt {
      return stored, 1;
    }
    var last := if changed then receipt["verify" := receipt["verify"].(status := Failed)] else receipt;
    now := save.Stored(stored, last);
    VerdictExact(last, exclusions, obligations, superseded);
    if changed {
      assert last["verify"].status == Failed;
      forall any
        ensures Reproducible(last, any) == VerdictFailed
      {
        VerdictExact(last, any, obligations, superseded);
      }
    }
    var passed := Overall(last, exclusions, obligations, superseded) == VerdictPassed;
    return now, if save.Saved? && passed && !stop then 0 else 1;
  }

  /** The live phase ended well, its last save too, and the receipt certifies the candidate. */
  ghost predicate Passes(t: System, changed: bool, save: Save, exclusions: set<string>, obligations: bool,
                         superseded: bool) {
    && NoneRaised(t) && !t.stop && !changed && save.Saved?
    && Certified(t.receipt, exclusions) && obligations && !superseded
  }

  /** After the last worker: an error of one of them ends the run, otherwise the receipt is saved once more. */
  method Finish(t: System, changed: bool, save: Save, exclusions: set<string>, obligations: bool, superseded: bool)
    returns (stored: Receipt, code: nat)
    ensures code == 0 <==> Passes(t, changed, save, exclusions, obligations, superseded)
    ensures code == 0 ==> stored == t.receipt
  {
    if !NoneRaised(t) {
      return t.stored, 1;
    }
    stored, code := Conclude(t.receipt, t.stored, changed, save, exclusions, obligations, superseded, t.stop);
  }

  /** The verdicts that this receipt gets mean what they say, whatever it is judged with. */
  ghost predicate Judged(stored: Receipt) {
    forall exclusions, obligations, superseded ::
      && (Overall(stored, exclusions, obligations, superseded) == VerdictPassed <==>
            Certified(stored, exclusions) && obligations && !superseded)
      && (Reproducible(stored, exclusions) == VerdictFailed <==>
            exists name :: name in stored && stored[name].status == Failed)
  }

  lemma StoredJudged(stored: Receipt)
    ensures Judged(stored)
  {
    forall exclusions, obligations, superseded
      ensures Overall(stored, exclusions, obligations, superseded) == VerdictPassed <==>
              Certified(stored, exclusions) && obligations && !superseded
      ensures Reproducible(stored, exclusions) == VerdictFailed <==>
              exists name :: name in stored && stored[name].status == Failed
    {
      VerdictExact(stored, exclusions, obligations, superseded);
    }
  }

  /** The live phase, behind its gate, with any interleaving of its workers. */
  method RunLive(first: Receipt, locals: set<string>, live: seq<string>, slots: nat, stop: bool, actions: seq<Action>,
                 exclusions: set<string>, obligations: bool, superseded: bool, changed: bool, final: Save)
    returns (last: Option<System>, stored: Receipt, code: Option<nat>)
    requires forall i, k :: 0 <= i < k < |live| ==> live[i] != live[k]
    requires forall i :: 0 <= i < |live| ==> live[i] in first && IsLive(live[i])
    requires forall name :: name in locals ==> !IsLive(name)
    ensures last.Some? <==> GateOpen(first, locals)
    ensures last.None? ==> stored == first && code == Some(1)
    ensures last.Some? ==>
              && Promised(last.value, locals) && Honest(last.value, first) && Enrolled(last.value)
              && (code.Some? <==> Over(last.value))
              && (code == Some(0) <==>
                    Over(last.value) && Passes(last.value, changed, final, exclusions, obligations, superseded))
              && (code == Some(0) ==> stored == last.value.receipt)
  {
    var phase := EnterLive(first, locals, live, slots, stop);
    if phase.None? {
      return None, first, Some(1);
    }
    EveryRun(phase.value, locals, actions);
    RunsHonestly(phase.value, first, live, actions);
    var t := Run(phase.value, actions);
    if !Over(t) {
      return Some(t), t.stored, None;
    }
    var end, exit := Finish(t, changed, final, exclusions, obligations, superseded);
    return Some(t), end, Some(exit);
  }

  /** What a run leaves: its phases, the receipt on disk, and the exit code unless it is still running. */
  datatype Collected = Collected(first: LocalRun, last: Option<System>, stored: Receipt, code: Option<nat>)

  /** The result of a check is the one before the run, one of a local child, or one recorded by the slot that ran it. */
  ghost predicate Sourced(r: Collected, before: Receipt, pending: seq<string>, results: map<string, CheckResult>,
                          name: string)
    requires name in r.stored
  {
    || (name in before && r.stored[name] == before[name])
    || (name in pending && name in results && r.stored[name] == results[name])
    || (r.last.Some? && exists i: nat :: RecordedBy(r.last.value, name, i))
  }

  /**
   Both phases together.  While any child runs, local or live, the stored receipt says
   passed for neither verdict; a live check starts only if no save of the local phase
   failed and every local gate is open; and exit code zero means that the receipt on disk
   certifies the candidate, every result in it having come from where it says.
   */
  method RunChecks(before: Receipt, pending: seq<string>, results: map<string, CheckResult>, stopAfter: nat,
                   saves: seq<Save>, locals: set<string>, live: seq<string>, slots: nat, actions: seq<Action>,
                   exclusions: set<string>, obligations: bool, superseded: bool, changed: bool, final: Save)
    returns (r: Collected)
    requires forall k :: 0 <= k < |pending| ==> pending[k] in before && pending[k] in results
    requires forall i, k :: 0 <= i < k < |pending| ==> pending[i] != pending[k]
    requires forall i, k :: 0 <= i < k < |live| ==> live[i] != live[k]
    requires forall i :: 0 <= i < |live| ==> live[i] in before && IsLive(live[i])
    requires forall name :: name in locals ==> !IsLive(name)
    ensures RanLocals(r.first, before, pending, results)
    ensures forall k :: 0 <= k < |r.first.started| ==> Uncertified(r.first.started[k])
    ensures r.last.Some? <==> !r.first.raised && live != [] && GateOpen(r.first.receipt, locals)
    ensures r.last.Some? ==>
              Promised(r.last.value, locals) && Honest(r.last.value, r.first.receipt) && Enrolled(r.last.value)
    ensures Judged(r.stored)
    ensures r.last.Some? ==>
              (r.code == Some(0) <==>
                 Over(r.last.value) && Passes(r.last.value, changed, final, exclusions, obligations, superseded))
    ensures live == [] && !r.first.raised ==>
              (r.code == Some(0) <==>
                 && !(r.first.done == stopAfter && r.first.done < |pending|) && !changed && final.Saved?
                 && Certified(r.first.receipt, exclusions) && obligations && !superseded)
    ensures r.code == Some(0) ==>
              && Certified(r.stored, exclusions) && obligations && !superseded && !changed
              && (live != [] ==> r.last.Some?)
              && forall name :: name in r.stored ==> Sourced(r, before, pending, results, name)
  {
    var first := RunLocals(before, pending, results, stopAfter, saves);
    forall k | 0 <= k < |first.started|
      ensures Uncertified(first.started[k])
    {
      RunningUncertified(first.started[k], pending[k]);
    }
    r := Collected(first, None, first.stored, Some(1));
    var stopped := first.done == stopAfter && first.done < |pending|;
    if !first.raised && live == [] {
      var stored, code := Conclude(first.receipt, first.stored, changed, final, exclusions, obligations, superseded,
                                   stopped);
      r := r.(stored := stored, code := Some(code));
    } else if !first.raised {
      var last, stored, code := RunLive(first.receipt, locals, live, slots, stopped, actions, exclusions, obligations,
                                        superseded, changed, final);
      r := r.(last := last, stored := stored, code := code);
    }
    StoredJudged(r.stored);
  }

  /** A worker that has not been cleared to start cannot start any more. */
  predicate Harmless(place: Place) {
    place.Idle? || place.Taken? || place.Registered? || place.Stopped?
  }

  lemma StopStep(s: System, a: Action, i: nat)
    requires s.stop && i < |s.slots| && Harmless(s.slots[i].place)
    ensures var t := Next(s, a); t.stop && |t.slots| == |s.slots| && Harmless(t.slots[i].place)
  {
  }

  /** After the stop request, a slot that was not already cleared to start never starts a child. */
  lemma {:induction false} StopDrains(s: System, actions: seq<Action>, i: nat)
    requires s.stop && i < |s.slots| && Harmless(s.slots[i].place)
    ensures i < |Run(s, actions).slots| && Harmless(Run(s, actions).slots[i].place)
    decreases |actions|
  {
    if actions != [] {
      StopStep(s, actions[0], i);
      StopDrains(Next(s, actions[0]), actions[1..], i);
    }
  }
}
