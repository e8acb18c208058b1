/**
 Evidence transfer between candidates: stage and rehash every artifact, link them
 into the output, then replace exactly one receipt; undo the links only when the
 replacement is known not to have happened.
 */
module Transfers {
  import opened Interruption

  /** Where one role of a check's evidence is stored, and the hash it must have. */
  datatype Reference = Reference(name: string, sha: string)

  /** The evidence of one check, by role. */
  type Evidence = map<string, Reference>

  /** The receipt: the evidence of every check. */
  type Receipt = map<string, Evidence>

  /** An artifact to copy: the hash the transfer declares and the hash the source file has when copied. */
  datatype Source = Source(sha: string, actual: string)

  datatype Transfer = Transfer(check: string, artifacts: map<string, Source>)

  /** The fate of one file system operation. */
  datatype Fate = Fine | Fails | Dies

  /** A file name for each staged artifact; staging makes every one of them new. */
  type Naming = (string, string) -> string

  /** How many of the coming operations do not go well. */
  function Faults(schedule: seq<Fate>): nat {
    if schedule == [] then 0 else (if schedule[0] == Fine then 0 else 1) + Faults(schedule[1..])
  }

  /** The output directory: its artifacts by name, with their hashes, and the receipt on disk. */
  class Output {
    var files: map<string, string>
    var receipt: Receipt
    var schedule: seq<Fate>

    method Step() returns (fate: Fate)
      modifies this`schedule
      ensures old(schedule) == [] ==> fate == Fine && schedule == []
      ensures old(schedule) != [] ==> fate == old(schedule)[0] && schedule == old(schedule)[1..]
      ensures Faults(old(schedule)) == Faults(schedule) + (if fate == Fine then 0 else 1)
    {
      if schedule == [] {
        return Fine;
      }
      fate, schedule := schedule[0], schedule[1..];
    }
  }

  /** Every artifact the receipt refers to exists with its recorded hash. */
  ghost predicate Backed(receipt: Receipt, files: map<string, string>) {
    forall check, role :: check in receipt && role in receipt[check] ==>
      receipt[check][role].name in files && files[receipt[check][role].name] == receipt[check][role].sha
  }

  // ---------- staging ----------

  function EvidenceOf(transfer: Transfer, naming: Naming): Evidence {
    map role | role in transfer.artifacts :: Reference(naming(role, transfer.artifacts[role].sha),
                                                       transfer.artifacts[role].sha)
  }

  /** The receipt with every prepared check replaced by its transferred evidence. */
  function Updated(receipt: Receipt, prepared: seq<Transfer>, naming: Naming): Receipt
    decreases |prepared|
  {
    if prepared == [] then receipt
    else Updated(receipt[prepared[0].check := EvidenceOf(prepared[0], naming)], prepared[1..], naming)
  }

  /** Different artifacts get different names. */
  ghost predicate Distinct(naming: Naming) {
    forall role, sha, role', sha' {:trigger naming(role, sha), naming(role', sha')} ::
      naming(role, sha) == naming(role', sha') ==> role == role' && sha == sha'
  }

  /** No artifact's name is taken. */
  ghost predicate Unused(naming: Naming, files: map<string, string>) {
    forall role, sha {:trigger naming(role, sha)} :: naming(role, sha) !in files
  }

  /** The staged files hold what their names stand for. */
  ghost predicate Staged(staged: map<string, string>, naming: Naming) {
    forall name :: name in staged ==> exists role :: name == naming(role, staged[name])
  }

  ghost predicate Holds(staged: map<string, string>, transfer: Transfer, naming: Naming) {
    forall role :: role in transfer.artifacts ==>
      var sha := transfer.artifacts[role].sha; naming(role, sha) in staged && staged[naming(role, sha)] == sha
  }

  /** Copy the artifacts of one transfer into the private staging directory, each distinct one once. */
  method StageOne(o: Output, before: map<string, string>, transfer: Transfer, naming: Naming)
    returns (outcome: Outcome, staged: map<string, string>)
    requires Distinct(naming) && Staged(before, naming)
    modifies o`schedule
    ensures Staged(staged, naming) && (forall name :: name in before ==> name in staged && staged[name] == before[name])
    ensures outcome == Done ==> Holds(staged, transfer, naming)
    ensures old(o.schedule) == [] ==> o.schedule == [] && outcome != Killed
    ensures old(o.schedule) == [] && Faithful(transfer) ==> outcome == Done
    ensures Faults(o.schedule) <= Faults(old(o.schedule))
  {
    staged := before;
    var remaining := transfer.artifacts.Keys;
    while remaining != {}
      invariant remaining <= transfer.artifacts.Keys
      invariant Staged(staged, naming) && forall name :: name in before ==>
                  name in staged && staged[name] == before[name]
      invariant forall role :: role in transfer.artifacts && role !in remaining ==>
                  var sha := transfer.artifacts[role].sha;
                  naming(role, sha) in staged && staged[naming(role, sha)] == sha
      invariant old(o.schedule) == [] ==> o.schedule == []
      invariant Faults(o.schedule) <= Faults(old(o.schedule))
    {
      var role :| role in remaining;
      var source := transfer.artifacts[role];
      var name := naming(role, source.sha);
      if name !in staged {
        var fate := o.Step();
        if fate == Dies {
          return Killed, staged;
        }
        if fate == Fails || source.actual != source.sha {
          return Refusal, staged;
        }
        staged := staged[name := source.actual];
      } else {
        ghost var known :| name == naming(known, staged[name]);
        assert known == role && staged[name] == source.sha;
      }
      remaining := remaining - {role};
    }
    return Done, staged;
  }

  /** Stage everything and compute the receipt that will refer to it. */
  method Stage(o: Output, prepared: seq<Transfer>, naming: Naming)
    returns (outcome: Outcome, staged: map<string, string>, incoming: Receipt)
    requires Distinct(naming)
    modifies o`schedule
    ensures Staged(staged, naming)
    ensures outcome == Done ==> incoming == Updated(o.receipt, prepared, naming)
    ensures outcome == Done ==> forall k :: 0 <= k < |prepared| ==> Holds(staged, prepared[k], naming)
    ensures old(o.schedule) == [] ==> o.schedule == [] && outcome != Killed
    ensures old(o.schedule) == [] && (forall k :: 0 <= k < |prepared| ==> Faithful(prepared[k])) ==> outcome == Done
    ensures Faults(o.schedule) <= Faults(old(o.schedule))
  {
    staged, incoming := map[], o.receipt;
    for k := 0 to |prepared|
      invariant Staged(staged, naming)
      invariant Updated(incoming, prepared[k..], naming) == Updated(o.receipt, prepared, naming)
      invariant forall i :: 0 <= i < k ==> Holds(staged, prepared[i], naming)
      invariant old(o.schedule) == [] ==> o.schedule == []
      invariant Faults(o.schedule) <= Faults(old(o.schedule))
    {
      ghost var before := staged;
      outcome, staged := StageOne(o, staged, prepared[k], naming);
      if outcome != Done {
        return;
      }
      assert prepared[k..][0] == prepared[k] && prepared[k..][1..] == prepared[k + 1..];
      incoming := incoming[prepared[k].check := EvidenceOf(prepared[k], naming)];
    }
    return Done, staged, incoming;
  }

  /** Every source still has the hash its transfer declares. */
  predicate Faithful(transfer: Transfer) {
    forall role :: role in transfer.artifacts ==> transfer.artifacts[role].actual == transfer.artifacts[role].sha
  }

  // ---------- publication ----------

  /** Link the staged files one by one; an existing name refuses. */
  method Promote(o: Output, staged: map<string, string>) returns (outcome: Outcome, promoted: set<string>)
    modifies o`files, o`schedule
    ensures promoted !! old(o.files).Keys && promoted <= staged.Keys
    ensures o.files == old(o.files) + map name | name in promoted :: staged[name]
    ensures outcome == Done ==> promoted == staged.Keys
    ensures old(o.schedule) == [] ==> o.schedule == [] && outcome != Killed
    ensures old(o.schedule) == [] && staged.Keys !! old(o.files).Keys ==> outcome == Done
    ensures Faults(o.schedule) <= Faults(old(o.schedule))
    ensures staged.Keys !! old(o.files).Keys && outcome != Done ==> Faults(o.schedule) < Faults(old(o.schedule))
  {
    promoted := {};
    var remaining := staged.Keys;
    while remaining != {}
      invariant remaining <= staged.Keys && promoted == staged.Keys - remaining && promoted !! old(o.files).Keys
      invariant o.files == old(o.files) + map name | name in promoted :: staged[name]
      invariant old(o.schedule) == [] ==> o.schedule == []
      invariant Faults(o.schedule) <= Faults(old(o.schedule))
    {
      var name :| name in remaining;
      var fate := o.Step();
      if fate == Dies {
        return Killed, promoted;
      }
      if fate == Fails || name in o.files {
        return Refusal, promoted;
      }
      o.files := o.files[name := staged[name]];
      promoted, remaining := promoted + {name}, remaining - {name};
    }
    return Done, promoted;
  }

  /** Write the next receipt beside the old one, replace it, and sync; any step may fail. */
  method Save(o: Output, incoming: Receipt) returns (outcome: Outcome)
    modifies o`receipt, o`schedule
    ensures o.receipt == old(o.receipt) || o.receipt == incoming
    ensures outcome == Done ==> o.receipt == incoming
    ensures old(o.schedule) == [] ==> o.schedule == [] && outcome == Done
    ensures Faults(old(o.schedule)) == Faults(o.schedule) + (if outcome == Done then 0 else 1)
  {
    var fate := o.Step();
    if fate != Fine {
      return if fate == Dies then Killed else Refusal;
    }
    fate := o.Step();
    if fate != Fine {
      return if fate == Dies then Killed else Refusal;
    }
    o.receipt := incoming;
    fate := o.Step();
    return if fate == Fine then Done else if fate == Dies then Killed else Refusal;
  }

  /** Remove this call's own links. */
  method Rollback(o: Output, promoted: set<string>) returns (outcome: Outcome)
    modifies o`files, o`schedule
    ensures exists removed :: removed <= promoted && o.files == old(o.files) - removed
    ensures outcome == Done ==> o.files == old(o.files) - promoted
    ensures old(o.schedule) == [] ==> o.schedule == [] && outcome == Done
    ensures Faults(old(o.schedule)) == 0 ==> outcome == Done
  {
    var remaining := promoted;
    while remaining != {}
      invariant remaining <= promoted && o.files == old(o.files) - (promoted - remaining)
      invariant old(o.schedule) == [] ==> o.schedule == []
      invariant Faults(o.schedule) <= Faults(old(o.schedule))
    {
      var name :| name in remaining;
      var fate := o.Step();
      if fate != Fine {
        return if fate == Dies then Killed else Refusal;
      }
      o.files := o.files - {name};
      remaining := remaining - {name};
    }
    return Done;
  }

  /** Whether the receipt on disk is known to be the new one, known not to be, or unreadable. */
  datatype Commit = Committed | NotCommitted | Uncertain

  /** After a failed save, read the receipt back. */
  method ReadBack(o: Output, incoming: Receipt, checks: set<string>) returns (commit: Commit, died: bool)
    requires checks <= incoming.Keys
    modifies o`schedule
    ensures commit == NotCommitted ==> o.receipt != incoming
    ensures commit == Committed ==>
              forall check :: check in checks ==> check in o.receipt && o.receipt[check] == incoming[check]
    ensures old(o.schedule) == [] ==> o.schedule == [] && !died && commit != Uncertain
    ensures Faults(old(o.schedule)) == 0 ==> Faults(o.schedule) == 0 && !died && commit != Uncertain
  {
    var fate := o.Step();
    if fate != Fine {
      return Uncertain, fate == Dies;
    }
    if forall check :: check in checks ==> check in o.receipt && o.receipt[check] == incoming[check] {
      return Committed, false;
    }
    return NotCommitted, false;
  }

  /** The last transfer of this check, which is the one that counts. */
  predicate LastFor(prepared: seq<Transfer>, check: string, k: nat) {
    && k < |prepared| && prepared[k].check == check
    && forall i :: k < i < |prepared| ==> prepared[i].check != check
  }

  /** The evidence records every role of the transfer, and no other, with its declared hash. */
  predicate Records(evidence: Evidence, transfer: Transfer) {
    && evidence.Keys == transfer.artifacts.Keys
    && forall role :: role in evidence ==> evidence[role].sha == transfer.artifacts[role].sha
  }

  /** Every file the evidence names is there with its recorded hash. */
  predicate Stored(evidence: Evidence, files: map<string, string>) {
    forall role :: role in evidence ==> evidence[role].name in files && files[evidence[role].name] == evidence[role].sha
  }

  /**
   The receipt changes exactly the transferred checks, each to the evidence of its last
   transfer, whose files are in the output.
   */
  ghost predicate Replaced(was: Receipt, now: Receipt, prepared: seq<Transfer>, files: map<string, string>) {
    && (forall k: nat :: k < |prepared| && LastFor(prepared, prepared[k].check, k) ==>
          && prepared[k].check in now && Records(now[prepared[k].check], prepared[k])
          && Stored(now[prepared[k].check], files))
    && (forall check :: (forall k :: 0 <= k < |prepared| ==> prepared[k].check != check) ==>
          (check in now <==> check in was) && (check in was ==> now[check] == was[check]))
  }

  /** The last transfer of a check decides its evidence, name by name; other checks keep theirs. */
  lemma {:induction false} UpdatedExactly(receipt: Receipt, prepared: seq<Transfer>, naming: Naming, check: string)
    ensures var now := Updated(receipt, prepared, naming);
            if exists k :: 0 <= k < |prepared| && prepared[k].check == check
            then
              exists k: nat ::
                && LastFor(prepared, check, k) && check in now && Records(now[check], prepared[k])
                && forall role :: role in now[check] ==> now[check][role].name == naming(role, now[check][role].sha)
            else (check in now <==> check in receipt) && (check in receipt ==> now[check] == receipt[check])
    decreases |prepared|
  {
    if prepared != [] {
      var next := receipt[prepared[0].check := EvidenceOf(prepared[0], naming)];
      UpdatedExactly(next, prepared[1..], naming, check);
      assert forall k :: 1 <= k < |prepared| ==> prepared[k] == prepared[1..][k - 1];
      if exists k :: 0 <= k < |prepared[1..]| && prepared[1..][k].check == check {
        var k: nat :| LastFor(prepared[1..], check, k) && Records(Updated(next, prepared[1..], naming)[check],
                                                                  prepared[1..][k]);
        assert LastFor(prepared, check, k + 1);
      } else if prepared[0].check == check {
        assert LastFor(prepared, check, 0);
      }
    }
  }

  lemma UpdatedStored(receipt: Receipt, prepared: seq<Transfer>, naming: Naming, files: map<string, string>, k: nat)
    requires k < |prepared| && LastFor(prepared, prepared[k].check, k) && Holds(files, prepared[k], naming)
    ensures var now := Updated(receipt, prepared, naming);
            && prepared[k].check in now && Records(now[prepared[k].check], prepared[k])
            && Stored(now[prepared[k].check], files)
  {
    UpdatedExactly(receipt, prepared, naming, prepared[k].check);
  }

  lemma UpdatedReplaces(receipt: Receipt, prepared: seq<Transfer>, naming: Naming, files: map<string, string>)
    requires forall k :: 0 <= k < |prepared| ==> Holds(files, prepared[k], naming)
    ensures Replaced(receipt, Updated(receipt, prepared, naming), prepared, files)
  {
    var now := Updated(receipt, prepared, naming);
    forall check | forall k :: 0 <= k < |prepared| ==> prepared[k].check != check
      ensures (check in now <==> check in receipt) && (check in receipt ==> now[check] == receipt[check])
    {
      UpdatedExactly(receipt, prepared, naming, check);
    }
    forall k: nat | k < |prepared| && LastFor(prepared, prepared[k].check, k)
      ensures && prepared[k].check in now && Records(now[prepared[k].check], prepared[k])
              && Stored(now[prepared[k].check], files)
    {
      UpdatedStored(receipt, prepared, naming, files, k);
    }
  }

  /** With the staged files in place, the updated receipt refers to nothing missing. */
  lemma {:induction false} UpdatedBacked(receipt: Receipt, prepared: seq<Transfer>, naming: Naming, files: map<string,
                                         string>)
    requires Backed(receipt, files)
    requires forall k :: 0 <= k < |prepared| ==> Holds(files, prepared[k], naming)
    ensures Backed(Updated(receipt, prepared, naming), files)
    decreases |prepared|
  {
    if prepared != [] {
      assert Holds(files, prepared[0], naming);
      assert Backed(receipt[prepared[0].check := EvidenceOf(prepared[0], naming)], files);
      UpdatedBacked(receipt[prepared[0].check := EvidenceOf(prepared[0], naming)], prepared[1..], naming, files);
    }
  }

  lemma {:induction false} UpdatedKeys(receipt: Receipt, prepared: seq<Transfer>, naming: Naming)
    ensures forall k :: 0 <= k < |prepared| ==> prepared[k].check in Updated(receipt, prepared, naming)
  {
    forall k | 0 <= k < |prepared|
      ensures prepared[k].check in Updated(receipt, prepared, naming)
    {
      UpdatedExactly(receipt, prepared, naming, prepared[k].check);
    }
  }

  /** Undo the links and report the failure that led here. */
  method Undo(o: Output, promoted: set<string>, ghost original: map<string, string>, ghost staged: map<string, string>)
    returns (outcome: Outcome)
    requires promoted !! original.Keys && promoted <= staged.Keys && o.files ==
               original + map name | name in promoted :: staged[name]
    modifies o`files, o`schedule
    ensures outcome == Refusal || outcome == Killed
    ensures forall name :: name in original ==> name in o.files && o.files[name] == original[name]
    ensures Faults(old(o.schedule)) == 0 ==> outcome == Refusal && o.files == original
  {
    outcome := Rollback(o, promoted);
    if outcome == Done {
      outcome := Refusal;
    }
  }

  /** The staged files are all in place. */
  ghost predicate Linked(staged: map<string, string>, files: map<string, string>) {
    forall name :: name in staged ==> name in files && files[name] == staged[name]
  }

  /**
   Link the staged files and replace the receipt.  The links are taken back only when the
   receipt is known not to be the new one; when that cannot be read back they stay.
   */
  method Install(o: Output, staged: map<string, string>, incoming: Receipt, checks: set<string>)
    returns (outcome: Outcome, commit: Commit)
    requires checks <= incoming.Keys
    modifies o
    ensures forall name :: name in old(o.files) ==> name in o.files && o.files[name] == old(o.files)[name]
    ensures o.receipt == old(o.receipt) || (o.receipt == incoming && Linked(staged, o.files))
    ensures commit != NotCommitted ==> Linked(staged, o.files)
    ensures commit == NotCommitted && outcome == Refusal ==> o.receipt == old(o.receipt)
    ensures commit == Committed ==>
              forall check :: check in checks ==> check in o.receipt && o.receipt[check] == incoming[check]
    ensures outcome == Done ==> commit == Committed && o.receipt == incoming
    ensures old(o.schedule) == [] && staged.Keys !! old(o.files).Keys ==> outcome == Done
    ensures old(o.schedule) == [] && outcome != Done ==>
              outcome == Refusal && o.files == old(o.files) && o.receipt == old(o.receipt)
    ensures Faults(old(o.schedule)) <= 1 && staged.Keys !! old(o.files).Keys && outcome == Refusal ==>
              commit != Uncertain && (commit == NotCommitted ==> o.files == old(o.files))
  {
    var promoted;
    commit := NotCommitted;
    outcome, promoted := Promote(o, staged);
    if outcome == Killed {
      return;
    }
    var fate := if outcome == Done then Fine else Fails;
    if outcome == Done {
      fate := o.Step();
    }
    if fate == Dies {
      return Killed, NotCommitted;
    }
    if fate == Fails {
      outcome := Undo(o, promoted, old(o.files), staged);
      return;
    }
    outcome := Save(o, incoming);
    if outcome == Refusal {
      var died;
      commit, died := ReadBack(o, incoming, checks);
      if died {
        return Killed, commit;
      }
      if commit == NotCommitted {
        outcome := Undo(o, promoted, old(o.files), staged);
      }
      return;
    }
    if outcome == Killed {
      return Killed, Uncertain;
    }
    commit := Committed;
    fate := o.Step();
    outcome := if fate == Fine then Done else if fate == Dies then Killed else Refusal;
  }

  /** With the staged files in place, the updated receipt is what it should be, and refers to nothing missing. */
  lemma Arrived(receipt: Receipt, prepared: seq<Transfer>, naming: Naming, staged: map<string, string>,
                was: map<string, string>, files: map<string, string>)
    requires Linked(staged, files) && forall k :: 0 <= k < |prepared| ==> Holds(staged, prepared[k], naming)
    requires forall name :: name in was ==> name in files && files[name] == was[name]
    ensures forall k :: 0 <= k < |prepared| ==> Holds(files, prepared[k], naming)
    ensures Replaced(receipt, Updated(receipt, prepared, naming), prepared, files)
    ensures Backed(receipt, was) ==> Backed(receipt, files) && Backed(Updated(receipt, prepared, naming), files)
  {
    forall k | 0 <= k < |prepared|
      ensures Holds(files, prepared[k], naming)
    {
      assert Holds(staged, prepared[k], naming);
    }
    UpdatedReplaces(receipt, prepared, naming, files);
    if Backed(receipt, was) {
      UpdatedBacked(receipt, prepared, naming, files);
    }
  }

  /**
   The whole transfer.  Wherever it fails or dies, the receipt on disk is the old one
   or the fully updated one, everything it refers to exists with its recorded hash,
   and no file that was there before has been touched.  The new artifacts stay unless
   the commit is known not to have happened.  Without a fault in the file system a
   refused transfer leaves no trace at all, and one whose sources still have their
   declared hashes, under unused names, succeeds.
   */
  method ApplyTransfers(o: Output, prepared: seq<Transfer>, naming: Naming) returns (outcome: Outcome, commit: Commit)
    requires Distinct(naming)
    modifies o
    ensures o.receipt == old(o.receipt) || Replaced(old(o.receipt), o.receipt, prepared, o.files)
    ensures old(Backed(o.receipt, o.files)) ==> Backed(o.receipt, o.files)
    ensures forall name :: name in old(o.files) ==> name in o.files && o.files[name] == old(o.files)[name]
    ensures commit != NotCommitted ==> forall k :: 0 <= k < |prepared| ==> Holds(o.files, prepared[k], naming)
    ensures commit == Committed ==>
              forall k: nat :: k < |prepared| && LastFor(prepared, prepared[k].check, k) ==>
                prepared[k].check in o.receipt && Records(o.receipt[prepared[k].check], prepared[k])
    ensures commit == NotCommitted && outcome == Refusal ==> o.receipt == old(o.receipt)
    ensures outcome == Done ==> commit == Committed && Replaced(old(o.receipt), o.receipt, prepared, o.files)
    ensures old(o.schedule) == [] && outcome != Done ==>
              outcome == Refusal && o.files == old(o.files) && o.receipt == old(o.receipt)
    ensures Faults(old(o.schedule)) <= 1 && Unused(naming, old(o.files)) && outcome == Refusal ==>
              commit != Uncertain && (commit == NotCommitted ==> o.files == old(o.files))
    ensures (old(o.schedule) == [] && (forall k :: 0 <= k < |prepared| ==> Faithful(prepared[k]))
             && Unused(naming, old(o.files))) ==> outcome == Done
  {
    var staged, incoming;
    commit := NotCommitted;
    outcome, staged, incoming := Stage(o, prepared, naming);
    if outcome != Done {
      return;
    }
    var fate := o.Step();
    if fate != Fine {
      return if fate == Dies then Killed else Refusal, NotCommitted;
    }
    UpdatedKeys(o.receipt, prepared, naming);
    var checks := set k | 0 <= k < |prepared| :: prepared[k].check;
    outcome, commit := Install(o, staged, incoming, checks);
    if Linked(staged, o.files) {
      Arrived(old(o.receipt), prepared, naming, staged, old(o.files), o.files);
    }
  }
}
