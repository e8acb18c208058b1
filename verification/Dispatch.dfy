/**
 Workflow dispatch with persisted intent: the request file is written before every
 POST whose response may be lost, so that a restarted client never repeats one.
 */
module Dispatch {
  import opened Text
  import opened Interruption

  datatype Status =
    Fresh | DispatchUnknown | RerunUnknown | Running | Watching(completed: bool) | Passed | Failed | Interrupted

  /** The request file. */
  datatype Saved = Saved(started: bool, rerun: nat, attempt: Option<nat>, run: Option<nat>, status: Status)

  /** A workflow run as the remote reports it. */
  datatype RunInfo = RunInfo(id: nat, attempt: nat, completed: bool, success: bool)

  datatype Ending = Succeeded(run: RunInfo) | Cut | Raised

  /** What one session of the client is told, in order: by discovery, while a rerun starts, and while watching. */
  datatype Answers = Answers(discovered: seq<Option<RunInfo>>, rerunning: seq<RunInfo>, watching: seq<RunInfo>)

  const INPUT_LIMIT: nat := 65535

  /** The request file on disk, and the POSTs the remote has been sent for it. */
  class Request {
    var saved: Saved
    var dispatches: nat
    var reruns: seq<nat>
    const wick: Wick

    constructor ()
      ensures Valid() && saved == Saved(false, 0, None, None, Fresh) && dispatches == 0 && reruns == [] && fresh(wick)
    {
      saved, dispatches, reruns := Saved(false, 0, None, None, Fresh), 0, [];
      wick := new Wick();
    }

    /** Every POST was announced by the file before it was sent. */
    predicate Valid()
      reads this
    {
      && dispatches <= (if saved.started then 1 else 0)
      && (forall i :: 0 <= i < |reruns| ==> reruns[i] <= saved.rerun)
      && (forall i, k :: 0 <= i < k < |reruns| ==> reruns[i] < reruns[k])
    }

    /** Replace the request file. */
    method Write(state: Saved) returns (alive: bool)
      modifies this`saved, wick
      ensures saved == if alive then state else old(saved)
      ensures old(wick.fuse).Never? ==> alive && wick.fuse.Never?
    {
      alive := wick.Survive();
      if alive {
        saved := state;
      }
    }
  }

  /** Persist the intent to dispatch, then send it, unless that was done before. */
  method Announce(r: Request, size: nat) returns (outcome: Option<Ending>)
    requires r.Valid()
    modifies r, r.wick
    ensures r.Valid() && r.reruns == old(r.reruns) && r.saved.rerun == old(r.saved.rerun)
    ensures old(r.saved.started) ==> outcome.None? && r.saved == old(r.saved) && r.dispatches == old(r.dispatches)
    ensures !old(r.saved.started) && size > INPUT_LIMIT ==>
              outcome == Some(Raised) && r.saved == old(r.saved) && r.dispatches == old(r.dispatches)
    ensures !old(r.saved.started) && size <= INPUT_LIMIT && old(r.wick.fuse).Never? ==>
              outcome.None? && r.saved.started && r.dispatches == old(r.dispatches) + 1
    ensures outcome.None? ==> r.saved.started
    ensures outcome.Some? ==> !outcome.value.Succeeded?
    ensures old(r.wick.fuse).Never? ==> r.wick.fuse.Never?
  {
    if r.saved.started {
      return None;
    }
    if size > INPUT_LIMIT {
      return Some(Raised);
    }
    var alive := r.Write(r.saved.(started := true, status := DispatchUnknown));
    if !alive {
      return Some(Cut);
    }
    alive := r.wick.Survive();
    if !alive {
      return Some(Cut);
    }
    r.dispatches := r.dispatches + 1;
    return None;
  }

  /** Persist the intent to rerun a failed attempt, then send it, unless that attempt was already asked for. */
  method Rerun(r: Request, state: Saved, target: nat) returns (alive: bool, next: Saved)
    requires r.Valid() && r.saved.started && state.started && state.rerun == r.saved.rerun
    modifies r, r.wick
    ensures r.Valid() && r.dispatches == old(r.dispatches) && r.saved.started
    ensures next.started && next.run == state.run && (alive ==> next.rerun == r.saved.rerun >= target)
    ensures old(r.saved.rerun) >= target ==>
              alive && next == state && r.reruns == old(r.reruns) && r.saved == old(r.saved)
    ensures r.reruns == old(r.reruns) || r.reruns == old(r.reruns) + [target]
    ensures old(r.wick.fuse).Never? ==>
              alive && r.wick.fuse.Never? && (old(r.saved.rerun) < target ==> r.reruns == old(r.reruns) + [target])
  {
    next := state;
    if state.rerun >= target {
      return true, next;
    }
    next := state.(rerun := target, status := RerunUnknown);
    alive := r.Write(next);
    if !alive {
      return;
    }
    alive := r.wick.Survive();
    if !alive {
      return;
    }
    r.reruns := r.reruns + [target];
  }

  /** The first answer that says the run has completed. */
  predicate FirstDone(answers: seq<RunInfo>, k: nat) {
    k < |answers| && answers[k].completed && forall i :: 0 <= i < k ==> !answers[i].completed
  }

  /** How an undisturbed watch ends at this answer. */
  function Ended(run: RunInfo): Ending {
    if run.success then Succeeded(run) else Raised
  }

  /** Watch a run until it completes; each observation is persisted. */
  method Watch(r: Request, found: RunInfo, begin: Saved, answers: seq<RunInfo>) returns (outcome: Ending)
    requires r.Valid() && r.saved.started && begin.started && begin.rerun == r.saved.rerun
    modifies r, r.wick
    ensures r.Valid() && r.dispatches == old(r.dispatches) && r.reruns == old(r.reruns) && r.saved.started
    ensures outcome.Succeeded? ==>
              && r.saved.status == Passed && outcome.run.success
              && exists k: nat :: FirstDone(answers, k) && outcome.run == answers[k]
    ensures forall k: nat :: old(r.wick.fuse).Never? && FirstDone(answers, k) ==>
              && outcome == Ended(answers[k]) && r.wick.fuse.Never?
              && r.saved == begin.(attempt := Some(answers[k].attempt),
                                   status := if answers[k].success then Passed else Failed)
    ensures old(r.wick.fuse).Never? && (forall k :: 0 <= k < |answers| ==> !answers[k].completed) ==>
              outcome == Cut && r.saved.status == Interrupted
  {
    var state := begin.(status := Running);
    var alive := r.Write(state);
    if !alive {
      return Cut;
    }
    for k := 0 to |answers|
      invariant r.Valid() && r.saved.started && state.started && state.rerun == r.saved.rerun
      invariant r.dispatches == old(r.dispatches) && r.reruns == old(r.reruns)
      invariant state == begin.(attempt := state.attempt, status := state.status)
      invariant forall i :: 0 <= i < k ==> !answers[i].completed
      invariant old(r.wick.fuse).Never? ==> r.wick.fuse.Never?
    {
      var run := answers[k];
      state := state.(attempt := Some(run.attempt), status := Watching(run.completed));
      alive := r.Write(state);
      if !alive {
        return Cut;
      }
      if run.completed {
        assert FirstDone(answers, k);
        state := state.(status := if run.success then Passed else Failed);
        alive := r.Write(state);
        if !alive {
          return Cut;
        }
        return if run.success then Succeeded(run) else Raised;
      }
    }
    alive := r.Write(state.(status := Interrupted));
    return Cut;
  }

  /** The first discovery that finds a run. */
  predicate FirstFound(discovered: seq<Option<RunInfo>>, j: nat) {
    j < |discovered| && discovered[j].Some? && forall i :: 0 <= i < j ==> discovered[i].None?
  }

  /** A failed run's next attempt appears. */
  predicate Reached(found: RunInfo, answers: Answers) {
    found.completed && !found.success ==>
      exists k :: 0 <= k < |answers.rerunning| && answers.rerunning[k].attempt > found.attempt
  }

  /**
   One session of the client.  Whatever the remote answers and wherever the session
   is killed, it sends the dispatch only if no earlier session announced it, and a
   rerun only of an attempt number that no earlier session announced.
   */
  method Session(r: Request, size: nat, answers: Answers) returns (outcome: Ending)
    requires r.Valid()
    modifies r, r.wick
    ensures r.Valid() && old(r.dispatches) <= r.dispatches && old(r.reruns) <= r.reruns
    ensures old(r.saved.started) ==> r.dispatches == old(r.dispatches)
    ensures !old(r.saved.started) && size > INPUT_LIMIT ==>
              outcome == Raised && r.saved == old(r.saved) && r.dispatches == old(r.dispatches)
    ensures !old(r.saved.started) && size <= INPUT_LIMIT && old(r.wick.fuse).Never? ==>
              r.dispatches == old(r.dispatches) + 1
    ensures outcome.Succeeded? ==> r.saved.status == Passed && outcome.run.completed && outcome.run.success
    ensures (old(r.saved.started) || size <= INPUT_LIMIT) && old(r.wick.fuse).Never? ==>
              && (forall j: nat, k: nat ::
                    FirstFound(answers.discovered, j) && Reached(answers.discovered[j].value, answers)
                    && FirstDone(answers.watching, k) ==>
                      outcome == Ended(answers.watching[k])
                      && r.saved.run == Some(answers.discovered[j].value.id))
              && ((forall j :: 0 <= j < |answers.discovered| ==> answers.discovered[j].None?) ==>
                    outcome == Raised && r.saved.started)
  {
    var announced := Announce(r, size);
    if announced.Some? {
      return announced.value;
    }
    var k := 0;
    while k < |answers.discovered|
      invariant k <= |answers.discovered|
      invariant r.Valid() && r.saved.started && r.dispatches <= 1
      invariant forall j :: 0 <= j < k ==> answers.discovered[j].None?
      invariant old(r.wick.fuse).Never? ==> r.wick.fuse.Never?
    {
      var found := answers.discovered[k];
      if found.Some? {
        outcome := Resume(r, found.value, answers);
        return;
      }
      k := k + 1;
    }
    return Raised;
  }

  /** Continue with a discovered run, rerunning it first if it has failed. */
  method Resume(r: Request, found: RunInfo, answers: Answers) returns (outcome: Ending)
    requires r.Valid() && r.saved.started
    modifies r, r.wick
    ensures r.Valid() && r.dispatches == old(r.dispatches) && r.saved.started
    ensures r.reruns == old(r.reruns)
            || (found.completed && !found.success && r.reruns == old(r.reruns) + [found.attempt + 1])
    ensures old(r.wick.fuse).Never? && found.completed && !found.success && old(r.saved.rerun) <= found.attempt ==>
              r.reruns == old(r.reruns) + [found.attempt + 1]
    ensures outcome.Succeeded? ==> r.saved.status == Passed && outcome.run.completed && outcome.run.success
    ensures forall k: nat :: old(r.wick.fuse).Never? && Reached(found, answers) && FirstDone(answers.watching, k) ==>
              outcome == Ended(answers.watching[k]) && r.saved.run == Some(found.id)
  {
    var state := r.saved.(attempt := Some(found.attempt), run := Some(found.id));
    if found.completed && !found.success {
      var target := found.attempt + 1;
      var alive, next := Rerun(r, state, target);
      if !alive {
        return Cut;
      }
      state := next;
      var started := false;
      for k := 0 to |answers.rerunning|
        invariant r.Valid() && r.saved.started && state.started && state.rerun == r.saved.rerun
                  && r.dispatches == old(r.dispatches)
        invariant state.run == Some(found.id)
        invariant old(r.wick.fuse).Never? ==> r.wick.fuse.Never?
        invariant !started && forall i :: 0 <= i < k ==> answers.rerunning[i].attempt < target
      {
        if answers.rerunning[k].attempt >= target {
          started := true;
          break;
        }
      }
      if !started {
        return Raised;
      }
    }
    outcome := Watch(r, found, state, answers.watching);
  }

  /** Everything one session of the client depends on. */
  datatype Sitting = Sitting(size: nat, answers: Answers, fuse: Fuse)

  /**
   At most once, over any sequence of crashes, restarts and lost responses: one
   dispatch POST for the request and one rerun POST for any attempt number; and as
   long as every session so far was refused as oversize, the request is unconsumed.
   */
  method Sessions(sittings: seq<Sitting>) returns (r: Request)
    ensures fresh(r) && fresh(r.wick) && r.Valid()
    ensures r.dispatches <= 1
    ensures forall i, k :: 0 <= i < k < |r.reruns| ==> r.reruns[i] != r.reruns[k]
    ensures (forall i :: 0 <= i < |sittings| ==> sittings[i].size > INPUT_LIMIT) ==>
              !r.saved.started && r.dispatches == 0
  {
    r := new Request();
    for k := 0 to |sittings|
      invariant fresh(r) && fresh(r.wick) && r.Valid()
      invariant (forall i :: 0 <= i < k ==> sittings[i].size > INPUT_LIMIT) ==> !r.saved.started && r.dispatches == 0
    {
      r.wick.fuse := sittings[k].fuse;
      var outcome := Session(r, sittings[k].size, sittings[k].answers);
    }
  }
}
