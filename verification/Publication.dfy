/**
 Publication of a release candidate: reconcile the tag, the draft, its assets and
 the published state of a remote that earlier, interrupted runs may have left
 anywhere in between.
 */
module Publication {
  import opened Text
  import opened Interruption

  datatype Tag = Lightweight | Annotated(message: string, commit: string)

  datatype Asset = Starter(size: nat) | Uploaded(hash: string)

  datatype Release = Release(marker: string, prerelease: bool, draft: bool, immutable: bool, assets: map<string, Asset>)

  /** The candidate: its ownership marker, its commit and the hash of every file it must ship. */
  datatype Candidate = Candidate(marker: string, commit: string, expected: map<string, string>)

  /** What the remote holds under one stable tag. */
  class Remote {
    var tag: Option<Tag>
    var releases: seq<Release>
    const wick: Wick

    constructor (tag: Option<Tag>, releases: seq<Release>)
      ensures this.tag == tag && this.releases == releases && fresh(wick)
    {
      this.tag, this.releases := tag, releases;
      wick := new Wick();
    }
  }

  // ---------- ownership ----------

  predicate OwnedTag(tag: Option<Tag>, c: Candidate) {
    tag == Some(Annotated(c.marker, c.commit))
  }

  predicate OwnedRelease(release: Release, c: Candidate) {
    release.marker == c.marker && !release.prerelease
  }

  /** Exactly the expected files, each fully uploaded with its expected hash. */
  predicate Verified(assets: map<string, Asset>, c: Candidate) {
    && assets.Keys == c.expected.Keys
    && forall name :: name in c.expected ==> assets[name] == Uploaded(c.expected[name])
  }

  /** What an interrupted upload phase may have left: a starter of size zero, or a finished file. */
  predicate Resumable(assets: map<string, Asset>, c: Candidate) {
    && assets.Keys <= c.expected.Keys
    && forall name :: name in assets ==> assets[name] == Starter(0) || assets[name] == Uploaded(c.expected[name])
  }

  /** Every remote state that interrupted runs of this candidate can leave, and from which one can go on. */
  predicate Recoverable(tag: Option<Tag>, releases: seq<Release>, c: Candidate) {
    && (tag.None? || OwnedTag(tag, c))
    && |releases| <= 1
    && (releases != [] ==>
          && OwnedRelease(releases[0], c)
          && (if releases[0].draft then Resumable(releases[0].assets, c)
              else releases[0].immutable && Verified(releases[0].assets, c)))
  }

  /** A run that nothing interrupts can publish; `immutable` says whether the repository makes new releases so. */
  predicate Publishable(tag: Option<Tag>, releases: seq<Release>, c: Candidate, immutable: bool) {
    Recoverable(tag, releases, c) && (immutable || (releases != [] && !releases[0].draft))
  }

  /** The release is public under the owned tag, immutable, with exactly the expected files. */
  predicate Published(tag: Option<Tag>, releases: seq<Release>, c: Candidate) {
    && OwnedTag(tag, c) && |releases| == 1 && OwnedRelease(releases[0], c)
    && !releases[0].draft && releases[0].immutable && Verified(releases[0].assets, c)
  }

  // ---------- what no run may do ----------

  /** Finished uploads are neither deleted nor altered. */
  predicate UploadsKept(was: map<string, Asset>, now: map<string, Asset>) {
    forall name :: name in was && was[name].Uploaded? ==> name in now && now[name] == was[name]
  }

  /**
   The safety of one run from any remote state whatever: a foreign tag or release is
   left alone, an existing release keeps its identity and its finished uploads, and a
   release becomes public only with exactly the verified files.
   */
  predicate Safe(tag: Option<Tag>, releases: seq<Release>, now: Option<Tag>, nowReleases: seq<Release>, c: Candidate) {
    && (tag.Some? ==> now == tag)
    && (tag.None? ==> now.None? || OwnedTag(now, c))
    && (tag.Some? && !OwnedTag(tag, c) ==> nowReleases == releases)
    && (releases != [] && (|releases| > 1 || !OwnedRelease(releases[0], c)) ==> now == tag && nowReleases == releases)
    && (releases == [] ==>
          |nowReleases| <= 1 && (nowReleases != [] ==> OwnedTag(now, c) && OwnedRelease(nowReleases[0], c)))
    && (|releases| == 1 ==>
          && |nowReleases| == 1
          && nowReleases[0].marker == releases[0].marker && nowReleases[0].prerelease == releases[0].prerelease
          && UploadsKept(releases[0].assets, nowReleases[0].assets)
          && (!releases[0].draft ==> nowReleases[0] == releases[0]))
    && (nowReleases != releases && nowReleases != [] && !nowReleases[0].draft ==>
          OwnedTag(now, c) && Verified(nowReleases[0].assets, c))
  }

  /** Make sure the tag exists and is owned. */
  method EnsureTag(r: Remote, c: Candidate) returns (outcome: Outcome)
    modifies r`tag, r.wick
    ensures r.tag == old(r.tag) || (old(r.tag).None? && OwnedTag(r.tag, c))
    ensures outcome == Done ==> OwnedTag(r.tag, c)
    ensures old(r.tag).None? || OwnedTag(old(r.tag), c) ==> outcome != Refusal
    ensures old(r.wick.fuse).Never? ==> r.wick.fuse.Never? && outcome != Killed
  {
    if r.tag.None? {
      var alive := r.wick.Survive();
      if !alive {
        return Killed;
      }
      r.tag := Some(Annotated(c.marker, c.commit));
    }
    if r.tag.value.Lightweight? || r.tag.value.message != c.marker || r.tag.value.commit != c.commit {
      return Refusal;
    }
    return Done;
  }

  /** The local files are the candidate's. */
  predicate Intact(prepared: map<string, string>, c: Candidate) {
    forall name :: name in c.expected ==> name in prepared && prepared[name] == c.expected[name]
  }

  /** How one file's step may leave the assets. */
  ghost predicate StepAt(was: map<string, Asset>, now: map<string, Asset>, name: string, prepared: map<string, string>,
                         fault: Option<nat>) {
    && (forall other :: other != name ==>
          (other in now <==> other in was) && (other in was ==> now[other] == was[other]))
    && (name in was && was[name].Uploaded? ==> name in now && now[name] == was[name])
    && (name in now ==>
          || (name in was && now[name] == was[name])
          || (fault.Some? && now[name] == Starter(fault.value))
          || (name in prepared && now[name] == Uploaded(prepared[name])))
  }

  /** Replace one unfinished upload of a draft, or upload one missing file; a failed upload leaves a starter. */
  method UploadOne(r: Remote, name: string, prepared: map<string, string>, fault: Option<nat>)
    returns (outcome: Outcome)
    requires |r.releases| == 1
    modifies r`releases, r.wick
    ensures |r.releases| == 1 && r.releases[0] == old(r.releases)[0].(assets := r.releases[0].assets)
    ensures StepAt(old(r.releases)[0].assets, r.releases[0].assets, name, prepared, fault)
    ensures !old(r.releases)[0].draft ==> r.releases == old(r.releases)
    ensures outcome == Done ==> Startable(old(r.releases)[0].assets, name) && Finished(r.releases[0].assets, name)
    ensures outcome == Refusal ==>
              || fault.Some? || name !in prepared
              || (!old(r.releases)[0].draft
                  && !(name in old(r.releases)[0].assets && old(r.releases)[0].assets[name].Uploaded?))
              || (name in old(r.releases)[0].assets && old(r.releases)[0].assets[name].Starter?
                  && old(r.releases)[0].assets[name].size != 0)
    ensures old(r.wick.fuse).Never? ==> r.wick.fuse.Never? && outcome != Killed
  {
    var release := r.releases[0];
    if name in release.assets && release.assets[name].Starter? {
      if !release.draft || release.assets[name].size != 0 {
        return Refusal;
      }
      var alive := r.wick.Survive();
      if !alive {
        return Killed;
      }
      release := release.(assets := release.assets - {name});
      r.releases := [release];
    }
    if name !in release.assets {
      if !release.draft || name !in prepared {
        return Refusal;
      }
      var alive := r.wick.Survive();
      if !alive {
        return Killed;
      }
      var asset := if fault.Some? then Starter(fault.value) else Uploaded(prepared[name]);
      r.releases := [release.(assets := release.assets[name := asset])];
      if fault.Some? {
        return Refusal;
      }
    }
    return Done;
  }

  lemma ResumableStep(was: map<string, Asset>, now: map<string, Asset>, name: string, prepared: map<string, string>,
                      fault: Option<nat>, c: Candidate)
    requires Resumable(was, c) && Intact(prepared, c) && name in c.expected && StepAt(was, now, name, prepared, fault)
    requires fault.Some? ==> fault.value == 0
    ensures Resumable(now, c)
  {
  }

  /** Failing uploads leave starters that a later run may delete. */
  predicate Mild(faults: map<string, nat>) {
    forall name :: name in faults ==> faults[name] == 0
  }

  /** A file that an upload phase can finish with: missing, finished, or an empty starter. */
  predicate Startable(assets: map<string, Asset>, name: string) {
    name in assets ==> assets[name].Uploaded? || assets[name] == Starter(0)
  }

  predicate Finished(assets: map<string, Asset>, name: string) {
    name in assets && assets[name].Uploaded?
  }

  /** How far an upload phase is: the remaining files are untouched, the others were startable and are finished. */
  ghost predicate Progress(was: map<string, Asset>, now: map<string, Asset>, remaining: set<string>,
                           expected: set<string>) {
    && (forall name :: name in expected - remaining ==> Startable(was, name) && Finished(now, name))
    && (forall name :: name in remaining ==> (name in now <==> name in was) && (name in was ==> now[name] == was[name]))
  }

  lemma ProgressStep(was: map<string, Asset>, before: map<string, Asset>, now: map<string, Asset>, name: string,
                     remaining: set<string>, expected: set<string>)
    requires Progress(was, before, remaining, expected) && name in remaining
    requires forall other :: other != name ==>
               (other in now <==> other in before) && (other in before ==> now[other] == before[other])
    requires Startable(before, name) && Finished(now, name)
    ensures Progress(was, now, remaining - {name}, expected)
  {
    forall other | other in expected - (remaining - {name})
      ensures Startable(was, other) && Finished(now, other)
    {
      assert other == name || other in expected - remaining;
    }
  }

  /** Upload every expected file that the draft does not hold yet, in any order. */
  method Upload(r: Remote, c: Candidate, prepared: map<string, string>, faults: map<string, nat>)
    returns (outcome: Outcome)
    requires |r.releases| == 1
    modifies r`releases, r.wick
    ensures |r.releases| == 1 && r.releases[0] == old(r.releases)[0].(assets := r.releases[0].assets)
    ensures UploadsKept(old(r.releases)[0].assets, r.releases[0].assets)
    ensures !old(r.releases)[0].draft ==> r.releases == old(r.releases)
    ensures Resumable(old(r.releases)[0].assets, c) && Intact(prepared, c) && Mild(faults) ==>
              Resumable(r.releases[0].assets, c)
    ensures outcome == Done ==> Progress(old(r.releases)[0].assets, r.releases[0].assets, {}, c.expected.Keys)
    ensures ((if old(r.releases)[0].draft then Resumable(old(r.releases)[0].assets, c)
              else Verified(old(r.releases)[0].assets, c))
             && Intact(prepared, c) && faults == map[]) ==> outcome != Refusal
    ensures old(r.wick.fuse).Never? ==> r.wick.fuse.Never? && outcome != Killed
  {
    var remaining := c.expected.Keys;
    ghost var was := r.releases[0];
    while remaining != {}
      invariant remaining <= c.expected.Keys
      invariant |r.releases| == 1 && r.releases[0] == was.(assets := r.releases[0].assets)
      invariant UploadsKept(was.assets, r.releases[0].assets) && (!was.draft ==> r.releases == old(r.releases))
      invariant Progress(was.assets, r.releases[0].assets, remaining, c.expected.Keys)
      invariant Resumable(was.assets, c) && Intact(prepared, c) && Mild(faults) ==> Resumable(r.releases[0].assets, c)
      invariant old(r.wick.fuse).Never? ==> r.wick.fuse.Never?
    {
      var name :| name in remaining;
      ghost var before := r.releases[0].assets;
      var fault := if name in faults then Some(faults[name]) else None;
      outcome := UploadOne(r, name, prepared, fault);
      if Resumable(before, c) && Intact(prepared, c) && Mild(faults) {
        ResumableStep(before, r.releases[0].assets, name, prepared, fault, c);
      }
      if outcome != Done {
        return;
      }
      ProgressStep(was.assets, before, r.releases[0].assets, name, remaining, c.expected.Keys);
      remaining := remaining - {name};
    }
    return Done;
  }

  /** The inventory check: names, states and hashes, file by file. */
  method VerifyAssets(r: Remote, c: Candidate) returns (verified: bool)
    requires |r.releases| == 1
    ensures verified == Verified(r.releases[0].assets, c)
  {
    var assets := r.releases[0].assets;
    if assets.Keys != c.expected.Keys {
      return false;
    }
    var remaining := assets.Keys;
    while remaining != {}
      invariant remaining <= assets.Keys
      invariant forall name :: name in assets && name !in remaining ==> assets[name] == Uploaded(c.expected[name])
    {
      var name :| name in remaining;
      if assets[name].Starter? || assets[name].hash != c.expected[name] {
        return false;
      }
      remaining := remaining - {name};
    }
    return true;
  }

  /** Upload what is missing, verify, and only then make the draft public. */
  method Complete(r: Remote, c: Candidate, prepared: map<string, string>, faults: map<string, nat>, immutable: bool)
    returns (outcome: Outcome)
    requires |r.releases| == 1
    modifies r`releases, r.wick
    ensures |r.releases| == 1 && r.releases[0].marker == old(r.releases)[0].marker
            && r.releases[0].prerelease == old(r.releases)[0].prerelease
    ensures UploadsKept(old(r.releases)[0].assets, r.releases[0].assets)
    ensures !old(r.releases)[0].draft ==> r.releases == old(r.releases)
    ensures old(r.releases)[0].draft && !r.releases[0].draft ==>
              Verified(r.releases[0].assets, c) && r.releases[0].immutable == immutable
    ensures Resumable(old(r.releases)[0].assets, c) && Intact(prepared, c) && Mild(faults) ==>
              Resumable(r.releases[0].assets, c)
    ensures outcome == Done && old(r.releases)[0].draft ==> Resumable(old(r.releases)[0].assets, c) && immutable
    ensures outcome == Done ==> !r.releases[0].draft && r.releases[0].immutable && Verified(r.releases[0].assets, c)
    ensures ((if old(r.releases)[0].draft then Resumable(old(r.releases)[0].assets, c) && immutable
              else Verified(old(r.releases)[0].assets, c) && old(r.releases)[0].immutable)
             && Intact(prepared, c) && faults == map[]) ==> outcome != Refusal
    ensures old(r.wick.fuse).Never? ==> r.wick.fuse.Never? && outcome != Killed
  {
    if exists name :: name in r.releases[0].assets && name !in c.expected {
      return Refusal;
    }
    ghost var was := r.releases[0].assets;
    outcome := Upload(r, c, prepared, faults);
    if outcome != Done {
      return;
    }
    UploadedAll(was, r.releases[0].assets, c);
    outcome := MakePublic(r, c, immutable);
    if outcome == Done {
      StartedFrom(was, r.releases[0].assets, c);
    }
  }

  /** Verify the files, make a draft public, and check what is then there. */
  method MakePublic(r: Remote, c: Candidate, immutable: bool) returns (outcome: Outcome)
    requires |r.releases| == 1
    modifies r`releases, r.wick
    ensures |r.releases| == 1
            && r.releases[0] == old(r.releases)[0].(draft := r.releases[0].draft, immutable := r.releases[0].immutable)
    ensures !old(r.releases)[0].draft ==> r.releases == old(r.releases)
    ensures r.releases == old(r.releases)
         || (old(r.releases)[0].draft && !r.releases[0].draft && r.releases[0].immutable == immutable
             && Verified(r.releases[0].assets, c))
    ensures outcome == Done ==> !r.releases[0].draft && r.releases[0].immutable && Verified(r.releases[0].assets, c)
    ensures outcome == Done && old(r.releases)[0].draft ==> immutable
    ensures (Verified(old(r.releases)[0].assets, c)
             && (if old(r.releases)[0].draft then immutable else old(r.releases)[0].immutable)) ==> outcome != Refusal
    ensures old(r.wick.fuse).Never? ==> r.wick.fuse.Never? && outcome != Killed
  {
    if r.releases[0].draft {
      var verified := VerifyAssets(r, c);
      if !verified {
        return Refusal;
      }
      var alive := r.wick.Survive();
      if !alive {
        return Killed;
      }
      r.releases := [r.releases[0].(draft := false, immutable := immutable)];
    }
    if r.releases[0].draft || !r.releases[0].immutable {
      return Refusal;
    }
    var verified := VerifyAssets(r, c);
    return if verified then Done else Refusal;
  }

  /** After the upload phase, a draft that was resumable holds exactly the expected files. */
  lemma UploadedAll(was: map<string, Asset>, now: map<string, Asset>, c: Candidate)
    requires Progress(was, now, {}, c.expected.Keys)
    ensures Resumable(now, c) ==> Verified(now, c)
  {
    if Resumable(now, c) {
      forall name | name in c.expected
        ensures Finished(now, name)
      {
        assert name in c.expected.Keys - {};
      }
    }
  }

  /** A verified inventory came from a resumable one. */
  lemma StartedFrom(was: map<string, Asset>, now: map<string, Asset>, c: Candidate)
    requires Progress(was, now, {}, c.expected.Keys) && UploadsKept(was, now) && was.Keys <= c.expected.Keys
    requires Verified(now, c)
    ensures Resumable(was, c)
  {
    forall name | name in was
      ensures was[name] == Starter(0) || was[name] == Uploaded(c.expected[name])
    {
      assert name in c.expected.Keys - {};
    }
  }

  /**
   One publication run.  From any remote state and however it ends it is safe; on a
   recoverable state it leaves a recoverable one; and uninterrupted, with intact files and
   no failing upload, it publishes exactly from the publishable states.
   */
  method Publish(r: Remote, c: Candidate, prepared: map<string, string>, faults: map<string, nat>, immutable: bool)
    returns (outcome: Outcome)
    modifies r, r.wick
    ensures Safe(old(r.tag), old(r.releases), r.tag, r.releases, c)
    ensures (old(Recoverable(r.tag, r.releases, c)) && Intact(prepared, c) && immutable && Mild(faults)) ==>
              Recoverable(r.tag, r.releases, c)
    ensures outcome == Done ==> Published(r.tag, r.releases, c)
    ensures outcome == Done ==> old(Publishable(r.tag, r.releases, c, immutable))
    ensures old(Publishable(r.tag, r.releases, c, immutable)) && Intact(prepared, c) && faults == map[] ==>
              outcome != Refusal
    ensures old(r.wick.fuse).Never? ==> r.wick.fuse.Never? && outcome != Killed
  {
    if |r.releases| > 1 {
      return Refusal;
    }
    if r.releases != [] && (r.releases[0].marker != c.marker || r.releases[0].prerelease) {
      return Refusal;
    }
    outcome := EnsureTag(r, c);
    if outcome != Done {
      return;
    }
    if r.releases == [] {
      var alive := r.wick.Survive();
      if !alive {
        return Killed;
      }
      r.releases := [Release(c.marker, false, true, false, map[])];
    }
    outcome := Complete(r, c, prepared, faults, immutable);
  }

  /** One run of the publication workflow. */
  datatype Attempt = Attempt(faults: map<string, nat>, immutable: bool, fuse: Fuse)

  /**
   Convergence: after any number of serialized runs of this candidate, each failing or
   killed anywhere, one more uninterrupted run publishes exactly the candidate if and only
   if the state they left is publishable.  It is, whenever the repository makes releases
   immutable and failed uploads leave starters of size zero.
   */
  method Converge(r: Remote, c: Candidate, prepared: map<string, string>, history: seq<Attempt>, immutable: bool)
    returns (outcome: Outcome, ghost tag: Option<Tag>, ghost releases: seq<Release>)
    modifies r, r.wick
    ensures Intact(prepared, c) ==> (outcome == Done <==> Publishable(tag, releases, c, immutable))
    ensures outcome == Done ==> Published(r.tag, r.releases, c)
    ensures (old(Recoverable(r.tag, r.releases, c)) && Intact(prepared, c) && immutable
             && (forall k :: 0 <= k < |history| ==>
                   history[k].immutable && Mild(history[k].faults))) ==> outcome == Done
  {
    for k := 0 to |history|
      invariant (old(Recoverable(r.tag, r.releases, c)) && Intact(prepared, c)
                 && (forall i :: 0 <= i < k ==> history[i].immutable && Mild(history[i].faults))) ==>
                  Recoverable(r.tag, r.releases, c)
    {
      r.wick.fuse := history[k].fuse;
      var attempt := Publish(r, c, prepared, history[k].faults, history[k].immutable);
    }
    tag, releases := r.tag, r.releases;
    r.wick.fuse := Never;
    outcome := Publish(r, c, prepared, map[], immutable);
  }
}
