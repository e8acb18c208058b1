/**
 The shadow-compatible locks of the account databases: per file a private temporary
 named after the process, linked to the shared lock name, recoverable from a dead
 writer.  All of them live in one directory.
 */
module Locks {
  import opened Interruption
  import Accounts

  /** The files that have a lock. */
  datatype File = DatabaseFile(db: Accounts.Database) | RangeFile(gid: bool)

  /** The directory entries that take part: for each file the lock and one temporary per process. */
  datatype Name = Lock(file: File) | Temporary(file: File, pid: nat)

  /** What a lock file holds: nothing yet, a process id, or something unrecognised. */
  datatype Content = Empty | Pid(pid: nat) | Foreign

  type Names = map<Name, nat>
  type Inodes = map<nat, Content>

  /** The names that refer to an inode; their number is its link count. */
  function Links(names: Names, inode: nat): set<Name> {
    set name | name in names && names[name] == inode
  }

  /** Every temporary belongs to its process, every lock to the process it names, and only those two share a file. */
  ghost predicate WellFormed(names: Names, inodes: Inodes) {
    && (forall name :: name in names ==> names[name] in inodes)
    && (forall name :: name in names && name.Temporary? ==> inodes[names[name]] in {Empty, Pid(name.pid)})
    && (forall name :: name in names && name.Lock? ==> inodes[names[name]].Pid?)
    && (forall a, b :: a in names && b in names && a != b && names[a] == names[b] ==>
          a.file == b.file && a.Lock? != b.Lock?)
  }

  /** The process that a lock names. */
  ghost predicate WrittenBy(names: Names, inodes: Inodes, file: File, pid: nat) {
    Lock(file) in names && names[Lock(file)] in inodes && inodes[names[Lock(file)]] == Pid(pid)
  }

  /** Nobody alive holds the lock. */
  ghost predicate Abandoned(names: Names, inodes: Inodes, live: set<nat>, file: File) {
    forall pid :: WrittenBy(names, inodes, file, pid) ==> pid !in live
  }

  /** Nothing keeps this process from the lock: no temporary of its id is left, and nobody alive holds it. */
  ghost predicate Free(names: Names, inodes: Inodes, live: set<nat>, file: File, pid: nat) {
    Temporary(file, pid) !in names && Abandoned(names, inodes, live, file)
  }

  lemma LockLinks(names: Names, inodes: Inodes, file: File, pid: nat)
    requires WellFormed(names, inodes) && WrittenBy(names, inodes, file, pid)
    ensures var own := Temporary(file, pid);
            Links(names, names[Lock(file)])
            == if own in names && names[own] == names[Lock(file)] then {Lock(file), own} else {Lock(file)}
  {
    forall name | name in Links(names, names[Lock(file)])
      ensures name == Lock(file) || name == Temporary(file, pid)
    {
      if name.Temporary? {
        assert inodes[names[name]] in {Empty, Pid(name.pid)};
      }
    }
  }

  class Directory {
    var names: Names
    var inodes: Inodes
    var next: nat
    var live: set<nat>
    var contended: bool
    ghost var owners: set<nat>
    const wick: Wick

    constructor (wick: Wick)
      ensures Sound() && this.wick == wick
      ensures names == map[] && live == {} && owners == {} && !contended
    {
      names, inodes, next, live, owners, contended := map[], map[], 0, {}, {}, false;
      this.wick := wick;
    }

    /** No directory entry dangles, and the next inode is unused. */
    ghost predicate Valid()
      reads this
    {
      && (forall name :: name in names ==> names[name] in inodes)
      && (forall inode :: inode in inodes ==> inode < next)
    }

    /** Nothing keeps this process from the locks of these files, the password lock before them included. */
    ghost predicate Lockable(files: set<File>, pid: nat)
      reads this
    {
      files != {} ==> !contended && AllFree(names, inodes, live, files, pid)
    }

    /** Well-formed, with every entry left by one of the owners. */
    ghost predicate Sound()
      reads this
    {
      Valid() && WellFormed(names, inodes) && LeftBy(names, inodes, owners)
    }
  }

  /** Every temporary and every lock was made by one of these processes. */
  ghost predicate LeftBy(names: Names, inodes: Inodes, owners: set<nat>) {
    && (forall name :: name in names && name.Temporary? ==> name.pid in owners)
    && (forall file, pid :: WrittenBy(names, inodes, file, pid) ==> pid in owners)
  }

  /** A name may only disappear from a dead writer's inode. */
  ghost predicate OnlyDeadRemoved(was: Names, now: Names, inodes: Inodes, live: set<nat>, file: File) {
    forall name :: name in was && (name !in now || now[name] != was[name]) ==>
      && was[name] in inodes && inodes[was[name]].Pid? && inodes[was[name]].pid !in live
      && (name == Lock(file) || name == Temporary(file, inodes[was[name]].pid))
  }

  /** Create and fill the process's own temporary; an existing one refuses the call. */
  method CreateTemporary(d: Directory, file: File, pid: nat) returns (r: Outcome, inode: nat)
    requires d.Valid()
    modifies d`names, d`inodes, d`next, d.wick
    ensures d.Valid() && inode == old(d.next)
    ensures r == Refusal <==> Temporary(file, pid) in old(d.names)
    ensures r == Refusal ==> d.names == old(d.names) && d.inodes == old(d.inodes)
    ensures r == Done ==>
              d.names == old(d.names)[Temporary(file, pid) := inode] && d.inodes == old(d.inodes)[inode := Pid(pid)]
    ensures r == Killed ==>
              || (d.names == old(d.names) && d.inodes == old(d.inodes))
              || (d.names == old(d.names)[Temporary(file, pid) := inode] && d.inodes == old(d.inodes)[inode := Empty])
    ensures old(d.wick.fuse).Never? ==> d.wick.fuse.Never? && r != Killed
  {
    inode := d.next;
    if Temporary(file, pid) in d.names {
      return Refusal, inode;
    }
    var alive := d.wick.Survive();
    if !alive {
      return Killed, inode;
    }
    d.names, d.inodes, d.next := d.names[Temporary(file, pid) := inode], d.inodes[inode := Empty], inode + 1;
    alive := d.wick.Survive();
    if !alive {
      return Killed, inode;
    }
    d.inodes := d.inodes[inode := Pid(pid)];
    return Done, inode;
  }

  /** What breaking a lock does: only a dead writer's entries go, and nothing at all is refused of an abandoned lock. */
  ghost predicate Broke(was: Names, now: Names, inodes: Inodes, live: set<nat>, file: File, r: Outcome) {
    && (r == Done ==> Lock(file) !in now)
    && (forall name :: name in now ==> name in was && now[name] == was[name])
    && OnlyDeadRemoved(was, now, inodes, live, file)
    && (WellFormed(was, inodes) ==>
          && (r == Done ==> Abandoned(was, inodes, live, file))
          && (r == Refusal ==> !Abandoned(was, inodes, live, file) && now == was))
  }

  /** Remove a dead writer's lock, with the temporary it may still be linked to. */
  method BreakLock(d: Directory, file: File) returns (r: Outcome)
    requires d.Valid()
    modifies d`names, d.wick
    ensures d.Valid() && Broke(old(d.names), d.names, d.inodes, d.live, file, r)
    ensures old(d.wick.fuse).Never? ==> d.wick.fuse.Never? && r != Killed
  {
    if Lock(file) !in d.names {
      return Done;
    }
    var inode := d.names[Lock(file)];
    var content, links := d.inodes[inode], |Links(d.names, inode)|;
    if WellFormed(d.names, d.inodes) {
      assert WrittenBy(d.names, d.inodes, file, content.pid);
      LockLinks(d.names, d.inodes, file, content.pid);
    }
    if !content.Pid? || links !in {1, 2} || content.pid in d.live {
      return Refusal;
    }
    if links == 2 {
      var abandoned := Temporary(file, content.pid);
      if abandoned !in d.names || d.names[abandoned] != inode {
        return Refusal;
      }
      var alive := d.wick.Survive();
      if !alive {
        return Killed;
      }
      LinksWithout(d.names, inode, abandoned);
      d.names := d.names - {abandoned};
    }
    if |Links(d.names, inode)| != 1 {
      return Refusal;
    }
    var alive := d.wick.Survive();
    if !alive {
      return Killed;
    }
    d.names := d.names - {Lock(file)};
    return Done;
  }

  lemma LinksWithout(names: Names, inode: nat, name: Name)
    requires name in names && names[name] == inode
    ensures |Links(names - {name}, inode)| == |Links(names, inode)| - 1
  {
    assert Links(names - {name}, inode) == Links(names, inode) - {name};
  }

  /** Nothing changes for the other files. */
  ghost predicate SameElsewhere(was: Names, now: Names, files: set<File>) {
    forall name: Name :: name.file !in files ==>
      (name in now <==> name in was) && (name in was ==> now[name] == was[name])
  }

  /** What one acquisition may do to the entries, whoever calls it and wherever it stops. */
  ghost predicate Bounded(was: Names, now: Names, inodes: Inodes, live: set<nat>, file: File, pid: nat) {
    && OnlyDeadRemoved(was, now, inodes, live, file)
    && (forall name :: name in now && name != Lock(file) && name != Temporary(file, pid) ==>
          name in was && now[name] == was[name])
  }

  /** Files that exist keep their content. */
  ghost predicate Extends(was: Inodes, now: Inodes) {
    forall inode :: inode in was ==> inode in now && now[inode] == was[inode]
  }

  /** The process's own temporary, filled and not yet linked. */
  ghost predicate Staged(names: Names, inodes: Inodes, file: File, pid: nat, inode: nat) {
    && Temporary(file, pid) in names && names[Temporary(file, pid)] == inode
    && inode in inodes && inodes[inode] == Pid(pid)
    && (forall name :: name in names && names[name] == inode ==> name == Temporary(file, pid))
  }

  /** What the first half of an acquisition does: up to a filled temporary beside a free lock name. */
  ghost predicate StagedUp(was: Names, wasInodes: Inodes, now: Names, inodes: Inodes, live: set<nat>, file: File,
                           pid: nat, inode: nat, r: Outcome)
  {
    && Extends(wasInodes, inodes) && Bounded(was, now, wasInodes, live, file, pid)
    && (Lock(file) in now ==> Lock(file) in was && now[Lock(file)] == was[Lock(file)])
    && (r == Done ==> Lock(file) !in now && Staged(now, inodes, file, pid, inode))
    && (r == Refusal && Temporary(file, pid) in was ==> now == was && inodes == wasInodes)
    && (r == Refusal && Temporary(file, pid) !in was ==> Staged(now, inodes, file, pid, inode))
    && (WellFormed(was, wasInodes) ==>
          && WellFormed(now, inodes)
          && (r == Done ==> Free(was, wasInodes, live, file, pid))
          && (r == Refusal ==> !Free(was, wasInodes, live, file, pid)
                               && now - {Temporary(file, pid)} == was - {Temporary(file, pid)}))
  }

  /** Create the temporary and clear a dead writer's lock out of the way. */
  method Stage(d: Directory, file: File, pid: nat) returns (r: Outcome, inode: nat)
    requires d.Valid() && pid in d.live
    modifies d`names, d`inodes, d`next, d.wick
    ensures d.Valid() && inode == old(d.next)
    ensures StagedUp(old(d.names), old(d.inodes), d.names, d.inodes, d.live, file, pid, inode, r)
    ensures Temporary(file, pid) in old(d.names) ==> r == Refusal
    ensures old(d.wick.fuse).Never? ==> d.wick.fuse.Never? && r != Killed
  {
    r, inode := CreateTemporary(d, file, pid);
    if r != Refusal {
      CreatedStaged(old(d.names), old(d.inodes), d.live, file, pid, inode);
    }
    if r != Done {
      return;
    }
    ghost var created := d.names;
    r := BreakLock(d, file);
    BrokenStaged(old(d.names), old(d.inodes), created, d.names, d.inodes, d.live, file, pid, inode, r);
  }

  lemma CreatedStaged(was: Names, wasInodes: Inodes, live: set<nat>, file: File, pid: nat, inode: nat)
    requires Temporary(file, pid) !in was && inode !in wasInodes && forall name :: name in was ==>
               was[name] in wasInodes
    ensures StagedUp(was, wasInodes, was, wasInodes, live, file, pid, inode, Killed)
    ensures StagedUp(was, wasInodes, was[Temporary(file, pid) := inode], wasInodes[inode := Empty], live, file, pid,
                     inode, Killed)
  {
    if WellFormed(was, wasInodes) {
      CreatedWellFormed(was, wasInodes, file, pid, inode);
    }
  }

  lemma BrokenStaged(was: Names, wasInodes: Inodes, created: Names, now: Names, inodes: Inodes, live: set<nat>,
                     file: File, pid: nat, inode: nat, r: Outcome)
    requires Temporary(file, pid) !in was && inode !in wasInodes && pid in live
    requires forall name :: name in was ==> was[name] in wasInodes
    requires created == was[Temporary(file, pid) := inode] && inodes == wasInodes[inode := Pid(pid)]
    requires Broke(created, now, inodes, live, file, r)
    ensures StagedUp(was, wasInodes, now, inodes, live, file, pid, inode, r)
  {
    SameWriters(was, wasInodes, created, inodes, live, file);
    assert Temporary(file, pid) in now && now[Temporary(file, pid)] == inode;
    assert Bounded(was, now, wasInodes, live, file, pid);
    if WellFormed(was, wasInodes) {
      CreatedWellFormed(was, wasInodes, file, pid, inode);
      FewerWellFormed(created, now, inodes);
    }
  }

  /** A new temporary does not change who holds a lock. */
  lemma SameWriters(was: Names, wasInodes: Inodes, now: Names, inodes: Inodes, live: set<nat>, file: File)
    requires Lock(file) in now <==> Lock(file) in was
    requires Lock(file) in was ==>
               && now[Lock(file)] == was[Lock(file)] && was[Lock(file)] in wasInodes
               && was[Lock(file)] in inodes && inodes[was[Lock(file)]] == wasInodes[was[Lock(file)]]
    ensures forall pid :: WrittenBy(now, inodes, file, pid) <==> WrittenBy(was, wasInodes, file, pid)
    ensures Abandoned(now, inodes, live, file) <==> Abandoned(was, wasInodes, live, file)
  {
    assert forall pid :: WrittenBy(now, inodes, file, pid) <==> WrittenBy(was, wasInodes, file, pid);
  }

  /** What an acquisition of one lock does, whoever calls it and wherever it stops. */
  ghost predicate Acquired(was: Names, wasInodes: Inodes, now: Names, inodes: Inodes, live: set<nat>, file: File,
                           pid: nat, inode: nat, r: Outcome)
  {
    && Extends(wasInodes, inodes) && Bounded(was, now, wasInodes, live, file, pid) && SameElsewhere(was, now, {file})
    && (r == Done ==> WrittenBy(now, inodes, file, pid) && now[Lock(file)] == inode && Temporary(file, pid) !in now)
    && (forall q :: WrittenBy(now, inodes, file, q) ==> q == pid || WrittenBy(was, wasInodes, file, q))
    && (Lock(file) in now ==>
          (Lock(file) in was && now[Lock(file)] == was[Lock(file)]) || WrittenBy(now, inodes, file, pid))
    && (WellFormed(was, wasInodes) ==>
          && WellFormed(now, inodes)
          && (r == Done ==> Free(was, wasInodes, live, file, pid))
          && (r == Refusal ==> !Free(was, wasInodes, live, file, pid) && now == was))
  }

  /**
   Acquire the lock of one file.  On a well-formed directory it succeeds only if, and
   refuses only unless, no temporary of this process id is left over and the lock is
   absent or its writer is dead; at every stop the directory is well-formed again, only
   entries of dead writers have disappeared, and a refusal has changed nothing.
   */
  method Acquire(d: Directory, file: File, pid: nat) returns (r: Outcome, inode: nat)
    requires d.Valid() && pid in d.live
    modifies d`names, d`inodes, d`next, d.wick
    ensures d.Valid() && inode == old(d.next)
    ensures Acquired(old(d.names), old(d.inodes), d.names, d.inodes, d.live, file, pid, inode, r)
    ensures old(d.wick.fuse).Never? ==> d.wick.fuse.Never? && r != Killed
  {
    r, inode := Stage(d, file, pid);
    ghost var mid := d.names;
    if r == Killed || Temporary(file, pid) !in d.names || d.names[Temporary(file, pid)] != inode {
      StoppedAcquired(old(d.names), old(d.inodes), mid, d.inodes, d.live, file, pid, inode, r);
      return;
    }
    if r == Done {
      r := LinkTemporary(d, file, pid, inode);
      LinkedAcquired(old(d.names), old(d.inodes), mid, d.names, d.inodes, d.live, file, pid, inode, r);
    } else {
      var cleaned := Discard(d, file, pid, inode);
      r := if cleaned then Refusal else Killed;
      DiscardedAcquired(old(d.names), old(d.inodes), mid, d.names, d.inodes, d.live, file, pid, inode, r);
    }
  }

  lemma StoppedAcquired(was: Names, wasInodes: Inodes, now: Names, inodes: Inodes, live: set<nat>, file: File, pid: nat,
                        inode: nat, r: Outcome)
    requires StagedUp(was, wasInodes, now, inodes, live, file, pid, inode, r)
    requires r == Killed || Temporary(file, pid) !in now || now[Temporary(file, pid)] != inode
    requires forall name :: name in was ==> was[name] in wasInodes
    ensures Acquired(was, wasInodes, now, inodes, live, file, pid, inode, r)
  {
  }

  lemma LinkedAcquired(was: Names, wasInodes: Inodes, mid: Names, now: Names, inodes: Inodes, live: set<nat>,
                       file: File, pid: nat, inode: nat, r: Outcome)
    requires StagedUp(was, wasInodes, mid, inodes, live, file, pid, inode, Done) && r != Refusal
    requires Temporary(file, pid) !in was && forall name :: name in was ==> was[name] in wasInodes
    requires r == Done ==> now == (mid - {Temporary(file, pid)})[Lock(file) := inode]
    requires r == Killed ==> now == mid || now == mid[Lock(file) := inode]
    requires WellFormed(mid, inodes) ==> WellFormed(now, inodes)
    ensures Acquired(was, wasInodes, now, inodes, live, file, pid, inode, r)
  {
    assert Lock(file) in now ==> WrittenBy(now, inodes, file, pid);
  }

  lemma DiscardedAcquired(was: Names, wasInodes: Inodes, mid: Names, now: Names, inodes: Inodes, live: set<nat>,
                          file: File, pid: nat, inode: nat, r: Outcome)
    requires StagedUp(was, wasInodes, mid, inodes, live, file, pid, inode, Refusal) && r != Done
    requires Temporary(file, pid) in mid && mid[Temporary(file, pid)] == inode && inode !in wasInodes
    requires forall name :: name in was ==> was[name] in wasInodes
    requires now == mid || now == mid - {Temporary(file, pid)}
    requires r == Refusal ==> Temporary(file, pid) !in now || now[Temporary(file, pid)] != inode
    requires WellFormed(mid, inodes) ==> WellFormed(now, inodes)
    ensures Acquired(was, wasInodes, now, inodes, live, file, pid, inode, r)
  {
    if WellFormed(was, wasInodes) && r == Refusal {
      assert Temporary(file, pid) !in was;
      assert was - {Temporary(file, pid)} == was;
    }
  }

  /** Link the filled temporary to the free lock name, check the result and drop the temporary. */
  method LinkTemporary(d: Directory, file: File, pid: nat, inode: nat) returns (r: Outcome)
    requires d.Valid() && Lock(file) !in d.names && Staged(d.names, d.inodes, file, pid, inode)
    modifies d`names, d.wick
    ensures d.Valid() && r != Refusal
    ensures r == Done ==> d.names == (old(d.names) - {Temporary(file, pid)})[Lock(file) := inode]
    ensures r == Killed ==> d.names == old(d.names) || d.names == old(d.names)[Lock(file) := inode]
    ensures WellFormed(old(d.names), d.inodes) ==> WellFormed(d.names, d.inodes)
    ensures old(d.wick.fuse).Never? ==> d.wick.fuse.Never? && r != Killed
  {
    var alive := d.wick.Survive();
    if !alive {
      return Killed;
    }
    d.names := d.names[Lock(file) := inode];
    OwnLinks(d.names, file, pid, inode);
    if |Links(d.names, inode)| != 2 || d.names[Lock(file)] != inode {
      return Refusal;
    }
    alive := d.wick.Survive();
    if !alive {
      return Killed;
    }
    d.names := d.names - {Temporary(file, pid)};
    return Done;
  }

  /** Drop the temporary of a refused call, if it is still this call's own. */
  method Discard(d: Directory, file: File, pid: nat, inode: nat) returns (done: bool)
    requires d.Valid()
    modifies d`names, d.wick
    ensures d.Valid()
    ensures d.names == old(d.names)
         || (Temporary(file, pid) in old(d.names) && old(d.names)[Temporary(file, pid)] == inode
             && d.names == old(d.names) - {Temporary(file, pid)})
    ensures done ==> Temporary(file, pid) !in d.names || d.names[Temporary(file, pid)] != inode
    ensures WellFormed(old(d.names), d.inodes) ==> WellFormed(d.names, d.inodes)
    ensures old(d.wick.fuse).Never? ==> d.wick.fuse.Never? && done
  {
    if Temporary(file, pid) in d.names && d.names[Temporary(file, pid)] == inode {
      done := d.wick.Survive();
      if !done {
        return;
      }
      d.names := d.names - {Temporary(file, pid)};
    }
    done := true;
  }

  lemma CreatedWellFormed(names: Names, inodes: Inodes, file: File, pid: nat, inode: nat)
    requires WellFormed(names, inodes) && Temporary(file, pid) !in names && inode !in inodes
    ensures WellFormed(names[Temporary(file, pid) := inode], inodes[inode := Empty])
    ensures WellFormed(names[Temporary(file, pid) := inode], inodes[inode := Pid(pid)])
  {
  }

  lemma FewerWellFormed(was: Names, now: Names, inodes: Inodes)
    requires WellFormed(was, inodes)
    requires forall name :: name in now ==> name in was && now[name] == was[name]
    ensures WellFormed(now, inodes)
  {
  }

  lemma OwnLinks(names: Names, file: File, pid: nat, inode: nat)
    requires forall name :: name in names && names[name] == inode ==> name == Lock(file) || name == Temporary(file, pid)
    requires Lock(file) in names && Temporary(file, pid) in names
    requires names[Lock(file)] == names[Temporary(file, pid)] == inode
    ensures |Links(names, inode)| == 2
  {
    assert Links(names, inode) == {Lock(file), Temporary(file, pid)};
  }

  /** Release a held lock, and only one's own. */
  method Release(d: Directory, file: File, inode: nat) returns (r: Outcome)
    requires d.Valid()
    modifies d`names, d.wick
    ensures d.Valid()
    ensures d.names == old(d.names)
         || (Lock(file) in old(d.names) && old(d.names)[Lock(file)] == inode && d.names == old(d.names) - {Lock(file)})
    ensures r == Done ==> Lock(file) !in d.names || d.names[Lock(file)] != inode
    ensures r != Refusal
    ensures WellFormed(old(d.names), d.inodes) ==> WellFormed(d.names, d.inodes)
    ensures old(d.wick.fuse).Never? ==> d.wick.fuse.Never? && r != Killed
  {
    if Lock(file) in d.names && d.names[Lock(file)] == inode {
      var alive := d.wick.Survive();
      if !alive {
        return Killed;
      }
      d.names := d.names - {Lock(file)};
    }
    return Done;
  }

  // ---------- several locks at once ----------

  predicate Distinct(files: seq<File>) {
    forall i, k :: 0 <= i < k < |files| ==> files[i] != files[k]
  }

  function Files(files: seq<File>): set<File> {
    set file | file in files
  }

  /** The process holds the locks of these files, by these inodes. */
  ghost predicate Holds(names: Names, inodes: Inodes, files: seq<File>, held: seq<nat>, pid: nat) {
    && |held| == |files|
    && forall i :: 0 <= i < |files| ==>
         && WrittenBy(names, inodes, files[i], pid) && names[Lock(files[i])] == held[i]
         && Temporary(files[i], pid) !in names
  }

  /** Entries have only disappeared, except for locks of these files. */
  ghost predicate Entered(was: Names, now: Names, files: set<File>) {
    && SameElsewhere(was, now, files)
    && forall name :: name in now && !(name.Lock? && name.file in files) ==> name in was && now[name] == was[name]
  }

  /** Nothing keeps this process from the locks of all these files. */
  ghost predicate AllFree(names: Names, inodes: Inodes, live: set<nat>, files: set<File>, pid: nat) {
    forall file :: file in files ==> Free(names, inodes, live, file, pid)
  }

  /** Whether a lock can be taken has not changed, for any file. */
  ghost predicate SameFreedom(was: Names, wasInodes: Inodes, now: Names, inodes: Inodes, live: set<nat>, pid: nat) {
    forall file :: Free(now, inodes, live, file, pid) <==> Free(was, wasInodes, live, file, pid)
  }

  /** Entries have only disappeared, and only locks of these files. */
  ghost predicate Shed(was: Names, now: Names, files: set<File>) {
    && (forall name :: name in now ==> name in was && now[name] == was[name])
    && (forall name :: name in was && name !in now ==> name.Lock? && name.file in files)
  }

  lemma ShedMore(was: Names, mid: Names, now: Names, files: set<File>, file: File)
    requires Shed(was, mid, files) && file in files && (now == mid || now == mid - {Lock(file)})
    ensures Shed(was, now, files)
  {
  }

  /** Give back the locks, last one first. */
  method ReleaseAll(d: Directory, files: seq<File>, held: seq<nat>, ghost pid: nat) returns (r: Outcome)
    requires d.Valid() && Distinct(files) && Holds(d.names, d.inodes, files, held, pid)
    modifies d`names, d.wick
    ensures d.Valid() && r != Refusal && Shed(old(d.names), d.names, Files(files))
    ensures r == Done ==> forall file :: file in files ==> Lock(file) !in d.names
    ensures WellFormed(old(d.names), d.inodes) ==> WellFormed(d.names, d.inodes)
    ensures old(d.wick.fuse).Never? ==> d.wick.fuse.Never? && r != Killed
  {
    ghost var was := d.names;
    var i := |files|;
    assert files[..i] == files && held[..i] == held;
    while i > 0
      invariant 0 <= i <= |files| == |held| && d.Valid() && Releasing(was, d.names, d.inodes, files, held, i, pid)
      invariant WellFormed(was, d.inodes) ==> WellFormed(d.names, d.inodes)
      invariant old(d.wick.fuse).Never? ==> d.wick.fuse.Never?
    {
      i := i - 1;
      ghost var mid := d.names;
      r := Release(d, files[i], held[i]);
      ReleasedOne(was, mid, d.names, d.inodes, files, held, i, pid);
      if r != Done {
        return;
      }
    }
    return Done;
  }

  /** The first locks are still held, the others are gone, and nothing else has changed. */
  ghost predicate Releasing(was: Names, now: Names, inodes: Inodes, files: seq<File>, held: seq<nat>, i: nat, pid: nat)
    requires i <= |files| == |held|
  {
    && Shed(was, now, Files(files)) && Holds(now, inodes, files[..i], held[..i], pid)
    && forall k :: i <= k < |files| ==> Lock(files[k]) !in now
  }

  lemma ReleasedOne(was: Names, mid: Names, now: Names, inodes: Inodes, files: seq<File>, held: seq<nat>, i: nat,
                    pid: nat)
    requires i < |files| == |held| && Distinct(files) && Releasing(was, mid, inodes, files, held, i + 1, pid)
    requires now == mid || now == mid - {Lock(files[i])}
    ensures Shed(was, now, Files(files))
    ensures Lock(files[i]) !in now || now[Lock(files[i])] != held[i] ==>
              Releasing(was, now, inodes, files, held, i, pid)
  {
    ShedMore(was, mid, now, Files(files), files[i]);
    assert files[..i + 1][i] == files[i] && held[..i + 1][i] == held[i];
    forall k | 0 <= k < i
      ensures WrittenBy(mid, inodes, files[k], pid) && mid[Lock(files[k])] == held[k]
              && Temporary(files[k], pid) !in mid
    {
      assert files[..i + 1][k] == files[k] && held[..i + 1][k] == held[k];
    }
  }

  /** A lock nobody has touched is as free as it was. */
  lemma FreeSame(was: Names, wasInodes: Inodes, now: Names, inodes: Inodes, live: set<nat>, file: File, pid: nat)
    requires Extends(wasInodes, inodes) && SameFile(was, now, file)
    requires Lock(file) in was ==> was[Lock(file)] in wasInodes
    ensures Free(now, inodes, live, file, pid) <==> Free(was, wasInodes, live, file, pid)
  {
    SameWriters(was, wasInodes, now, inodes, live, file);
  }

  /** The entries of one file are the same. */
  ghost predicate SameFile(was: Names, now: Names, file: File) {
    forall name: Name :: name.file == file ==>
      (name in now <==> name in was) && (name in was ==> now[name] == was[name])
  }

  /** Locks that were free, taken and given back leave everything as free as it was, and no entry of the process. */
  lemma GivenBack(was: Names, wasInodes: Inodes, mid: Names, now: Names, inodes: Inodes, live: set<nat>,
                  files: set<File>, pid: nat)
    requires Entered(was, mid, files) && Extends(wasInodes, inodes) && AllFree(was, wasInodes, live, files, pid)
    requires forall name :: name in was ==> was[name] in wasInodes
    requires forall name :: name in now ==> name in mid && now[name] == mid[name]
    requires forall name :: name in mid && name !in now ==> name.Lock? && name.file in files
    requires forall file :: file in files ==> Lock(file) !in now && Temporary(file, pid) !in mid
    ensures SameFreedom(was, wasInodes, now, inodes, live, pid)
    ensures forall name :: name in now ==> name in was && now[name] == was[name]
  {
    forall file
      ensures Free(now, inodes, live, file, pid) <==> Free(was, wasInodes, live, file, pid)
    {
      if file !in files {
        FreeSame(was, wasInodes, now, inodes, live, file, pid);
      }
    }
  }

  /** What a process that is killed while taking locks may leave: entries of its own. */
  ghost predicate Littered(was: Names, now: Names, inodes: Inodes, pid: nat) {
    forall name :: name in now ==>
      || (name in was && now[name] == was[name])
      || (name.Temporary? && name.pid == pid)
      || (name.Lock? && WrittenBy(now, inodes, name.file, pid))
  }

  /** What one successful acquisition did to the entries. */
  ghost predicate Took(was: Names, now: Names, inodes: Inodes, file: File, pid: nat, inode: nat) {
    && SameElsewhere(was, now, {file})
    && WrittenBy(now, inodes, file, pid) && now[Lock(file)] == inode && Temporary(file, pid) !in now
    && forall name :: name in now && name != Lock(file) ==> name in was && now[name] == was[name]
  }

  lemma TookHolds(was: Names, wasInodes: Inodes, now: Names, inodes: Inodes, files: seq<File>, i: nat, held: seq<nat>,
                  pid: nat, inode: nat)
    requires i < |files| && Distinct(files) && Holds(was, wasInodes, files[..i], held, pid)
    requires Took(was, now, inodes, files[i], pid, inode) && Extends(wasInodes, inodes)
    ensures Holds(now, inodes, files[..i + 1], held + [inode], pid)
  {
    forall k | 0 <= k < i + 1
      ensures WrittenBy(now, inodes, files[k], pid) && now[Lock(files[k])] == (held + [inode])[k]
      ensures Temporary(files[k], pid) !in now
    {
      if k < i {
        assert files[..i][k] == files[k];
      }
    }
  }

  lemma TookEntered(start: Names, was: Names, now: Names, inodes: Inodes, files: seq<File>, i: nat, pid: nat,
                    inode: nat)
    requires i < |files| && Entered(start, was, Files(files[..i])) && Took(was, now, inodes, files[i], pid, inode)
    ensures Entered(start, now, Files(files[..i + 1]))
  {
    assert files[..i + 1] == files[..i] + [files[i]];
    assert Files(files[..i + 1]) == Files(files[..i]) + {files[i]};
  }

  lemma TookFree(start: Names, startInodes: Inodes, was: Names, wasInodes: Inodes, live: set<nat>, files: seq<File>,
                 i: nat, pid: nat)
    requires i < |files| && Distinct(files) && Entered(start, was, Files(files[..i])) && Extends(startInodes, wasInodes)
    requires forall name :: name in start ==> start[name] in startInodes
    ensures Free(was, wasInodes, live, files[i], pid) <==> Free(start, startInodes, live, files[i], pid)
    ensures AllFree(start, startInodes, live, Files(files[..i]), pid)
            && Free(start, startInodes, live, files[i], pid) ==>
              AllFree(start, startInodes, live, Files(files[..i + 1]), pid)
  {
    assert files[i] !in files[..i];
    FreeSame(start, startInodes, was, wasInodes, live, files[i], pid);
    assert files[..i + 1] == files[..i] + [files[i]];
  }

  lemma LitteredMore(start: Names, was: Names, wasInodes: Inodes, now: Names, inodes: Inodes, live: set<nat>,
                     file: File, pid: nat)
    requires Littered(start, was, wasInodes, pid) && Extends(wasInodes, inodes) && SameElsewhere(was, now, {file})
    requires forall name :: name in now && name != Lock(file) && name != Temporary(file, pid) ==>
               name in was && now[name] == was[name]
    requires forall q :: WrittenBy(now, inodes, file, q) ==> q == pid || WrittenBy(was, wasInodes, file, q)
    requires Lock(file) in now ==>
               (Lock(file) in was && now[Lock(file)] == was[Lock(file)]) || WrittenBy(now, inodes, file, pid)
    ensures Littered(start, now, inodes, pid)
  {
    forall name | name in now && !(name in start && now[name] == start[name]) && !(name.Temporary? && name.pid == pid)
      ensures name.Lock? && WrittenBy(now, inodes, name.file, pid)
    {
      if name != Lock(file) {
        assert name in was && now[name] == was[name];
      }
    }
  }

  lemma LitteredFewer(start: Names, was: Names, now: Names, inodes: Inodes, pid: nat)
    requires Littered(start, was, inodes, pid) && forall name :: name in now ==> name in was && now[name] == was[name]
    ensures Littered(start, now, inodes, pid)
  {
  }

  lemma HoldsStill(was: Names, wasInodes: Inodes, now: Names, inodes: Inodes, files: seq<File>, i: nat, held: seq<nat>,
                   pid: nat)
    requires i < |files| && Distinct(files) && Holds(was, wasInodes, files[..i], held, pid)
    requires SameElsewhere(was, now, {files[i]}) && Extends(wasInodes, inodes)
    ensures Holds(now, inodes, files[..i], held, pid)
  {
    forall k | 0 <= k < i
      ensures WrittenBy(now, inodes, files[k], pid) && now[Lock(files[k])] == held[k]
              && Temporary(files[k], pid) !in now
    {
      assert files[..i][k] == files[k];
    }
  }

  /** Give back the locks held so far after one was refused. */
  method GiveUp(d: Directory, files: seq<File>, held: seq<nat>, pid: nat, ghost was: Names, ghost wasInodes: Inodes)
    returns (r: Outcome)
    requires d.Valid() && Distinct(files) && Holds(d.names, d.inodes, files, held, pid) && Extends(wasInodes, d.inodes)
    requires forall name :: name in was ==> was[name] in wasInodes
    modifies d`names, d.wick
    ensures d.Valid() && r != Done
    ensures forall name :: name in d.names ==> name in old(d.names) && d.names[name] == old(d.names)[name]
    ensures WellFormed(old(d.names), d.inodes) ==> WellFormed(d.names, d.inodes)
    ensures (Entered(was, old(d.names), Files(files)) && AllFree(was, wasInodes, d.live, Files(files), pid)
             && r == Refusal) ==>
              && SameFreedom(was, wasInodes, d.names, d.inodes, d.live, pid)
              && forall name :: name in d.names ==> name in was && d.names[name] == was[name]
    ensures old(d.wick.fuse).Never? ==> d.wick.fuse.Never? && r != Killed
  {
    ghost var mid := d.names;
    r := ReleaseAll(d, files, held, pid);
    if r == Done {
      if Entered(was, mid, Files(files)) && AllFree(was, wasInodes, d.live, Files(files), pid) {
        HeldNoTemporary(mid, d.inodes, files, held, pid);
        GivenBack(was, wasInodes, mid, d.names, d.inodes, d.live, Files(files), pid);
      }
      r := Refusal;
    }
  }

  lemma HeldNoTemporary(names: Names, inodes: Inodes, files: seq<File>, held: seq<nat>, pid: nat)
    requires Holds(names, inodes, files, held, pid)
    ensures forall file :: file in files ==> Temporary(file, pid) !in names
  {
  }

  /** How far the acquisition of several locks is, and what it has done to the directory. */
  ghost predicate HeldSoFar(was: Names, wasInodes: Inodes, names: Names, inodes: Inodes, live: set<nat>,
                            files: seq<File>, held: seq<nat>, pid: nat)
  {
    && Extends(wasInodes, inodes) && Littered(was, names, inodes, pid)
    && Holds(names, inodes, files, held, pid) && Entered(was, names, Files(files))
    && (WellFormed(was, wasInodes) ==> WellFormed(names, inodes) && AllFree(was, wasInodes, live, Files(files), pid))
  }

  /** What a refused or killed acquisition of several locks leaves. */
  ghost predicate GaveUp(was: Names, wasInodes: Inodes, names: Names, inodes: Inodes, live: set<nat>,
                         files: set<File>, pid: nat, refused: bool)
  {
    && Extends(wasInodes, inodes) && Littered(was, names, inodes, pid)
    && (WellFormed(was, wasInodes) ==>
          && WellFormed(names, inodes)
          && (refused ==>
                && !AllFree(was, wasInodes, live, files, pid) && SameFreedom(was, wasInodes, names, inodes, live, pid)
                && forall name :: name in names ==> name in was && names[name] == was[name]))
  }

  lemma TookNext(was: Names, wasInodes: Inodes, mid: Names, midInodes: Inodes, now: Names, inodes: Inodes,
                 live: set<nat>, files: seq<File>, i: nat, held: seq<nat>, pid: nat, inode: nat)
    requires i < |files| && Distinct(files) && HeldSoFar(was, wasInodes, mid, midInodes, live, files[..i], held, pid)
    requires Acquired(mid, midInodes, now, inodes, live, files[i], pid, inode, Done)
    requires forall name :: name in was ==> was[name] in wasInodes
    ensures HeldSoFar(was, wasInodes, now, inodes, live, files[..i + 1], held + [inode], pid)
  {
    TookFree(was, wasInodes, mid, midInodes, live, files, i, pid);
    LitteredMore(was, mid, midInodes, now, inodes, live, files[i], pid);
    TookHolds(mid, midInodes, now, inodes, files, i, held, pid, inode);
    TookEntered(was, mid, now, inodes, files, i, pid, inode);
  }

  /** Give back what is held after the next lock was refused. */
  method GiveUpNext(d: Directory, files: seq<File>, i: nat, held: seq<nat>, pid: nat, ghost was: Names,
                    ghost wasInodes: Inodes, ghost mid: Names, ghost midInodes: Inodes, ghost inode: nat)
    returns (r: Outcome)
    requires d.Valid() && Distinct(files) && i < |files|
    requires forall name :: name in was ==> was[name] in wasInodes
    requires HeldSoFar(was, wasInodes, mid, midInodes, d.live, files[..i], held, pid)
    requires Acquired(mid, midInodes, d.names, d.inodes, d.live, files[i], pid, inode, Refusal)
    modifies d`names, d.wick
    ensures d.Valid() && r != Done
    ensures GaveUp(was, wasInodes, d.names, d.inodes, d.live, Files(files), pid, r == Refusal)
    ensures old(d.wick.fuse).Never? ==> d.wick.fuse.Never? && r != Killed
  {
    TookFree(was, wasInodes, mid, midInodes, d.live, files, i, pid);
    LitteredMore(was, mid, midInodes, d.names, d.inodes, d.live, files[i], pid);
    HoldsStill(mid, midInodes, d.names, d.inodes, files, i, held, pid);
    ghost var refused := d.names;
    r := GiveUp(d, files[..i], held, pid, was, wasInodes);
    LitteredFewer(was, refused, d.names, d.inodes, pid);
    assert files[i] in Files(files);
  }

  /** One more lock, or none at all. */
  method AcquireNext(d: Directory, files: seq<File>, i: nat, held: seq<nat>, pid: nat, ghost was: Names,
                     ghost wasInodes: Inodes)
    returns (r: Outcome, inode: nat)
    requires d.Valid() && pid in d.live && Distinct(files) && i < |files|
    requires forall name :: name in was ==> was[name] in wasInodes
    requires HeldSoFar(was, wasInodes, d.names, d.inodes, d.live, files[..i], held, pid)
    modifies d`names, d`inodes, d`next, d.wick
    ensures d.Valid()
    ensures r == Done ==> HeldSoFar(was, wasInodes, d.names, d.inodes, d.live, files[..i + 1], held + [inode], pid)
    ensures r != Done ==> GaveUp(was, wasInodes, d.names, d.inodes, d.live, Files(files), pid, r == Refusal)
    ensures old(d.wick.fuse).Never? ==> d.wick.fuse.Never? && r != Killed
  {
    ghost var mid, midInodes := d.names, d.inodes;
    r, inode := Acquire(d, files[i], pid);
    if r == Done {
      TookNext(was, wasInodes, mid, midInodes, d.names, d.inodes, d.live, files, i, held, pid, inode);
    } else if r == Refusal {
      r := GiveUpNext(d, files, i, held, pid, was, wasInodes, mid, midInodes, inode);
    } else {
      LitteredMore(was, mid, midInodes, d.names, d.inodes, d.live, files[i], pid);
    }
  }

  /**
   Acquire the locks of several files in order; if one is refused, the ones already held
   are given back.
   */
  method AcquireAll(d: Directory, files: seq<File>, pid: nat) returns (r: Outcome, held: seq<nat>)
    requires d.Valid() && pid in d.live && Distinct(files)
    modifies d`names, d`inodes, d`next, d.wick
    ensures d.Valid()
    ensures r == Done ==> HeldSoFar(old(d.names), old(d.inodes), d.names, d.inodes, d.live, files, held, pid)
    ensures r != Done ==>
              GaveUp(old(d.names), old(d.inodes), d.names, d.inodes, d.live, Files(files), pid, r == Refusal)
    ensures old(d.wick.fuse).Never? ==> d.wick.fuse.Never? && r != Killed
  {
    held := [];
    ghost var was, wasInodes := d.names, d.inodes;
    for i := 0 to |files|
      invariant d.Valid() && HeldSoFar(was, wasInodes, d.names, d.inodes, d.live, files[..i], held, pid)
      invariant old(d.wick.fuse).Never? ==> d.wick.fuse.Never?
    {
      var inode;
      r, inode := AcquireNext(d, files, i, held, pid, was, wasInodes);
      if r != Done {
        return;
      }
      held := held + [inode];
    }
    assert files[..|files|] == files;
    return Done, held;
  }

  // ---------- sessions ----------

  lemma LitteredLeft(was: Names, wasInodes: Inodes, now: Names, inodes: Inodes, owners: set<nat>, pid: nat)
    requires LeftBy(was, wasInodes, owners) && Littered(was, now, inodes, pid) && Extends(wasInodes, inodes)
    requires forall name :: name in was ==> was[name] in wasInodes
    ensures LeftBy(now, inodes, owners + {pid})
  {
    forall file, q | WrittenBy(now, inodes, file, q)
      ensures q in owners + {pid}
    {
      if !WrittenBy(now, inodes, file, pid) {
        assert WrittenBy(was, wasInodes, file, q);
      }
    }
  }

  lemma FewerLeft(was: Names, wasInodes: Inodes, now: Names, inodes: Inodes, owners: set<nat>)
    requires LeftBy(was, wasInodes, owners) && Extends(wasInodes, inodes)
    requires forall name :: name in was ==> was[name] in wasInodes
    requires forall name :: name in now ==> name in was && now[name] == was[name]
    ensures LeftBy(now, inodes, owners)
  {
    forall file, q | WrittenBy(now, inodes, file, q)
      ensures q in owners
    {
      assert WrittenBy(was, wasInodes, file, q);
    }
  }

  lemma SameLockable(was: Names, wasInodes: Inodes, now: Names, inodes: Inodes, live: set<nat>, pid: nat)
    requires SameFreedom(was, wasInodes, now, inodes, live, pid)
    ensures SameLocks(was, wasInodes, now, inodes, live, pid)
  {
  }

  /** The same sets of locks can be taken. */
  ghost predicate SameLocks(was: Names, wasInodes: Inodes, now: Names, inodes: Inodes, live: set<nat>, pid: nat) {
    forall files :: AllFree(now, inodes, live, files, pid) <==> AllFree(was, wasInodes, live, files, pid)
  }

  /** Take the password lock, which its holder's death releases, and then the locks of the files. */
  method Enter(d: Directory, files: seq<File>, pid: nat) returns (r: Outcome, held: seq<nat>)
    requires d.Valid() && pid in d.live && Distinct(files) && files != []
    modifies d`names, d`inodes, d`next, d`owners, d.wick
    ensures d.Valid() && Extends(old(d.inodes), d.inodes)
    ensures r == Done ==> Holds(d.names, d.inodes, files, held, pid) && Entered(old(d.names), d.names, Files(files))
    ensures old(d.Sound()) ==>
              && d.Sound() && d.owners <= old(d.owners) + {pid}
              && (r == Done ==> old(d.Lockable(Files(files), pid)))
              && (r == Refusal ==>
                    && !old(d.Lockable(Files(files), pid)) && d.owners == old(d.owners)
                    && forall any :: d.Lockable(any, pid) <==> old(d.Lockable(any, pid)))
    ensures old(d.wick.fuse).Never? ==> d.wick.fuse.Never? && r != Killed
  {
    assert files[0] in Files(files);
    if d.contended {
      return Refusal, [];
    }
    r, held := AcquireAll(d, files, pid);
    if old(d.Sound()) {
      LitteredLeft(old(d.names), old(d.inodes), d.names, d.inodes, d.owners, pid);
    }
    if r == Refusal {
      if old(d.Sound()) {
        FewerLeft(old(d.names), old(d.inodes), d.names, d.inodes, d.owners);
        SameLockable(old(d.names), old(d.inodes), d.names, d.inodes, d.live, pid);
      }
    } else {
      d.owners := d.owners + {pid};
    }
  }

  /** Give the locks back; with them goes every trace of the session. */
  method Leave(d: Directory, files: seq<File>, held: seq<nat>, pid: nat, ghost was: Names, ghost wasInodes: Inodes,
               ghost wasOwners: set<nat>)
    returns (r: Outcome)
    requires d.Valid() && Distinct(files) && Holds(d.names, d.inodes, files, held, pid)
    requires Entered(was, d.names, Files(files)) && Extends(wasInodes, d.inodes)
    requires forall name :: name in was ==> was[name] in wasInodes
    modifies d`names, d`owners, d.wick
    ensures d.Valid() && r != Refusal
    ensures old(d.Sound()) && LeftBy(was, wasInodes, wasOwners)
            && AllFree(was, wasInodes, d.live, Files(files), pid) ==>
              && d.Sound() && (r == Killed ==> d.owners == old(d.owners))
              && (r == Done ==>
                    && d.owners == wasOwners
                    && SameLocks(was, wasInodes, d.names, d.inodes, d.live, pid))
    ensures old(d.wick.fuse).Never? ==> d.wick.fuse.Never? && r != Killed
  {
    ghost var mid := d.names;
    r := ReleaseAll(d, files, held, pid);
    if old(d.Sound()) {
      FewerLeft(mid, d.inodes, d.names, d.inodes, d.owners);
    }
    if r == Done && LeftBy(was, wasInodes, wasOwners) && AllFree(was, wasInodes, d.live, Files(files), pid) {
      HeldNoTemporary(mid, d.inodes, files, held, pid);
      GivenBack(was, wasInodes, mid, d.names, d.inodes, d.live, Files(files), pid);
      FewerLeft(was, wasInodes, d.names, d.inodes, wasOwners);
      SameLockable(was, wasInodes, d.names, d.inodes, d.live, pid);
      d.owners := wasOwners;
    }
  }

  // ---------- one lock over whole histories ----------

  /** The lock of a file names at most one process. */
  lemma SoleWriter(names: Names, inodes: Inodes, file: File, pid: nat, other: nat)
    requires WrittenBy(names, inodes, file, pid) && WrittenBy(names, inodes, file, other)
    ensures pid == other
  {
  }

  /** Process life and lock use, each call under the password lock and killed when its fuse says. */
  datatype Event =
    | Spawn(pid: nat)
    | Die(pid: nat)
    | Take(file: File, pid: nat, fuse: Fuse)
    | GiveBack(file: File, pid: nat, fuse: Fuse)

  datatype Holder = Holder(file: File, pid: nat)

  ghost predicate Holding(d: Directory, holders: map<Holder, nat>)
    reads d
  {
    forall h :: h in holders ==>
      h.pid in d.live && WrittenBy(d.names, d.inodes, h.file, h.pid) && d.names[Lock(h.file)] == holders[h]
  }

  /**
   Mutual exclusion for every history, process ids reused at will: the directory
   stays well-formed and at most one live process holds the lock of a file.
   */
  method Play(d: Directory, events: seq<Event>) returns (holders: map<Holder, nat>)
    requires d.Valid() && WellFormed(d.names, d.inodes)
    modifies d, d.wick
    ensures d.Valid() && WellFormed(d.names, d.inodes) && Holding(d, holders)
    ensures forall h, other :: h in holders && other in holders && h.file == other.file ==> h == other
  {
    holders := map[];
    for k := 0 to |events|
      invariant d.Valid() && WellFormed(d.names, d.inodes) && Holding(d, holders)
    {
      match events[k]
      case Spawn(pid) =>
        d.live := d.live + {pid};
      case Die(pid) =>
        holders, d.live := map h | h in holders && h.pid != pid :: holders[h], d.live - {pid};
      case Take(file, pid, fuse) =>
        if pid in d.live && Holder(file, pid) !in holders {
          d.wick.fuse := fuse;
          holders := Taking(d, file, pid, holders);
        }
      case GiveBack(file, pid, fuse) =>
        if Holder(file, pid) in holders {
          d.wick.fuse := fuse;
          holders := GivingBack(d, file, pid, holders);
        }
    }
    forall h, other | h in holders && other in holders && h.file == other.file
      ensures h == other
    {
      SoleWriter(d.names, d.inodes, h.file, h.pid, other.pid);
    }
  }

  method Taking(d: Directory, file: File, pid: nat, holders: map<Holder, nat>) returns (now: map<Holder, nat>)
    requires d.Valid() && WellFormed(d.names, d.inodes) && Holding(d, holders) && pid in d.live
             && Holder(file, pid) !in holders
    modifies d, d.wick
    ensures d.Valid() && WellFormed(d.names, d.inodes) && Holding(d, now)
  {
    var r, inode := Acquire(d, file, pid);
    now := holders;
    if r == Done {
      now := holders[Holder(file, pid) := inode];
    } else if r == Killed {
      now := map h | h in holders && h.pid != pid :: holders[h];
      d.live := d.live - {pid};
    }
  }

  method GivingBack(d: Directory, file: File, pid: nat, holders: map<Holder, nat>) returns (now: map<Holder, nat>)
    requires d.Valid() && WellFormed(d.names, d.inodes) && Holding(d, holders) && Holder(file, pid) in holders
    modifies d, d.wick
    ensures d.Valid() && WellFormed(d.names, d.inodes) && Holding(d, now)
  {
    OneHolder(d, holders, file, pid);
    ghost var was := d.names;
    var r := Release(d, file, holders[Holder(file, pid)]);
    now := holders - {Holder(file, pid)};
    assert forall h :: h in now ==> h.file != file && Lock(h.file) in was && Lock(h.file) in d.names;
    if r == Killed {
      now := map h | h in now && h.pid != pid :: now[h];
      d.live := d.live - {pid};
    }
  }

  lemma OneHolder(d: Directory, holders: map<Holder, nat>, file: File, pid: nat)
    requires Holding(d, holders) && Holder(file, pid) in holders
    ensures forall h :: h in holders && h.file == file ==> h == Holder(file, pid)
  {
    forall h | h in holders && h.file == file
      ensures h == Holder(file, pid)
    {
      SoleWriter(d.names, d.inodes, file, pid, h.pid);
    }
  }

  /** One process takes a lock, releases it if it got that far, and is gone. */
  datatype Attempt = Attempt(pid: nat, entering: Fuse, leaving: Fuse)

  method Attempted(d: Directory, file: File, attempt: Attempt)
    requires d.Valid() && WellFormed(d.names, d.inodes)
    modifies d, d.wick
    ensures d.Valid() && WellFormed(d.names, d.inodes) && d.live == old(d.live) - {attempt.pid}
    ensures forall pid :: WrittenBy(d.names, d.inodes, file, pid) ==>
              pid == attempt.pid || WrittenBy(old(d.names), old(d.inodes), file, pid)
    ensures forall pid :: pid != attempt.pid && Temporary(file, pid) in d.names ==> Temporary(file, pid) in old(d.names)
  {
    d.live := d.live + {attempt.pid};
    d.wick.fuse := attempt.entering;
    var r, inode := Acquire(d, file, attempt.pid);
    if r == Done {
      d.wick.fuse := attempt.leaving;
      r := Release(d, file, inode);
    }
    d.live := d.live - {attempt.pid};
  }

  /**
   Recoverability: whatever processes came and died, wherever they were killed, a
   later process that none of them shared its id with takes the lock at once.
   */
  method AcquireAfter(d: Directory, file: File, history: seq<Attempt>, pid: nat) returns (r: Outcome, inode: nat)
    requires d.Valid() && WellFormed(d.names, d.inodes) && Abandoned(d.names, d.inodes, d.live, file)
    requires pid !in d.live && !WrittenBy(d.names, d.inodes, file, pid) && Temporary(file, pid) !in d.names
    requires forall k :: 0 <= k < |history| ==> history[k].pid != pid
    modifies d, d.wick
    ensures r == Done && WrittenBy(d.names, d.inodes, file, pid)
  {
    for k := 0 to |history|
      invariant d.Valid() && WellFormed(d.names, d.inodes) && Abandoned(d.names, d.inodes, d.live, file)
      invariant pid !in d.live && !WrittenBy(d.names, d.inodes, file, pid) && Temporary(file, pid) !in d.names
    {
      Attempted(d, file, history[k]);
    }
    d.live, d.wick.fuse := d.live + {pid}, Never;
    r, inode := Acquire(d, file, pid);
  }

  /**
   The two obstacles that a killed process leaves.  If it held the lock, nobody gets it
   while any live process has its id; if it had only created its temporary, no later
   process with that id ever does.
   */
  method Obstructed(d: Directory, file: File, writer: nat, pid: nat) returns (r: Outcome)
    requires d.Valid() && WellFormed(d.names, d.inodes) && pid in d.live && d.wick.fuse.Never?
    requires (WrittenBy(d.names, d.inodes, file, writer) && writer in d.live) || Temporary(file, pid) in d.names
    modifies d`names, d`inodes, d`next, d.wick
    ensures r == Refusal && d.names == old(d.names)
  {
    var inode;
    r, inode := Acquire(d, file, pid);
  }
}
