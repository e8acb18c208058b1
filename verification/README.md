# Subyard: verified models of the rename, release and collection protocols

This project models the stateful cores of Subyard in Dafny and proves what they promise
over whole histories of interrupted runs.  Every statement below is a contract that Dafny
verifies.

Verify everything with `dafny verify dfyconfig.toml`.

**The developer rename** (`config/identity`) changes one Unix login inside a guest: its
home, four account databases, subordinate id ranges, sudo grant and owned receipts.  It is
a sequence of atomic replacements guarded by a journal.  A run may be killed between any
two of them, inside `usermod` and `groupmod` too, and is then repeated from the top.

- `Text`, `Accounts`, `Subids`, `Receipts`: the rewriting algebra, down to the characters.
- `Paths`: the directories that spelled paths name, and which of them exist with another.
- `Plans`: the plan of a rename and what each file says about the developer at each stage.
- `Protocol`: the invariant (`Pending`), the phase promises and the recovery reader.
- `Guests`: the guest as a mutable object, and the loops that replace its files.
- `Transition`, `Lifecycle`, `Convergence`: the account mutation, the operator's commands,
  and any history of them.
- `Examples`: guests that satisfy the premises of these theorems, on both sides of the exact
  conditions below.
- `Locks`: the shadow-compatible lock file protocol, one lock at a time and in sessions.

**Release tooling** (`dev`):

- `RunEvents`: the bounded journal reader.  `Tokenizer`: the incremental log tokenizer.
- `Usage`: the owning-wait usage ledger and its independent validator.
- `Dispatch`: workflow dispatch with persisted intent.  `Publication`: release publication.
- `Transfers`: evidence transfer.  `Scheduler`: the local and live checks and their verdict.

How the world is modelled:

- *Crashes.*  A `Fuse` burns with every write that others can see; when it is spent the run
  ends before the next one (`Killed`).  Histories are sequences of runs with arbitrary fuses.
- *Digests* are the payload they were taken of, that is, injective.
- *Environment.*  Processes and their ids, user services, mounts, reboots, the password lock
  and whether the service manager obeys, ignores or fails a command come from a `Host` value
  that every command is given.
  `usermod` and `groupmod` write any of the databases, in any order, may then fail, and leave
  their own locks when they are killed.
- *Refusals* are results, never preconditions.

Three families of guests pass the assessment, so that a rename can be planned and begun,
and are then refused by an uninterrupted run in a quiet guest.  `Converge` states that such a
run succeeds if and only if none of them applies.  The first two are for good; a plan free of
them is `Completable`:

- The writer of `/etc/group` removes the old member and appends the new one; the reader of
  a pending rename substitutes in place.  They agree if and only if the private primary
  group lists the old login at most once (`MemberListsAgree`).
- The mutation moves the home only within one parent directory, and the new home lies
  directly below `/home`.  Only the new login's spelling is checked, so an old login may
  contain a slash; the rename completes if and only if the old home has the parent `/home`
  too, which for a normally spelled home means that the old login has no slash
  (`AdjacentIff`).
- A run that is killed inside the lock phase leaves locks or a temporary named after its
  process id.  A later run is refused if and only if a lock it needs names a live process, or
  a temporary of its own id is left (`LocksOpen`).  Neither happens when its id is new and no
  live process has the id of one that left something (`Stranger`); `Locks.Obstructed` shows
  both obstacles for every well-formed directory.

`Examples.Failing` gives a guest for each of the first two and `Examples.StaleLock` a
directory for the third; `Examples.Plannable` gives a guest on either side of the first two
conditions for every normally spelled login and every number of listings.

## Model

| member | source | states |
|---|---|---|
| `Accounts.ProjectRow` | config/identity/accounts.py:48-63 | the in-place assignments of one row compute the row specification; it is refused if and only if its field count or the developer's home is wrong, and otherwise the owner's login, the home beside it and one member of each list change, field by field |
| `Accounts.Project` | config/identity/accounts.py:42-65 | the loop over lines computes the projection of the whole database; an absent database stays absent, and one bad row refuses all |
| `Accounts.ProjectionsCompose` | config/identity/accounts.py:42-65 | projecting in one mode and then in another is projecting once in the stronger: login and final are idempotent, final after login is final, login after final is final, byte for byte and refusals included |
| `Accounts.ProjectionPreserves` | config/identity/accounts.py:46-65 | line by line and field by field: the same lines and terminators; the owner's login changes where it is the old one (in group files only in the final mode), the home beside it becomes the new one, each member list drops the old login, keeps the others in their positions' order and has the new one behind them once; every other field, the password among them, and every unrelated row is identical |
| `Accounts.ProjectionRefuses` | config/identity/accounts.py:46-65 | a database is refused if and only if some row has the wrong number of fields or is the developer's with another home |
| `Accounts.AccountsRenamed` | config/identity/transition.py:176-184 | reading a projected passwd file gives the old accounts with exactly the developer's record renamed |
| `Accounts.GroupsRenamed` | config/identity/transition.py:186-193 | reading a projected group file gives the old groups with member lists, and in final mode the primary name, renamed |
| `Accounts.AccountWritten` | config/identity/transition.py:176-184 | an account written out as a passwd row is read back |
| `Accounts.GroupWritten` | config/identity/transition.py:186-193 | a group written out as a row is read back |
| `Accounts.RecipeCloses` | config/identity/accounts.py:67-78 | from any captured content of a database, projecting reaches exactly the captured content of the requested stage |
| `Accounts.CapturedOwners` | config/identity/accounts.py:67-78 | by position, the final content of every database has the new login where the captured one had the old; so has the login content of passwd and shadow, while that of the group files has the same owners |
| `Accounts.ObservedOwner` | config/identity/accounts.py:67-78 | every observed database ends with exactly one row of the new login and none of the old |
| `Receipts.EditEntries` | config/identity/transition.py:456-470 | the loop that edits copied entries and remembers the packages it saw refuses repeated, unknown and missing packages, and otherwise edits every entry as specified |
| `Receipts.EditReceipt` | config/identity/transition.py:428-478 | the in-place edit of a copied document computes the receipt specification; it is refused if and only if the document does not name only the two accounts and every package exactly once, and otherwise changes exactly what is stated key by key |
| `Receipts.PathProjected` | config/identity/transition.py:437-446 | a path is accepted if and only if it is normal and fixed or below one of the homes; below the old home it keeps its rest below the new one, a fixed path or one below the new home stays, and none ends below the old home |
| `Receipts.ReceiptProjected` | config/identity/transition.py:428-478 | the same equivalence and the same changes for the specification, moved or committed: settings name the new login only once committed, package digests become the new ones only then, kinds, ids, order and other keys stay |
| `Receipts.RelocationIdempotent` | config/identity/transition.py:437-446 | a relocated path, fixed or not, is relocated to itself when the old home is not below the new one |
| `Receipts.RelocationStable` | config/identity/transition.py:437-446 | as a function of any two account records, relocation of every path can be repeated if and only if the old home does not lie below the new one; no plan has such homes (`Plans.PlanMovable`) |
| `Receipts.NestedHomeMovesTwice` | config/identity/transition.py:442-445 | the other half of that equivalence: for two records with nested homes, which the assessment refuses, a path that a second relocation moves again |
| `Receipts.ReceiptsCompose` | config/identity/transition.py:428-478 | commit after move is direct commit, move after commit changes nothing, and both are idempotent, home relocation included; its premise holds of every plan (`Plans.PlanMovable`) |
| `Receipts.ReceiptCloses` | config/identity/transition.py:509-511 | from the captured or the moved document of any plan, projecting and encoding gives exactly the captured document of the requested stage |
| `Receipts.CapturedReceipt` | config/identity/transition.py:497-512 | of every captured receipt: the moved content differs from the first in its homes only and has the packages' old digests; the committed one names the new login and the new digests, and mentions the old login and home nowhere |
| `Subids.ReadRows` | config/identity/subids.py:83-94 | the accumulating loop parses every line or refuses the file |
| `Subids.RowWritten` | config/identity/subids.py:83-94 | a row written out with its start and count is read back, unless the range is empty or leaves the 32-bit ids |
| `Subids.ObserveExact` | config/identity/subids.py:96-109 | a file can be observed if and only if it parses, does not know the new owner, repeats no range of the old one, and no id is delegated both to the old owner and to another, its numeric alias excepted |
| `Subids.ForeignLines` | config/identity/subids.py:111-111 | the foreign text is the other owners' lines in order |
| `Subids.RewrittenParses` | config/identity/subids.py:83-115 | parsing the rewritten file gives the parsed original with only the owner's label changed |
| `Subids.RelabellingPreserves` | config/identity/subids.py:96-115 | the owner's ranges, the foreign lines, their order and bytes, and the checked disjointness (numeric alias excepted) survive; the old label is gone; the result could itself be observed for the way back |
| `Subids.RelabellingUndone` | config/identity/subids.py:228-228 | relabelling back gives the original text, character for character |
| `Subids.RewrittenWithoutRanges` | config/identity/subids.py:207-210 | a file in which the owner has no range is rewritten to itself, so the early return is right |
| `Plans.UniqueClaim` | config/identity/transition.py:347-355 | the uniqueness checks of the assessment leave exactly one passwd record that claims the uid, the old or the new login |
| `Plans.UniqueGroupClaim` | config/identity/transition.py:356-362 | likewise exactly one group record claims the gid, the old or the new name |
| `Paths.BelowIsThrough` | config/identity/transition.py:364-368 | a home spelled below the new one is reached through it, so the new home would already exist |
| `Paths.HomesApart` | config/identity/transition.py:126-137 | since directories on the way to a home belong to root and the home to the developer, two homes that pass the existence check do not contain each other, however the old one is spelled |
| `Paths.ParentOfNormal` | config/identity/transition.py:224-230 | a normally spelled home is a direct child of /home if and only if its login has no slash |
| `Paths.PlaceBelow` | config/identity/transition.py:120-137 | one more component of a path is no step, a step up, or a step down, and the rest names the parent |
| `Plans.PreparedEstablishes` | config/identity/transition.py:582-591 | a matching assessment establishes every recipe, the unique records, the private group, two homes of which neither contains or leads to the other, the origin that the rename relies on, and everything that is listed for the assessment below |
| `Plans.PrepareExact` | config/identity/transition.py:327-402 | the assessment yields a plan if and only if: one passwd row has the old login and uid, neither it nor its gid is root's, and none has the new login; one group has its gid, is its own, and nobody else is in it by name or by primary gid; every database fits with one row of the old login and none of the new; the ranges can be relabelled; homes, grants and lingering are free and nothing is mounted; no user services linger; and every receipt is owned, with ownership evidence and the packages' old digests |
| `Plans.PlanMovable` | config/identity/transition.py:364-379 | every assessed plan has homes on which relocation can be repeated; no extra premise is needed |
| `Plans.AdjacentIff` | config/identity/transition.py:621-622 | exactly which plans the parent check lets through: the old home lies directly below /home, for a normal spelling an old login without a slash |
| `Plans.AccountStage` | config/identity/transition.py:552-555 | at every captured content of passwd one record claims the developer: the old one at the start, the new one at both later stages, and the stages differ |
| `Plans.GroupStage` | config/identity/transition.py:564-566 | at both later contents of the group file one row claims the developer, as the projection rewrote it, and the final content is distinguishable |
| `Plans.MemberListsAgree` | config/identity/transition.py:561-563 | the writer's member list and the reader's substituted list agree if and only if the old login is listed at most once |
| `Plans.DuplicateMemberDisagrees` | config/identity/transition.py:561-563 | a concrete group row on which writer and reader disagree |
| `Protocol.PreparedIsPending` | config/identity/transition.py:604-607 | the state a plan was made in satisfies the protocol invariant, for every assessed plan |
| `Protocol.GrantsNeverCoexist` | config/identity/transition.py:88-116 | in every state of the protocol at most one of the two sudo grants exists |
| `Protocol.HomeHasOneName` | config/identity/transition.py:615-630 | in every state of the protocol the home has exactly one of its two names, its identity is the planned one, and it has moved only within one parent |
| `Protocol.ReaderAccepts` | config/identity/transition.py:547-580 | on every state the rename can leave, receipts checked or not, the reader returns the login now in passwd, except for a group that lists the old login more than once, from the moment it is rewritten |
| `Protocol.ReaderExact` | config/identity/transition.py:547-580 | in any state whatever the reader returns a login if and only if: the machine is the plan's, every database, range file and (if asked) receipt has a captured content, one passwd row claims the developer and is the old or new record under that login, one group row does and is the captured one or a substituted form, exactly one home exists, with its identity and parent, and nothing is mounted |
| `Guests.Guest.Publish` | config/identity/transition.py:146-166 | the journal is replaced as a whole or not at all |
| `Guests.Validate` | config/identity/accounts.py:80-85 | the loop accepts if and only if every database has a captured content |
| `Guests.RecoverOne` | config/identity/accounts.py:113-122 | with the locks held, one database reaches the requested stage, is never moved back, and a captured one never draws a refusal |
| `Guests.RecoverHeld` | config/identity/accounts.py:112-122 | with the four locks held (its premise): from any mixture of stages never refused, no database moved back, at every kill a valid mixture, at the end all at or beyond the stage; an unknown content refuses before anything is written |
| `Guests.Recover` | config/identity/accounts.py:108-122 | all four locks are taken first and given back last, kill points included: success needs them free, a mixture of captured stages is refused only when they are not, a run that is not killed leaves the same locks free as before, and a killed one only entries of its own |
| `Guests.RunTool` | config/identity/transition.py:640-650 | the account tools as environment steps: any subset of databases advanced one stage when they end, and locks of their own left when they are killed |
| `Guests.RebindFile` | config/identity/subids.py:213-232 | one file ends relabelled or as it was; it is rewritten only if its ranges, its foreign lines and the absence of the new owner are as captured; a captured one never draws a refusal, an unknown one always does |
| `Guests.Rebind` | config/identity/subids.py:205-232 | both files end relabelled under their two locks, with the same promises about them; without any range nothing is locked; a kill between the files leaves a state from which the same call reaches the same result |
| `Guests.RebindSudo` | config/identity/transition.py:88-116 | retiring removes only the old grant; installing adds only the new one and only when the old is gone; refused if and only if a grant is foreign or unexpected |
| `Guests.RebindReceipt` | config/identity/transition.py:519-545 | one receipt reaches the requested stage; a committed one is left alone |
| `Guests.RebindReceipts` | config/identity/transition.py:514-545 | from any mixture of captured, moved and committed receipts, in any order, every receipt reaches the stage and no committed one is undone; a changed receipt set refuses |
| `Transition.RecoveryAdvances` | config/identity/accounts.py:108-122 | any part of a recovery only moves databases forward |
| `Transition.ToolAdvances` | config/identity/transition.py:640-650 | whatever the account tools got to, databases only moved forward |
| `Transition.ReleaseLinger` | config/identity/transition.py:299-313 | lingering of the old login is dropped; unless killed, refused if and only if planned user services run or the service manager fails or ignores the command |
| `Transition.MoveHome` | config/identity/transition.py:615-630 | one no-replace rename within the planned parent, or the home is found moved; refused if and only if there is a mount, two or no names, a foreign home, or a different parent |
| `Transition.LoginVisible` | config/identity/transition.py:638-643 | the old record is in passwd, and usermod due, if and only if passwd is untouched; the new record is there if and only if it is not |
| `Transition.Changed` | config/identity/accounts.py:87-89 | true if and only if some database left its captured content |
| `Transition.FinishPartial` | config/identity/transition.py:635-637 | unchanged databases are left alone; otherwise success means that the old record has left passwd; only a lock that is not free refuses |
| `Transition.StartLogin` | config/identity/transition.py:634-640 | usermod decides the outcome if and only if no database had changed; a partial rename is finished instead, whatever usermod would do, and then only a lock refuses |
| `Transition.RenameLogin` | config/identity/transition.py:634-643 | from any captured mixture all databases end at login or beyond, none moved back; success needs the database locks free, and usermod if no database had changed; nothing else refuses |
| `Transition.GroupVisible` | config/identity/transition.py:652-653 | the closing group check passes on final databases if and only if the old login was listed at most once |
| `Transition.GroupmodVisible` | config/identity/transition.py:647-650 | groupmod is due if and only if the group file is not final and lists the old login at most once |
| `Transition.RenameGroup` | config/identity/transition.py:647-653 | all databases end final; success needs the member condition, the locks and, while the group file is not final, groupmod; nothing else refuses |
| `Transition.Admit` | config/identity/transition.py:598-609 | unless killed, admitted if and only if the machine is the plan's and the journal is that of the plan in an account phase, with its owners quiesced, or there is none and the guest still yields the plan |
| `Transition.EnterMutation` | config/identity/transition.py:598-633 | quiesced, old grant retired, home moved, phase published, the invariant kept at every kill; home and grant change only in an admitted guest without processes, listener and lingering services; such a run in a quiet guest is not refused when both homes have one parent |
| `Transition.CompleteMutation` | config/identity/transition.py:634-660 | login, group, ranges and grant in that order, the invariant kept at every kill although earlier phases are published again; the locks are left as lockable as they were unless the run is killed |
| `Transition.ApplyAccount` | config/identity/transition.py:597-660 | killed or refused anywhere, the guest satisfies the invariant and no database moved back; in any guest at all the account changes only if the mutation is admitted and no process, listener or user service is active; success implies one fixed state, a completable plan and free locks, and an admitted run in a quiet guest is never refused when the plan is completable and the locks are free |
| `Lifecycle.Fence` | config/identity/transition.py:66-71 | the listener is stopped or the run refuses, which a working service manager excludes; nothing the protocol keeps changes |
| `Lifecycle.RestoreListener` | config/identity/transition.py:73-76 | a working service manager leaves exactly the planned units added to the active ones; a failing one refuses |
| `Lifecycle.RestoreLinger` | config/identity/transition.py:315-319 | planned lingering has moved to the new login, or the run refuses, which a working service manager excludes |
| `Lifecycle.Begin` | config/identity/transition.py:772-790 | in any guest, success means a recognised one, and a new journal only where the guest yields the plan; another pending plan is refused; the invariant is kept; a matching guest or the same pending plan is never refused, completable or not, until a group that lists the old login more than once has been rewritten |
| `Lifecycle.MarkQuiesced` | config/identity/transition.py:761-767 | the phase moves only from prepared or quiesced of the same plan |
| `Lifecycle.ReceiptStage` | config/identity/transition.py:711-717 | in any guest, receipts change only if it was recognised and the account is ready; a finished commit leaves every one committed |
| `Lifecycle.MoveReceipts` | config/identity/transition.py:711-729 | ready is published only after every receipt is committed, lingering restored and the planned listener reopened, in a guest that was recognised; an admitted run is never refused |
| `Lifecycle.Finish` | config/identity/transition.py:739-752 | the journal disappears only from a recognised guest that reads as the new login, and of a pending rename only when it is complete and completable; a refusal has one of the listed causes |
| `Lifecycle.ReadyAccepted` | config/identity/transition.py:744-745 | a ready rename reads as the new login |
| `Convergence.Perform` | config/identity/transition.py:711-790 | every command, in any state and killed anywhere, keeps the protocol invariant and sound locks and moves no database back; one that succeeds has reached its phase |
| `Convergence.Execute` | config/identity/transition.py:711-790 | safety over whole runs: any sequence of commands, kills, refusals, tool failures and reboots keeps the invariant, so the published phase always tells the truth; lock entries are left only by processes of runs that could be killed |
| `Convergence.Converge` | config/identity/transition.py:597-660 | after any history of killed or refused mutations one uninterrupted run succeeds if and only if the plan is completable and the locks the history left are open to it, and then ends in the state the first run would have ended in; a process with a new id finds them open while no live process has the id of one that left an entry |
| `Convergence.CompletedView` | config/identity/transition.py:739-752 | a completed rename without a journal is one fixed guest, listener aside |
| `Convergence.FinishedRenames` | config/identity/transition.py:597-752 | that guest, told by the guest before and the two accounts alone: every row of every database renamed field by field, the ranges under the new label, the home, grant and lingering moved, every receipt committed and without the old account, everything else as it was |
| `Convergence.Resume` | config/identity/transition.py:711-771 | from every pending state the operator's commands complete the rename if and only if the plan is completable and, while the account is not ready, the locks are open, and then reach that one guest |
| `Convergence.CompleteRename` | config/identity/transition.py:711-790 | from an assessed guest, after any history of commands: a completable rename is untouched or is brought to one and the same final guest, which is the renamed one, by a process with a new id, and one that is not completable never reaches it |
| `Examples.Plannable` | config/identity/transition.py:327-402 | for every normally spelled old login, slashes included, and every count there is a guest, with ownership evidence, that the assessment accepts, whose rename is pending and completable if and only if the login has no slash and is listed at most once |
| `Examples.Failing` | config/identity/transition.py:597-660 | two concrete guests that the assessment accepts and whose renames can never complete: a group that lists dev twice, and the old login a/b |
| `Examples.StaleLock` | config/identity/subids.py:139-160 | a lock left by a killed process keeps another out while a live process has its id |
| `Locks.CreateTemporary` | config/identity/subids.py:118-128 | refused exactly when the temporary exists; a kill leaves it absent or empty |
| `Locks.BreakLock` | config/identity/subids.py:131-155 | only names of a dead writer's inode are removed; an abandoned well-formed lock is never refused |
| `Locks.LinkTemporary` | config/identity/subids.py:156-166 | the lock ends as the only name of the caller's inode |
| `Locks.Acquire` | config/identity/subids.py:117-167 | on a well-formed directory it succeeds only when no temporary of this process id is left and no live process holds the lock, and refuses only when that is not so, changing no name; at every kill the directory is well-formed and only dead writers' names are gone |
| `Locks.Release` | config/identity/subids.py:168-177 | only the caller's own inode is unlinked from the lock name |
| `Locks.AcquireAll` | config/identity/accounts.py:110-111 | several locks in order: all held, or none after a refusal, which happens only when one was not free and leaves each as free as it was; a kill leaves only entries of the caller |
| `Locks.Enter` | config/identity/accounts.py:110-111 | the password lock and then the files' locks; every entry stays owned by a process that may have left it |
| `Locks.Leave` | config/identity/subids.py:168-177 | giving the locks back leaves the same locks free as before the session and no entry of a new owner |
| `Locks.Play` | config/identity/subids.py:117-177 | mutual exclusion per file over every history of processes, kills and reused ids |
| `Locks.AcquireAfter` | config/identity/subids.py:117-177 | after any history of processes killed anywhere, a process with a new id takes the lock at once |
| `Locks.Obstructed` | config/identity/subids.py:118-160 | in every well-formed directory a lock of a live id, or a leftover temporary of one's own id, refuses the call and no name changes |
| `RunEvents.PassConcat` | dev/project-run-events.py:93-109 | two passes that meet at a line boundary are one pass, refusals and absolute offsets included |
| `RunEvents.PassAppended` | dev/project-run-events.py:62-118 | appended bytes do not change what was read |
| `RunEvents.PassReads` | dev/project-run-events.py:93-109 | the range is cut at its newlines; every line decodes, and the events are exactly the decoded ones, in the order of their lines |
| `RunEvents.PassRefuses` | dev/project-run-events.py:99-104 | a pass is refused if and only if some complete line does not decode |
| `RunEvents.Consume` | dev/project-run-events.py:89-109 | the capped loop delivers the events of the lines it consumed, makes progress unless nothing complete is there, and refuses only an overlong or undecodable line |
| `RunEvents.Poll` | dev/project-run-events.py:62-118 | a batch holds exactly the events between the two cursors, stays within both limits and goes as far as they let it; backlog means the cursor advanced; no backlog means only the reported unterminated tail remains; a readable journal is never refused |
| `RunEvents.CursorExact` | dev/project-run-events.py:69-85 | a returned cursor, shown any journal, is accepted if and only if that is the same stream, not shorter, with the same last 256 bytes before the cursor |
| `RunEvents.CursorAccepted` | dev/project-run-events.py:69-85 | the returned cursor is accepted again after appends |
| `RunEvents.PollAll` | dev/project-run-events.py:62-118 | batching independence: for every growth of the journal and all limits the batches concatenate to one pass before the last cursor |
| `RunEvents.Drain` | dev/project-run-events.py:86-118 | polling a growing journal to a fixed end terminates and reads exactly the complete lines before it, and succeeds whenever they fit and decode |
| `Tokenizer.FoldConcat` | dev/release-acceptance.py:631-690 | the one-shot reading splits at every line boundary |
| `Tokenizer.FoldReads` | dev/release-acceptance.py:631-690 | the one-shot reading handles, in order and once, every complete line of at most 4096 characters, and no other |
| `Tokenizer.PhaseEvents` | dev/release-acceptance.py:631-690 | each call, bounded or final, keeps the correspondence with the one-shot reading; it advances unless nothing complete is left, and the final call leaves nothing complete |
| `Tokenizer.Follow` | dev/release-acceptance.py:562-579 | for every growth schedule the incremental tokenizer equals the one-shot one: every complete line of at most 4096 bytes, in order, once, overlong lines skipped whole |
| `Usage.UsageLedger.Begin` | dev/veranda_child_usage.py:114-130 | attempts are numbered in order; past the capacity they are only counted |
| `Usage.CaptureKeeps` | dev/veranda_child_usage.py:165-184 | capture happens at most once and releases the wait exactly when it succeeded or failed |
| `Usage.ConsumeKeeps` | dev/veranda_child_usage.py:191-203 | a released child is consumed exactly once, inside the clock's order |
| `Usage.QualifyKeeps` | dev/veranda_child_usage.py:205-213 | captured is stored if and only if capture succeeded, nothing failed and the child was reaped |
| `Usage.UsageLedger.OwnedWait` | dev/veranda_child_usage.py:186-203 | a running child is left alone; what the kernel reported (pid, code, status, usage or error) is what the record holds, once; a child is consumed if and only if it is released and has ended, with the wait's status and time; the reason says what happened |
| `Usage.UsageLedger.Poll` | dev/veranda_child_usage.py:222-240 | a poll touches only its child, and nothing when the lock is busy or the code known; otherwise the record holds what the kernel reported, the code is the child's after a reap and the listed fallback after a failing wait, and captured is stored if and only if the reaped child was captured without a failure |
| `Usage.UsageLedger.Wait` | dev/veranda_child_usage.py:215-220 | a blocking wait touches only its child and stores what the kernel reported; the code is the child's after a reap, zero if the child was missing, and none after another failure |
| `Usage.Play` | dev/veranda_child_usage.py:114-240 | every schedule of launches, exits, polls, waits and faults under a monotone clock keeps the ledger sound |
| `Usage.UsageStatus` | dev/veranda_observations.py:284-308 | the validator's loop computes its declarative verdict |
| `Usage.RoundingEncloses` | dev/veranda_child_usage.py:136-140 | rounding the start down and the end up satisfies both interval inequalities of the validator and fits 64 bits |
| `Usage.SnapshotJudged` | dev/veranda_observations.py:284-308 | every sound ledger's snapshot is invalid if and only if it holds more than 64 records, and is judged recorded if and only if, besides, there was an attempt, none overflowed and every child was captured with non-negative counters |
| `Dispatch.Announce` | dev/release-publication.py:1095-1103 | the dispatch is sent only after its intent is stored and only if none was stored; an oversize refusal changes nothing |
| `Dispatch.Rerun` | dev/release-publication.py:1113-1120 | a rerun is sent only after its target attempt is stored, never again for it |
| `Dispatch.Watch` | dev/release-publication.py:1128-1156 | watching sends nothing; the first answer that says completed decides: undisturbed it ends the watch, succeeded or failed, and is stored with its attempt; success is returned only for it |
| `Dispatch.Session` | dev/release-publication.py:1094-1157 | one session, killed anywhere and told anything, sends only what no earlier session announced; uninterrupted and within the limit it dispatches, and ends with the first discovered run's first completed answer, or fails with the request kept if none is discovered |
| `Dispatch.Resume` | dev/release-publication.py:1107-1156 | only a failed run is rerun, exactly once for its next attempt number; undisturbed, the first completed answer decides |
| `Dispatch.Sessions` | dev/release-publication.py:1094-1157 | at most once over any crashes, restarts and lost responses: one dispatch, one rerun per attempt number; oversize refusals do not consume the request |
| `Publication.EnsureTag` | dev/release-publication.py:970-978 | an existing tag is never altered; only the owned one is accepted |
| `Publication.UploadOne` | dev/release-publication.py:1048-1057 | only an empty starter of a draft is replaced; a finished upload and every other file are kept; a failed upload leaves a starter of any size; refusals have the listed causes |
| `Publication.Upload` | dev/release-publication.py:1047-1057 | every expected file ends uploaded; an interrupted phase leaves a resumable draft |
| `Publication.VerifyAssets` | dev/release-publication.py:1072-1083 | the loop accepts if and only if the inventory is exactly the expected files with their hashes |
| `Publication.Complete` | dev/release-publication.py:1042-1069 | a draft becomes public only with the verified files; a public release is not changed |
| `Publication.Publish` | dev/release-publication.py:1006-1069 | from any remote state whatever the run is safe: foreign tags and releases untouched, finished uploads kept, nothing public unverified; recoverable states stay recoverable; uninterrupted it publishes from exactly the publishable states |
| `Publication.Converge` | dev/release-publication.py:1006-1083 | after any number of failed or killed runs one more run publishes exactly the candidate if and only if the state they left is publishable, which it is when failed uploads leave empty starters and releases become immutable |
| `Transfers.StageOne` | dev/release-acceptance.py:2519-2537 | every artifact is staged once under its own name with the declared hash, or the transfer is refused |
| `Transfers.Stage` | dev/release-acceptance.py:2518-2540 | the incoming receipt is the old one with exactly the transferred checks replaced, all of them staged |
| `Transfers.Promote` | dev/release-acceptance.py:2543-2546 | links are exclusive: no existing file is touched, and the call's own links are known |
| `Transfers.Save` | dev/release-acceptance.py:440-449 | the receipt on disk is the old or the new one; a failure does not say which |
| `Transfers.ReadBack` | dev/release-acceptance.py:2551-2558 | not committed is concluded only when the new receipt is not on disk |
| `Transfers.Install` | dev/release-acceptance.py:2543-2576 | a new receipt on disk has every staged file; the links are taken back only when the new receipt is known not to be on disk, and stay when that is uncertain; no older file is touched |
| `Transfers.ApplyTransfers` | dev/release-acceptance.py:2510-2578 | for every fault: the receipt is the old one, or holds for each transferred check exactly its last transfer's roles and hashes, under names that the output holds with that hash, and everything else as before; nothing it refers to is missing, older files are untouched, and new artifacts stay unless the commit is known not to have happened; a single fault leaves neither doubt about the commit nor, if refused, a file; without faults a faithful transfer succeeds |
| `Transfers.UpdatedReplaces` | dev/release-acceptance.py:2518-2540 | with the staged files in place the updated receipt is that one |
| `Transfers.UpdatedExactly` | dev/release-acceptance.py:2540-2540 | the last transfer of a check decides: its evidence has exactly that transfer's roles with their hashes under their staged names; every other check keeps its own |
| `Transfers.UpdatedBacked` | dev/release-acceptance.py:2538-2546 | with the staged files in place the updated receipt refers to nothing missing |
| `Scheduler.RunLocals` | dev/release-acceptance.py:1179-1191 | local checks finish in order, up to the first that does not pass, a stop, or a save that fails before or after its replacement; each is stored as running before its child starts; no other result changes |
| `Scheduler.EnterLive` | dev/release-acceptance.py:1192-1206 | the live phase opens if and only if every local gate has passed, the diagnostic excepted |
| `Scheduler.OnceStep` | dev/release-acceptance.py:1207-1215 | one worker step keeps every check in one place: queued, held by one slot, or behind it |
| `Scheduler.AnnouncedStep` | dev/release-acceptance.py:1171-1174 | no step of one slot hides another slot's running mark, in memory or on disk |
| `Scheduler.DisciplinedStep` | dev/release-acceptance.py:1216-1225 | a slot is idle again only after a continuable outcome |
| `Scheduler.ContinuesExact` | dev/release-acceptance.py:941-950 | going on needs a pass, a typed capacity block, or a failure whose lease and cleanup are recorded and whose every cleanup, the lease release among them, passed |
| `Scheduler.VerdictExact` | dev/release-acceptance.py:422-437 | passed if and only if every check is passed, not applicable or an optional check that was never asked for, every exclusion is one of the latter two, the obligations are met and the candidate is current; failed if and only if some check failed and the candidate is current |
| `Scheduler.RunsSafely` | dev/release-acceptance.py:1161-1229 | the scheduler invariant holds after every interleaving of workers, saves that fail before or after their replacement, and the stop request |
| `Scheduler.RunsHonestly` | dev/release-acceptance.py:1161-1229 | after every interleaving each result is the one before, a running mark, or one recorded by the slot that ran the check; every queued check is queued, held or recorded unless a worker stopped early; the registered attempts are the started ones and those about to be |
| `Scheduler.EveryCheckRuns` | dev/release-acceptance.py:1207-1229 | when all workers have stopped without an error, a stop or a bad outcome, every queued check was run and its result is on disk |
| `Scheduler.SlotRound` | dev/release-acceptance.py:1207-1225 | undisturbed, a slot runs the head of the queue, records its result on disk, and is ready again if and only if the result left it usable |
| `Scheduler.NoPassWhileRunning` | dev/release-acceptance.py:409-449 | while any live child runs, the stored receipt says running for its check, and neither verdict on it is passed |
| `Scheduler.EveryRun` | dev/release-acceptance.py:1161-1229 | for every interleaving: each live check starts at most once, no local check is started and the gate stays open, a slot goes on only after an outcome that left it usable, spelled out, and nothing on disk says passed while a child runs |
| `Scheduler.RunChecks` | dev/release-acceptance.py:1161-1249 | both phases and the closing save: while any child runs the stored receipt says passed for neither verdict; the verdicts on the receipt left on disk mean what they say; exit code zero if and only if all workers ended without error or stop, the source is unchanged, the last save succeeded and the receipt certifies the candidate, every result in it having come from where it says |
| `Scheduler.Conclude` | dev/release-acceptance.py:1230-1249 | a changed source fails the candidate whatever its checks say; otherwise the exit code is zero exactly for a saved, certified receipt without a stop |
| `Scheduler.StopDrains` | dev/release-acceptance.py:1161-1170 | after a stop request no slot that had not been cleared ever starts a child |

## Left out

- File modes, ownership, extended attributes, symbolic links, directory syncing and temporary files: every replacement is one atomic write.
- Parts of the rename's assessment that only add refusals: the file system of the homes, cron jobs and mailboxes, the source and yard labels, and the collection of all refusals into one message.
- The read-only modes of the rename: pending, recover-observe, applied, observe and finished.
- The text-mode reader of passwd and group also splits at vertical tabs, form feeds and Unicode separators and accepts other spellings of integers; the model splits at newline and carriage return and reads decimal digits.
- Package recipes are compared by id and digests; the syntax of their check and command fields is not modelled.
- The lock on the journal directory, which dies with its process: commands run one at a time. Other writers of the account files are excluded.
- Locks: owner, mode and size of a lock file; an entry that is neither this protocol's nor a compatible tool's is covered only by the clauses that do not assume a well-formed directory.
- The NSS provider check before subordinate files are touched.
- Transition.MoveHome: what lies below a home moves with it and is not listed separately; modes and owners of the parent directory stand behind its name.
- Guests.RunTool: usermod and groupmod never write anything but a captured content; a tool that damages a database is refused later by Validate and not modelled further. That they can take their own locks is part of their success.
- Transition.Quiet: the activity of the guest is fixed during one run; services or processes that appear in the middle of a run are not modelled.
- RunEvents: decoding, heartbeat filtering and compaction of one line are a parameter.
- Tokenizer: the marker patterns and the events of one line are a parameter.
- Usage.SnapshotJudged: assumes that the clock in nanoseconds and the number of attempts fit 64 bits.
- Usage: another thread that consumes the child behind the owner's back appears only as a failing wait.
- Dispatch: titles, repositories and completion timestamps; an ambiguous discovery is a session that finds nothing.
- Publication.Converge: assumes that the prepared files are intact; two assets of one name and a tag that moves during a run are not modelled.
- Candidate attestations, their codecs and the schema validators.
- Transfers.ApplyTransfers: the name of a staged artifact is a function of role and hash, standing for the cache of fresh random names; validation of a transferred result against its source is not modelled.
- Scheduler: execution of a check, leases and interruption of process groups are the arbitrary result of a step; selection and ordering of checks and the invocation document are not modelled.
- The remaining release scripts, the Go command line and the measurement and packaging tools.
