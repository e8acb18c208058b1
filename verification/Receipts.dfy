/**
 Owned receipts: the skill and integration documents that record a developer's
 login and home, and their two projections (moved, then committed).
 */
module Receipts {
  import opened Text
  import opened Accounts

  /** An inventory entry; `other` stands for the keys that the projection never reads. */
  datatype Entry = Entry(kind: string, id: string, path: Option<string>, digest: Option<string>, other: string)

  datatype Settings = Settings(user: string, uid: string, other: string)

  datatype Receipt =
    | Skill(home: string, skills: nat, other: string)
    | Inventory(entries: seq<Entry>, released: Option<seq<string>>, settings: Option<Settings>, other: string)

  /** The two receipts that can prove who the developer is. */
  const INVENTORY := "var/lib/subyard/integrations/inventory.json"
  const CORE := "var/lib/subyard/agent-skills/core.json"

  /** The ownership evidence: applied settings that name the old account, or else core skills in its home. */
  function Evidence(stored: map<string, Document>, prior: Account): Result<Receipt> {
    if INVENTORY in stored && stored[INVENTORY].value.Inventory? && stored[INVENTORY].value.settings.Some? then
      var settings := stored[INVENTORY].value.settings.value;
      if settings.user == prior.user && settings.uid == Decimal(prior.uid) then Ok(stored[INVENTORY].value) else Refused
    else if CORE in stored && stored[CORE].value.Skill? && stored[CORE].value.home == prior.home
            && stored[CORE].value.skills > 0 then Ok(stored[CORE].value)
    else Refused
  }

  /** A stored file: the value it decodes to and the spelling chosen by its writer. */
  datatype Document = Document(value: Receipt, layout: nat)

  /** The canonical encoding that every projection is published in. */
  function Encoded(value: Receipt): Document {
    Document(value, 0)
  }

  datatype PackageRecipe = PackageRecipe(id: string, before: string, after: string)

  // ---------- paths ----------

  /** Absolute and unchanged by `os.path.normpath`. */
  predicate IsNormal(path: string) {
    && path != "" && path[0] == '/'
    && (path == "/" || forall i :: 0 <= i < |Split(path[1..], '/')| ==> Split(path[1..], '/')[i] !in ["", ".", ".."])
  }

  const FIXED_PATHS := ["/usr/local/libexec/subyard/projects-changed", "/etc/subyard/agent-project-hooks"]

  function Relocate(path: string, fixed: bool, prior: Account, next: Account): Result<string> {
    if !IsNormal(path) then Refused
    else if fixed && path in FIXED_PATHS then Ok(path)
    else if prior.home + "/" <= path then Ok(next.home + path[|prior.home|..])
    else if next.home + "/" <= path then Ok(path)
    else Refused
  }

  // ---------- one entry ----------

  function RecipeFor(packages: seq<PackageRecipe>, id: string): Option<PackageRecipe> {
    if packages == [] then None
    else if packages[0].id == id then Some(packages[0])
    else RecipeFor(packages[1..], id)
  }

  function ProjectEntry(entry: Entry, prior: Account, next: Account, commit: bool,
                        packages: seq<PackageRecipe>): Result<Entry> {
    if entry.id == "" then Refused
    else if entry.kind == "package" then
      var recipe := RecipeFor(packages, entry.id);
      if recipe.None? || entry.path.Some? || entry.digest.None? || entry.other != "" then Refused
      else if entry.digest.value != recipe.value.before && entry.digest.value != recipe.value.after then Refused
      else Ok(if commit then entry.(digest := Some(recipe.value.after)) else entry)
    else if entry.kind in ["file", "link", "structured"] then
      if entry.path.None? then Refused
      else
        match Relocate(entry.path.value, true, prior, next)
        case Refused => Refused
        case Ok(path) => Ok(entry.(path := Some(path)))
    else Refused
  }

  // ---------- one receipt ----------

  function PackageIds(entries: seq<Entry>): seq<string> {
    if entries == [] then []
    else (if entries[0].kind == "package" then [entries[0].id] else []) + PackageIds(entries[1..])
  }

  predicate NoRepeats(ids: seq<string>) {
    forall i, k :: 0 <= i < k < |ids| ==> ids[i] != ids[k]
  }

  predicate SameSet(ids: seq<string>, packages: seq<PackageRecipe>) {
    (set id | id in ids) == (set p | p in packages :: p.id)
  }

  predicate ValidPackages(packages: seq<PackageRecipe>) {
    forall i, k :: 0 <= i < k < |packages| ==> packages[i].id != packages[k].id
  }

  function Home(home: string, prior: Account, next: Account): Result<string> {
    if home == prior.home || home == next.home then Ok(next.home) else Refused
  }

  function ProjectSettings(settings: Option<Settings>, prior: Account, next: Account,
                           commit: bool): Result<Option<Settings>> {
    if settings.None? then Ok(None)
    else if settings.value.user != prior.user && settings.value.user != next.user then Refused
    else if settings.value.uid != Decimal(prior.uid) then Refused
    else Ok(Some(if commit then settings.value.(user := next.user) else settings.value))
  }

  function ProjectEntries(entries: seq<Entry>, prior: Account, next: Account, commit: bool,
                          packages: seq<PackageRecipe>): Result<seq<Entry>> {
    Traverse(entries, (e: Entry) => ProjectEntry(e, prior, next, commit, packages))
  }

  function RelocateAll(paths: seq<string>, prior: Account, next: Account): Result<seq<string>> {
    Traverse(paths, (p: string) => Relocate(p, false, prior, next))
  }

  function Released(value: Receipt): seq<string>
    requires value.Inventory?
  {
    if value.released.None? then [] else value.released.value
  }

  function ProjectInventory(value: Receipt, prior: Account, next: Account, commit: bool,
                            packages: seq<PackageRecipe>): Result<Receipt>
    requires value.Inventory?
  {
    var entries := ProjectEntries(value.entries, prior, next, commit, packages);
    var released := RelocateAll(Released(value), prior, next);
    var settings := ProjectSettings(value.settings, prior, next, commit);
    if !ValidPackages(packages) || !NoRepeats(PackageIds(value.entries)) || !SameSet(PackageIds(value.entries),
                                                                                     packages) then Refused
    else if entries.Refused? || released.Refused? || settings.Refused? then Refused
    else Ok(Inventory(entries.value, Some(released.value), settings.value, value.other))
  }

  /** Move the homes of a receipt and, when committing, its login and package digests too. */
  function ProjectReceipt(value: Receipt, prior: Account, next: Account, commit: bool,
                          packages: seq<PackageRecipe>): Result<Receipt> {
    if value.Skill? then
      match Home(value.home, prior, next)
      case Refused => Refused
      case Ok(home) => Ok(value.(home := home))
    else ProjectInventory(value, prior, next, commit, packages)
  }

  lemma Repeated(seen: seq<string>, id: string, rest: seq<string>)
    requires id in seen
    ensures !NoRepeats(seen + ([id] + rest))
  {
    var j :| 0 <= j < |seen| && seen[j] == id;
    var all := seen + ([id] + rest);
    assert all[j] == all[|seen|];
  }

  lemma Extended(seen: seq<string>, id: string)
    requires NoRepeats(seen) && id !in seen
    ensures NoRepeats(seen + [id])
  {
  }

  /** The source's loop over a copied document's entries, remembering the packages seen. */
  method EditEntries(original: seq<Entry>, prior: Account, next: Account, commit: bool, packages: seq<PackageRecipe>)
    returns (r: Result<seq<Entry>>)
    ensures var projected := ProjectEntries(original, prior, next, commit, packages);
            r == if NoRepeats(PackageIds(original)) && SameSet(PackageIds(original),
                                                               packages) then projected else Refused
  {
    var entries := original;
    var seen: seq<string> := [];
    var i := 0;
    ghost var all := PackageIds(original);
    while i < |original|
      invariant 0 <= i <= |original| == |entries|
      invariant forall k :: i <= k < |original| ==> entries[k] == original[k]
      invariant forall k :: 0 <= k < i ==> ProjectEntry(original[k], prior, next, commit, packages) == Ok(entries[k])
      invariant NoRepeats(seen) && all == seen + PackageIds(original[i..])
    {
      var projected := ProjectEntry(entries[i], prior, next, commit, packages);
      if projected.Refused? {
        return Refused;
      }
      assert original[i..][0] == original[i] && original[i..][1..] == original[i + 1..];
      if entries[i].kind == "package" {
        if entries[i].id in seen {
          Repeated(seen, entries[i].id, PackageIds(original[i + 1..]));
          return Refused;
        }
        Extended(seen, entries[i].id);
        seen := seen + [entries[i].id];
      }
      entries := entries[i := projected.value];
      i := i + 1;
    }
    assert all == seen;
    if !SameSet(seen, packages) {
      return Refused;
    }
    assert entries == ProjectEntries(original, prior, next, commit, packages).value;
    return Ok(entries);
  }

  /** The source's in-place edit of a copied document. */
  method EditReceipt(original: Receipt, prior: Account, next: Account, commit: bool, packages: seq<PackageRecipe>)
    returns (r: Result<Receipt>)
    ensures r == ProjectReceipt(original, prior, next, commit, packages)
    ensures Movable(prior, next) ==>
              && (r.Ok? <==> ReceiptOwned(original, prior, next, packages))
              && (r.Ok? ==> ReceiptMoved(original, r.value, prior, next, commit, packages))
  {
    if Movable(prior, next) {
      ReceiptProjected(original, prior, next, commit, packages);
    }
    var value := original;
    if value.Skill? {
      if value.home != prior.home && value.home != next.home {
        return Refused;
      }
      return Ok(value.(home := next.home));
    }
    if !ValidPackages(packages) {
      return Refused;
    }
    var entries := EditEntries(value.entries, prior, next, commit, packages);
    var released := RelocateAll(Released(value), prior, next);
    if entries.Refused? || released.Refused? {
      return Refused;
    }
    value := value.(entries := entries.value, released := Some(released.value));
    if value.settings.Some? {
      var settings := value.settings.value;
      if (settings.user != prior.user && settings.user != next.user) || settings.uid != Decimal(prior.uid) {
        return Refused;
      }
      if commit {
        value := value.(settings := Some(settings.(user := next.user)));
      }
    }
    return Ok(value);
  }

  // ---------- relocation is stable ----------

  /** The homes of a canonical transition: direct children of /home, the new one plainly named. */
  predicate Relocatable(prior: Account, next: Account) {
    && prior.user != next.user
    && prior.home == "/home/" + prior.user && next.home == "/home/" + next.user
    && Free(next.user, '/') && next.user !in ["", ".", ".."]
  }

  /** Below a home, normality depends on the home and on the rest separately. */
  lemma NormalBelow(user: string, tail: string)
    ensures IsNormal("/home/" + user + "/" + tail) <==>
            && (forall x :: x in Split(user, '/') ==> x !in ["", ".", ".."])
            && (forall x :: x in Split(tail, '/') ==> x !in ["", ".", ".."])
  {
    var path := "/home/" + user + "/" + tail;
    assert path[1..] == "home" + ['/'] + (user + ['/'] + tail);
    SplitFirst("home", user + ['/'] + tail, '/');
    SplitConcat(user, tail, '/');
    var parts := Split(path[1..], '/');
    assert parts == ["home"] + Split(user, '/') + Split(tail, '/');
    assert IsNormal(path) <==> forall i :: 0 <= i < |parts| ==> parts[i] !in ["", ".", ".."];
    assert (forall i :: 0 <= i < |parts| ==> parts[i] !in ["", ".", ".."]) <==>
             (forall x :: x in parts ==> x !in ["", ".", ".."]);
  }

  /** A path below a home is the home, a slash and the rest. */
  lemma Below(path: string, home: string)
    requires home + "/" <= path
    ensures path == home + "/" + path[|home| + 1..]
    ensures path[|home|..] == "/" + path[|home| + 1..]
  {
  }

  /** Relocated paths are normal, lie below the new home and, below a foreign old home, stay put. */
  lemma RelocationIdempotent(path: string, fixed: bool, prior: Account, next: Account)
    requires Relocatable(prior, next) && !(next.home + "/" <= prior.home)
    requires Relocate(path, fixed, prior, next).Ok?
    ensures Relocate(Relocate(path, fixed, prior, next).value, fixed, prior, next) == Relocate(path, fixed, prior, next)
  {
    if !(fixed && path in FIXED_PATHS) && prior.home + "/" <= path {
      var tail := path[|prior.home| + 1..];
      Below(path, prior.home);
      var moved := next.home + "/" + tail;
      assert next.home + ("/" + tail) == moved;
      NormalBelow(prior.user, tail);
      SplitOfFree(next.user, '/');
      NormalBelow(next.user, tail);
      NotBelow(tail, prior, next);
    }
  }

  lemma NotBelow(tail: string, prior: Account, next: Account)
    requires Relocatable(prior, next) && !(next.home + "/" <= prior.home)
    ensures !(prior.home + "/" <= next.home + "/" + tail)
  {
    var moved := next.home + "/" + tail;
    if |prior.home| < |next.home| {
      assert moved[|prior.home|] == next.home[|prior.home|] == next.user[|prior.user|];
      assert (prior.home + "/")[|prior.home|] == '/';
    } else if |prior.home| == |next.home| {
      assert prior.home[6..] == prior.user && next.home[6..] == next.user;
      assert moved[..|prior.home|] == next.home;
      assert (prior.home + "/")[..|prior.home|] == prior.home;
    } else {
      assert moved[..|next.home| + 1] == next.home + "/";
      assert (prior.home + "/")[..|next.home| + 1] == prior.home[..|next.home| + 1];
    }
  }

  predicate Stable(path: string, prior: Account, next: Account) {
    forall fixed :: Relocate(path, fixed, prior, next).Ok? ==>
      Relocate(Relocate(path, fixed, prior, next).value, fixed, prior, next) == Relocate(path, fixed, prior, next)
  }

  /**
   Exactly when relocation, as a function of two account records, can be repeated:
   the old home must not lie below the new one.  No plan has such homes, since the
   new home would already exist.
   */
  lemma RelocationStable(prior: Account, next: Account)
    requires Relocatable(prior, next) && IsNormal(prior.home)
    ensures (forall path :: Stable(path, prior, next)) <==> !(next.home + "/" <= prior.home)
  {
    if next.home + "/" <= prior.home {
      var path := NestedHomeMovesTwice(prior, next);
      assert !Stable(path, prior, next);
    } else {
      forall path, fixed | Relocate(path, fixed, prior, next).Ok?
        ensures Relocate(Relocate(path, fixed, prior, next).value, fixed, prior, next) ==
                  Relocate(path, fixed, prior, next)
      {
        RelocationIdempotent(path, fixed, prior, next);
      }
    }
  }

  lemma NestedHomeMovesTwice(prior: Account, next: Account) returns (path: string)
    requires Relocatable(prior, next) && IsNormal(prior.home) && next.home + "/" <= prior.home
    ensures Relocate(path, false, prior, next) == Ok(prior.home + "/z")
    ensures Relocate(prior.home + "/z", false, prior, next) == Ok(next.home + "/z")
    ensures prior.home != next.home
  {
    var rest := prior.home[|next.home| + 1..];
    Below(prior.home, next.home);
    path := prior.home + "/" + (rest + "/z");
    NestedPathsNormal(prior, next, rest);
    assert prior.home + "/" + "z" == prior.home + "/z";
    assert path[|prior.home|..] == "/" + (rest + "/z");
    assert next.home + ("/" + (rest + "/z")) == prior.home + "/z";
    assert prior.home + "/" <= path && prior.home + "/" <= prior.home + "/z";
    assert (prior.home + "/z")[|prior.home|..] == "/z";
  }

  lemma NestedPathsNormal(prior: Account, next: Account, rest: string)
    requires Relocatable(prior, next) && IsNormal(prior.home) && prior.home == next.home + "/" + rest
    ensures IsNormal(prior.home + "/" + (rest + "/z")) && IsNormal(prior.home + "/" + "z")
  {
    assert prior.home[6..] == prior.user && next.home[6..] == next.user;
    assert prior.user == next.user + ['/'] + rest;
    SplitFirst(next.user, rest, '/');
    HomeParts(prior.user);
    SplitOfFree("z", '/');
    SplitConcat(rest, "z", '/');
    assert rest + ['/'] + "z" == rest + "/z";
    NormalBelow(prior.user, rest + "/z");
    NormalBelow(prior.user, "z");
  }

  lemma HomeParts(user: string)
    requires IsNormal("/home/" + user)
    ensures forall x :: x in Split(user, '/') ==> x !in ["", ".", ".."]
  {
    var home := "/home/" + user;
    assert home[1..] == "home" + ['/'] + user;
    SplitFirst("home", user, '/');
    forall x | x in Split(user, '/')
      ensures x !in ["", ".", ".."]
    {
      var k :| 0 <= k < |Split(user, '/')| && Split(user, '/')[k] == x;
      assert Split(home[1..], '/')[k + 1] == x;
    }
  }

  // ---------- the receipt algebra ----------

  /** Both logins of a transition whose receipts can be projected repeatedly. */
  predicate Movable(prior: Account, next: Account) {
    Relocatable(prior, next) && !(next.home + "/" <= prior.home)
  }

  lemma EntryComposes(entry: Entry, prior: Account, next: Account, first: bool, second: bool,
                      packages: seq<PackageRecipe>)
    requires Movable(prior, next)
    requires ProjectEntry(entry, prior, next, first, packages).Ok?
    ensures var once := ProjectEntry(entry, prior, next, first, packages).value;
            && ProjectEntry(once, prior, next, second, packages) == ProjectEntry(entry, prior, next, first || second,
                                                                                 packages)
            && once.kind == entry.kind && once.id == entry.id
  {
    if entry.kind != "package" {
      RelocationIdempotent(entry.path.value, true, prior, next);
    }
  }

  lemma {:induction false} PackageIdsKept(was: seq<Entry>, now: seq<Entry>)
    requires |was| == |now| && forall i :: 0 <= i < |was| ==> now[i].kind == was[i].kind && now[i].id == was[i].id
    ensures PackageIds(now) == PackageIds(was)
  {
    if was != [] {
      PackageIdsKept(was[1..], now[1..]);
    }
  }

  lemma EntriesCompose(entries: seq<Entry>, prior: Account, next: Account, first: bool, second: bool,
                       packages: seq<PackageRecipe>)
    requires Movable(prior, next)
    requires ProjectEntries(entries, prior, next, first, packages).Ok?
    ensures var once := ProjectEntries(entries, prior, next, first, packages).value;
            && ProjectEntries(once, prior, next, second, packages)
                 == ProjectEntries(entries, prior, next, first || second, packages)
            && PackageIds(once) == PackageIds(entries)
  {
    var once := ProjectEntries(entries, prior, next, first, packages).value;
    var twice := ProjectEntries(once, prior, next, second, packages);
    var direct := ProjectEntries(entries, prior, next, first || second, packages);
    forall i | 0 <= i < |entries|
      ensures ProjectEntry(once[i], prior, next, second, packages) ==
                ProjectEntry(entries[i], prior, next, first || second, packages)
      ensures once[i].kind == entries[i].kind && once[i].id == entries[i].id
    {
      EntryComposes(entries[i], prior, next, first, second, packages);
    }
    PackageIdsKept(entries, once);
    assert twice.Ok? == direct.Ok?;
    if direct.Ok? {
      assert twice.value == direct.value;
    }
  }

  lemma PathsCompose(paths: seq<string>, prior: Account, next: Account)
    requires Movable(prior, next)
    requires RelocateAll(paths, prior, next).Ok?
    ensures var once := RelocateAll(paths, prior, next);
            RelocateAll(once.value, prior, next) == once
  {
    var once := RelocateAll(paths, prior, next).value;
    forall i | 0 <= i < |paths|
      ensures Relocate(once[i], false, prior, next) == Ok(once[i])
    {
      RelocationIdempotent(paths[i], false, prior, next);
    }
    assert RelocateAll(once, prior, next).value == once;
  }

  /**
   The receipt algebra: moving twice is moving once, committing after a move is
   committing directly, moving after a commit changes nothing, and committing
   twice is committing once, home relocation included.
   */
  lemma ReceiptsCompose(value: Receipt, prior: Account, next: Account, first: bool, second: bool,
                        packages: seq<PackageRecipe>)
    requires Movable(prior, next)
    requires ProjectReceipt(value, prior, next, first, packages).Ok?
    ensures ProjectReceipt(ProjectReceipt(value, prior, next, first, packages).value, prior, next, second, packages)
         == ProjectReceipt(value, prior, next, first || second, packages)
  {
    if value.Inventory? {
      EntriesCompose(value.entries, prior, next, first, second, packages);
      PathsCompose(Released(value), prior, next);
    }
  }

  // ---------- what a projection does to a receipt ----------

  /** A path moves with its home; fixed paths and paths below the new home stay. */
  ghost predicate PathMoved(was: string, now: string, fixed: bool, prior: Account, next: Account) {
    && (forall rest :: was == prior.home + "/" + rest && !(fixed && was in FIXED_PATHS) ==>
          now == next.home + "/" + rest)
    && ((fixed && was in FIXED_PATHS) || next.home + "/" <= was ==> now == was)
    && ((fixed && now in FIXED_PATHS) || next.home + "/" <= now)
    && !(prior.home + "/" <= now)
  }

  /** A path that can be moved: normally spelled, and fixed or below one of the homes. */
  predicate Owned(path: string, fixed: bool, prior: Account, next: Account) {
    IsNormal(path) && ((fixed && path in FIXED_PATHS) || prior.home + "/" <= path || next.home + "/" <= path)
  }

  lemma PathProjected(path: string, fixed: bool, prior: Account, next: Account)
    requires Movable(prior, next)
    ensures Relocate(path, fixed, prior, next).Ok? <==> Owned(path, fixed, prior, next)
    ensures Relocate(path, fixed, prior, next).Ok? ==>
              PathMoved(path, Relocate(path, fixed, prior, next).value, fixed, prior, next)
  {
    if Relocate(path, fixed, prior, next).Ok? {
      var now := Relocate(path, fixed, prior, next).value;
      if next.home + "/" <= path {
        Below(path, next.home);
        NotBelow(path[|next.home| + 1..], prior, next);
      }
      if fixed && path in FIXED_PATHS {
        FixedElsewhere(path, prior, next);
      } else if prior.home + "/" <= path {
        Below(path, prior.home);
        NotBelow(path[|prior.home| + 1..], prior, next);
        assert now == next.home + "/" + path[|prior.home| + 1..];
      }
    }
  }

  /** The fixed paths lie outside /home. */
  lemma FixedElsewhere(path: string, prior: Account, next: Account)
    requires Relocatable(prior, next) && path in FIXED_PATHS
    ensures !(prior.home + "/" <= path) && !(next.home + "/" <= path)
  {
    assert (prior.home + "/")[1] == 'h' && (next.home + "/")[1] == 'h';
  }

  /** A recipe for the package with this id. */
  ghost predicate IsRecipe(recipe: PackageRecipe, packages: seq<PackageRecipe>, id: string) {
    recipe in packages && recipe.id == id
  }

  lemma {:induction false} RecipeFound(packages: seq<PackageRecipe>, id: string)
    requires ValidPackages(packages)
    ensures RecipeFor(packages, id).Some? <==> exists recipe :: IsRecipe(recipe, packages, id)
    ensures forall recipe :: IsRecipe(recipe, packages, id) ==> RecipeFor(packages, id) == Some(recipe)
    ensures RecipeFor(packages, id).Some? ==> IsRecipe(RecipeFor(packages, id).value, packages, id)
  {
    if packages != [] {
      RecipeFound(packages[1..], id);
      assert packages == [packages[0]] + packages[1..];
      if packages[0].id == id {
        assert IsRecipe(packages[0], packages, id);
      } else {
        assert forall recipe :: IsRecipe(recipe, packages, id) <==> IsRecipe(recipe, packages[1..], id);
      }
    }
  }

  /** An entry keeps everything but its path or, when committing, its package digest. */
  ghost predicate EntryMoved(was: Entry, now: Entry, prior: Account, next: Account, commit: bool,
                             packages: seq<PackageRecipe>) {
    && now.kind == was.kind && now.id == was.id && now.other == was.other
    && if was.kind == "package" then
         && now.path == was.path
         && (forall recipe :: IsRecipe(recipe, packages, was.id) ==>
               now.digest == if commit then Some(recipe.after) else was.digest)
       else
         && now.digest == was.digest && was.path.Some? && now.path.Some?
         && PathMoved(was.path.value, now.path.value, true, prior, next)
  }

  /** An entry that can be projected. */
  ghost predicate EntryOwned(entry: Entry, prior: Account, next: Account, packages: seq<PackageRecipe>) {
    && entry.id != "" && entry.kind in ["package", "file", "link", "structured"]
    && (entry.kind == "package" ==>
          && entry.path.None? && entry.other == ""
          && exists recipe :: IsRecipe(recipe, packages, entry.id)
                              && (entry.digest == Some(recipe.before) || entry.digest == Some(recipe.after)))
    && (entry.kind != "package" ==> entry.path.Some? && Owned(entry.path.value, true, prior, next))
  }

  lemma EntryProjected(entry: Entry, prior: Account, next: Account, commit: bool, packages: seq<PackageRecipe>)
    requires Movable(prior, next) && ValidPackages(packages)
    ensures ProjectEntry(entry, prior, next, commit, packages).Ok? <==> EntryOwned(entry, prior, next, packages)
    ensures ProjectEntry(entry, prior, next, commit, packages).Ok? ==>
              EntryMoved(entry, ProjectEntry(entry, prior, next, commit, packages).value, prior, next, commit, packages)
  {
    RecipeFound(packages, entry.id);
    if entry.path.Some? {
      PathProjected(entry.path.value, true, prior, next);
    }
  }

  /** Every package has exactly one entry. */
  ghost predicate PackagesListed(entries: seq<Entry>, packages: seq<PackageRecipe>) {
    && (forall i, k :: 0 <= i < k < |entries| && entries[i].kind == entries[k].kind == "package" ==>
          entries[i].id != entries[k].id)
    && (forall recipe :: recipe in packages ==>
          exists i :: 0 <= i < |entries| && entries[i].kind == "package" && entries[i].id == recipe.id)
    && (forall i :: 0 <= i < |entries| && entries[i].kind == "package" ==>
          exists recipe :: IsRecipe(recipe, packages, entries[i].id))
  }

  lemma {:induction false} PackageIdsListed(entries: seq<Entry>)
    ensures forall id :: id in PackageIds(entries) <==>
              exists i :: 0 <= i < |entries| && entries[i].kind == "package" && entries[i].id == id
    ensures NoRepeats(PackageIds(entries)) <==>
            forall i, k :: 0 <= i < k < |entries| && entries[i].kind == entries[k].kind == "package" ==>
              entries[i].id != entries[k].id
  {
    if entries != [] {
      PackageIdsListed(entries[1..]);
      var rest, ids := entries[1..], PackageIds(entries[1..]);
      assert forall i :: 1 <= i < |entries| ==> entries[i] == rest[i - 1];
      if entries[0].kind == "package" {
        assert PackageIds(entries)[0] == entries[0].id && PackageIds(entries)[1..] == ids;
        HeadRepeats(entries[0].id, ids);
      } else {
        assert PackageIds(entries) == ids;
      }
    }
  }

  lemma HeadRepeats(id: string, ids: seq<string>)
    ensures NoRepeats([id] + ids) <==> id !in ids && NoRepeats(ids)
  {
    var all := [id] + ids;
    assert forall k :: 1 <= k < |all| ==> all[k] == ids[k - 1];
    if id in ids {
      var k :| 0 <= k < |ids| && ids[k] == id;
      assert all[0] == all[k + 1];
    }
    if !NoRepeats(ids) {
      var i, k :| 0 <= i < k < |ids| && ids[i] == ids[k];
      assert all[i + 1] == all[k + 1];
    }
  }

  /** The settings name the new login once committed, and nothing else changes. */
  predicate SettingsMoved(was: Option<Settings>, now: Option<Settings>, next: Account, commit: bool) {
    && was.Some? == now.Some?
    && (was.Some? ==>
          && now.value.user == (if commit then next.user else was.value.user)
          && now.value.uid == was.value.uid && now.value.other == was.value.other)
  }

  ghost predicate PathsMoved(was: seq<string>, now: seq<string>, prior: Account, next: Account) {
    |now| == |was| && forall i :: 0 <= i < |was| ==> PathMoved(was[i], now[i], false, prior, next)
  }

  ghost predicate EntriesMoved(was: seq<Entry>, now: seq<Entry>, prior: Account, next: Account, commit: bool,
                               packages: seq<PackageRecipe>) {
    |now| == |was| && forall i :: 0 <= i < |was| ==> EntryMoved(was[i], now[i], prior, next, commit, packages)
  }

  /** What a projection does to a receipt, key by key. */
  ghost predicate ReceiptMoved(was: Receipt, now: Receipt, prior: Account, next: Account, commit: bool,
                               packages: seq<PackageRecipe>) {
    && was.Skill? == now.Skill? && now.other == was.other
    && (was.Skill? ==> now.home == next.home && now.skills == was.skills)
    && (was.Inventory? ==>
          && EntriesMoved(was.entries, now.entries, prior, next, commit, packages)
          && now.released.Some? && PathsMoved(Released(was), now.released.value, prior, next)
          && SettingsMoved(was.settings, now.settings, next, commit))
  }

  /** A receipt that can be projected: it names only the two accounts, and every package exactly once. */
  ghost predicate ReceiptOwned(value: Receipt, prior: Account, next: Account, packages: seq<PackageRecipe>) {
    if value.Skill? then value.home in [prior.home, next.home]
    else
      && ValidPackages(packages) && PackagesListed(value.entries, packages)
      && (forall i :: 0 <= i < |value.entries| ==> EntryOwned(value.entries[i], prior, next, packages))
      && (forall i :: 0 <= i < |Released(value)| ==> Owned(Released(value)[i], false, prior, next))
      && (value.settings.Some? ==>
            && value.settings.value.user in [prior.user, next.user]
            && value.settings.value.uid == Decimal(prior.uid))
  }

  lemma EntriesProjected(entries: seq<Entry>, prior: Account, next: Account, commit: bool,
                         packages: seq<PackageRecipe>)
    requires Movable(prior, next) && ValidPackages(packages)
    ensures var r := ProjectEntries(entries, prior, next, commit, packages);
            && (r.Ok? <==> forall i :: 0 <= i < |entries| ==> EntryOwned(entries[i], prior, next, packages))
            && (r.Ok? ==> EntriesMoved(entries, r.value, prior, next, commit, packages))
  {
    forall i | 0 <= i < |entries|
      ensures ProjectEntry(entries[i], prior, next, commit, packages).Ok? <==>
                EntryOwned(entries[i], prior, next, packages)
      ensures ProjectEntry(entries[i], prior, next, commit, packages).Ok? ==>
                EntryMoved(entries[i], ProjectEntry(entries[i], prior, next, commit, packages).value, prior, next,
                           commit, packages)
    {
      EntryProjected(entries[i], prior, next, commit, packages);
    }
  }

  lemma PathsProjected(paths: seq<string>, prior: Account, next: Account)
    requires Movable(prior, next)
    ensures var r := RelocateAll(paths, prior, next);
            && (r.Ok? <==> forall i :: 0 <= i < |paths| ==> Owned(paths[i], false, prior, next))
            && (r.Ok? ==> PathsMoved(paths, r.value, prior, next))
  {
    forall i | 0 <= i < |paths|
      ensures Relocate(paths[i], false, prior, next).Ok? <==> Owned(paths[i], false, prior, next)
      ensures Relocate(paths[i], false, prior, next).Ok? ==>
                PathMoved(paths[i], Relocate(paths[i], false, prior, next).value, false, prior, next)
    {
      PathProjected(paths[i], false, prior, next);
    }
  }

  lemma SameSetIff(ids: seq<string>, packages: seq<PackageRecipe>)
    ensures SameSet(ids, packages) <==>
            && (forall recipe :: recipe in packages ==> recipe.id in ids)
            && (forall id :: id in ids ==> exists recipe :: IsRecipe(recipe, packages, id))
  {
    var listed, known := (set id | id in ids), (set p | p in packages :: p.id);
    assert SameSet(ids, packages) <==> listed == known;
    forall id | id in known
      ensures exists recipe :: IsRecipe(recipe, packages, id)
    {
      var recipe :| recipe in packages && recipe.id == id;
      assert IsRecipe(recipe, packages, id);
    }
    assert forall recipe :: recipe in packages ==> recipe.id in known;
    assert forall id :: id in ids <==> id in listed;
    if (forall recipe :: recipe in packages ==> recipe.id in ids)
       && (forall id :: id in ids ==> exists recipe :: IsRecipe(recipe, packages, id)) {
      assert listed == known;
    }
  }

  lemma PackagesSame(entries: seq<Entry>, packages: seq<PackageRecipe>)
    ensures NoRepeats(PackageIds(entries)) && SameSet(PackageIds(entries), packages) <==>
            PackagesListed(entries, packages)
  {
    PackageIdsListed(entries);
    SameSetIff(PackageIds(entries), packages);
    assert forall i :: 0 <= i < |entries| && entries[i].kind == "package" ==> entries[i].id in PackageIds(entries);
  }

  /** A projection succeeds exactly on owned receipts, and then changes exactly what it must. */
  lemma ReceiptProjected(value: Receipt, prior: Account, next: Account, commit: bool, packages: seq<PackageRecipe>)
    requires Movable(prior, next)
    ensures var r := ProjectReceipt(value, prior, next, commit, packages);
            && (r.Ok? <==> ReceiptOwned(value, prior, next, packages))
            && (r.Ok? ==> ReceiptMoved(value, r.value, prior, next, commit, packages))
  {
    if value.Inventory? && ValidPackages(packages) {
      EntriesProjected(value.entries, prior, next, commit, packages);
      PathsProjected(Released(value), prior, next);
      PackagesSame(value.entries, packages);
    }
  }

  // ---------- the captured recipe ----------

  /** The three recognised contents of one receipt; a digest stands for the file it was taken of. */
  datatype Recipe = Recipe(before: Document, moved: Document, after: Document) {
    predicate Knows(stored: Document) {
      stored == before || stored == moved || stored == after
    }

    /** The content of the requested stage. */
    function Staged(commit: bool): Document {
      if commit then after else moved
    }
  }

  /** The recorded package digests are the ones the plan was made from. */
  predicate SourcesMatch(value: Receipt, packages: seq<PackageRecipe>) {
    value.Inventory? ==>
      forall i :: 0 <= i < |value.entries| && value.entries[i].kind == "package" ==>
        && RecipeFor(packages, value.entries[i].id).Some?
        && value.entries[i].digest == Some(RecipeFor(packages, value.entries[i].id).value.before)
  }

  function ObserveReceipt(stored: Document, prior: Account, next: Account,
                          packages: seq<PackageRecipe>): Result<Recipe> {
    var moved := ProjectReceipt(stored.value, prior, next, false, packages);
    var final := ProjectReceipt(stored.value, prior, next, true, packages);
    if !SourcesMatch(stored.value, packages) || moved.Refused? || final.Refused? then Refused
    else Ok(Recipe.Recipe(stored, Encoded(moved.value), Encoded(final.value)))
  }

  predicate Captured(recipe: Recipe, prior: Account, next: Account, packages: seq<PackageRecipe>) {
    && ProjectReceipt(recipe.before.value, prior, next, false, packages) == Ok(recipe.moved.value)
    && ProjectReceipt(recipe.before.value, prior, next, true, packages) == Ok(recipe.after.value)
    && recipe.moved == Encoded(recipe.moved.value) && recipe.after == Encoded(recipe.after.value)
    && SourcesMatch(recipe.before.value, packages)
  }

  /** The package entries have the digests before or after the rename. */
  ghost predicate Digests(value: Receipt, packages: seq<PackageRecipe>, commit: bool) {
    value.Inventory? ==>
      forall i, recipe :: 0 <= i < |value.entries| && value.entries[i].kind == "package"
                          && IsRecipe(recipe, packages, value.entries[i].id) ==>
        value.entries[i].digest == Some(if commit then recipe.after else recipe.before)
  }

  /** Nothing in the receipt mentions the old login or its home. */
  ghost predicate Forgets(value: Receipt, prior: Account) {
    if value.Skill? then value.home != prior.home
    else
      && (forall i :: 0 <= i < |value.entries| && value.entries[i].path.Some? ==>
            !(prior.home + "/" <= value.entries[i].path.value))
      && (forall i :: 0 <= i < |Released(value)| ==> !(prior.home + "/" <= Released(value)[i]))
      && (value.settings.Some? ==> value.settings.value.user != prior.user)
  }

  /**
   The captured contents of a receipt, key by key: the moved one differs from the first in
   its homes only, the committed one also names the new login and the packages' new
   digests, and it mentions the old account no more.
   */
  lemma CapturedReceipt(recipe: Recipe, prior: Account, next: Account, packages: seq<PackageRecipe>)
    requires Movable(prior, next) && Captured(recipe, prior, next, packages)
    ensures ReceiptOwned(recipe.before.value, prior, next, packages)
    ensures ReceiptMoved(recipe.before.value, recipe.moved.value, prior, next, false, packages)
    ensures ReceiptMoved(recipe.before.value, recipe.after.value, prior, next, true, packages)
    ensures Digests(recipe.before.value, packages, false) && Digests(recipe.moved.value, packages, false)
    ensures Digests(recipe.after.value, packages, true) && Forgets(recipe.after.value, prior)
  {
    var before, moved, after := recipe.before.value, recipe.moved.value, recipe.after.value;
    ReceiptProjected(before, prior, next, false, packages);
    ReceiptProjected(before, prior, next, true, packages);
    SourceDigests(before, packages);
    DigestsMoved(before, moved, prior, next, false, packages);
    DigestsMoved(before, after, prior, next, true, packages);
    HomesDiffer(prior, next);
    CommittedForgets(before, after, prior, next, packages);
  }

  lemma HomesDiffer(prior: Account, next: Account)
    requires Relocatable(prior, next)
    ensures prior.home != next.home
  {
    assert prior.home[6..] == prior.user && next.home[6..] == next.user;
  }

  lemma SourceDigests(value: Receipt, packages: seq<PackageRecipe>)
    requires SourcesMatch(value, packages) && (value.Inventory? ==> ValidPackages(packages))
    ensures Digests(value, packages, false)
  {
    if value.Inventory? {
      forall i, recipe | 0 <= i < |value.entries| && value.entries[i].kind == "package"
                         && IsRecipe(recipe, packages, value.entries[i].id)
        ensures value.entries[i].digest == Some(recipe.before)
      {
        RecipeFound(packages, value.entries[i].id);
      }
    }
  }

  lemma DigestsMatch(value: Receipt, prior: Account, next: Account, packages: seq<PackageRecipe>)
    requires ReceiptOwned(value, prior, next, packages)
    ensures SourcesMatch(value, packages) <==> Digests(value, packages, false)
  {
    if SourcesMatch(value, packages) {
      SourceDigests(value, packages);
    }
    if value.Inventory? && Digests(value, packages, false) {
      forall i | 0 <= i < |value.entries| && value.entries[i].kind == "package"
        ensures RecipeFor(packages, value.entries[i].id).Some?
        ensures value.entries[i].digest == Some(RecipeFor(packages, value.entries[i].id).value.before)
      {
        assert EntryOwned(value.entries[i], prior, next, packages);
        RecipeFound(packages, value.entries[i].id);
      }
    }
  }

  lemma DigestsMoved(was: Receipt, now: Receipt, prior: Account, next: Account, commit: bool,
                     packages: seq<PackageRecipe>)
    requires ReceiptMoved(was, now, prior, next, commit, packages) && Digests(was, packages, false)
    ensures Digests(now, packages, commit)
  {
    if was.Inventory? {
      forall i, recipe | 0 <= i < |now.entries| && now.entries[i].kind == "package"
                         && IsRecipe(recipe, packages, now.entries[i].id)
        ensures now.entries[i].digest == Some(if commit then recipe.after else recipe.before)
      {
        assert EntryMoved(was.entries[i], now.entries[i], prior, next, commit, packages);
      }
    }
  }

  lemma CommittedForgets(was: Receipt, now: Receipt, prior: Account, next: Account, packages: seq<PackageRecipe>)
    requires Movable(prior, next) && prior.home != next.home
    requires ReceiptOwned(was, prior, next, packages) && ReceiptMoved(was, now, prior, next, true, packages)
    ensures Forgets(now, prior)
  {
    if was.Inventory? {
      forall i | 0 <= i < |now.entries| && now.entries[i].path.Some?
        ensures !(prior.home + "/" <= now.entries[i].path.value)
      {
        assert EntryOwned(was.entries[i], prior, next, packages);
        assert EntryMoved(was.entries[i], now.entries[i], prior, next, true, packages);
      }
    }
  }

  /** From before or moved, projecting and encoding reaches the requested recognised content. */
  lemma ReceiptCloses(recipe: Recipe, prior: Account, next: Account, packages: seq<PackageRecipe>, stored: Document,
                      commit: bool)
    requires Movable(prior, next) && Captured(recipe, prior, next, packages)
    requires stored == recipe.before || stored == recipe.moved
    ensures ProjectReceipt(stored.value, prior, next, commit, packages).Ok?
    ensures Encoded(ProjectReceipt(stored.value, prior, next, commit, packages).value) ==
              if commit then recipe.after else recipe.moved
  {
    ReceiptsCompose(recipe.before.value, prior, next, false, commit, packages);
  }
}
