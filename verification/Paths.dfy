/**
 Directories as the kernel finds them: a path is walked component by component, so
 that two spellings of one directory are the same and a directory cannot exist
 without the directories on the way to it.  Symbolic links are refused by the source.
 */
module Paths {
  import opened Text

  /** The names from the root down, with nothing left to resolve. */
  type Directory = seq<string>

  /** The components of a path; empty ones and "." name nothing. */
  function Components(path: string): seq<string> {
    Filter(Split(path, '/'), (part: string) => part != "" && part != ".")
  }

  function Step(at: Directory, part: string): Directory {
    if part != ".." then at + [part] else if at == [] then [] else at[..|at| - 1]
  }

  function Walk(at: Directory, parts: seq<string>): Directory
    decreases |parts|
  {
    if parts == [] then at else Walk(Step(at, parts[0]), parts[1..])
  }

  /** The directory that a path names. */
  function Place(path: string): Directory {
    Walk([], Components(path))
  }

  /** The directory that the rest of the path names once its last component is dropped. */
  function Parent(path: string): Directory {
    var parts := Components(path);
    if parts == [] then [] else Walk([], parts[..|parts| - 1])
  }

  /** The directories that are looked up before the last component. */
  function OnTheWay(path: string): set<Directory> {
    var parts := Components(path);
    set i | 0 <= i < |parts| :: Walk([], parts[..i])
  }

  /** Neither directory contains the other. */
  predicate Apart(a: Directory, b: Directory) {
    !(a <= b) && !(b <= a)
  }

  /** A directory exists if it, or something below it, is known to. */
  predicate Exists(known: map<Directory, nat>, dir: Directory) {
    exists d :: d in known && dir <= d
  }

  lemma {:induction false} WalkConcat(at: Directory, a: seq<string>, b: seq<string>)
    ensures Walk(at, a + b) == Walk(Walk(at, a), b)
    decreases |a|
  {
    if a == [] {
      assert a + b == b;
    } else {
      assert (a + b)[0] == a[0] && (a + b)[1..] == a[1..] + b;
      WalkConcat(Step(at, a[0]), a[1..], b);
    }
  }

  /** What one more component does: nothing, a step up, or a step down from the place that becomes the parent. */
  lemma PlaceBelow(path: string, name: string)
    requires Free(name, '/')
    ensures name in ["", "."] ==> Place(path + "/" + name) == Place(path)
    ensures name == ".." ==>
              Place(path + "/" + name) == (if Place(path) == [] then [] else Place(path)[..|Place(path)| - 1])
    ensures name !in ["", ".", ".."] ==> Place(path + "/" + name) == Place(path) + [name]
    ensures name !in ["", "."] ==> Parent(path + "/" + name) == Place(path)
  {
    ComponentsBelow(path, name);
    SplitOfFree(name, '/');
    var kept := (part: string) => part != "" && part != ".";
    assert [name][1..] == [] && Filter<string>([], kept) == [];
    WalkConcat([], Components(path), Components(name));
    if name in ["", "."] {
      assert Components(path) + [] == Components(path);
    } else {
      assert Components(name) == [name];
      assert (Components(path) + [name])[..|Components(path)|] == Components(path);
      assert Walk(Place(path), [name]) == Walk(Step(Place(path), name), []);
    }
  }

  // ---------- homes ----------

  lemma {:induction false} FilterConcat<T>(a: seq<T>, b: seq<T>, keep: T -> bool)
    ensures Filter(a + b, keep) == Filter(a, keep) + Filter(b, keep)
  {
    if a == [] {
      assert a + b == b;
    } else {
      var first := if keep(a[0]) then [a[0]] else [];
      assert (a + b)[0] == a[0] && (a + b)[1..] == a[1..] + b;
      FilterConcat(a[1..], b, keep);
      assert first + (Filter(a[1..], keep) + Filter(b, keep)) == first + Filter(a[1..], keep) + Filter(b, keep);
    }
  }

  /** The components of a path below another one. */
  lemma ComponentsBelow(a: string, b: string)
    ensures Components(a + "/" + b) == Components(a) + Components(b)
  {
    var kept := (part: string) => part != "" && part != ".";
    assert a + "/" + b == a + ['/'] + b;
    SplitConcat(a, b, '/');
    FilterConcat(Split(a, '/'), Split(b, '/'), kept);
  }

  lemma ComponentsOfName(name: string)
    requires Free(name, '/') && name !in ["", "."]
    ensures Components(name) == [name]
  {
    var kept := (part: string) => part != "" && part != ".";
    SplitOfFree(name, '/');
    assert [name][1..] == [];
    assert Filter<string>([], kept) == [];
  }

  /** The components of the home of a login, however that login is spelled. */
  lemma HomeComponents(user: string)
    ensures Components("/home/" + user) == ["home"] + Components(user)
  {
    assert "/home/" + user == "" + "/" + ("home" + "/" + user);
    ComponentsBelow("", "home" + "/" + user);
    ComponentsBelow("home", user);
    ComponentsOfName("home");
    SplitOfFree("", '/');
    assert Components("") == [];
  }

  /** The home of a plainly named login is a direct child of /home. */
  lemma HomeOfName(name: string)
    requires Free(name, '/') && name !in ["", ".", ".."]
    ensures Place("/home/" + name) == ["home", name] && Parent("/home/" + name) == ["home"]
  {
    HomeComponents(name);
    ComponentsOfName(name);
    var parts := ["home"] + [name];
    assert parts[..1] == ["home"] && parts[1..] == [name];
    assert Step([], "home") == ["home"] && Step(["home"], name) == ["home", name];
    assert Walk(["home"], [name]) == Walk(["home", name], []);
  }

  /** The root and /home are on the way to every home. */
  lemma WayHome(user: string)
    requires Components(user) != []
    ensures [] in OnTheWay("/home/" + user) && ["home"] in OnTheWay("/home/" + user)
  {
    HomeComponents(user);
    var parts := Components("/home/" + user);
    assert parts[..0] == [] && parts[..1] == ["home"];
    assert Step([], "home") == ["home"];
    assert Walk([], parts[..0]) == [] && Walk([], parts[..1]) == ["home"];
  }

  /** Only the root and /home are on the way to the home of a plainly named login. */
  lemma WayOfName(name: string)
    requires Free(name, '/') && name !in ["", "."]
    ensures forall d :: d in OnTheWay("/home/" + name) ==> |d| < 2
  {
    HomeComponents(name);
    ComponentsOfName(name);
    var parts := ["home"] + [name];
    assert parts[..0] == [] && parts[..1] == ["home"];
    assert Step([], "home") == ["home"];
    assert Walk([], parts[..0]) == [] && Walk([], parts[..1]) == ["home"];
  }

  /** A home spelled below another one is reached through it. */
  lemma BelowIsThrough(user: string, name: string)
    requires Free(name, '/') && name !in ["", ".", ".."] && "/home/" + name + "/" <= "/home/" + user
    ensures Place("/home/" + name) in OnTheWay("/home/" + user) || Place("/home/" + name) == Place("/home/" + user)
  {
    var rest := ("/home/" + user)[|"/home/" + name + "/"|..];
    assert "/home/" + user == "/home/" + name + "/" + rest;
    assert ("/home/" + user)[6..] == user && ("/home/" + name + "/" + rest)[6..] == name + "/" + rest;
    HomeOfName(name);
    HomeComponents(name);
    HomeComponents(user);
    ComponentsBelow(name, rest);
    ComponentsOfName(name);
    var parts := Components("/home/" + user);
    assert parts == Components("/home/" + name) + Components(rest);
    assert parts[..2] == Components("/home/" + name);
    if Components(rest) == [] {
      assert parts == Components("/home/" + name);
    } else {
      assert Walk([], parts[..2]) in OnTheWay("/home/" + user);
    }
  }

  /** What keeps the homes of two logins apart: neither is reached through the other, nor are they one. */
  lemma HomesApart(user: string, name: string)
    requires Free(name, '/') && name !in ["", ".", ".."]
    requires Place("/home/" + user) !in OnTheWay("/home/" + name) && !(Place("/home/" + name) <= Place("/home/" + user))
    ensures Apart(Place("/home/" + user), Place("/home/" + name))
  {
    var place := Place("/home/" + user);
    HomeOfName(name);
    ComponentsOfName(name);
    WayHome(name);
    assert |place| == 0 ==> place == [];
    assert |place| == 1 && place[0] == "home" ==> place == ["home"];
  }

  lemma {:induction false} WalkDown(at: Directory, parts: seq<string>)
    requires ".." !in parts
    ensures Walk(at, parts) == at + parts
    decreases |parts|
  {
    if parts != [] {
      assert parts[0] in parts && forall x :: x in parts[1..] ==> x in parts;
      WalkDown(at + [parts[0]], parts[1..]);
      assert at + [parts[0]] + parts[1..] == at + parts;
    }
  }

  lemma {:induction false} FilterAll<T>(s: seq<T>, keep: T -> bool)
    requires forall x :: x in s ==> keep(x)
    ensures Filter(s, keep) == s
  {
    if s != [] {
      assert s[0] in s && forall x :: x in s[1..] ==> x in s;
      FilterAll(s[1..], keep);
    }
  }

  lemma OnePart(s: string, c: char)
    ensures |Split(s, c)| == 1 <==> Free(s, c)
  {
    if Free(s, c) {
      SplitOfFree(s, c);
    }
    SplitParts(s, c);
    JoinOfSplit(s, c);
  }

  /** A normally spelled home is a direct child of /home exactly when its login has no slash. */
  lemma ParentOfNormal(user: string)
    requires forall x :: x in Split(user, '/') ==> x !in ["", ".", ".."]
    ensures Parent("/home/" + user) == ["home"] <==> Free(user, '/')
  {
    var parts := Split(user, '/');
    FilterAll(parts, (part: string) => part != "" && part != ".");
    HomeComponents(user);
    var all := ["home"] + parts;
    var upper := all[..|all| - 1];
    assert upper == ["home"] + parts[..|parts| - 1];
    assert forall x :: x in upper ==> x == "home" || x in parts;
    WalkDown([], upper);
    assert [] + upper == upper;
    OnePart(user, '/');
  }
}
