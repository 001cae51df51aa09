/** The synthetic file tree served over 9P (namespace.go): a table from Qid
    path to entry, per-directory children, and a counter for fresh Qid
    paths.

    An entry is known by its Qid path: the Go code keeps pointers to entries
    both in the table and in the children maps, and every entry gets a path
    no other entry has, so a pointer is modelled by that path. */
module Namespaces {
  import opened Base
  import opened Files
  import opened Paths

  /** The error values of namespace.go. */
  datatype Error = NoRoot | NoFile | NoDir | NoAbs

  /** Qid types and the directory mode bit of the 9P protocol. */
  const QTDIR: bv8 := 0x80
  const QTFILE: bv8 := 0x00
  const DMDIR: bv32 := 0x8000_0000

  /** Permission 0555, given to the root directory. */
  const ROOT_PERM: bv32 := 0x16D

  datatype Qid = Qid(path: nat, vers: nat, typ: bv8)

  /** The 9P directory record of an entry. */
  datatype Dir = Dir(qid: Qid, name: string, mode: bv32, uid: string, gid: string, muid: string)

  /** An entry: a directory, whose children map names to the Qid paths of
      the child entries, or a file with its content provider. */
  datatype Entry =
    | DirEntry(ref: Dir, children: map<string, nat>)
    | FileEntry(ref: Dir, file: File)

  /** Entry.IsDir: the entry has a children map. An entry without one is a
      file and carries a content provider. */
  predicate IsDir(e: Entry)
    ensures IsDir(e) <==> !e.FileEntry?
  {
    e.DirEntry?
  }

  type Table = map<nat, Entry>

  /** Every child recorded by directory `k` is in the table, under the name
      it is recorded with, and was created after `k`. */
  ghost predicate ChildrenOk(dict: Table, k: nat)
    requires k in dict
  {
    dict[k].DirEntry? ==>
      forall n :: n in dict[k].children ==>
        var c := dict[k].children[n];
        c in dict && k < c && dict[c].ref.name == n
  }

  ghost predicate Closed(dict: Table)
  {
    forall k :: k in dict ==> ChildrenOk(dict, k)
  }

  /** The Qid type agrees with the kind of entry. */
  predicate KindOk(e: Entry)
  {
    e.ref.qid.typ == (if IsDir(e) then QTDIR else QTFILE)
  }

  /** The table invariant: the root directory is at path 0, every entry is
      stored under its own Qid path, below the counter, and is closed. */
  ghost predicate WellFormed(dict: Table, nextID: nat)
  {
    && 0 in dict && dict[0].DirEntry?
    && (forall k :: k in dict ==> dict[k].ref.qid.path == k && k < nextID && KindOk(dict[k]))
    && Closed(dict)
  }

  /** newEntry with identifier `id`: a nil implementation gives a directory
      (empty children, type QTDir, DMDir set in the mode); otherwise a file
      holding the implementation (type QTFile, mode as given). */
  function MakeEntry(name: string, user: string, group: string, perm: bv32, impl: Option<File>, id: nat): (e: Entry)
    ensures e.ref.qid.path == id && e.ref.qid.vers == 0 && e.ref.name == name && KindOk(e)
    ensures e.ref.uid == user && e.ref.gid == group && e.ref.muid == user
    ensures impl.None? <==> IsDir(e)
    ensures impl.None? ==> e.children == map[] && e.ref.qid.typ == QTDIR && e.ref.mode == perm | DMDIR
    ensures impl.Some? ==> e.file == impl.value && e.ref.qid.typ == QTFILE && e.ref.mode == perm
  {
    match impl
    case None => DirEntry(Dir(Qid(id, 0, QTDIR), name, perm | DMDIR, user, group, user), map[])
    case Some(f) => FileEntry(Dir(Qid(id, 0, QTFILE), name, perm, user, group, user), f)
  }

  /** An entry newly made by MakeEntry with an identifier above every path
      in the table. */
  ghost predicate FreshEntry(dict: Table, nextID: nat, e: Entry)
  {
    && e.ref.qid.path < nextID
    && (forall k :: k in dict ==> k < e.ref.qid.path)
    && KindOk(e)
    && (e.DirEntry? ==> e.children == map[])
  }

  //--------------------------------------------------------------------
  // Path resolution

  /** Get's loop as written, from entry `cur` over the labels of a split
      path: empty labels are skipped, a file cannot be descended through,
      and a label with no matching child makes Walk return nil, which Get
      then dereferences. */
  function ResolveAsWritten(dict: Table, cur: nat, labels: seq<string>): (r: Outcome<nat, Error>)
    requires cur in dict && Closed(dict)
    ensures r.Ok? ==> r.value in dict
    decreases |labels|
  {
    if labels == [] then Ok(cur)
    else if labels[0] == "" then ResolveAsWritten(dict, cur, labels[1..])
    else if !IsDir(dict[cur]) then Fail(NoDir)
    else if labels[0] !in dict[cur].children then Panic
    else ResolveAsWritten(dict, dict[cur].children[labels[0]], labels[1..])
  }

  /** Get(path) as written. An empty path panics on path[0]. */
  function GetSpec(dict: Table, path: string): (r: Outcome<nat, Error>)
    requires 0 in dict && Closed(dict)
    ensures r.Ok? ==> r.value in dict
    ensures |path| == 0 ==> r == Panic
    ensures |path| > 0 && path[0] != '/' ==> r == Fail(NoAbs)
  {
    if |path| == 0 then Panic
    else if path[0] != '/' then Fail(NoAbs)
    else ResolveAsWritten(dict, 0, Split(path[1..]))
  }

  /** Resolution with the missing child reported as errNoFile, which the
      code evidently intends (namespace.go:156-158). */
  function ResolveIntended(dict: Table, cur: nat, labels: seq<string>): (r: Outcome<nat, Error>)
    requires cur in dict && Closed(dict)
    ensures r.Ok? ==> r.value in dict
    ensures r != Panic
    decreases |labels|
  {
    if labels == [] then Ok(cur)
    else if labels[0] == "" then ResolveIntended(dict, cur, labels[1..])
    else if !IsDir(dict[cur]) then Fail(NoDir)
    else if labels[0] !in dict[cur].children then Fail(NoFile)
    else ResolveIntended(dict, dict[cur].children[labels[0]], labels[1..])
  }

  /** The corrected Get. */
  function GetIntended(dict: Table, path: string): (r: Outcome<nat, Error>)
    requires 0 in dict && Closed(dict)
    ensures r.Ok? ==> r.value in dict
    ensures |path| == 0 ==> r == Panic
    ensures |path| > 0 && path[0] != '/' ==> r == Fail(NoAbs)
  {
    if |path| == 0 then Panic
    else if path[0] != '/' then Fail(NoAbs)
    else ResolveIntended(dict, 0, Split(path[1..]))
  }

  /** Both resolutions agree except where the written one panics on a
      missing child; there the corrected one answers errNoFile. The written
      one never answers errNoFile. */
  lemma {:induction false} ResolveCorrects(dict: Table, cur: nat, labels: seq<string>)
    requires cur in dict && Closed(dict)
    ensures ResolveAsWritten(dict, cur, labels) == Panic <==> ResolveIntended(dict, cur, labels) == Fail(NoFile)
    ensures ResolveAsWritten(dict, cur, labels) != Panic ==> ResolveAsWritten(dict, cur, labels) == ResolveIntended(dict, cur, labels)
    ensures ResolveAsWritten(dict, cur, labels) != Fail(NoFile)
    decreases |labels|
  {
    if labels != [] {
      if labels[0] == "" {
        ResolveCorrects(dict, cur, labels[1..]);
      } else if IsDir(dict[cur]) && labels[0] in dict[cur].children {
        ResolveCorrects(dict, dict[cur].children[labels[0]], labels[1..]);
      }
    }
  }

  /** Resolution only looks at the non-empty labels. */
  lemma {:induction false} ResolveSkipsEmpty(dict: Table, cur: nat, labels: seq<string>)
    requires cur in dict && Closed(dict)
    ensures ResolveIntended(dict, cur, labels) == ResolveIntended(dict, cur, NonEmpty(labels))
    decreases |labels|
  {
    if labels != [] {
      if labels[0] == "" {
        ResolveSkipsEmpty(dict, cur, labels[1..]);
      } else {
        var rest := NonEmpty(labels[1..]);
        assert NonEmpty(labels) == [labels[0]] + rest;
        assert ([labels[0]] + rest)[1..] == rest;
        if IsDir(dict[cur]) && labels[0] in dict[cur].children {
          ResolveSkipsEmpty(dict, dict[cur].children[labels[0]], labels[1..]);
        }
      }
    }
  }

  /** An absolute path resolves as its labels do: "/" and "//" name the
      root, and repeated or trailing slashes change nothing. */
  lemma LookupByLabels(dict: Table, path: string, a: string, b: string)
    requires 0 in dict && Closed(dict)
    requires |path| > 0 && path[0] == '/'
    ensures GetIntended(dict, path) == ResolveIntended(dict, 0, Labels(path))
    ensures GetIntended(dict, "/") == Ok(0) && GetIntended(dict, "//") == Ok(0)
    ensures GetIntended(dict, path + "/") == GetIntended(dict, path)
    ensures GetIntended(dict, "/" + a + "//" + b) == GetIntended(dict, "/" + a + "/" + b)
  {
    ResolveSkipsEmpty(dict, 0, Split(path[1..]));
    SlashesDoNotMatter(path[1..], "");
    assert path == "/" + path[1..];
    ResolveSkipsEmpty(dict, 0, Split("/"[1..]));
    assert "/"[1..] == "";
    ResolveSkipsEmpty(dict, 0, Split("//"[1..]));
    assert "//"[1..] == "/";
    SlashesDoNotMatter("", "");
    var p' := path + "/";
    assert p'[1..] == path[1..] + "/";
    ResolveSkipsEmpty(dict, 0, Split(p'[1..]));
    var x, y := "/" + a + "//" + b, "/" + a + "/" + b;
    assert x[1..] == a + "//" + b && y[1..] == a + "/" + b;
    ResolveSkipsEmpty(dict, 0, Split(x[1..]));
    ResolveSkipsEmpty(dict, 0, Split(y[1..]));
    SlashesDoNotMatter(a, b);
  }

  /** Resolution never descends through a file: a non-empty label met at a
      file entry gives errNoDir. */
  lemma FileHasNoChildren(dict: Table, cur: nat, step: string, rest: seq<string>)
    requires cur in dict && Closed(dict) && dict[cur].FileEntry? && step != ""
    ensures ResolveIntended(dict, cur, [step] + rest) == Fail(NoDir)
    ensures ResolveAsWritten(dict, cur, [step] + rest) == Fail(NoDir)
  {
  }

  /** A resolution that succeeds ends at or below where it started. */
  lemma {:induction false} ResolveClimbs(dict: Table, cur: nat, labels: seq<string>)
    requires cur in dict && Closed(dict)
    requires ResolveIntended(dict, cur, labels).Ok?
    ensures cur <= ResolveIntended(dict, cur, labels).value
    decreases |labels|
  {
    if labels != [] {
      if labels[0] == "" {
        ResolveClimbs(dict, cur, labels[1..]);
      } else {
        ResolveClimbs(dict, dict[cur].children[labels[0]], labels[1..]);
      }
    }
  }

  //--------------------------------------------------------------------
  // Insertion

  /** The table after `new` links `entry` under directory `parent`: the
      parent's child of that name is the entry (replacing any earlier child
      of the same name), the entry is stored under its path, and nothing
      else changes; a replaced child stays in the table. */
  function Linked(dict: Table, parent: nat, entry: Entry): (d: Table)
    requires parent in dict && dict[parent].DirEntry?
    requires entry.ref.qid.path != parent
    ensures d.Keys == dict.Keys + {entry.ref.qid.path}
    ensures d[entry.ref.qid.path] == entry
    ensures d[parent] == dict[parent].(children := dict[parent].children[entry.ref.name := entry.ref.qid.path])
    ensures forall k :: k in dict && k != parent && k != entry.ref.qid.path ==> d[k] == dict[k]
  {
    var p := dict[parent];
    dict[parent := p.(children := p.children[entry.ref.name := entry.ref.qid.path])][entry.ref.qid.path := entry]
  }

  /** Linking a fresh entry keeps the table well formed. */
  lemma LinkedWellFormed(dict: Table, nextID: nat, parent: nat, entry: Entry)
    requires WellFormed(dict, nextID) && parent in dict && dict[parent].DirEntry?
    requires FreshEntry(dict, nextID, entry)
    ensures WellFormed(Linked(dict, parent, entry), nextID)
  {
    var d := Linked(dict, parent, entry);
    var id := entry.ref.qid.path;
    forall k | k in d
      ensures ChildrenOk(d, k)
    {
      if k != id {
        assert ChildrenOk(dict, k);
      }
    }
  }

  /** Linking keeps every resolution that ends at the parent: a resolution
      only climbs, so it meets the parent only at its end. */
  lemma {:induction false} LinkedKeepsResolve(dict: Table, nextID: nat, parent: nat, entry: Entry, cur: nat, labels: seq<string>)
    requires WellFormed(dict, nextID) && parent in dict && dict[parent].DirEntry?
    requires FreshEntry(dict, nextID, entry)
    requires cur in dict && ResolveIntended(dict, cur, labels) == Ok(parent)
    ensures Closed(Linked(dict, parent, entry))
    ensures ResolveIntended(Linked(dict, parent, entry), cur, labels) == Ok(parent)
    decreases |labels|
  {
    LinkedWellFormed(dict, nextID, parent, entry);
    var d := Linked(dict, parent, entry);
    if labels != [] {
      if labels[0] == "" {
        LinkedKeepsResolve(dict, nextID, parent, entry, cur, labels[1..]);
      } else {
        var c := dict[cur].children[labels[0]];
        assert ChildrenOk(dict, cur);
        ResolveClimbs(dict, c, labels[1..]);
        assert cur != parent;
        assert d[cur] == dict[cur];
        LinkedKeepsResolve(dict, nextID, parent, entry, c, labels[1..]);
      }
    }
  }

  /** `new` as written on table `dict`: resolve the parent with Get,
      refuse a file, otherwise link; the reply and the resulting table. */
  function InsertAsWritten(dict: Table, nextID: nat, path: string, entry: Entry): (r: (Outcome<(), Error>, Table))
    requires WellFormed(dict, nextID) && FreshEntry(dict, nextID, entry)
    ensures !r.0.Ok? ==> r.1 == dict
    ensures r.0.Ok? <==> GetSpec(dict, path).Ok? && IsDir(dict[GetSpec(dict, path).value])
    ensures GetSpec(dict, path).Fail? ==> r.0 == Fail(GetSpec(dict, path).err)
    ensures GetSpec(dict, path) == Panic ==> r.0 == Panic
    ensures r.0.Ok? ==> r.1 == Linked(dict, GetSpec(dict, path).value, entry) && WellFormed(r.1, nextID)
  {
    match GetSpec(dict, path)
    case Panic => (Panic, dict)
    case Fail(err) => (Fail(err), dict)
    case Ok(p) =>
      if IsDir(dict[p]) then
        LinkedWellFormed(dict, nextID, p, entry);
        (Ok(()), Linked(dict, p, entry))
      else (Fail(NoDir), dict)
  }

  /** NewFile (impl Some) and NewDir (impl None) as written: the reply, the
      table and the counter afterwards. The entry takes the counter's value
      once the parent and name are sliced out of the path. */
  function NewAsWritten(dict: Table, nextID: nat, user: string, group: string, path: string, perm: bv32, impl: Option<File>)
    : (r: (Outcome<(), Error>, Table, nat))
    requires WellFormed(dict, nextID)
    ensures WellFormed(r.1, r.2)
    ensures ParentAsWritten(path).Ok? <==> r.2 == nextID + 1
    ensures !ParentAsWritten(path).Ok? ==> r.2 == nextID
    ensures !r.0.Ok? ==> r.1 == dict
  {
    match ParentAsWritten(path)
    case Panic => (Panic, dict, nextID)
    case Fail(err) => (Fail(err), dict, nextID)
    case Ok((parent, name)) =>
      var e := MakeEntry(name, user, group, perm, impl, nextID);
      var (res, d) := InsertAsWritten(dict, nextID + 1, parent, e);
      (res, d, nextID + 1)
  }

  //--------------------------------------------------------------------
  // Splitting a new path into parent and name

  /** NewFile/NewDir as written: trim trailing slashes, find the last slash
      at idx, take path[:idx-1] as the parent and path[idx+1:] as the name.
      A slice bound below zero panics (idx 0 for a top-level name, -1 for a
      path of slashes only). */
  function ParentAsWritten(path: string): (r: Outcome<(string, string), Error>)
    ensures r != Panic ==> |path| > 0
    ensures |path| > 0 && path[0] != '/' ==> r == Fail(NoAbs)
    ensures |path| > 0 && path[0] == '/' && (forall i :: 0 < i < |TrimRight(path)| ==> TrimRight(path)[i] != '/')
            ==> r == Panic
    ensures r.Ok? ==>
      var parent := ParentOf(path).value.0;
      && ParentOf(path).Ok? && |parent| > 0
      && r.value.0 == parent[..|parent| - 1] && r.value.1 == ParentOf(path).value.1
  {
    if |path| == 0 then Panic
    else if path[0] != '/' then Fail(NoAbs)
    else
      var p := TrimRight(path);
      var idx := LastSlash(p);
      if idx - 1 < 0 then Panic else Ok((p[..idx - 1], p[idx + 1..]))
  }

  /** The parent and name evidently intended: the parent is everything
      before the last slash ("/" for a top-level name). A path of slashes
      names no entry to create and gives errNoFile. */
  function ParentOf(path: string): (r: Outcome<(string, string), Error>)
    ensures r != Panic <==> |path| > 0
    ensures |path| > 0 && path[0] != '/' ==> r == Fail(NoAbs)
  {
    if |path| == 0 then Panic
    else if path[0] != '/' then Fail(NoAbs)
    else
      var p := TrimRight(path);
      var idx := LastSlash(p);
      if idx < 0 then Fail(NoFile)
      else Ok((if idx == 0 then "/" else p[..idx], p[idx + 1..]))
  }

  lemma {:induction false} SplitWithoutSlash(s: string)
    requires '/' !in s
    ensures Split(s) == [s]
    decreases |s|
  {
    if |s| > 0 {
      SplitWithoutSlash(s[1..]);
      assert [s[0]] + s[1..] == s;
    }
  }

  /** The name the intended split yields is a single non-empty label, cut
      from the trimmed path after its last slash. */
  lemma NameIsOneLabel(path: string)
    requires ParentOf(path).Ok?
    ensures var p := TrimRight(path);
      var idx := LastSlash(p);
      var name := ParentOf(path).value.1;
      && 0 <= idx < |p| && p[0] == '/' && name == p[idx + 1..]
      && name != "" && '/' !in name && Labels(name) == [name]
  {
    var p := TrimRight(path);
    var idx := LastSlash(p);
    var name := ParentOf(path).value.1;
    assert name == p[idx + 1..];
    assert p[0] == '/' by { assert path[0] == '/'; }
    assert '/' !in name by {
      forall i | 0 <= i < |name| ensures name[i] != '/' { assert name[i] == p[idx + 1 + i]; }
    }
    assert name != "" by { assert p[|p| - 1] != '/'; }
    SplitWithoutSlash(name);
    assert [name][1..] == [] && [name][0] == name;
    assert NonEmpty([name]) == [name] + NonEmpty([]);
  }

  /** The intended split is sound: the parent is absolute, the name is one
      non-empty label, and the path's labels are the parent's followed by
      the name. */
  lemma ParentOfSplitsLabels(path: string)
    requires ParentOf(path).Ok?
    ensures var (parent, name) := ParentOf(path).value;
      && |parent| > 0 && parent[0] == '/'
      && name != "" && '/' !in name
      && Labels(path) == Labels(parent) + [name]
  {
    var p := TrimRight(path);
    var idx := LastSlash(p);
    var (parent, name) := ParentOf(path).value;
    NameIsOneLabel(path);
    TrimRightKeepsLabels(path);
    assert p == p[..idx] + "/" + name;
    LabelsAtSlash(p[..idx], name);
    if idx == 0 {
      assert p[..idx] == "";
      SlashesDoNotMatter("", "");
    }
  }

  /** The written split loses the parent's last character, and panics for
      every top-level name. */
  lemma ParentAsWrittenDefects()
    ensures ParentAsWritten("/readme") == Panic
    ensures ParentOf("/readme") == Ok(("/", "readme"))
    ensures ParentAsWritten("/sensors/temp") == Ok(("/sensor", "temp"))
    ensures ParentOf("/sensors/temp") == Ok(("/sensors", "temp"))
  {
    assert TrimRight("/readme") == "/readme";
    assert TrimRight("/sensors/temp") == "/sensors/temp";
    assert "/readme"[0] == '/';
    assert LastSlash("/readme") == 0;
    assert "/sensors/temp"[8] == '/';
    assert LastSlash("/sensors/temp") == 8;
    assert "/sensors/temp"[..7] == "/sensor";
    assert "/sensors/temp"[..8] == "/sensors";
  }

  /** A missing path component makes the written Get panic where errNoFile
      is meant. */
  lemma MissingChildPanics(dict: Table)
    requires 0 in dict && Closed(dict) && dict[0].DirEntry? && "x" !in dict[0].children
    ensures GetSpec(dict, "/x") == Panic
    ensures GetIntended(dict, "/x") == Fail(NoFile)
  {
    assert "/x"[1..] == "x";
    SplitWithoutSlash("x");
  }

  //--------------------------------------------------------------------
  // Read and Stat

  /** What a 9P read is answered with. */
  datatype ReadReply =
    | Listing(kids: seq<Dir>)
    | Content(data: seq<Byte>)
    | NsFailed(err: Error)
    | FileFailed(ferr: FileError)

  /** `kids` holds the directory record of each child exactly once. */
  ghost predicate ListsChildren(dict: Table, children: map<string, nat>, kids: seq<Dir>)
  {
    && |kids| == |children|
    && (forall i :: 0 <= i < |kids| ==>
          kids[i].name in children && children[kids[i].name] in dict && kids[i] == dict[children[kids[i].name]].ref)
    && (forall n :: n in children ==> exists i :: 0 <= i < |kids| && kids[i].name == n)
  }

  //--------------------------------------------------------------------

  /** Namespace: the entry table and the identifier counter. */
  class Namespace {
    const user: string
    const group: string
    var dict: Table
    var nextID: nat

    ghost predicate Valid()
      reads this
    {
      WellFormed(dict, nextID)
    }

    /** NewNamespace: one entry, the root directory "/" at path 0 with mode
      0555|DMDir; the next identifier is 1. */
    constructor (user: string, group: string)
      ensures Valid() && this.user == user && this.group == group
      ensures dict == map[0 := MakeEntry("/", user, group, ROOT_PERM, None, 0)] && nextID == 1
    {
      this.user := user;
      this.group := group;
      dict := map[];
      nextID := 0;
      new;
      var e := NewEntry("/", user, group, ROOT_PERM, None);
      dict := dict[e.ref.qid.path := e];
    }

    /** newId: the current counter, which is then incremented. */
    method NewId() returns (id: nat)
      modifies this`nextID
      ensures id == old(nextID) && nextID == old(nextID) + 1
    {
      id := nextID;
      nextID := nextID + 1;
    }

    /** newEntry: the entry MakeEntry describes, with a fresh identifier. */
    method NewEntry(name: string, user: string, group: string, perm: bv32, impl: Option<File>) returns (e: Entry)
      modifies this`nextID
      ensures nextID == old(nextID) + 1
      ensures e == MakeEntry(name, user, group, perm, impl, old(nextID))
      ensures old(WellFormed(dict, nextID)) ==> WellFormed(dict, nextID) && FreshEntry(dict, nextID, e)
    {
      var id := NewId();
      var kind := QTFILE;
      var mode := perm;
      if impl.None? {
        kind := QTDIR;
        mode := perm | DMDIR;
        e := DirEntry(Dir(Qid(id, 0, kind), name, mode, user, group, user), map[]);
      } else {
        e := FileEntry(Dir(Qid(id, 0, kind), name, mode, user, group, user), impl.value);
      }
    }

    /** Walk: the Qid of the child of `cur` whose name is `next`, or nil when
      no child has that name (always nil from a file). An unknown Qid path
      panics, as the nil entry is dereferenced. The children are searched
      in no fixed order. */
    method Walk(cur: Qid, next: string) returns (r: Outcome<Option<Qid>, Error>)
      requires Valid()
      ensures r == Panic <==> cur.path !in dict
      ensures !r.Fail?
      ensures r.Ok? ==> (r.value.Some? <==> IsDir(dict[cur.path]) && next in dict[cur.path].children)
      ensures r.Ok? && r.value.Some? ==> var c := dict[cur.path].children[next];
        c in dict && r.value.value == dict[c].ref.qid && r.value.value.path == c && dict[c].ref.name == next
    {
      if cur.path !in dict {
        return Panic;
      }
      var e := dict[cur.path];
      if !e.DirEntry? {
        return Ok(None);
      }
      assert ChildrenOk(dict, cur.path);
      var todo := e.children.Keys;
      while todo != {}
        invariant todo <= e.children.Keys
        invariant next in e.children ==> next in todo
        decreases todo
      {
        var n :| n in todo;
        var c := dict[e.children[n]];
        if c.ref.name == next {
          return Ok(Some(c.ref.qid));
        }
        todo := todo - {n};
      }
      return Ok(None);
    }

    /** Get as written: the entry (its Qid path) that `path` names, walking
      from the root and skipping empty labels. */
    method Get(path: string) returns (r: Outcome<nat, Error>)
      requires Valid()
      ensures r == GetSpec(dict, path)
      ensures r.Ok? ==> r.value in dict
    {
      if |path| == 0 {
        return Panic;
      }
      if path[0] != '/' {
        return Fail(NoAbs);
      }
      var labels := Split(path[1..]);
      var curr: nat := 0;
      var i := 0;
      while i < |labels|
        invariant 0 <= i <= |labels| && curr in dict
        invariant ResolveAsWritten(dict, 0, labels) == ResolveAsWritten(dict, curr, labels[i..])
      {
        assert labels[i..][1..] == labels[i + 1..];
        var component := labels[i];
        if |component| == 0 {
          i := i + 1;
          continue;
        }
        if !IsDir(dict[curr]) {
          return Fail(NoDir);
        }
        var qid := Walk(dict[curr].ref.qid, component);
        if qid.value.None? {
          return Panic;
        }
        curr := qid.value.value.path;
        i := i + 1;
      }
      return Ok(curr);
    }

    /** The corrected Get: Get's loop with the nil check on Walk's result,
      so a missing component is errNoFile. */
    method Lookup(path: string) returns (r: Outcome<nat, Error>)
      requires Valid()
      ensures r == GetIntended(dict, path)
      ensures r != Panic <==> |path| > 0
    {
      if |path| == 0 {
        return Panic;
      }
      if path[0] != '/' {
        return Fail(NoAbs);
      }
      var labels := Split(path[1..]);
      var curr: nat := 0;
      var i := 0;
      while i < |labels|
        invariant 0 <= i <= |labels| && curr in dict
        invariant ResolveIntended(dict, 0, labels) == ResolveIntended(dict, curr, labels[i..])
      {
        assert labels[i..][1..] == labels[i + 1..];
        var component := labels[i];
        if |component| == 0 {
          i := i + 1;
          continue;
        }
        if !IsDir(dict[curr]) {
          return Fail(NoDir);
        }
        var qid := Walk(dict[curr].ref.qid, component);
        if qid.value.None? {
          return Fail(NoFile);
        }
        curr := qid.value.value.path;
        i := i + 1;
      }
      return Ok(curr);
    }

    /** The linking step of `new`: sets the parent's child of the entry's
      name and stores the entry under its path. */
    method Link(parent: nat, entry: Entry)
      requires Valid() && parent in dict && IsDir(dict[parent])
      requires FreshEntry(dict, nextID, entry)
      modifies this`dict
      ensures Valid()
      ensures dict == Linked(old(dict), parent, entry)
    {
      LinkedWellFormed(dict, nextID, parent, entry);
      var p := dict[parent];
      dict := dict[parent := p.(children := p.children[entry.ref.name := entry.ref.qid.path])];
      dict := dict[entry.ref.qid.path := entry];
    }

    /** new as written: resolve the parent with Get, refuse a non-directory,
      then link. On any failure nothing changes. */
    method Insert(path: string, entry: Entry) returns (r: Outcome<(), Error>)
      requires Valid() && FreshEntry(dict, nextID, entry)
      modifies this`dict
      ensures Valid()
      ensures (r, dict) == InsertAsWritten(old(dict), nextID, path, entry)
    {
      var parent := Get(path);
      match parent {
        case Fail(e) => return Fail(e);
        case Panic => return Panic;
        case Ok(p) =>
          if !IsDir(dict[p]) {
            return Fail(NoDir);
          }
          Link(p, entry);
          return Ok(());
      }
    }

    /** NewFile as written, with a provider. Go's NewFile(path, perm, nil)
        builds a directory through newEntry; that call is NewAt(path, perm,
        None), the one NewDir makes. */
    method NewFile(path: string, perm: bv32, impl: File) returns (r: Outcome<(), Error>)
      requires Valid()
      modifies this
      ensures Valid()
      ensures (r, dict, nextID) == NewAsWritten(old(dict), old(nextID), user, group, path, perm, Some(impl))
    {
      r := NewAt(path, perm, Some(impl));
    }

    /** NewDir as written. */
    method NewDir(path: string, perm: bv32) returns (r: Outcome<(), Error>)
      requires Valid()
      modifies this
      ensures Valid()
      ensures (r, dict, nextID) == NewAsWritten(old(dict), old(nextID), user, group, path, perm, None)
    {
      r := NewAt(path, perm, None);
    }

    /** The common body of NewFile and NewDir as written. */
    method NewAt(path: string, perm: bv32, impl: Option<File>) returns (r: Outcome<(), Error>)
      requires Valid()
      modifies this
      ensures Valid()
      ensures (r, dict, nextID) == NewAsWritten(old(dict), old(nextID), user, group, path, perm, impl)
    {
      if |path| == 0 {
        return Panic;
      }
      if path[0] != '/' {
        return Fail(NoAbs);
      }
      var p := TrimRight(path);
      var idx := LastSlash(p);
      if idx - 1 < 0 {
        assert ParentAsWritten(path) == Panic;
        return Panic;
      }
      ghost var d0, n0 := dict, nextID;
      assert ParentAsWritten(path) == Ok((p[..idx - 1], p[idx + 1..]));
      var e := NewEntry(p[idx + 1..], user, group, perm, impl);
      r := Insert(p[..idx - 1], e);
      assert (r, dict) == InsertAsWritten(d0, n0 + 1, p[..idx - 1], MakeEntry(p[idx + 1..], user, group, perm, impl, n0));
    }

    /** NewFile and NewDir as evidently intended (impl None makes a
      directory): the parent is the path before the last slash, resolved
      with Lookup. On success the new entry is what the path now names. */
    method Create(path: string, perm: bv32, impl: Option<File>) returns (r: Outcome<(), Error>)
      requires Valid()
      modifies this
      ensures Valid()
      ensures !ParentOf(path).Ok? ==>
        (r == (if ParentOf(path) == Panic then Panic else Fail(ParentOf(path).err))
         && dict == old(dict) && nextID == old(nextID))
      ensures ParentOf(path).Ok? ==>
        (nextID == old(nextID) + 1
         && (r.Ok? <==> GetIntended(old(dict), ParentOf(path).value.0).Ok?
                        && IsDir(old(dict)[GetIntended(old(dict), ParentOf(path).value.0).value])))
      ensures !r.Ok? ==> dict == old(dict)
      ensures r.Ok? ==>
        (GetIntended(dict, path) == Ok(old(nextID))
         && dict[old(nextID)] == MakeEntry(ParentOf(path).value.1, user, group, perm, impl, old(nextID)))
      ensures r.Ok? ==>
        dict == Linked(old(dict), GetIntended(old(dict), ParentOf(path).value.0).value,
                       MakeEntry(ParentOf(path).value.1, user, group, perm, impl, old(nextID)))
    {
      var split := ParentOf(path);
      match split {
        case Panic => return Panic;
        case Fail(err) => return Fail(err);
        case Ok((parentPath, name)) =>
          var e := NewEntry(name, user, group, perm, impl);
          var parent := Lookup(parentPath);
          if !parent.Ok? {
            return if parent == Panic then Panic else Fail(parent.err);
          }
          if !IsDir(dict[parent.value]) {
            return Fail(NoDir);
          }
          ghost var d0 := dict;
          Link(parent.value, e);
          CreatedIsFound(d0, nextID, path, parent.value, e);
          return Ok(());
      }
    }

    /** Stat: the directory record of the entry with the given Qid path, or
      errNoFile for a path the table does not hold. */
    function Stat(q: Qid): (r: Outcome<Dir, Error>)
      reads this
      requires Valid()
      ensures r.Ok? <==> q.path in dict
      ensures r.Ok? ==> r.value == dict[q.path].ref && r.value.qid.path == q.path
      ensures !r.Ok? ==> r == Fail(NoFile)
    {
      if q.path in dict then Ok(dict[q.path].ref) else Fail(NoFile)
    }

    /** Read: errNoFile for an unknown Qid path; a directory answers with the
      records of all its children (in no fixed order); a file answers with
      its provider's data or error. */
    method Read(q: Qid) returns (r: ReadReply)
      requires Valid()
      ensures q.path !in dict ==> r == NsFailed(NoFile)
      ensures q.path in dict && dict[q.path].FileEntry? ==>
        match Files.Read(dict[q.path].file)
        case Data(b) => r == Content(b)
        case ReadFailed(e) => r == FileFailed(e)
      ensures q.path in dict && dict[q.path].DirEntry? ==>
        r.Listing? && ListsChildren(dict, dict[q.path].children, r.kids)
    {
      if q.path !in dict {
        return NsFailed(NoFile);
      }
      var e := dict[q.path];
      if e.DirEntry? {
        assert ChildrenOk(dict, q.path);
        var ch := e.children;
        var todo := ch.Keys;
        var kids: seq<Dir> := [];
        while todo != {}
          invariant todo <= ch.Keys
          invariant |kids| + |todo| == |ch.Keys|
          invariant forall i :: 0 <= i < |kids| ==>
            kids[i].name in ch && kids[i].name !in todo && ch[kids[i].name] in dict && kids[i] == dict[ch[kids[i].name]].ref
          invariant forall n :: n in ch && n !in todo ==> exists i :: 0 <= i < |kids| && kids[i].name == n
          decreases todo
        {
          var n :| n in todo;
          assert dict[ch[n]].ref.name == n;
          ghost var before := kids;
          kids := kids + [dict[ch[n]].ref];
          assert forall i :: 0 <= i < |before| ==> kids[i] == before[i];
          assert kids[|kids| - 1].name == n;
          todo := todo - {n};
        }
        assert |ch.Keys| == |ch|;
        return Listing(kids);
      }
      var data := Files.Read(e.file);
      match data {
        case Data(b) => r := Content(b);
        case ReadFailed(err) => r := FileFailed(err);
      }
    }
  }

  /** After linking `e` under the parent of `path` (resolved with the
      corrected lookup), the path names `e`. */
  lemma CreatedIsFound(dict: Table, nextID: nat, path: string, parent: nat, e: Entry)
    requires WellFormed(dict, nextID) && ParentOf(path).Ok?
    requires GetIntended(dict, ParentOf(path).value.0) == Ok(parent) && IsDir(dict[parent])
    requires FreshEntry(dict, nextID, e) && e.ref.name == ParentOf(path).value.1
    ensures Closed(Linked(dict, parent, e)) && 0 in Linked(dict, parent, e)
    ensures GetIntended(Linked(dict, parent, e), path) == Ok(e.ref.qid.path)
  {
    var (pp, name) := ParentOf(path).value;
    ParentOfSplitsLabels(path);
    var d := Linked(dict, parent, e);
    LinkedWellFormed(dict, nextID, parent, e);
    LookupByLabels(dict, pp, "", "");
    LinkedKeepsResolve(dict, nextID, parent, e, 0, Labels(pp));
    ResolveAppend(d, 0, Labels(pp), name);
    LookupByLabels(d, path, "", "");
  }

  /** Resolving one more label continues from where the prefix ended. */
  lemma {:induction false} ResolveAppend(dict: Table, cur: nat, labels: seq<string>, name: string)
    requires cur in dict && Closed(dict) && ResolveIntended(dict, cur, labels).Ok? && name != ""
    ensures ResolveIntended(dict, cur, labels + [name]) == ResolveIntended(dict, ResolveIntended(dict, cur, labels).value, [name])
    decreases |labels|
  {
    if labels == [] {
      assert labels + [name] == [name];
    } else {
      assert (labels + [name])[0] == labels[0] && (labels + [name])[1..] == labels[1..] + [name];
      if labels[0] == "" {
        ResolveAppend(dict, cur, labels[1..], name);
      } else {
        ResolveAppend(dict, dict[cur].children[labels[0]], labels[1..], name);
      }
    }
  }
}

/** The namespace built by the repository's test (namespace_test.go): a text
    file /readme, a directory /sensors and a computed file /sensors/temp. */
module NamespaceTest {
  import opened Base
  import opened Files
  import opened Namespaces

  /** The bytes of "Just a test...\n". */
  const README_TEXT: seq<Byte> := [74, 117, 115, 116, 32, 97, 32, 116, 101, 115, 116, 46, 46, 46, 10]

  /** Permission 0444. */
  const READ_ONLY: bv32 := 0x124

  /** The table a fresh namespace holds. */
  function RootTable(user: string, group: string): (d: Table)
    ensures WellFormed(d, 1)
  {
    map[0 := MakeEntry("/", user, group, ROOT_PERM, None, 0)]
  }

  /** As written, the test's first call already panics: "/readme" is a
      top-level name. */
  lemma TestNamespacePanics()
    ensures NewAsWritten(RootTable("sys", "sys"), 1, "sys", "sys", "/readme", READ_ONLY,
                         Some(NewTextFile(README_TEXT))).0 == Panic
  {
    ParentAsWrittenDefects();
  }
}
