/** The file tools of src/macro_man/tools/file_ops.py over an in-memory file
    system. A path is the list of its components from the root; the file system
    maps every existing path to a file with its text or to a directory. */
module FileOps {
  import opened Errors
  import opened Text
  import opened Json
  import opened NameOrder

  type Path = seq<string>

  datatype Node = File(content: string) | Dir

  type Tree = map<Path, Node>

  /** What a file opened for reading in text mode yields for the text `s` it
      holds: universal newlines turn "\r\n" and a lone "\r" into "\n". */
  function Newlines(s: string): (r: string)
    ensures '\r' !in r
    ensures '\r' !in s ==> r == s
    ensures |r| <= |s|
    decreases |s|
  {
    if s == [] then []
    else if s[0] == '\r' then "\n" + Newlines(if |s| > 1 && s[1] == '\n' then s[2..] else s[1..])
    else [s[0]] + Newlines(s[1..])
  }

  /** Text without a carriage return is read as written, whatever follows it. */
  lemma {:induction false} NewlinesPlainPrefix(a: string, b: string)
    requires '\r' !in a
    ensures Newlines(a + b) == a + Newlines(b)
    decreases |a|
  {
    if a == [] {
      assert a + b == b;
    } else {
      calc {
        Newlines(a + b);
      == { assert (a + b)[0] == a[0] != '\r' && (a + b)[1..] == a[1..] + b; }
        [a[0]] + Newlines(a[1..] + b);
      == { NewlinesPlainPrefix(a[1..], b); }
        [a[0]] + (a[1..] + Newlines(b));
      == { assert a == [a[0]] + a[1..]; }
        a + Newlines(b);
      }
    }
  }

  /** Both kinds of line break, "\r\n" and a lone "\r", are read as "\n",
      and the text before them as written. */
  lemma {:induction false} NewlinesAtBreak(a: string, b: string)
    requires '\r' !in a
    ensures Newlines(a + "\r\n" + b) == a + "\n" + Newlines(b)
    ensures (b == [] || b[0] != '\n') ==> Newlines(a + "\r" + b) == a + "\n" + Newlines(b)
  {
    var crlf := "\r\n" + b;
    assert crlf[0] == '\r' && |crlf| > 1 && crlf[1] == '\n' && crlf[2..] == b;
    assert a + "\r\n" + b == a + crlf;
    NewlinesPlainPrefix(a, crlf);
    var cr := "\r" + b;
    assert cr[0] == '\r' && cr[1..] == b;
    assert a + "\r" + b == a + cr;
    NewlinesPlainPrefix(a, cr);
  }

  /** `path.parent`; the root is its own parent. */
  function Parent(p: Path): (q: Path)
    ensures |q| == if p == [] then 0 else |p| - 1
  {
    if p == [] then [] else p[..|p| - 1]
  }

  function Joined(p: Path): string {
    if p == [] then "" else "/" + p[0] + Joined(p[1..])
  }

  /** `str(path)` of an absolute path. */
  function Render(p: Path): string {
    if p == [] then "/" else Joined(p)
  }

  /** The root is a directory and every other path lies in a directory. */
  predicate WellFormed(t: Tree) {
    && [] in t && t[[]] == Dir
    && forall q | q in t && q != [] :: Parent(q) in t && t[Parent(q)] == Dir
  }

  /** Some proper prefix of `p` is a file, so `p` cannot be created. */
  predicate HasFileAncestor(t: Tree, p: Path) {
    exists i | 0 <= i < |p| :: p[..i] in t && t[p[..i]].File?
  }

  // ---------------------------------------------------------------------------
  // write_file, as a function of the tree

  /** The error `write_file` raises, if any: the overwrite guard; then the
      OSError `path.parent.mkdir(parents=True, exist_ok=True)` lets through when
      a file stands where a directory is needed (EEXIST when the parent itself is
      that file, ENOTDIR when it lies further up); then the IsADirectoryError
      `open(path, "w")` raises on a directory. */
  function WriteError(t: Tree, p: Path, overwrite: bool): (e: Option<Error>)
    ensures e.Some? && e.value.Validation? <==> p in t && !overwrite
    ensures p in t && !overwrite ==> FieldOf(e.value) == Some("file_path")
  {
    if p in t && !overwrite then
      Some(NewValidationError("File already exists: " + Render(p) + ". Use overwrite=True to replace it.", Some("file_path")))
    else if HasFileAncestor(t, p) then
      if Parent(p) in t then Some(Os(17, "File exists", Render(Parent(p))))
      else Some(Os(20, "Not a directory", Render(Parent(p))))
    else if p in t && t[p].Dir? then Some(Os(21, "Is a directory", Render(p)))
    else None
  }

  /** The tree after the first `i` components of `dir` have been made
      directories where missing (`mkdir(parents=True, exist_ok=True)`). */
  function MkDirs(t: Tree, dir: Path, i: nat): Tree
    requires i <= |dir|
    decreases i
  {
    if i == 0 then t
    else
      var made := MkDirs(t, dir, i - 1);
      if dir[..i] in made then made else made[dir[..i] := Dir]
  }

  /** The tree after a successful `write_file(p, content)`. */
  function Written(t: Tree, p: Path, content: string): Tree {
    MkDirs(t, Parent(p), |Parent(p)|)[p := File(content)]
  }

  /** The dict `write_file` returns. */
  datatype WriteReport = WriteReport(success: bool, filePath: string, size: nat, overwritten: bool)

  // ---------------------------------------------------------------------------
  // list_directory entries

  /** One dict of the listing; the modification time is not modelled. */
  datatype Entry = Entry(name: string, path: string, isFile: bool, isDirectory: bool, size: Option<nat>)

  /** The number of bytes of `s` in UTF-8, which is what `st_size` reports for a
      file written with `encoding="utf-8"`. */
  function Utf8Length(s: string): (n: nat)
    ensures |s| <= n <= 4 * |s|
  {
    if s == [] then 0
    else
      var c := s[0] as int;
      (if c < 0x80 then 1 else if c < 0x800 then 2 else if c < 0x10000 then 3 else 4) + Utf8Length(s[1..])
  }

  /** The entry of the child `name` of `dir`: a size for files only. */
  function EntryOf(dir: Path, name: string, node: Node): Entry {
    Entry(name, Render(dir + [name]), node.File?, node.Dir?,
          if node.File? then Some(Utf8Length(node.content)) else None)
  }

  /** `item.name.startswith(".")` hides an entry unless hidden entries are asked for. */
  predicate Shown(name: string, includeHidden: bool) {
    includeHidden || !StartsWith(name, ".")
  }

  /** The names of the children of `dir`. */
  function ChildNames(t: Tree, dir: Path): set<string> {
    set q | q in t && |q| == |dir| + 1 && q[..|dir|] == dir :: q[|dir|]
  }

  /** The listing of `dir`: exactly the shown children, each with its entry,
      in strictly ascending order of name. */
  predicate IsListing(t: Tree, dir: Path, includeHidden: bool, items: seq<Entry>) {
    && (forall i | 0 <= i < |items| ::
          && dir + [items[i].name] in t
          && Shown(items[i].name, includeHidden)
          && items[i] == EntryOf(dir, items[i].name, t[dir + [items[i].name]]))
    && (forall name | name in ChildNames(t, dir) && Shown(name, includeHidden) :: HasName(items, name))
    && (forall i, j | 0 <= i < j < |items| :: NameLess(items[i].name, items[j].name))
  }

  /** The entries gathered for a listing before sorting: the shown children,
      each once, with their entries. */
  predicate Gathered(t: Tree, dir: Path, includeHidden: bool, items: seq<Entry>) {
    && (forall i | 0 <= i < |items| ::
          && dir + [items[i].name] in t
          && Shown(items[i].name, includeHidden)
          && items[i] == EntryOf(dir, items[i].name, t[dir + [items[i].name]]))
    && (forall name | name in ChildNames(t, dir) && Shown(name, includeHidden) :: HasName(items, name))
    && DistinctNames(items)
  }

  /** Sorting what was gathered gives the listing. */
  lemma {:induction false} SortedGatheringIsListing(t: Tree, dir: Path, includeHidden: bool, items: seq<Entry>, sorted: seq<Entry>)
    requires Gathered(t, dir, includeHidden, items)
    requires multiset(sorted) == multiset(items)
    requires StrictlySortedByName(sorted)
    ensures IsListing(t, dir, includeHidden, sorted)
  {
    forall j | 0 <= j < |sorted|
      ensures dir + [sorted[j].name] in t && Shown(sorted[j].name, includeHidden)
      ensures sorted[j] == EntryOf(dir, sorted[j].name, t[dir + [sorted[j].name]])
    {
      assert sorted[j] in multiset(items);
    }
    forall name | name in ChildNames(t, dir) && Shown(name, includeHidden)
      ensures HasName(sorted, name)
    {
      assert HasName(items, name);
      var i :| 0 <= i < |items| && items[i].name == name;
      assert items[i] in multiset(sorted);
    }
  }

  predicate SortedByName(s: seq<Entry>) {
    forall i, j | 0 <= i < j < |s| :: NameLe(s[i].name, s[j].name)
  }

  predicate StrictlySortedByName(s: seq<Entry>) {
    forall i, j | 0 <= i < j < |s| :: NameLess(s[i].name, s[j].name)
  }

  predicate DistinctNames(s: seq<Entry>) {
    forall i, j | 0 <= i < j < |s| :: s[i].name != s[j].name
  }

  /** `e` placed at index `k` of `s`. */
  function Spliced(s: seq<Entry>, k: nat, e: Entry): (r: seq<Entry>)
    requires k <= |s|
    ensures |r| == |s| + 1
    ensures forall x | 0 <= x < |r| :: r[x] == if x < k then s[x] else if x == k then e else s[x - 1]
    ensures multiset(r) == multiset(s) + multiset{e}
  {
    assert s == s[..k] + s[k..];
    s[..k] + [e] + s[k..]
  }

  /** Placing `e` after the names not greater and before the greater ones keeps
      the list sorted, strictly if it was and no name equals `e`'s. */
  lemma {:induction false} SplicedSorted(s: seq<Entry>, k: nat, e: Entry)
    requires k <= |s| && SortedByName(s)
    requires forall j | 0 <= j < k :: NameLe(s[j].name, e.name)
    requires k < |s| ==> NameLess(e.name, s[k].name)
    ensures SortedByName(Spliced(s, k, e))
    ensures StrictlySortedByName(s) && (forall m | 0 <= m < |s| :: s[m].name != e.name) ==>
      StrictlySortedByName(Spliced(s, k, e))
  {
    var r := Spliced(s, k, e);
    forall a, b | 0 <= a < b < |r| && a == k ensures NameLe(r[a].name, r[b].name) {
      NameLeTotalOrder(e.name, s[k].name, s[b - 1].name);
    }
    if StrictlySortedByName(s) && (forall m | 0 <= m < |s| :: s[m].name != e.name) {
      forall a, b | 0 <= a < b < |r| && a == k ensures NameLess(r[a].name, r[b].name) {
        if b - 1 > k {
          NameLessTransitive(e.name, s[k].name, s[b - 1].name);
        }
      }
    }
  }

  /** Inserting into a list sorted by name, after the entries whose name is not
      greater (the position a stable sort gives it). */
  method InsertByName(sorted: seq<Entry>, e: Entry) returns (r: seq<Entry>)
    requires SortedByName(sorted)
    ensures multiset(r) == multiset(sorted) + multiset{e}
    ensures SortedByName(r)
    ensures StrictlySortedByName(sorted) && (forall k | 0 <= k < |sorted| :: sorted[k].name != e.name) ==>
      StrictlySortedByName(r)
  {
    var k := 0;
    while k < |sorted| && NameLe(sorted[k].name, e.name)
      invariant 0 <= k <= |sorted|
      invariant forall j | 0 <= j < k :: NameLe(sorted[j].name, e.name)
    {
      k := k + 1;
    }
    if k < |sorted| {
      NameLeTotalOrder(sorted[k].name, e.name, e.name);
    }
    SplicedSorted(sorted, k, e);
    r := Spliced(sorted, k, e);
  }

  /** `items.sort(key=lambda x: str(x["name"]))`: a permutation sorted by name,
      strictly when no two entries share a name. */
  method SortByName(items: seq<Entry>) returns (sorted: seq<Entry>)
    ensures multiset(sorted) == multiset(items)
    ensures SortedByName(sorted)
    ensures DistinctNames(items) ==> StrictlySortedByName(sorted)
  {
    sorted := [];
    var i := 0;
    while i < |items|
      invariant 0 <= i <= |items|
      invariant multiset(sorted) == multiset(items[..i])
      invariant SortedByName(sorted)
      invariant DistinctNames(items) ==> StrictlySortedByName(sorted)
    {
      if DistinctNames(items) {
        forall k | 0 <= k < |sorted| ensures sorted[k].name != items[i].name {
          assert sorted[k] in multiset(items[..i]);
          var m :| 0 <= m < i && items[m] == sorted[k];
        }
      }
      sorted := InsertByName(sorted, items[i]);
      assert items[..i + 1] == items[..i] + [items[i]];
      i := i + 1;
    }
    assert items[..|items|] == items;
  }

  // ---------------------------------------------------------------------------
  // The file system

  class FileSystem {
    var nodes: Tree

    predicate Valid()
      reads this
    {
      WellFormed(nodes)
    }

    /** An empty file system: the root directory alone. */
    constructor ()
      ensures Valid() && nodes == map[[] := Dir]
    {
      nodes := map[[] := Dir];
    }

    /** `read_file(p)`: the whole text of an existing file, with its line
        breaks read as "\n". */
    method ReadFile(p: Path) returns (r: Result<string>)
      ensures p !in nodes ==> r == Err(Validation("File does not exist: " + Render(p), Some("file_path")))
      ensures p in nodes && nodes[p].Dir? ==> r == Err(Validation("Path is not a file: " + Render(p), Some("file_path")))
      ensures p in nodes && nodes[p].File? ==> r == Ok(Newlines(nodes[p].content))
    {
      if p !in nodes {
        return Err(NewValidationError("File does not exist: " + Render(p), Some("file_path")));
      }
      if !nodes[p].File? {
        return Err(NewValidationError("Path is not a file: " + Render(p), Some("file_path")));
      }
      return Ok(Newlines(nodes[p].content));
    }

    /** `write_file(p, content, overwrite)`: on any error nothing changes; otherwise
        the missing parent directories are created and `p` holds `content`. The
        report's `overwritten` is `path.exists() and overwrite` evaluated after
        the write, so it is `overwrite` itself. */
    method WriteFile(p: Path, content: string, overwrite: bool) returns (r: Result<WriteReport>)
      requires Valid()
      modifies this
      ensures Valid()
      ensures r.Err? <==> WriteError(old(nodes), p, overwrite).Some?
      ensures r.Err? ==> r.error == WriteError(old(nodes), p, overwrite).value && nodes == old(nodes)
      ensures r.Ok? ==>
        && nodes == Written(old(nodes), p, content)
        && r.value == WriteReport(true, Render(p), |content|, overwrite)
    {
      if p in nodes && !overwrite {
        return Err(NewValidationError("File already exists: " + Render(p) + ". Use overwrite=True to replace it.", Some("file_path")));
      }
      var parent := Parent(p);
      if HasFileAncestor(nodes, p) {
        if parent in nodes {
          return Err(Os(17, "File exists", Render(parent)));
        }
        return Err(Os(20, "Not a directory", Render(parent)));
      }
      // An existing path has all its parents, so the mkdir below would create
      // nothing before `open` fails on the directory.
      if p in nodes && nodes[p].Dir? {
        return Err(Os(21, "Is a directory", Render(p)));
      }
      MakeDirs(parent);
      nodes := nodes[p := File(content)];
      WrittenFacts(old(nodes), p, content);
      return Ok(WriteReport(true, Render(p), |content|, overwrite));
    }

    /** `dir.mkdir(parents=True, exist_ok=True)`, assuming no file stands in the
        way: each missing prefix of `dir` becomes a directory, from the root down. */
    method MakeDirs(dir: Path)
      modifies this
      ensures nodes == MkDirs(old(nodes), dir, |dir|)
    {
      var i := 0;
      while i < |dir|
        invariant 0 <= i <= |dir|
        invariant nodes == MkDirs(old(nodes), dir, i)
      {
        i := i + 1;
        if dir[..i] !in nodes {
          nodes := nodes[dir[..i] := Dir];
        }
      }
    }

    /** `list_directory(dir, include_hidden)`: the shown children of a directory,
        gathered in any order and then sorted by name. */
    method ListDirectory(dir: Path, includeHidden: bool) returns (r: Result<seq<Entry>>)
      ensures dir !in nodes ==>
        r == Err(Validation("Directory does not exist: " + Render(dir), Some("directory_path")))
      ensures dir in nodes && nodes[dir].File? ==>
        r == Err(Validation("Path is not a directory: " + Render(dir), Some("directory_path")))
      ensures dir in nodes && nodes[dir].Dir? ==> r.Ok? && IsListing(nodes, dir, includeHidden, r.value)
    {
      if dir !in nodes {
        return Err(NewValidationError("Directory does not exist: " + Render(dir), Some("directory_path")));
      }
      if !nodes[dir].Dir? {
        return Err(NewValidationError("Path is not a directory: " + Render(dir), Some("directory_path")));
      }
      var items := GatherEntries(dir, includeHidden);
      var sorted := SortByName(items);
      SortedGatheringIsListing(nodes, dir, includeHidden, items, sorted);
      return Ok(sorted);
    }

    /** The loop over `path.iterdir()`: one entry per shown child, in the order
        the children are picked. */
    method GatherEntries(dir: Path, includeHidden: bool) returns (items: seq<Entry>)
      ensures Gathered(nodes, dir, includeHidden, items)
    {
      var names := ChildNames(nodes, dir);
      ChildNamesExact(nodes, dir);
      var pending := names;
      items := [];
      while pending != {}
        invariant pending <= names
        invariant forall i | 0 <= i < |items| ::
          && items[i].name in names && items[i].name !in pending
          && Shown(items[i].name, includeHidden)
          && items[i] == EntryOf(dir, items[i].name, nodes[dir + [items[i].name]])
        invariant forall name | name in names && name !in pending && Shown(name, includeHidden) ::
          HasName(items, name)
        invariant DistinctNames(items)
        decreases |pending|
      {
        var name :| name in pending;
        pending := pending - {name};
        if !includeHidden && StartsWith(name, ".") {
          continue;
        }
        ghost var before := items;
        items := items + [EntryOf(dir, name, nodes[dir + [name]])];
        forall seen | seen in names && seen !in pending && Shown(seen, includeHidden)
          ensures HasName(items, seen)
        {
          if seen == name {
            assert items[|before|].name == seen;
          } else {
            assert HasName(before, seen);
            var i :| 0 <= i < |before| && before[i].name == seen;
            assert items[i].name == seen;
          }
        }
      }
    }

    /** `read_json_file(p)` with the decoder `decode` standing for `json.loads`:
        a decoding failure is a ValidationError, while every failure of
        `read_file`, its ValidationErrors included, becomes a generic error. */
    method ReadJsonFile(p: Path, decode: string -> Parse) returns (r: Result<Json>)
      ensures p in nodes && nodes[p].File? && decode(Newlines(nodes[p].content)).Parsed? ==>
        r == Ok(decode(Newlines(nodes[p].content)).value)
      ensures p in nodes && nodes[p].File? && decode(Newlines(nodes[p].content)).Unparsable? ==>
        r == Err(Validation("Invalid JSON in file: " + decode(Newlines(nodes[p].content)).reason, Some("file_path")))
      ensures !(p in nodes && nodes[p].File?) ==>
        && r.Err? && Code(r.error) == Some(GenericCode)
        && r.error.message == "Failed to read JSON file: "
           + (if p in nodes then "Path is not a file: " else "File does not exist: ") + Render(p)
    {
      var content := ReadFile(p);
      if content.Err? {
        return Err(Generic("Failed to read JSON file: " + Str(content.error)));
      }
      match decode(content.value)
      case Unparsable(reason) =>
        return Err(NewValidationError("Invalid JSON in file: " + reason, Some("file_path")));
      case Parsed(data) =>
        return Ok(data);
    }

    /** `write_json_file(p, data, indent, overwrite)` with the encoder `encode`
        standing for `json.dumps`: the encoded text is written with `write_file`,
        whose errors pass through unchanged. */
    method WriteJsonFile(p: Path, data: Json, indent: int, overwrite: bool, encode: (Json, int) -> string)
      returns (r: Result<WriteReport>)
      requires Valid()
      modifies this
      ensures Valid()
      ensures r.Err? <==> WriteError(old(nodes), p, overwrite).Some?
      ensures r.Err? ==> r.error == WriteError(old(nodes), p, overwrite).value && nodes == old(nodes)
      ensures r.Ok? ==>
        && nodes == Written(old(nodes), p, encode(data, indent))
        && r.value == WriteReport(true, Render(p), |encode(data, indent)|, overwrite)
    {
      r := WriteFile(p, encode(data, indent), overwrite);
    }
  }

  /** What is written is read back: after a successful `write_file`,
      `read_file` returns the content with its line breaks read as "\n" (so
      exactly the content when it holds no carriage return), and every other
      existing path keeps its node. */
  method WriteThenReadFile(fs: FileSystem, p: Path, content: string, overwrite: bool)
    returns (written: Result<WriteReport>, read: Result<string>)
    requires fs.Valid()
    modifies fs
    ensures fs.Valid()
    ensures written.Ok? ==> read == Ok(Newlines(content))
    ensures written.Ok? && '\r' !in content ==> read == Ok(content)
    ensures written.Ok? ==> forall q | q in old(fs.nodes) && q != p :: q in fs.nodes && fs.nodes[q] == old(fs.nodes)[q]
  {
    written := fs.WriteFile(p, content, overwrite);
    if written.Ok? {
      WrittenFacts(old(fs.nodes), p, content);
    }
    read := fs.ReadFile(p);
  }

  /** A JSON value written with an encoder that the decoder inverts is read
      back by `read_json_file`; like `json.dumps`, which escapes every control
      character, the encoder writes no carriage return. */
  method WriteThenRead(fs: FileSystem, p: Path, data: Json, indent: int, overwrite: bool,
                       encode: (Json, int) -> string, decode: string -> Parse)
    returns (written: Result<WriteReport>, read: Result<Json>)
    requires fs.Valid()
    requires '\r' !in encode(data, indent) && decode(encode(data, indent)) == Parsed(data)
    modifies fs
    ensures fs.Valid()
    ensures written.Ok? ==> read == Ok(data)
    ensures written.Err? && written.error.Validation? ==> fs.nodes == old(fs.nodes)
  {
    written := fs.WriteJsonFile(p, data, indent, overwrite, encode);
    read := fs.ReadJsonFile(p, decode);
  }

  // ---------------------------------------------------------------------------
  // Properties of the tree operations

  /** `n` is a child name of `dir` exactly when `dir + [n]` exists. */
  lemma {:induction false} ChildNamesExact(t: Tree, dir: Path)
    ensures forall n :: n in ChildNames(t, dir) <==> dir + [n] in t
  {
    forall n ensures n in ChildNames(t, dir) <==> dir + [n] in t {
      if dir + [n] in t {
        var q := dir + [n];
        assert q[..|dir|] == dir && q[|dir|] == n;
      }
      if n in ChildNames(t, dir) {
        var q :| q in t && |q| == |dir| + 1 && q[..|dir|] == dir && q[|dir|] == n;
        assert q == dir + [n];
      }
    }
  }

  /** Making the directories along `dir` keeps every existing entry, and adds
      exactly the missing prefixes of `dir`, as directories. */
  lemma {:induction false} MkDirsFacts(t: Tree, dir: Path, i: nat)
    requires i <= |dir|
    ensures forall q | q in t :: q in MkDirs(t, dir, i) && MkDirs(t, dir, i)[q] == t[q]
    ensures forall q | q in MkDirs(t, dir, i) && q !in t ::
      1 <= |q| <= i && q == dir[..|q|] && MkDirs(t, dir, i)[q] == Dir
    ensures forall j | 1 <= j <= i :: dir[..j] in MkDirs(t, dir, i)
    decreases i
  {
    if i > 0 {
      MkDirsFacts(t, dir, i - 1);
    }
  }

  /** A successful write leaves a well-formed tree in which `p` holds the
      content, every other existing entry is unchanged, and the only new entries
      are directories on the way to `p`. */
  lemma {:induction false} WrittenFacts(t: Tree, p: Path, content: string)
    requires WellFormed(t)
    requires !HasFileAncestor(t, p) && !(p in t && t[p].Dir?)
    ensures var w := Written(t, p, content);
      && p in w && w[p] == File(content)
      && (forall q | q in t && q != p :: q in w && w[q] == t[q])
      && (forall q | q in w && q !in t && q != p :: |q| < |p| && q == p[..|q|] && w[q] == Dir)
      && WellFormed(w)
  {
    var dir := Parent(p);
    var w := Written(t, p, content);
    MkDirsFacts(t, dir, |dir|);
    assert p != [];
    forall q | q in w && q !in t && q != p ensures |q| < |p| && q == p[..|q|] && w[q] == Dir {
      assert q == dir[..|q|];
      assert dir[..|q|] == p[..|q|];
    }
    WrittenWellFormed(t, p, content);
  }

  lemma {:induction false} WrittenWellFormed(t: Tree, p: Path, content: string)
    requires WellFormed(t)
    requires !HasFileAncestor(t, p) && !(p in t && t[p].Dir?)
    ensures WellFormed(Written(t, p, content))
  {
    var dir := Parent(p);
    var m := MkDirs(t, dir, |dir|);
    var w := Written(t, p, content);
    MkDirsFacts(t, dir, |dir|);
    assert p != [];
    forall q | q in w && q != [] ensures Parent(q) in w && w[Parent(q)] == Dir {
      if q == p {
        ParentOfWritten(t, p, m);
      } else if q in t {
        assert Parent(q) in t && t[Parent(q)] == Dir;
        assert Parent(q) != p;
      } else {
        NewDirParent(t, p, m, q);
      }
    }
  }

  /** The directory that receives the written file is a directory afterwards. */
  lemma {:induction false} ParentOfWritten(t: Tree, p: Path, m: Tree)
    requires p != [] && !HasFileAncestor(t, p)
    requires forall q | q in t :: q in m && m[q] == t[q]
    requires forall q | q in m && q !in t :: m[q] == Dir
    requires forall j | 1 <= j <= |Parent(p)| :: Parent(p)[..j] in m
    requires [] in t && t[[]] == Dir
    ensures Parent(p) in m && m[Parent(p)] == Dir
  {
    var dir := Parent(p);
    if dir != [] {
      assert dir[..|dir|] == dir;
    }
    assert dir == p[..|p| - 1];
  }

  /** A directory made on the way to `p` lies in a directory. */
  lemma {:induction false} NewDirParent(t: Tree, p: Path, m: Tree, q: Path)
    requires p != [] && !HasFileAncestor(t, p)
    requires forall r | r in t :: r in m && m[r] == t[r]
    requires forall r | r in m && r !in t :: 1 <= |r| <= |Parent(p)| && r == Parent(p)[..|r|] && m[r] == Dir
    requires forall j | 1 <= j <= |Parent(p)| :: Parent(p)[..j] in m
    requires [] in t && t[[]] == Dir
    requires q in m && q !in t
    ensures Parent(q) in m && m[Parent(q)] == Dir && Parent(q) != p
  {
    var dir := Parent(p);
    var k := |q| - 1;
    assert Parent(q) == dir[..k];
    assert dir[..k] == p[..k];
  }

  /** The overwrite guard: writing to an existing path without `overwrite`
      fails on "file_path" and, by WriteFile's contract, changes nothing. With a
      well-formed tree a write fails with an OS error only when a file stands on
      the way to `p` or `p` is a directory. */
  lemma {:induction false} WriteErrorCases(t: Tree, p: Path, overwrite: bool)
    requires WellFormed(t)
    ensures p in t && !overwrite ==>
      WriteError(t, p, overwrite) == Some(Validation("File already exists: " + Render(p) + ". Use overwrite=True to replace it.", Some("file_path")))
    ensures p in t && overwrite && t[p].File? ==> WriteError(t, p, overwrite).None?
    ensures p !in t && Parent(p) in t && t[Parent(p)].Dir? ==> WriteError(t, p, overwrite).None?
  {
    if p in t && p != [] {
      forall i | 0 <= i < |p| ensures p[..i] in t && t[p[..i]] == Dir {
        AncestorsAreDirs(t, p, i);
      }
    }
    if p !in t && Parent(p) in t && t[Parent(p)].Dir? && p != [] {
      forall i | 0 <= i < |p| ensures p[..i] in t && t[p[..i]] == Dir {
        if i < |p| - 1 {
          AncestorsAreDirs(t, Parent(p), i);
          assert Parent(p)[..i] == p[..i];
        }
      }
    }
  }

  /** In a well-formed tree every proper prefix of an existing path is a directory. */
  lemma {:induction false} AncestorsAreDirs(t: Tree, p: Path, i: nat)
    requires WellFormed(t) && p in t && i < |p|
    ensures p[..i] in t && t[p[..i]] == Dir
    decreases |p|
  {
    var up := Parent(p);
    if i < |up| {
      AncestorsAreDirs(t, up, i);
      assert up[..i] == p[..i];
    } else {
      assert p[..i] == up;
    }
  }

  /** Two listings of the same directory are the same list: the order in which
      `iterdir` yields the children does not show in the result. */
  lemma {:induction false} ListingIsUnique(t: Tree, dir: Path, includeHidden: bool, a: seq<Entry>, b: seq<Entry>)
    requires IsListing(t, dir, includeHidden, a) && IsListing(t, dir, includeHidden, b)
    ensures a == b
  {
    forall i | 0 <= i < |a| ensures HasName(b, a[i].name) {
      ListedNameIsListed(t, dir, includeHidden, a, b, i);
    }
    forall j | 0 <= j < |b| ensures HasName(a, b[j].name) {
      ListedNameIsListed(t, dir, includeHidden, b, a, j);
    }
    SameNamesSameOrder(a, b);
  }

  lemma {:induction false} ListedNameIsListed(t: Tree, dir: Path, includeHidden: bool, a: seq<Entry>, b: seq<Entry>, i: nat)
    requires IsListing(t, dir, includeHidden, a) && IsListing(t, dir, includeHidden, b)
    requires i < |a|
    ensures HasName(b, a[i].name)
  {
    var name := a[i].name;
    ChildNamesExact(t, dir);
    assert dir + [name] in t && Shown(name, includeHidden);
    assert name in ChildNames(t, dir);
  }

  /** Some entry of `s` is named `name`. */
  predicate HasName(s: seq<Entry>, name: string) {
    exists j | 0 <= j < |s| :: s[j].name == name
  }

  /** Every name of `a` is a name of `b`. */
  predicate NamesWithin(a: seq<Entry>, b: seq<Entry>) {
    forall i | 0 <= i < |a| :: HasName(b, a[i].name)
  }

  /** Two strictly sorted lists over the same names have them at the same places. */
  lemma {:induction false} SameNamesSameOrder(a: seq<Entry>, b: seq<Entry>)
    requires StrictlySortedByName(a) && StrictlySortedByName(b)
    requires NamesWithin(a, b) && NamesWithin(b, a)
    ensures |a| == |b| && forall i | 0 <= i < |a| :: a[i].name == b[i].name
    decreases |a|
  {
    if a != [] {
      NonEmptyWithin(a, b);
    }
    if b != [] {
      NonEmptyWithin(b, a);
    }
    if a != [] && b != [] {
      FirstNamesAgree(a, b);
      TailNamesWithin(a, b);
      TailNamesWithin(b, a);
      SameNamesSameOrder(a[1..], b[1..]);
      forall i | 0 <= i < |a| ensures a[i].name == b[i].name {
        if i > 0 {
          assert a[1..][i - 1] == a[i] && b[1..][i - 1] == b[i];
        }
      }
    }
  }

  lemma {:induction false} NonEmptyWithin(a: seq<Entry>, b: seq<Entry>)
    requires NamesWithin(a, b) && a != []
    ensures b != []
  {
    assert HasName(b, a[0].name);
  }

  /** The first names agree: each is the least of the same set. */
  lemma {:induction false} FirstNamesAgree(a: seq<Entry>, b: seq<Entry>)
    requires a != [] && b != []
    requires StrictlySortedByName(a) && StrictlySortedByName(b)
    requires NamesWithin(a, b) && NamesWithin(b, a)
    ensures a[0].name == b[0].name
  {
    var a0, b0 := a[0], b[0];
    assert HasName(b, a0.name) && HasName(a, b0.name);
    var j :| 0 <= j < |b| && b[j].name == a0.name;
    var i :| 0 <= i < |a| && a[i].name == b0.name;
    if j > 0 {
      // b[0] < b[j] = a[0] <= a[i] = b[0]
      if i > 0 {
        NameLessTransitive(b0.name, a0.name, a[i].name);
      }
      NameLessIrreflexive(b0.name);
    }
  }

  /** With equal first names, the rest of the names of `a` are among the rest of `b`'s. */
  lemma {:induction false} TailNamesWithin(a: seq<Entry>, b: seq<Entry>)
    requires a != [] && b != [] && a[0].name == b[0].name
    requires StrictlySortedByName(a) && StrictlySortedByName(b)
    requires NamesWithin(a, b)
    ensures NamesWithin(a[1..], b[1..])
  {
    forall k | 0 <= k < |a| - 1 ensures HasName(b[1..], a[1..][k].name) {
      var x := a[k + 1];
      assert HasName(b, x.name);
      var m :| 0 <= m < |b| && b[m].name == x.name;
      if m == 0 {
        NameLessIrreflexive(a[0].name);
      }
      assert b[1..][m - 1].name == a[1..][k].name;
    }
  }
}
