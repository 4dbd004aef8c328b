/** The byte tree hashed by `scripts/release_gate.py`: what is fed to the digest, and that it tells
    every two trees apart. */
module TreeIdentity {
  import opened Options
  import opened Decimals
  import opened Encoding

  const MAX_FILE_BYTES: nat := 64 * 1024 * 1024
  const SLASH: byte := 47
  const BACKSLASH: byte := 92
  const NUL: byte := 0

  /** ".git", "dist" and "node_modules". */
  const EXCLUDED_ROOTS: set<Bytes> := {
    [46, 103, 105, 116],
    [100, 105, 115, 116],
    [110, 111, 100, 101, 95, 109, 111, 100, 117, 108, 101, 115]}

  const DIRECTORY_TAG: Bytes := [100, 105, 114, 101, 99, 116, 111, 114, 121]
  const FILE_TAG: Bytes := [102, 105, 108, 101]

  datatype Node =
    | File(executable: bool, content: Bytes)
    | Directory(entries: seq<Entry>)
    | Symlink
    | Special

  datatype Entry = Entry(name: Bytes, node: Node)

  /** The entries of a directory, sorted by the bytes of their names. */
  type Listing = seq<Entry>

  datatype Problem = InvalidPath | ContainsSymlink | ContainsSpecial | FileTooLarge | NotUnicode

  predicate ValidName(name: Bytes) {
    name != [] && SLASH !in name && BACKSLASH !in name && NUL !in name
  }

  function Join(prefix: Bytes, name: Bytes): Bytes {
    if prefix == [] then name else prefix + [SLASH] + name
  }

  /** Generated roots are passed over at the top only. */
  predicate PassedOver(exclude: bool, prefix: Bytes, name: Bytes) {
    exclude && prefix == [] && name in EXCLUDED_ROOTS
  }

  /** What is fed to the digest for one directory or file. */
  datatype Record = DirectoryRecord(path: Bytes) | FileRecord(path: Bytes, executable: bool, content: Bytes)

  function DirectoryHeader(path: Bytes): Bytes {
    DIRECTORY_TAG + [NUL] + (path + [NUL])
  }

  function Flag(executable: bool): Bytes {
    [if executable then 49 else 48]
  }

  function FileHeader(path: Bytes, executable: bool, size: nat): Bytes {
    FILE_TAG + [NUL] + (path + [NUL] + (Flag(executable) + [NUL] + (Numeral(size) + [NUL])))
  }

  function RecordBytes(r: Record): Bytes {
    match r
    case DirectoryRecord(path) => DirectoryHeader(path)
    case FileRecord(path, executable, content) => FileHeader(path, executable, |content|) + content
  }

  /** The whole byte stream. */
  function Stream(records: seq<Record>): Bytes {
    Encoded(records, RecordBytes)
  }

  /** The stream of a directory "a" and an executable file "a/b" that holds "hi", byte by byte: the kind,
      the path, for a file "1" if executable and its size, each ended by a zero, and then its content. */
  lemma StreamByBytes()
    ensures Stream([DirectoryRecord([97]), FileRecord([97, 47, 98], true, [104, 105])])
         == [100, 105, 114, 101, 99, 116, 111, 114, 121, 0, 97, 0,
             102, 105, 108, 101, 0, 97, 47, 98, 0, 49, 0, 50, 0, 104, 105]
  {
    var directory, file := DirectoryRecord([97]), FileRecord([97, 47, 98], true, [104, 105]);
    assert Numeral(2) == [50];
    assert RecordBytes(directory) == [100, 105, 114, 101, 99, 116, 111, 114, 121, 0, 97, 0];
    assert RecordBytes(file) == [102, 105, 108, 101, 0, 97, 47, 98, 0, 49, 0, 50, 0, 104, 105];
    assert [directory, file][1..] == [file] && [file][1..] == [];
    assert Encoded([file], RecordBytes) == RecordBytes(file);
  }

  /** The records of a listing, each directory before its entries. */
  function Records(entries: Listing, prefix: Bytes, exclude: bool): seq<Record>
    decreases entries
  {
    if |entries| == 0 then []
    else EntryRecords(entries[0], prefix, exclude) + Records(entries[1..], prefix, exclude)
  }

  function EntryRecords(e: Entry, prefix: Bytes, exclude: bool): seq<Record>
    decreases e
  {
    var path := Join(prefix, e.name);
    if PassedOver(exclude, prefix, e.name) then []
    else
      match e.node
      case File(executable, content) => [FileRecord(path, executable, content)]
      case Directory(entries) => [DirectoryRecord(path)] + Records(entries, path, exclude)
      case Symlink => []
      case Special => []
  }

  /** The first thing that stops the inspection, in the order of the visit; `unicode` says which
      names decode, for the others cannot be written into the stream. */
  function FirstProblem(entries: Listing, prefix: Bytes, exclude: bool, unicode: Bytes -> bool): Option<Problem>
    decreases entries
  {
    if |entries| == 0 then None
    else
      var first := EntryProblem(entries[0], prefix, exclude, unicode);
      if first.Some? then first else FirstProblem(entries[1..], prefix, exclude, unicode)
  }

  function EntryProblem(e: Entry, prefix: Bytes, exclude: bool, unicode: Bytes -> bool): Option<Problem>
    decreases e
  {
    if !ValidName(e.name) then Some(InvalidPath)
    else if PassedOver(exclude, prefix, e.name) then None
    else
      match e.node
      case Symlink => Some(ContainsSymlink)
      case Directory(entries) =>
        if !unicode(e.name) then Some(NotUnicode) else FirstProblem(entries, Join(prefix, e.name), exclude, unicode)
      case Special => Some(ContainsSpecial)
      case File(_, content) => FileProblem(e.name, content, unicode)
  }

  function FileProblem(name: Bytes, content: Bytes, unicode: Bytes -> bool): Option<Problem> {
    if |content| > MAX_FILE_BYTES then Some(FileTooLarge) else if !unicode(name) then Some(NotUnicode) else None
  }

  /** What the inspection takes: a name that is not empty and has no slash, backslash or zero in it; and at
      the top a generated root, when these are passed over, or else a file of at most 64 MiB or a
      directory, under a name that decodes, and of the directory all it holds. */
  ghost predicate Inspectable(e: Entry, top: bool, exclude: bool, unicode: Bytes -> bool)
    decreases e
  {
    && e.name != [] && (forall k :: 0 <= k < |e.name| ==> e.name[k] != 47 && e.name[k] != 92 && e.name[k] != 0)
    && (|| (top && exclude && e.name in EXCLUDED_ROOTS)
        || (unicode(e.name)
            && match e.node
               case Symlink => false
               case Special => false
               case File(_, content) => |content| <= 67108864
               case Directory(entries) =>
                 forall k :: 0 <= k < |entries| ==> Inspectable(entries[k], false, exclude, unicode)))
  }

  /** A listing is accepted exactly when every entry of it is. */
  lemma {:induction false} AcceptedIff(entries: Listing, prefix: Bytes, exclude: bool, unicode: Bytes -> bool)
    ensures FirstProblem(entries, prefix, exclude, unicode).None?
            <==> forall k :: 0 <= k < |entries| ==> Inspectable(entries[k], prefix == [], exclude, unicode)
    decreases entries, 0
  {
    if |entries| > 0 {
      EntryIsAccepted(entries[0], prefix, exclude, unicode);
      AcceptedIff(entries[1..], prefix, exclude, unicode);
      assert forall k :: 0 < k < |entries| ==> entries[k] == entries[1..][k - 1];
    }
  }

  lemma {:induction false} EntryIsAccepted(e: Entry, prefix: Bytes, exclude: bool, unicode: Bytes -> bool)
    ensures EntryProblem(e, prefix, exclude, unicode).None? <==> Inspectable(e, prefix == [], exclude, unicode)
    decreases e, 0
  {
    if e.node.Directory? {
      AcceptedIff(e.node.entries, Join(prefix, e.name), exclude, unicode);
    }
  }

  function FileCount(records: seq<Record>): nat {
    if |records| == 0 then 0 else (if records[0].FileRecord? then 1 else 0) + FileCount(records[1..])
  }

  function ByteCount(records: seq<Record>): nat {
    if |records| == 0 then 0 else (if records[0].FileRecord? then |records[0].content| else 0) + ByteCount(records[1..])
  }

  lemma {:induction false} CountsOneMore(records: seq<Record>, r: Record)
    ensures FileCount(records + [r]) == FileCount(records) + FileCount([r])
    ensures ByteCount(records + [r]) == ByteCount(records) + ByteCount([r])
  {
    if |records| == 0 {
      assert records + [r] == [r];
    } else {
      CountsOneMore(records[1..], r);
      assert (records + [r])[1..] == records[1..] + [r];
    }
  }

  /** The digest and the two counters, as the visit fills them, and the records they were fed. */
  class TreeDigest {
    var stream: Bytes
    var files: nat
    var byteCount: nat
    ghost var fed: seq<Record>

    ghost predicate Valid()
      reads this
    {
      stream == Stream(fed) && files == FileCount(fed) && byteCount == ByteCount(fed)
    }

    constructor ()
      ensures Valid() && fed == []
    {
      stream, files, byteCount, fed := [], 0, 0, [];
    }

    method FeedDirectory(path: Bytes)
      requires Valid()
      modifies this
      ensures Valid() && fed == old(fed) + [DirectoryRecord(path)]
    {
      EncodedOneMore(fed, DirectoryRecord(path), RecordBytes);
      CountsOneMore(fed, DirectoryRecord(path));
      assert FileCount([DirectoryRecord(path)]) == 0 && ByteCount([DirectoryRecord(path)]) == 0;
      stream := stream + DirectoryHeader(path);
      fed := fed + [DirectoryRecord(path)];
    }

    method FeedFile(path: Bytes, executable: bool, content: Bytes)
      requires Valid()
      modifies this
      ensures Valid() && fed == old(fed) + [FileRecord(path, executable, content)]
    {
      ghost var r := FileRecord(path, executable, content);
      EncodedOneMore(fed, r, RecordBytes);
      CountsOneMore(fed, r);
      assert [r][1..] == [] && FileCount([r]) == 1 && ByteCount([r]) == |content|;
      Regroup(stream, FileHeader(path, executable, |content|), content);
      stream := stream + FileHeader(path, executable, |content|);
      stream := stream + content;
      files, byteCount := files + 1, byteCount + |content|;
      fed := fed + [r];
    }

    method Visit(entries: Listing, prefix: Bytes, exclude: bool, unicode: Bytes -> bool)
      returns (problem: Option<Problem>)
      requires Valid()
      modifies this
      ensures Valid()
      ensures problem == FirstProblem(entries, prefix, exclude, unicode)
      ensures problem.None? ==> fed == old(fed) + Records(entries, prefix, exclude)
      decreases entries, 0
    {
      for i := 0 to |entries|
        invariant Valid()
        invariant FirstProblem(entries, prefix, exclude, unicode)
               == FirstProblem(entries[i..], prefix, exclude, unicode)
        invariant old(fed) + Records(entries, prefix, exclude) == fed + Records(entries[i..], prefix, exclude)
      {
        assert entries[i..][1..] == entries[i + 1..];
        problem := VisitEntry(entries[i], prefix, exclude, unicode);
        if problem.Some? {
          return;
        }
      }
      problem := None;
    }

    method VisitEntry(e: Entry, prefix: Bytes, exclude: bool, unicode: Bytes -> bool) returns (problem: Option<Problem>)
      requires Valid()
      modifies this
      ensures Valid()
      ensures problem == EntryProblem(e, prefix, exclude, unicode)
      ensures problem.None? ==> fed == old(fed) + EntryRecords(e, prefix, exclude)
      decreases e
    {
      if !ValidName(e.name) {
        return Some(InvalidPath);
      }
      if PassedOver(exclude, prefix, e.name) {
        return None;
      }
      var path := Join(prefix, e.name);
      match e.node
      case Symlink =>
        return Some(ContainsSymlink);
      case Directory(entries) =>
        problem := VisitDirectory(e.name, path, entries, exclude, unicode);
      case Special =>
        return Some(ContainsSpecial);
      case File(executable, content) =>
        problem := VisitFile(e.name, path, executable, content, unicode);
    }

    method VisitDirectory(name: Bytes, path: Bytes, entries: Listing, exclude: bool, unicode: Bytes -> bool)
      returns (problem: Option<Problem>)
      requires Valid()
      modifies this
      ensures Valid()
      ensures problem == if !unicode(name) then Some(NotUnicode) else FirstProblem(entries, path, exclude, unicode)
      ensures problem.None? ==> fed == old(fed) + ([DirectoryRecord(path)] + Records(entries, path, exclude))
      decreases entries, 1
    {
      if !unicode(name) {
        return Some(NotUnicode);
      }
      FeedDirectory(path);
      problem := Visit(entries, path, exclude, unicode);
      Regroup(old(fed), [DirectoryRecord(path)], Records(entries, path, exclude));
    }

    method VisitFile(name: Bytes, path: Bytes, executable: bool, content: Bytes, unicode: Bytes -> bool)
      returns (problem: Option<Problem>)
      requires Valid()
      modifies this
      ensures Valid()
      ensures problem == FileProblem(name, content, unicode)
      ensures problem.None? ==> fed == old(fed) + [FileRecord(path, executable, content)]
    {
      if |content| > MAX_FILE_BYTES {
        return Some(FileTooLarge);
      }
      if !unicode(name) {
        return Some(NotUnicode);
      }
      FeedFile(path, executable, content);
      return None;
    }
  }

  // ── The stream tells records apart ──────────────────────────────────────────

  /** A path of valid names holds no NUL. */
  predicate Clean(r: Record) {
    NUL !in r.path
  }

  function TagOf(r: Record): (tag: Bytes)
    ensures NUL !in tag
  {
    if r.DirectoryRecord? then DIRECTORY_TAG else FILE_TAG
  }

  function AfterTag(r: Record, x: Bytes): Bytes {
    match r
    case DirectoryRecord(path) => path + [NUL] + x
    case FileRecord(path, executable, content) => path + [NUL] + AfterPath(executable, content, x)
  }

  function AfterPath(executable: bool, content: Bytes, x: Bytes): Bytes {
    Flag(executable) + [NUL] + (Numeral(|content|) + [NUL] + (content + x))
  }

  lemma TagThenRest(r: Record, x: Bytes)
    ensures RecordBytes(r) + x == TagOf(r) + [NUL] + AfterTag(r, x)
  {
    match r
    case DirectoryRecord(path) =>
      Regroup(DIRECTORY_TAG + [NUL], path + [NUL], x);
    case FileRecord(path, executable, content) =>
      var size := Numeral(|content|) + [NUL];
      var flag := Flag(executable) + [NUL];
      Regroup(FileHeader(path, executable, |content|), content, x);
      Regroup(FILE_TAG + [NUL], path + [NUL] + (flag + size), content + x);
      Regroup(path + [NUL], flag + size, content + x);
      Regroup(flag, size, content + x);
  }

  /** A record ends where its own bytes say: whatever follows, the bytes give back the record. */
  lemma RecordsSplit(r: Record, x: Bytes, s: Record, y: Bytes)
    requires NUL !in r.path && NUL !in s.path && RecordBytes(r) + x == RecordBytes(s) + y
    ensures r == s && x == y
  {
    TagThenRest(r, x);
    TagThenRest(s, y);
    FieldsSplit(NUL, TagOf(r), AfterTag(r, x), TagOf(s), AfterTag(s, y));
    SameKind(r, s);
    if r.DirectoryRecord? {
      FieldsSplit(NUL, r.path, x, s.path, y);
    } else {
      FieldsSplit(NUL, r.path, AfterPath(r.executable, r.content, x), s.path, AfterPath(s.executable, s.content, y));
      FileTailsSplit(r.executable, r.content, x, s.executable, s.content, y);
    }
  }

  lemma SameKind(r: Record, s: Record)
    requires TagOf(r) == TagOf(s)
    ensures r.DirectoryRecord? <==> s.DirectoryRecord?
  {
    assert |DIRECTORY_TAG| != |FILE_TAG|;
  }

  lemma FileTailsSplit(e: bool, c: Bytes, x: Bytes, f: bool, d: Bytes, y: Bytes)
    requires AfterPath(e, c, x) == AfterPath(f, d, y)
    ensures e == f && c == d && x == y
  {
    FieldsSplit(NUL, Flag(e), Numeral(|c|) + [NUL] + (c + x), Flag(f), Numeral(|d|) + [NUL] + (d + y));
    FieldsSplit(NUL, Numeral(|c|), c + x, Numeral(|d|), d + y);
    NumeralsDiffer(|c|, |d|);
    assert Flag(e)[0] == Flag(f)[0];
    assert (c + x)[..|c|] == c && (d + y)[..|d|] == d && (c + x)[|c|..] == x && (d + y)[|d|..] == y;
  }

  lemma RecordIsNotEmpty(r: Record)
    ensures |RecordBytes(r)| > 0
  {
  }

  lemma RecordsAreSelfDelimiting()
    ensures SelfDelimiting(RecordBytes, Clean)
  {
    forall r | Clean(r) ensures |RecordBytes(r)| > 0 {
      RecordIsNotEmpty(r);
    }
    forall r, s, x, y | Clean(r) && Clean(s) && RecordBytes(r) + x == RecordBytes(s) + y ensures r == s && x == y {
      RecordsSplit(r, x, s, y);
    }
  }

  // ── The records tell trees apart ────────────────────────────────────────────

  /** The listings the visit accepts: names valid and distinct, files and directories only. */
  ghost predicate Proper(entries: Listing)
    decreases entries
  {
    && (forall i, j :: 0 <= i < j < |entries| ==> entries[i].name != entries[j].name)
    && (forall e :: e in entries ==> ProperEntry(e))
  }

  ghost predicate ProperEntry(e: Entry)
    decreases e
  {
    && ValidName(e.name)
    && !e.node.Symlink? && !e.node.Special?
    && (e.node.Directory? ==> Proper(e.node.entries))
  }

  /** A path below a directory. */
  predicate Under(prefix: Bytes, path: Bytes) {
    prefix == [] || prefix + [SLASH] <= path
  }

  predicate NoneUnder(prefix: Bytes, records: seq<Record>) {
    forall r :: r in records ==> !Under(prefix, r.path)
  }

  /** A path is an entry's own, or below it. */
  predicate Belongs(prefix: Bytes, name: Bytes, path: Bytes) {
    path == Join(prefix, name) || Under(Join(prefix, name), path)
  }

  lemma BelongingIsUnder(prefix: Bytes, name: Bytes, path: Bytes)
    requires name != [] && Belongs(prefix, name, path)
    ensures Under(prefix, path) && path != []
  {
  }

  lemma {:induction false} RecordsBelong(entries: Listing, prefix: Bytes, r: Record)
    requires Proper(entries) && r in Records(entries, prefix, false)
    ensures exists e :: e in entries && Belongs(prefix, e.name, r.path)
    decreases entries
  {
    if r in EntryRecords(entries[0], prefix, false) {
      EntryRecordsBelong(entries[0], prefix, r);
      assert entries[0] in entries;
    } else {
      RecordsBelong(entries[1..], prefix, r);
    }
  }

  lemma {:induction false} EntryRecordsBelong(e: Entry, prefix: Bytes, r: Record)
    requires ProperEntry(e) && r in EntryRecords(e, prefix, false)
    ensures Belongs(prefix, e.name, r.path)
    decreases e
  {
    if e.node.Directory? && r != DirectoryRecord(Join(prefix, e.name)) {
      RecordsBelong(e.node.entries, Join(prefix, e.name), r);
      var inner :| inner in e.node.entries && Belongs(Join(prefix, e.name), inner.name, r.path);
      assert ProperEntry(inner);
      BelongingIsUnder(Join(prefix, e.name), inner.name, r.path);
    }
  }

  /** The part of a path that names an entry: up to the next slash. */
  ghost predicate NamedAt(path: Bytes, start: nat, name: Bytes) {
    && start + |name| <= |path| && path[start..start + |name|] == name
    && (|path| == start + |name| || path[start + |name|] == SLASH)
  }

  lemma BelongingIsNamed(prefix: Bytes, name: Bytes, path: Bytes)
    requires name != [] && Belongs(prefix, name, path)
    ensures NamedAt(path, if prefix == [] then 0 else |prefix| + 1, name)
  {
    var whole, start := Join(prefix, name), if prefix == [] then 0 else |prefix| + 1;
    assert whole[start..] == name && whole <= path;
    assert path[start..start + |name|] == whole[start..];
  }

  lemma OneNameAt(path: Bytes, start: nat, a: Bytes, b: Bytes)
    requires SLASH !in a && SLASH !in b && NamedAt(path, start, a) && NamedAt(path, start, b)
    ensures a == b
  {
    NoSlashBefore(path, start, a);
    NoSlashBefore(path, start, b);
    assert |a| == |b|;
  }

  lemma NoSlashBefore(path: Bytes, start: nat, a: Bytes)
    requires SLASH !in a && NamedAt(path, start, a)
    ensures forall i :: start <= i < start + |a| ==> path[i] != SLASH
  {
    forall i | start <= i < start + |a| ensures path[i] != SLASH {
      assert path[i] == a[i - start] && a[i - start] in a;
    }
  }

  /** A path belongs to one entry only: a name has no slash. */
  lemma OneOwner(prefix: Bytes, a: Bytes, b: Bytes, path: Bytes)
    requires ValidName(a) && ValidName(b) && Belongs(prefix, a, path) && Belongs(prefix, b, path)
    ensures a == b
  {
    BelongingIsNamed(prefix, a, path);
    BelongingIsNamed(prefix, b, path);
    OneNameAt(path, if prefix == [] then 0 else |prefix| + 1, a, b);
  }

  /** Other entries of the same directory have no path below this one. */
  lemma OthersAreNotUnder(entries: Listing, prefix: Bytes, i: nat)
    requires Proper(entries) && i < |entries|
    ensures NoneUnder(Join(prefix, entries[i].name), Records(entries[i + 1..], prefix, false))
    ensures forall r :: r in Records(entries[i + 1..], prefix, false) ==> r.path != Join(prefix, entries[i].name)
  {
    var e := entries[i];
    assert ProperEntry(e);
    forall r | r in Records(entries[i + 1..], prefix, false) ensures !Belongs(prefix, e.name, r.path) {
      RecordsBelong(entries[i + 1..], prefix, r);
      var other :| other in entries[i + 1..] && Belongs(prefix, other.name, r.path);
      assert ProperEntry(other);
      var j :| 0 <= j < |entries[i + 1..]| && entries[i + 1..][j] == other;
      assert entries[i + 1 + j] == other && other.name != e.name;
      if Belongs(prefix, e.name, r.path) {
        OneOwner(prefix, e.name, other.name, r.path);
      }
    }
  }

  lemma RecordsKeepOrder(e: Entry, rest: Listing, prefix: Bytes, x: seq<Record>)
    requires ProperEntry(e)
    ensures |EntryRecords(e, prefix, false)| > 0
    ensures EntryRecords(e, prefix, false)[0].path == Join(prefix, e.name)
    ensures Records([e] + rest, prefix, false) + x
         == EntryRecords(e, prefix, false) + (Records(rest, prefix, false) + x)
  {
    assert ([e] + rest)[1..] == rest;
  }

  lemma JoinTellsName(prefix: Bytes, a: Bytes, b: Bytes)
    requires Join(prefix, a) == Join(prefix, b)
    ensures a == b
  {
    var start := if prefix == [] then 0 else |prefix| + 1;
    assert Join(prefix, a)[start..] == a && Join(prefix, b)[start..] == b;
  }

  /** Nothing outside a directory is below one of its entries. */
  lemma OutsideIsNotBelow(prefix: Bytes, name: Bytes, x: seq<Record>)
    requires name != [] && NoneUnder(prefix, x)
    ensures NoneUnder(Join(prefix, name), x)
  {
    forall r | r in x ensures !Under(Join(prefix, name), r.path) {
      if Under(Join(prefix, name), r.path) {
        BelongingIsUnder(prefix, name, r.path);
      }
    }
  }

  /** The records of a listing tell the listing, and where it ends. */
  lemma {:induction false} RecordsTellListing(a: Listing, b: Listing, prefix: Bytes, x: seq<Record>, y: seq<Record>)
    requires Proper(a) && Proper(b) && NoneUnder(prefix, x) && NoneUnder(prefix, y)
    requires Records(a, prefix, false) + x == Records(b, prefix, false) + y
    ensures a == b && x == y
    decreases a, 1
  {
    assert [] + x == x && [] + y == y;
    if |a| == 0 && |b| == 0 {
    } else if |a| == 0 {
      HasRecordUnder(b, prefix, y);
    } else if |b| == 0 {
      HasRecordUnder(a, prefix, x);
    } else {
      assert a == [a[0]] + a[1..] && b == [b[0]] + b[1..];
      assert ProperEntry(a[0]) && ProperEntry(b[0]);
      RecordsKeepOrder(a[0], a[1..], prefix, x);
      RecordsKeepOrder(b[0], b[1..], prefix, y);
      OthersAreNotUnder(a, prefix, 0);
      OthersAreNotUnder(b, prefix, 0);
      OutsideIsNotBelow(prefix, a[0].name, x);
      OutsideIsNotBelow(prefix, b[0].name, y);
      EntriesTellApart(a[0], b[0], prefix, Records(a[1..], prefix, false) + x, Records(b[1..], prefix, false) + y);
      RecordsTellListing(a[1..], b[1..], prefix, x, y);
    }
  }

  /** A listing that is not empty has a record below its directory. */
  lemma HasRecordUnder(entries: Listing, prefix: Bytes, x: seq<Record>)
    requires Proper(entries) && |entries| > 0
    ensures !NoneUnder(prefix, Records(entries, prefix, false) + x)
  {
    var e := entries[0];
    assert ProperEntry(e) && entries == [e] + entries[1..];
    RecordsKeepOrder(e, entries[1..], prefix, x);
    var r := EntryRecords(e, prefix, false)[0];
    assert (Records(entries, prefix, false) + x)[0] == r;
    BelongingIsUnder(prefix, e.name, r.path);
  }

  /** Two entries with the same records, and the same after them, are the same. */
  lemma {:induction false} EntriesTellApart(a: Entry, b: Entry, prefix: Bytes, x: seq<Record>, y: seq<Record>)
    requires ProperEntry(a) && ProperEntry(b)
    requires NoneUnder(Join(prefix, a.name), x) && NoneUnder(Join(prefix, b.name), y)
    requires EntryRecords(a, prefix, false) + x == EntryRecords(b, prefix, false) + y
    ensures a == b && x == y
    decreases a, 0
  {
    var all := EntryRecords(a, prefix, false) + x;
    assert all[0] == EntryRecords(a, prefix, false)[0] && all[0] == EntryRecords(b, prefix, false)[0];
    JoinTellsName(prefix, a.name, b.name);
    var path := Join(prefix, a.name);
    assert a.node.File? <==> b.node.File?;
    if a.node.Directory? {
      assert all[1..] == Records(a.node.entries, path, false) + x;
      assert all[1..] == Records(b.node.entries, path, false) + y;
      RecordsTellListing(a.node.entries, b.node.entries, path, x, y);
    } else {
      assert all[1..] == x && all[1..] == y;
    }
  }

  // ── Generated roots, and what the visit accepts ─────────────────────────────

  /** The listing without the generated roots. */
  function Visible(entries: Listing, exclude: bool): Listing {
    if |entries| == 0 then []
    else (if PassedOver(exclude, [], entries[0].name) then [] else [entries[0]]) + Visible(entries[1..], exclude)
  }

  lemma {:induction false} ExcludedAtTheTopOnly(entries: Listing, prefix: Bytes, exclude: bool)
    requires prefix != []
    ensures Records(entries, prefix, exclude) == Records(entries, prefix, false)
    decreases entries
  {
    if |entries| > 0 {
      match entries[0].node {
        case Directory(inner) => ExcludedAtTheTopOnly(inner, Join(prefix, entries[0].name), exclude);
        case _ =>
      }
      ExcludedAtTheTopOnly(entries[1..], prefix, exclude);
    }
  }

  /** The records with generated roots left out are those of the visible entries. */
  lemma {:induction false} RecordsOfVisible(entries: Listing, exclude: bool)
    requires forall e :: e in entries ==> e.name != []
    ensures Records(entries, [], exclude) == Records(Visible(entries, exclude), [], false)
  {
    if |entries| > 0 {
      var e := entries[0];
      RecordsOfVisible(entries[1..], exclude);
      if !PassedOver(exclude, [], e.name) {
        if e.node.Directory? {
          ExcludedAtTheTopOnly(e.node.entries, e.name, exclude);
        }
        assert Visible(entries, exclude)[1..] == Visible(entries[1..], exclude);
      } else {
        assert Visible(entries, exclude) == Visible(entries[1..], exclude);
      }
    }
  }

  /** What a file system guarantees: no name twice in a directory. */
  ghost predicate DistinctNames(entries: Listing)
    decreases entries
  {
    && (forall i, j :: 0 <= i < j < |entries| ==> entries[i].name != entries[j].name)
    && (forall e :: e in entries ==> EntryDistinct(e))
  }

  ghost predicate EntryDistinct(e: Entry)
    decreases e
  {
    e.node.Directory? ==> DistinctNames(e.node.entries)
  }

  lemma {:induction false} AcceptedNames(entries: Listing, prefix: Bytes, exclude: bool, unicode: Bytes -> bool)
    requires FirstProblem(entries, prefix, exclude, unicode).None?
    ensures forall e :: e in entries ==> ValidName(e.name) && EntryProblem(e, prefix, exclude, unicode).None?
  {
    if |entries| > 0 {
      AcceptedNames(entries[1..], prefix, exclude, unicode);
    }
  }

  lemma {:induction false} AcceptedIsProper(entries: Listing, prefix: Bytes, exclude: bool, unicode: Bytes -> bool)
    requires FirstProblem(entries, prefix, exclude, unicode).None? && DistinctNames(entries) && prefix != []
    ensures Proper(entries)
    decreases entries
  {
    AcceptedNames(entries, prefix, exclude, unicode);
    forall e | e in entries ensures ProperEntry(e) {
      assert EntryDistinct(e);
      if e.node.Directory? {
        AcceptedIsProper(e.node.entries, Join(prefix, e.name), exclude, unicode);
      }
    }
  }

  lemma {:induction false} VisibleAre(entries: Listing, exclude: bool)
    requires DistinctNames(entries)
    ensures DistinctNames(Visible(entries, exclude))
    ensures forall e :: e in Visible(entries, exclude) <==> e in entries && !PassedOver(exclude, [], e.name)
  {
    if |entries| > 0 {
      var rest := entries[1..];
      VisibleAre(rest, exclude);
      forall e | e in Visible(rest, exclude) ensures e.name != entries[0].name {
        var i :| 0 <= i < |rest| && rest[i] == e;
        assert entries[i + 1] == e;
      }
    }
  }

  lemma VisibleIsProper(entries: Listing, exclude: bool, unicode: Bytes -> bool)
    requires FirstProblem(entries, [], exclude, unicode).None? && DistinctNames(entries)
    ensures Proper(Visible(entries, exclude))
  {
    VisibleAre(entries, exclude);
    AcceptedNames(entries, [], exclude, unicode);
    forall e | e in Visible(entries, exclude) ensures ProperEntry(e) {
      assert EntryDistinct(e);
      if e.node.Directory? {
        AcceptedIsProper(e.node.entries, e.name, exclude, unicode);
      }
    }
  }

  lemma {:induction false} ProperRecordsAreClean(entries: Listing, prefix: Bytes)
    requires Proper(entries) && NUL !in prefix
    ensures forall r :: r in Records(entries, prefix, false) ==> Clean(r)
    decreases entries
  {
    if |entries| > 0 {
      var e := entries[0];
      assert ProperEntry(e);
      if e.node.Directory? {
        ProperRecordsAreClean(e.node.entries, Join(prefix, e.name));
      }
      ProperRecordsAreClean(entries[1..], prefix);
    }
  }

  /** Equal streams come only from equal trees, up to the generated roots when those are left out. */
  lemma StreamTellsTree(a: Listing, b: Listing, exclude: bool, unicode: Bytes -> bool)
    requires FirstProblem(a, [], exclude, unicode).None? && FirstProblem(b, [], exclude, unicode).None?
    requires DistinctNames(a) && DistinctNames(b)
    ensures Stream(Records(a, [], exclude)) == Stream(Records(b, [], exclude))
            <==> Visible(a, exclude) == Visible(b, exclude)
  {
    AcceptedNames(a, [], exclude, unicode);
    AcceptedNames(b, [], exclude, unicode);
    RecordsOfVisible(a, exclude);
    RecordsOfVisible(b, exclude);
    if Stream(Records(a, [], exclude)) == Stream(Records(b, [], exclude)) {
      var va, vb := Visible(a, exclude), Visible(b, exclude);
      VisibleIsProper(a, exclude, unicode);
      VisibleIsProper(b, exclude, unicode);
      ProperRecordsAreClean(va, []);
      ProperRecordsAreClean(vb, []);
      RecordsAreSelfDelimiting();
      StreamTellsItems(Records(va, [], false), Records(vb, [], false), RecordBytes, Clean);
      RecordsTellListing(va, vb, [], [], []);
    }
  }

  // ── The identity ────────────────────────────────────────────────────────────

  datatype Identity = Identity(files: nat, bytes: nat, digest: string)

  datatype Outcome = Found(identity: Identity) | Refused(problem: Problem)

  /** The identity of a tree, by the hash of its stream. */
  method WebTreeIdentity(tree: Listing, exclude: bool, unicode: Bytes -> bool, hash: Bytes -> string)
    returns (outcome: Outcome)
    ensures outcome == IdentityOf(tree, exclude, unicode, hash)
  {
    var digest := new TreeDigest();
    var problem := digest.Visit(tree, [], exclude, unicode);
    if problem.Some? {
      return Refused(problem.value);
    }
    assert digest.fed == Records(tree, [], exclude);
    return Found(Identity(digest.files, digest.byteCount, hash(digest.stream)));
  }

  function IdentityOf(tree: Listing, exclude: bool, unicode: Bytes -> bool, hash: Bytes -> string): Outcome {
    var problem := FirstProblem(tree, [], exclude, unicode);
    var records := Records(tree, [], exclude);
    if problem.Some? then Refused(problem.value)
    else Found(Identity(FileCount(records), ByteCount(records), hash(Stream(records))))
  }

  /** Two accepted trees have the same identity exactly when they are the same tree, unless the hash
      collides on their streams. */
  lemma IdentityTellsTree(a: Listing, b: Listing, exclude: bool, unicode: Bytes -> bool, hash: Bytes -> string)
    requires IdentityOf(a, exclude, unicode, hash).Found? && IdentityOf(b, exclude, unicode, hash).Found?
    requires DistinctNames(a) && DistinctNames(b)
    requires hash(Stream(Records(a, [], exclude))) == hash(Stream(Records(b, [], exclude))) ==>
               Stream(Records(a, [], exclude)) == Stream(Records(b, [], exclude))
    ensures IdentityOf(a, exclude, unicode, hash) == IdentityOf(b, exclude, unicode, hash)
            <==> Visible(a, exclude) == Visible(b, exclude)
  {
    StreamTellsTree(a, b, exclude, unicode);
    AcceptedNames(a, [], exclude, unicode);
    AcceptedNames(b, [], exclude, unicode);
    RecordsOfVisible(a, exclude);
    RecordsOfVisible(b, exclude);
  }
}
