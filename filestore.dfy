/**
 * The flat downloads directory: listing it, deleting from it behind the
 * name checks of `delete_file`, and finding its most recently modified file.
 */
module FileStore {
  import opened Wrappers
  import opened Text
  import opened Paths

  /** `DOWNLOADS_DIR`, relative to the working directory. */
  const DownloadsDir := "downloads"

  /** Route under which a stored file is served. */
  const DownloadRoute := "/download_file/"

  /**
   * What a directory entry is: a regular file with its size and modification
   * time, or anything else that is not a regular file (a subdirectory, a
   * FIFO, a socket).
   */
  datatype Entry = File(size: nat, mtime: int) | Other

  /** One record of `list_downloads`. */
  datatype FileInfo = FileInfo(name: string, size: nat, url: string)

  /** The two faults `os.remove` can raise: `PermissionError` and another `OSError` with its text. */
  datatype RemoveFault = PermissionFault | OsFault(detail: string)

  /**
   * The outcomes of `delete_file`, each with its HTTP status and message:
   * only the 204 answer has an empty body, every error explains itself.
   */
  datatype DeleteOutcome =
    | Deleted
    | InvalidName
    | ForbiddenName
    | PathEscape
    | NotFound
    | NotAFile
    | PermissionDenied
    | StorageError(detail: string)
  {
    function Status(): int {
      match this
      case Deleted => 204
      case InvalidName => 400
      case ForbiddenName => 400
      case PathEscape => 400
      case NotFound => 404
      case NotAFile => 400
      case PermissionDenied => 403
      case StorageError(_) => 500
    }

    function Message(): (r: string)
      ensures r == [] <==> Status() == 204
    {
      match this
      case Deleted => ""
      case InvalidName => "Invalid filename"
      case ForbiddenName => "Invalid filename - contains forbidden characters"
      case PathEscape => "Invalid file path"
      case NotFound => "File not found"
      case NotAFile => "Invalid file type"
      case PermissionDenied => "Permission denied - cannot delete file"
      case StorageError(detail) => "File system error: " + detail
    }
  }

  /** Empty, or whitespace only. */
  predicate IsBlank(name: string) {
    Strip(name) == []
  }

  /** Contains `/`, `\` or `..`, or starts with `.`. */
  predicate IsForbiddenName(name: string) {
    '/' in name || '\\' in name || Contains(name, "..") || StartsWith(name, ".")
  }

  /** A name that survives the first two checks of `delete_file` is one proper path component. */
  lemma AcceptedNameIsProper(name: string)
    requires !IsBlank(name) && !IsForbiddenName(name)
    ensures IsProper(name)
  {
    assert name != [];
    assert name[0] != '.' by { assert !StartsWith(name, "."); }
  }

  /**
   * The name checks of `delete_file`, which precede any look at the
   * directory: a blank name, then a forbidden one, then one whose absolute
   * path leaves the downloads directory. The last never fires, because a
   * name that passes the first two always resolves strictly inside it.
   */
  function Screen(cwd: seq<string>, name: string): (r: Option<DeleteOutcome>)
    ensures r == Some(InvalidName) <==> IsBlank(name)
    ensures r == Some(ForbiddenName) <==> !IsBlank(name) && IsForbiddenName(name)
    ensures r != Some(PathEscape)
    ensures r.None? <==> !IsBlank(name) && !IsForbiddenName(name)
    ensures r.Some? ==> r.value.Status() == 400
  {
    if IsBlank(name) then Some(InvalidName)
    else if IsForbiddenName(name) then Some(ForbiddenName)
    else
      AcceptedNameIsProper(name);
      JoinProperInside(cwd, DownloadsDir, name);
      if !Within(AbsPath(cwd, PathJoin(DownloadsDir, name)), AbsPath(cwd, DownloadsDir)) then
        Some(PathEscape)
      else None
  }

  /**
   * The central safety property: a name that gets past the checks addresses
   * exactly the entry `name` of the downloads directory, one level below it
   * and nowhere else.
   */
  lemma AcceptedNameAddressesEntry(cwd: seq<string>, name: string)
    requires !IsBlank(name) && !IsForbiddenName(name)
    ensures Screen(cwd, name).None?
    ensures IsProper(name)
    ensures Resolve(cwd, PathJoin(DownloadsDir, name)) == Resolve(cwd, DownloadsDir) + [name]
    ensures AbsPath(cwd, PathJoin(DownloadsDir, name)) == AbsPath(cwd, DownloadsDir) + "/" + name
  {
    AcceptedNameIsProper(name);
    JoinProperInside(cwd, DownloadsDir, name);
  }

  predicate Distinct(s: seq<string>) {
    forall i, j :: 0 <= i < j < |s| ==> s[i] != s[j]
  }

  /** Every listed name has an entry. */
  predicate Covers(names: seq<string>, entries: map<string, Entry>) {
    forall n :: n in names ==> n in entries
  }

  predicate IsRegular(entries: map<string, Entry>, n: string) {
    n in entries && entries[n].File?
  }

  predicate NoRegularFiles(entries: map<string, Entry>) {
    forall n :: n in entries ==> !entries[n].File?
  }

  /** The listing with `x` taken out, order kept (`WithoutConcat`). */
  function Without(s: seq<string>, x: string): (r: seq<string>)
    ensures forall y :: y in r <==> y in s && y != x
    ensures Distinct(s) ==> Distinct(r)
  {
    if s == [] then []
    else
      var init, last := s[..|s| - 1], s[|s| - 1];
      assert forall y :: y in s <==> y in init || y == last;
      var r := Without(init, x);
      if last == x then r
      else
        assert Distinct(s) ==> last !in r;
        DistinctAppend(r, last);
        r + [last]
  }

  /**
   * Taking a name out works piece by piece: from a concatenation it
   * concatenates the two results, so the remaining names keep their order.
   */
  lemma {:induction false} WithoutConcat(a: seq<string>, b: seq<string>, x: string)
    ensures Without(a + b, x) == Without(a, x) + Without(b, x)
    decreases |b|
  {
    if b == [] {
      assert a + b == a;
    } else {
      var init, last := b[..|b| - 1], b[|b| - 1];
      assert (a + b)[..|a + b| - 1] == a + init;
      WithoutConcat(a, init, x);
    }
  }

  lemma DistinctAppend(s: seq<string>, x: string)
    ensures Distinct(s) && x !in s ==> Distinct(s + [x])
  {
  }

  /** The record `list_downloads` makes for one entry: one for a regular file, none for anything else. */
  function Record(name: string, e: Entry): seq<FileInfo> {
    match e
    case File(size, _) => [FileInfo(name, size, DownloadRoute + name)]
    case Other => []
  }

  /** What `list_downloads` returns for a listing, in listing order. */
  function Listing(names: seq<string>, entries: map<string, Entry>): seq<FileInfo>
    requires Covers(names, entries)
  {
    if names == [] then []
    else
      var init, last := names[..|names| - 1], names[|names| - 1];
      assert forall n :: n in init ==> n in names;
      Listing(init, entries) + Record(last, entries[last])
  }

  function Names(files: seq<FileInfo>): (r: seq<string>)
    ensures |r| == |files| && forall i :: 0 <= i < |files| ==> r[i] == files[i].name
  {
    seq(|files|, i requires 0 <= i < |files| => files[i].name)
  }

  /**
   * The listing holds exactly the regular files: every record is a regular
   * file with its size and its download URL, every regular file has a
   * record, and no file has two.
   */
  lemma {:induction false} ListingExact(names: seq<string>, entries: map<string, Entry>)
    requires Covers(names, entries)
    ensures forall f :: f in Listing(names, entries) ==>
      f.name in names && IsRegular(entries, f.name)
      && f.size == entries[f.name].size && f.url == DownloadRoute + f.name
    ensures forall n :: n in names && IsRegular(entries, n) ==> n in Names(Listing(names, entries))
    ensures Distinct(names) ==> Distinct(Names(Listing(names, entries)))
  {
    if names != [] {
      var init, last := names[..|names| - 1], names[|names| - 1];
      assert forall n :: n in names <==> n in init || n == last;
      ListingExact(init, entries);
      var before, rec := Listing(init, entries), Record(last, entries[last]);
      assert Listing(names, entries) == before + rec;
      assert Names(before + rec) == Names(before) + Names(rec);
      if Distinct(names) {
        assert last !in init;
        assert last !in Names(before);
      }
    }
  }

  /** Deleting an entry removes its record from the listing and keeps every other record. */
  lemma {:induction false} ListingAfterRemoval(names: seq<string>, entries: map<string, Entry>, x: string)
    requires Covers(names, entries)
    ensures Covers(Without(names, x), entries - {x})
    ensures forall f :: f in Listing(Without(names, x), entries - {x}) <==>
      f in Listing(names, entries) && f.name != x
  {
    if names != [] {
      var init, last := names[..|names| - 1], names[|names| - 1];
      var e' := entries - {x};
      assert forall n :: n in names <==> n in init || n == last;
      ListingAfterRemoval(init, entries, x);
      var w := Without(init, x);
      var before := Listing(init, entries);
      var after := Listing(w, e');
      var rec := Record(last, entries[last]);
      assert Listing(names, entries) == before + rec;
      assert forall f :: f in rec ==> f.name == last;
      if last == x {
        assert Without(names, x) == w;
      } else {
        assert Without(names, x) == w + [last];
        assert (w + [last])[..|w|] == w;
        assert Listing(w + [last], e') == after + rec;
      }
    }
  }

  /**
   * `v` is what `max(all_files, key=getmtime)` picks: a regular file whose
   * modification time no regular file exceeds, and of those the first in
   * listing order.
   */
  ghost predicate IsNewest(names: seq<string>, entries: map<string, Entry>, v: string) {
    IsRegular(entries, v)
    && (forall n :: IsRegular(entries, n) ==> entries[n].mtime <= entries[v].mtime)
    && (forall j, k :: 0 <= j < k < |names| && names[k] == v && IsRegular(entries, names[j]) ==>
          entries[names[j]].mtime < entries[v].mtime)
  }

  /**
   * The downloads directory. `cwd` is the process's absolute working
   * directory, `names` the order in which `os.listdir` enumerates the
   * directory, and `entries` what each name is.
   */
  class DownloadStore {
    const cwd: seq<string>
    var names: seq<string>
    var entries: map<string, Entry>

    /** The listing enumerates every entry exactly once. */
    ghost predicate Valid()
      reads this
    {
      Distinct(names) && (forall n :: n in entries <==> n in names)
    }

    constructor (cwd: seq<string>, names: seq<string>, entries: map<string, Entry>)
      requires Distinct(names) && forall n :: n in entries <==> n in names
      ensures Valid()
      ensures this.cwd == cwd && this.names == names && this.entries == entries
    {
      this.cwd := cwd;
      this.names := names;
      this.entries := entries;
    }

    /** `list_downloads`: one record per regular file, in listing order. */
    method List() returns (files: seq<FileInfo>)
      requires Valid()
      ensures files == Listing(names, entries)
    {
      files := [];
      for i := 0 to |names|
        invariant files == Listing(names[..i], entries)
      {
        assert names[..i + 1][..i] == names[..i];
        files := files + Record(names[i], entries[names[i]]);
      }
      assert names[..|names|] == names;
    }

    /**
     * The fallback scan of `download_video`: the regular files in listing
     * order, and of them the one `max` picks by modification time; none
     * exactly when the directory holds no regular file.
     */
    method MostRecentFile() returns (newest: Option<string>)
      requires Valid()
      ensures newest.None? <==> NoRegularFiles(entries)
      ensures newest.Some? ==> IsNewest(names, entries, newest.value)
    {
      newest := None;
      var best := 0;
      ghost var at := 0;
      for i := 0 to |names|
        invariant newest.None? ==> forall j :: 0 <= j < i ==> !IsRegular(entries, names[j])
        invariant newest.Some? ==>
          0 <= at < i && names[at] == newest.value && IsRegular(entries, newest.value)
          && best == entries[newest.value].mtime
        invariant newest.Some? ==>
          forall j :: 0 <= j < i && IsRegular(entries, names[j]) ==> entries[names[j]].mtime <= best
        invariant newest.Some? ==>
          forall j :: 0 <= j < at && IsRegular(entries, names[j]) ==> entries[names[j]].mtime < best
      {
        var e := entries[names[i]];
        if e.File? && (newest.None? || e.mtime > best) {
          newest, best, at := Some(names[i]), e.mtime, i;
        }
      }
      if newest.None? {
        forall n | n in entries ensures !entries[n].File? {
          var j :| 0 <= j < |names| && names[j] == n;
        }
      } else {
        forall n | IsRegular(entries, n) ensures entries[n].mtime <= best {
          var j :| 0 <= j < |names| && names[j] == n;
        }
      }
    }

    /**
     * `delete_file`: the name checks, then 404 for a missing entry, 400 for
     * an entry that is not a regular file, and otherwise the removal, which either fails with the
     * fault `os.remove` raises or removes exactly that entry.
     */
    method Delete(name: string, fault: Option<RemoveFault>) returns (outcome: DeleteOutcome)
      requires Valid()
      modifies this
      ensures Valid()
      ensures Screen(cwd, name).Some? ==> outcome == Screen(cwd, name).value
      ensures Screen(cwd, name).None? && name !in old(entries) ==> outcome == NotFound
      ensures Screen(cwd, name).None? && name in old(entries) && old(entries)[name].Other? ==>
        outcome == NotAFile
      ensures Screen(cwd, name).None? && IsRegular(old(entries), name) ==>
        outcome == match fault
          case None => Deleted
          case Some(PermissionFault) => PermissionDenied
          case Some(OsFault(detail)) => StorageError(detail)
      ensures outcome == Deleted ==>
        entries == old(entries) - {name} && names == Without(old(names), name)
      ensures outcome != Deleted ==> entries == old(entries) && names == old(names)
    {
      var screened := Screen(cwd, name);
      if screened.Some? {
        return screened.value;
      }
      if name !in entries {
        return NotFound;
      }
      if entries[name].Other? {
        return NotAFile;
      }
      match fault
      case Some(PermissionFault) =>
        outcome := PermissionDenied;
      case Some(OsFault(detail)) =>
        outcome := StorageError(detail);
      case None =>
        entries := entries - {name};
        names := Without(names, name);
        outcome := Deleted;
    }
  }
}
