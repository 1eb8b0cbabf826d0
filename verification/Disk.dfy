/**
 Files as key rotation sees them: a map from names to contents, and a record
 of the map after every single operation, so that what holds of every entry
 of the record holds wherever the process stops. Any operation may fail,
 unless the disk is steady: then an operation fails only for want of a file.
 */
module Disk {
  import opened Base

  type Name = string
  type Bytes = string
  type Files = map<Name, Bytes>

  /** Outside `names` nothing differs. */
  ghost predicate SameBut(f: Files, g: Files, names: set<Name>) {
    forall n :: n !in names ==> Get(g, n) == Get(f, n)
  }

  /** `g` holds `data` under `path` instead of what `f` held, which `bak` keeps; `tmp` served on the way. */
  ghost predicate Replaced(f: Files, g: Files, path: Name, bak: Name, tmp: Name, data: Bytes) {
    && Get(g, path) == Some(data)
    && (path in f ==> Get(g, bak) == Some(f[path]))
    && SameBut(f, g, {path, bak, tmp})
  }

  /** At some point from the `n`-th on, the file is there and empty. */
  ghost predicate Emptied(past: seq<Files>, n: nat, name: Name) {
    exists i :: n <= i < |past| && Get(past[i], name) == Some("")
  }

  lemma EmptiedAt(past: seq<Files>, n: nat, i: nat, name: Name)
    requires n <= i < |past| && Get(past[i], name) == Some("")
    ensures Emptied(past, n, name)
  {
  }

  lemma EmptiedStays(before: seq<Files>, past: seq<Files>, m: nat, n: nat, name: Name)
    requires before <= past && n <= m
    ensures Emptied(before, m, name) ==> Emptied(past, n, name)
  {
    if Emptied(before, m, name) {
      var i :| m <= i < |before| && Get(before[i], name) == Some("");
      EmptiedAt(past, n, i, name);
    }
  }

  class Store {
    const steady: bool
    var files: Files
    ghost var past: seq<Files>

    ghost predicate Valid()
      reads this
    {
      past != [] && past[|past| - 1] == files
    }

    ghost method Note()
      modifies this`past
      ensures Valid() && past == old(past) + [files]
    {
      past := past + [files];
    }

    /** `os.Stat` as the source uses it. */
    method Exists(path: Name) returns (there: bool)
      ensures there <==> path in files
    {
      there := path in files;
    }

    /** `os.ReadFile`: the content, `None` for a missing file, or an I/O error. */
    method ReadFile(path: Name) returns (r: Result<Option<Bytes>, ()>)
      ensures r.Ok? ==> r.value == Get(files, path)
      ensures steady ==> r.Ok?
    {
      var fails: bool := *;
      if fails && !steady { return Err(()); }
      return Ok(Get(files, path));
    }

    /** `os.WriteFile`: opened and cut to nothing, then filled; it can stop or fail with any part written. */
    method WriteFile(path: Name, data: Bytes) returns (ok: bool)
      requires Valid()
      modifies this
      ensures Valid() && old(past) <= past
      ensures forall i :: |old(past)| <= i < |past| ==> SameBut(old(files), past[i], {path})
      ensures SameBut(old(files), files, {path})
      ensures ok ==> files == old(files)[path := data]
      ensures ok ==> |old(past)| < |past| && past[|old(past)|] == old(files)[path := ""]
      ensures steady ==> ok
    {
      var fails: bool := *;
      if fails && !steady { return false; }
      files := files[path := ""];
      Note();
      var n: int := *;
      if 0 <= n < |data| {
        files := files[path := data[..n]];
        Note();
        var stops: bool := *;
        if stops && !steady { return false; }
      }
      files := files[path := data];
      Note();
      return true;
    }

    /** `os.Rename`: all at once or not at all. */
    method Rename(src: Name, dst: Name) returns (ok: bool)
      requires Valid()
      modifies this
      ensures Valid()
      ensures ok ==> src in old(files) && files == (old(files) - {src})[dst := old(files)[src]] && past == old(past) + [files]
      ensures !ok ==> files == old(files) && past == old(past)
      ensures steady && src in old(files) ==> ok
    {
      var fails: bool := *;
      if (fails && !steady) || src !in files { return false; }
      files := (files - {src})[dst := files[src]];
      Note();
      return true;
    }

    /** `copyFile`. */
    method CopyFile(src: Name, dst: Name) returns (ok: bool)
      requires Valid()
      modifies this
      ensures Valid() && old(past) <= past
      ensures forall i :: |old(past)| <= i < |past| ==> SameBut(old(files), past[i], {dst})
      ensures SameBut(old(files), files, {dst})
      ensures ok ==> src in old(files) && files == old(files)[dst := old(files)[src]]
      ensures ok ==> |old(past)| < |past| && past[|old(past)|] == old(files)[dst := ""]
      ensures steady && src in old(files) ==> ok
    {
      var r := ReadFile(src);
      if r.Err? || r.value.None? { return false; }
      ok := WriteFile(dst, r.value.value);
    }

    /** A new file written beside its place and renamed into it. */
    method WriteAndRename(path: Name, tmp: Name, data: Bytes) returns (ok: bool)
      requires Valid() && tmp != path
      modifies this
      ensures Valid() && old(past) <= past
      ensures forall i :: |old(past)| <= i < |past| ==> SameBut(old(files), past[i], {tmp}) || (ok && past[i] == files)
      ensures ok ==> Get(files, path) == Some(data) && SameBut(old(files), files, {path, tmp})
      ensures !ok ==> SameBut(old(files), files, {tmp})
      ensures ok ==> |old(past)| < |past| && past[|old(past)|] == old(files)[tmp := ""]
      ensures steady ==> ok
    {
      ok := WriteFile(tmp, data);
      if !ok { return false; }
      ok := Rename(tmp, path);
    }
  }
}
