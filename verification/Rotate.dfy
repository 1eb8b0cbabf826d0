/**
 Key rotation (internal/crypto/rotate.go, sealedfile.go and keystore.go): the
 server's keypair and every store sealed under it are replaced, one file
 operation at a time.
 */
module Rotate {
  import opened Base
  import opened Disk

  type Key = string

  /**
   The cryptography: `public` derives a public key, `seal` and `open` are
   `SealSelf` and `OpenSelf` under a private key (a number stands for the
   random nonce), `encode` and `decode` are the text form of a key.
   */
  datatype Box = Box(
    public: Key -> Option<Key>,
    seal: (Key, Bytes, nat) -> Option<Bytes>,
    open: (Key, Bytes) -> Option<Bytes>,
    encode: Key -> Bytes,
    decode: Bytes -> Option<Key>)

  /** What is sealed opens under the same key, and a key survives its text form. */
  ghost predicate Lawful(box: Box) {
    && (forall k, m, n :: box.seal(k, m, n).Some? ==>
          box.seal(k, m, n).value != "" && box.open(k, box.seal(k, m, n).value) == Some(m))
    && (forall k :: box.encode(k) != "" && !Trimmed(box.encode(k)[|box.encode(k)| - 1]) && box.decode(box.encode(k)) == Some(k))
  }

  datatype KeyPair = KeyPair(priv: Key, pub: Key)

  datatype RotateError = PathsRequired | KeyUnreadable | JustGenerated | StoreUnusable(path: Name) | KeyGenFailed | KeySwapFailed | RewrapFailed(path: Name)

  datatype RotateResult = RotateResult(oldPublicKey: Key, newPublicKey: Key, backupSuffix: string, rewrapped: seq<Name>)

  // ------------------------------------------------------------ reading keys and stores

  predicate Trimmed(c: char) { c == '\n' || c == '\r' || c == ' ' }

  function TrimKey(s: Bytes): Bytes {
    if s != "" && Trimmed(s[|s| - 1]) then TrimKey(s[..|s| - 1]) else s
  }

  /** The key a key file holds. */
  function KeyAt(box: Box, f: Files, path: Name): Option<Key> {
    if path in f then box.decode(TrimKey(f[path])) else None
  }

  /** What a sealed file opens to; a missing or empty file opens to nothing. */
  function Opened(box: Box, f: Files, path: Name, key: Key): Option<Bytes> {
    if path in f && f[path] != "" then box.open(key, f[path]) else None
  }

  /** A store that has something in it the key does not open. */
  predicate Locked(box: Box, f: Files, path: Name, key: Key) {
    path in f && f[path] != "" && box.open(key, f[path]).None?
  }

  function KeyText(box: Box, k: Key): Bytes { box.encode(k) + "\n" }

  lemma WrittenKey(box: Box, f: Files, path: Name, k: Key)
    requires Lawful(box) && Get(f, path) == Some(KeyText(box, k))
    ensures KeyAt(box, f, path) == Some(k)
  {
    var s := KeyText(box, k);
    assert s[..|s| - 1] == box.encode(k);
    assert TrimKey(s) == TrimKey(box.encode(k)) == box.encode(k);
  }

  // ------------------------------------------------------------ names

  function Bak(path: Name, suffix: string): Name { path + (".bak." + suffix) }
  function New(path: Name): Name { path + ".new" }
  function Tmp(path: Name): Name { path + ".tmp" }

  datatype Paths = Paths(priv: Name, pub: Name, stores: seq<Name>, suffix: string) {
    ghost function Given(): set<Name> { {priv, pub} + set s | s in stores }

    ghost function Derived(): set<Name> {
      {New(priv), New(pub), Bak(priv, suffix), Bak(pub, suffix)}
      + (set s | s in stores :: Bak(s, suffix)) + (set s | s in stores :: Tmp(s))
    }

    /**
     The keys and the stores are different files, and none of them is a name
     that rotation makes up for another. A store may be listed repeatedly.
     */
    ghost predicate Apart() {
      && priv != pub && priv !in stores && pub !in stores
      && Given() !! Derived()
      && IsStamp(suffix)
    }
  }

  /** The suffix is a time, so it ends in a digit. */
  predicate IsStamp(suffix: string) { suffix != "" && '0' <= suffix[|suffix| - 1] <= '9' }

  lemma SuffixesDiffer(a: Name, b: Name, suffix: string)
    requires IsStamp(suffix)
    ensures Bak(a, suffix) != New(b) && Bak(a, suffix) != Tmp(b) && New(a) != Tmp(b)
    ensures a != b ==> Bak(a, suffix) != Bak(b, suffix)
  {
    LastOf(a, ".bak." + suffix);
    LastOf(a, ".new");
    LastOf(b, ".new");
    LastOf(b, ".tmp");
    if Bak(a, suffix) == Bak(b, suffix) {
      assert a == Bak(a, suffix)[..|Bak(a, suffix)| - 5 - |suffix|];
      assert b == Bak(b, suffix)[..|Bak(b, suffix)| - 5 - |suffix|];
    }
  }

  lemma LastOf(a: string, b: string)
    requires b != ""
    ensures (a + b)[|a + b| - 1] == b[|b| - 1]
  {
  }

  const STORES: seq<string> :=
    ["accounts.enc", "admins.enc", "audit_system.enc", "clients.enc", "credentials.enc", "destinations.enc", "sessions.enc", "tags.enc", "tokens.enc"]

  /** `DefaultSealedFiles`, for a data directory given with its separator. */
  function DefaultSealedFiles(dir: string): (r: seq<Name>)
    ensures |r| == 9
  {
    seq(9, i requires 0 <= i < 9 => dir + STORES[i])
  }

  lemma Prefixed(dir: string, a: string, b: string)
    requires a != "" && b != ""
    ensures dir + a == dir + b <==> a == b
    ensures (dir + a)[|dir + a| - 1] == a[|a| - 1]
  {
    assert (dir + a)[|dir|..] == a && (dir + b)[|dir|..] == b;
  }

  predicate DerivedEnd(c: char) { c == 'w' || c == 'p' || '0' <= c <= '9' }

  lemma DerivedEnds(paths: Paths, x: Name)
    requires IsStamp(paths.suffix) && x in paths.Derived()
    ensures x != "" && DerivedEnd(x[|x| - 1])
  {
    forall p ensures DerivedEnd(Bak(p, paths.suffix)[|Bak(p, paths.suffix)| - 1])
                     && DerivedEnd(New(p)[|New(p)| - 1]) && DerivedEnd(Tmp(p)[|Tmp(p)| - 1]) {
      LastOf(p, ".bak." + paths.suffix);
      LastOf(p, ".new");
      LastOf(p, ".tmp");
    }
  }

  /** Distinct names with good ends, put under one directory, stay so. */
  lemma UnderDir(dir: string, names: seq<string>)
    requires forall i :: 0 <= i < |names| ==> names[i] != "" && !DerivedEnd(names[i][|names[i]| - 1])
    requires forall i, j :: 0 <= i < j < |names| ==> names[i] != names[j]
    ensures forall i :: 0 <= i < |names| ==> !DerivedEnd((dir + names[i])[|dir + names[i]| - 1])
    ensures forall i, j :: 0 <= i < j < |names| ==> dir + names[i] != dir + names[j]
  {
    forall i | 0 <= i < |names| ensures !DerivedEnd((dir + names[i])[|dir + names[i]| - 1]) { Prefixed(dir, names[i], names[i]); }
    forall i, j | 0 <= i < j < |names| ensures dir + names[i] != dir + names[j] { Prefixed(dir, names[i], names[j]); }
  }

  lemma ApartFrom(paths: Paths)
    requires IsStamp(paths.suffix)
    requires var all := paths.stores + [paths.priv, paths.pub];
             && (forall i :: 0 <= i < |all| ==> all[i] != "" && !DerivedEnd(all[i][|all[i]| - 1]))
             && (forall i, j :: 0 <= i < j < |all| ==> all[i] != all[j])
    ensures paths.Apart()
  {
    var all, n := paths.stores + [paths.priv, paths.pub], |paths.stores|;
    assert all[n] == paths.priv && all[n + 1] == paths.pub;
    forall i | 0 <= i < n ensures paths.stores[i] == all[i] {}
    forall x | x in paths.Given() ensures x in all {
      if x !in {paths.priv, paths.pub} {
        var i :| 0 <= i < n && x == paths.stores[i];
        assert x == all[i];
      }
    }
    NoneDerived(paths);
  }

  /** The default key files and the standard list of stores meet the condition, whatever the directory. */
  lemma DefaultsApart(dir: string, suffix: string)
    requires IsStamp(suffix)
    ensures Paths(dir + "server.key", dir + "server.pub", DefaultSealedFiles(dir), suffix).Apart()
  {
    hide Paths.Apart;
    var names := STORES + ["server.key", "server.pub"];
    NamesDistinct();
    UnderDir(dir, names);
    var paths := Paths(dir + "server.key", dir + "server.pub", DefaultSealedFiles(dir), suffix);
    var all := paths.stores + [paths.priv, paths.pub];
    assert forall i :: 0 <= i < 11 ==> all[i] == dir + names[i];
    ApartFrom(paths);
  }

  lemma NoneDerived(paths: Paths)
    requires IsStamp(paths.suffix)
    requires forall x :: x in paths.Given() ==> x != "" && !DerivedEnd(x[|x| - 1])
    ensures paths.Given() !! paths.Derived()
  {
    hide Paths.Given, Paths.Derived;
    forall x | x in paths.Derived() ensures x !in paths.Given() { DerivedEnds(paths, x); }
  }

  lemma NamesDistinct()
    ensures var names := STORES + ["server.key", "server.pub"];
            && |names| == 11
            && (forall i :: 0 <= i < 11 ==> |names[i]| >= 8 && !DerivedEnd(names[i][|names[i]| - 1]))
            && (forall i, j :: 0 <= i < j < 11 ==> names[i] != names[j])
  {
    var names := STORES + ["server.key", "server.pub"];
    forall i, j | 0 <= i < j < 11 ensures names[i] != names[j] {
      assert names[i][0] != names[j][0] || names[i][1] != names[j][1] || names[i][2] != names[j][2] || names[i][7] != names[j][7];
    }
  }

  // ------------------------------------------------------------ what may be on disk

  /** A rotation from the key `was` to the key `next`, started on the files `start`. */
  datatype Job = Job(box: Box, paths: Paths, start: Files, was: Key, next: Key) {
    ghost predicate Fits() {
      Lawful(box) && paths.Apart() && KeyAt(box, start, paths.priv) == Some(was)
    }

    /** The key and the stores are as they were. */
    ghost predicate Before(f: Files) {
      Get(f, paths.priv) == Get(start, paths.priv) && forall s :: s in paths.stores ==> Get(f, s) == Get(start, s)
    }

    /** The new key is in place, the old one beside it, and each store is as it was or sealed anew. */
    ghost predicate After(f: Files) {
      && Get(f, paths.priv) == Some(KeyText(box, next))
      && Get(f, Bak(paths.priv, paths.suffix)) == Get(start, paths.priv)
      && forall s :: s in paths.stores ==> Get(f, s) == Get(start, s) || Renewed(f, s)
    }

    ghost predicate Renewed(f: Files, s: Name) {
      Filled(s) && Opened(box, f, s, next) == Opened(box, start, s, was)
    }

    /** The store holds a plaintext that is not empty. */
    predicate Filled(s: Name) {
      Opened(box, start, s, was).Some? && Opened(box, start, s, was) != Some("")
    }

    ghost predicate Safe(f: Files) { Before(f) || After(f) }

    /** Safe, and only the files of the rotation have been touched. */
    ghost predicate Kept(f: Files) { Safe(f) && SameBut(start, f, paths.Given() + paths.Derived()) }

    /** A file that was there is as it was, or its backup holds its old form. */
    ghost predicate Undoable(f: Files, n: Name) {
      n in start ==> Get(f, n) == Get(start, n) || Get(f, Bak(n, paths.suffix)) == Get(start, n)
    }

    /** The rotation can be undone by hand: so it is with both key files and every store listed once. */
    ghost predicate Revertible(f: Files) {
      && Undoable(f, paths.priv) && Undoable(f, paths.pub)
      && forall s :: s in paths.stores && multiset(paths.stores)[s] == 1 ==> Undoable(f, s)
    }

    ghost predicate Sound(f: Files) { Kept(f) && Revertible(f) }

    /**
     A store that `n` turns of the last loop have moved: its backup is its old
     form after the first turn, and the form of the turn before afterwards.
     */
    ghost predicate StoreAt(f: Files, s: Name, n: nat) {
      if n == 0 then Get(f, s) == Get(start, s)
      else
        && Renewed(f, s)
        && if n == 1 then Get(f, Bak(s, paths.suffix)) == Get(start, s)
           else Opened(box, f, Bak(s, paths.suffix), next) == Opened(box, start, s, was)
    }

    /** How often the last loop moves a store. */
    function Turns(s: Name): nat { if Filled(s) then multiset(paths.stores)[s] else 0 }

    /** A rotation that ran to its end. */
    ghost predicate Rotated(f: Files, pub: Key) {
      && After(f)
      && (forall s :: s in paths.stores ==> StoreAt(f, s, Turns(s)))
      && Get(f, paths.pub) == Some(KeyText(box, pub))
      && (paths.pub in start ==> Get(f, Bak(paths.pub, paths.suffix)) == Get(start, paths.pub))
    }
  }

  /** What the key in `keyPath` makes of a store. */
  function HeldBy(box: Box, f: Files, keyPath: Name, s: Name): Option<Bytes> {
    match KeyAt(box, f, keyPath)
    case Some(k) => Opened(box, f, s, k)
    case None => None
  }

  /** Each plaintext still opens with the key in place or the one in its backup. */
  ghost predicate Recoverable(box: Box, paths: Paths, start: Files, was: Key, f: Files) {
    forall s :: s in paths.stores && Opened(box, start, s, was).Some? ==>
      || HeldBy(box, f, paths.priv, s) == Opened(box, start, s, was)
      || HeldBy(box, f, Bak(paths.priv, paths.suffix), s) == Opened(box, start, s, was)
  }

  lemma SafeRecovers(job: Job, f: Files)
    requires job.Fits() && job.Safe(f)
    ensures Recoverable(job.box, job.paths, job.start, job.was, f)
    ensures KeyAt(job.box, f, job.paths.priv) in {Some(job.was), Some(job.next)}
  {
    hide TrimKey, Paths.Apart;
    var box, paths := job.box, job.paths;
    if job.Before(f) {
      SameKey(box, job.start, paths.priv, f, paths.priv);
    } else {
      WrittenKey(box, f, paths.priv, job.next);
      SameKey(box, job.start, paths.priv, f, Bak(paths.priv, paths.suffix));
    }
    forall s | s in paths.stores && Opened(box, job.start, s, job.was).Some?
      ensures || HeldBy(box, f, paths.priv, s) == Opened(box, job.start, s, job.was)
              || HeldBy(box, f, Bak(paths.priv, paths.suffix), s) == Opened(box, job.start, s, job.was)
    {
      if Get(f, s) == Get(job.start, s) { SameOpened(box, job.start, f, s, job.was); }
    }
  }

  lemma SameKey(box: Box, f: Files, p: Name, g: Files, q: Name)
    requires Get(f, p) == Get(g, q)
    ensures KeyAt(box, f, p) == KeyAt(box, g, q)
  {
  }

  lemma SameOpened(box: Box, f: Files, g: Files, s: Name, k: Key)
    requires Get(f, s) == Get(g, s)
    ensures Opened(box, f, s, k) == Opened(box, g, s, k)
  {
  }

  /** Files outside the key, its backup and the stores do not matter. */
  lemma SafeElsewhere(job: Job, f: Files, g: Files, names: set<Name>)
    requires SameBut(f, g, names)
    requires job.paths.priv !in names && forall s :: s in job.paths.stores ==> s !in names
    ensures job.Before(f) ==> job.Before(g)
    ensures job.After(f) && Bak(job.paths.priv, job.paths.suffix) !in names ==> job.After(g)
  {
    if job.After(f) && Bak(job.paths.priv, job.paths.suffix) !in names {
      forall s | s in job.paths.stores ensures Get(g, s) == Get(job.start, s) || job.Renewed(g, s) {
        SameOpened(job.box, f, g, s, job.next);
      }
    }
  }

  // ------------------------------------------------------------ the stores that have something to carry over

  datatype Payload = Payload(path: Name, plain: Bytes)

  /** What `Load` makes of a file: an empty plaintext comes back like a missing one. */
  function Content(box: Box, f: Files, path: Name, key: Key): Option<Bytes> {
    match Opened(box, f, path, key)
    case Some(p) => if p == "" then None else Some(p)
    case None => None
  }

  function Payloads(box: Box, f: Files, stores: seq<Name>, key: Key): seq<Payload> {
    if stores == [] then []
    else
      var front, last := Payloads(box, f, stores[..|stores| - 1], key), stores[|stores| - 1];
      match Content(box, f, last, key)
      case Some(p) => front + [Payload(last, p)]
      case None => front
  }

  /** Every payload is the content of a listed store. */
  lemma {:induction false} PayloadsFrom(box: Box, f: Files, stores: seq<Name>, key: Key, d: Payload)
    requires d in Payloads(box, f, stores, key)
    ensures d.path in stores && Content(box, f, d.path, key) == Some(d.plain)
    decreases |stores|
  {
    hide Content;
    var k := |stores| - 1;
    if d in Payloads(box, f, stores[..k], key) { PayloadsFrom(box, f, stores[..k], key, d); }
  }

  lemma {:induction false} PayloadsCount(box: Box, f: Files, stores: seq<Name>, key: Key, s: Name)
    ensures multiset(PathsOf(Payloads(box, f, stores, key)))[s] == if Content(box, f, s, key).Some? then multiset(stores)[s] else 0
    decreases |stores|
  {
    hide Content;
    if stores != [] {
      var k := |stores| - 1;
      var front, last := Payloads(box, f, stores[..k], key), stores[k];
      PayloadsCount(box, f, stores[..k], key, s);
      assert stores == stores[..k] + [last];
      PathsSnoc(front, last, if Content(box, f, last, key).Some? then Content(box, f, last, key).value else "");
    }
  }

  lemma PathsSnoc(ds: seq<Payload>, path: Name, plain: Bytes)
    ensures PathsOf(ds + [Payload(path, plain)]) == PathsOf(ds) + [path]
  {
  }

  /** Each store with content is carried as often as it is listed, with that content; no other is. */
  lemma PayloadsExact(box: Box, f: Files, stores: seq<Name>, key: Key)
    ensures var ds := Payloads(box, f, stores, key);
            && (forall i :: 0 <= i < |ds| ==> ds[i].path in stores && Content(box, f, ds[i].path, key) == Some(ds[i].plain))
            && (forall s :: multiset(PathsOf(ds))[s] == if Content(box, f, s, key).Some? then multiset(stores)[s] else 0)
  {
    hide Content, Payloads;
    var ds := Payloads(box, f, stores, key);
    forall i | 0 <= i < |ds| ensures ds[i].path in stores && Content(box, f, ds[i].path, key) == Some(ds[i].plain) {
      PayloadsFrom(box, f, stores, key, ds[i]);
    }
    forall s ensures multiset(PathsOf(Payloads(box, f, stores, key)))[s] == if Content(box, f, s, key).Some? then multiset(stores)[s] else 0 {
      PayloadsCount(box, f, stores, key, s);
    }
  }

  lemma {:induction false} PayloadsSame(box: Box, f: Files, g: Files, stores: seq<Name>, key: Key)
    requires forall s :: s in stores ==> Get(f, s) == Get(g, s)
    ensures Payloads(box, f, stores, key) == Payloads(box, g, stores, key)
    decreases |stores|
  {
    if stores != [] {
      PayloadsSame(box, f, g, stores[..|stores| - 1], key);
      SameOpened(box, f, g, stores[|stores| - 1], key);
    }
  }

  function PathsOf(ds: seq<Payload>): seq<Name> { seq(|ds|, i requires 0 <= i < |ds| => ds[i].path) }

  // ------------------------------------------------------------ the steps, on values

  /** The moment the private key is swapped. */
  lemma SwapStep(job: Job, f: Files, g: Files)
    requires job.Fits() && job.Before(f)
    requires Replaced(f, g, job.paths.priv, Bak(job.paths.priv, job.paths.suffix), New(job.paths.priv), KeyText(job.box, job.next))
    ensures job.After(g)
  {
    var names := {job.paths.priv, Bak(job.paths.priv, job.paths.suffix), New(job.paths.priv)};
    forall s | s in job.paths.stores ensures Get(g, s) == Get(job.start, s) { assert s !in names; }
  }

  /** The moment a store is swapped: one turn more for this store, and nothing for the others. */
  lemma StoreStep(job: Job, f: Files, g: Files, d: Payload, sealed: Bytes, nonce: nat, n: nat)
    requires job.Fits() && job.After(f) && d.path in job.paths.stores && job.StoreAt(f, d.path, n)
    requires Content(job.box, job.start, d.path, job.was) == Some(d.plain)
    requires job.box.seal(job.next, d.plain, nonce) == Some(sealed)
    requires Replaced(f, g, d.path, Bak(d.path, job.paths.suffix), Tmp(d.path), sealed)
    ensures job.StoreAt(g, d.path, n + 1)
  {
    assert Opened(job.box, g, d.path, job.next) == Some(d.plain);
    assert d.path in f;
    assert Get(g, Bak(d.path, job.paths.suffix)) == Get(f, d.path);
  }

  /** Other stores and the public key file stay as they are while one store is swapped. */
  lemma OthersStay(job: Job, f: Files, g: Files, d: Payload, sealed: Bytes, s: Name, n: nat)
    requires job.paths.Apart() && d.path in job.paths.stores && s in job.paths.stores + [job.paths.pub] && s != d.path
    requires Replaced(f, g, d.path, Bak(d.path, job.paths.suffix), Tmp(d.path), sealed)
    ensures Get(g, s) == Get(f, s) && Get(g, Bak(s, job.paths.suffix)) == Get(f, Bak(s, job.paths.suffix))
    ensures job.StoreAt(f, s, n) ==> job.StoreAt(g, s, n)
  {
    var paths := job.paths;
    SuffixesDiffer(s, d.path, paths.suffix);
    assert Bak(d.path, paths.suffix) in paths.Derived() && Tmp(d.path) in paths.Derived() && Bak(s, paths.suffix) in paths.Derived();
    assert s in paths.Given() && d.path in paths.Given();
    SameOpened(job.box, f, g, s, job.next);
  }

  /** So the rotation stays safe. */
  lemma StoreSafe(job: Job, f: Files, g: Files, d: Payload, sealed: Bytes)
    requires job.Fits() && job.After(f) && d.path in job.paths.stores && job.Renewed(g, d.path)
    requires Replaced(f, g, d.path, Bak(d.path, job.paths.suffix), Tmp(d.path), sealed)
    ensures job.After(g)
  {
    var paths := job.paths;
    SuffixesDiffer(paths.priv, d.path, paths.suffix);
    forall s | s in paths.stores ensures Get(g, s) == Get(job.start, s) || job.Renewed(g, s) {
      if s != d.path {
        OthersStay(job, f, g, d, sealed, s, 0);
        SameOpened(job.box, f, g, s, job.next);
      }
    }
  }

  // ------------------------------------------------------------ the operations

  /** `readKeyFile`: trailing line ends and spaces do not count. */
  method ReadKeyFile(disk: Store, box: Box, path: Name) returns (r: Option<Key>)
    ensures r.Some? ==> r == KeyAt(box, disk.files, path)
    ensures disk.steady ==> r == KeyAt(box, disk.files, path)
  {
    var data := disk.ReadFile(path);
    if data.Err? || data.value.None? { return None; }
    var s := data.value.value;
    while s != "" && Trimmed(s[|s| - 1])
      invariant TrimKey(s) == TrimKey(data.value.value)
      decreases |s|
    {
      s := s[..|s| - 1];
    }
    return box.decode(s);
  }

  /** `NewSealedFile` on a path that is not empty: the directory can be made or not. */
  method MkdirAll(disk: Store) returns (ok: bool)
    ensures disk.steady ==> ok
  {
    ok := *;
    ok := ok || disk.steady;
  }

  datatype SealedFile = SealedFile(path: Name, key: Key) {
    method Load(disk: Store, box: Box) returns (r: Result<Option<Bytes>, ()>)
      ensures r.Ok? ==> !Locked(box, disk.files, path, key) && r.value == Content(box, disk.files, path, key)
      ensures disk.steady ==> (r.Ok? <==> !Locked(box, disk.files, path, key))
    {
      var data := disk.ReadFile(path);
      if data.Err? { return Err(()); }
      if data.value.None? || data.value.value == "" { return Ok(None); }
      var plain := box.open(key, data.value.value);
      if plain.None? { return Err(()); }
      return Ok(if plain.value == "" then None else plain);
    }

    method Save(disk: Store, box: Box, plain: Bytes, nonce: nat) returns (ok: bool, ghost sealed: Bytes)
      requires disk.Valid()
      modifies disk
      ensures disk.Valid() && old(disk.past) <= disk.past
      ensures forall i :: |old(disk.past)| <= i < |disk.past| ==>
                SameBut(old(disk.files), disk.past[i], {Tmp(path)}) || (ok && disk.past[i] == disk.files)
      ensures ok ==> box.seal(key, plain, nonce) == Some(sealed) && Get(disk.files, path) == Some(sealed)
                     && SameBut(old(disk.files), disk.files, {path, Tmp(path)})
      ensures !ok ==> SameBut(old(disk.files), disk.files, {Tmp(path)})
      ensures ok ==> Emptied(disk.past, |old(disk.past)|, Tmp(path))
      ensures disk.steady && box.seal(key, plain, nonce).Some? ==> ok
    {
      sealed := "";
      var s := box.seal(key, plain, nonce);
      if s.None? { return false, ""; }
      sealed := s.value;
      ghost var n := |disk.past|;
      ok := disk.WriteAndRename(path, Tmp(path), s.value);
      if ok { EmptiedAt(disk.past, n, n, Tmp(path)); }
    }
  }

  /** A backup beside a file, and then another file in its place. */
  lemma BackedUp(f: Files, g: Files, h: Files, path: Name, bak: Name, tmp: Name, data: Bytes)
    requires bak != path && bak != tmp && SameBut(f, g, {bak}) && (path in f ==> Get(g, bak) == Some(f[path])) && SameBut(g, h, {path, tmp})
    ensures SameBut(f, g, {bak, tmp})
    ensures Get(h, path) == Some(data) ==> Replaced(f, h, path, bak, tmp, data)
    ensures forall k :: SameBut(g, k, {tmp}) ==> SameBut(f, k, {bak, tmp})
  {
  }

  /** `backupAndReplaceKey`. */
  method BackupAndReplaceKey(disk: Store, box: Box, path: Name, k: Key, suffix: string) returns (ok: bool)
    requires disk.Valid() && IsStamp(suffix)
    modifies disk
    ensures disk.Valid() && old(disk.past) <= disk.past
    ensures forall i :: |old(disk.past)| <= i < |disk.past| ==>
              SameBut(old(disk.files), disk.past[i], {Bak(path, suffix), New(path)}) || (ok && disk.past[i] == disk.files)
    ensures ok ==> Replaced(old(disk.files), disk.files, path, Bak(path, suffix), New(path), KeyText(box, k))
    ensures !ok ==> SameBut(old(disk.files), disk.files, {Bak(path, suffix), New(path)})
    ensures ok ==> Emptied(disk.past, |old(disk.past)|, New(path))
    ensures ok && path in old(disk.files) ==> Emptied(disk.past, |old(disk.past)|, Bak(path, suffix))
    ensures disk.steady ==> ok
  {
    hide SameBut, Replaced, Emptied;
    ghost var m, f := |disk.past|, disk.files;
    SuffixesDiffer(path, path, suffix);
    NothingChanged(f);
    var there := disk.Exists(path);
    if there {
      var copied := disk.CopyFile(path, Bak(path, suffix));
      Wider(f, {Bak(path, suffix)}, {Bak(path, suffix), New(path)});
      if !copied { return false; }
      EmptiedAt(disk.past, m, m, Bak(path, suffix));
    }
    ghost var before, g := disk.past, disk.files;
    ok := disk.WriteAndRename(path, New(path), box.encode(k) + "\n");
    if ok { EmptiedAt(disk.past, m, |before|, New(path)); }
    EmptiedStays(before, disk.past, m, m, Bak(path, suffix));
    Wider(g, {New(path)}, {path, New(path)});
    Wider(f, {}, {Bak(path, suffix)});
    BackedUp(f, g, disk.files, path, Bak(path, suffix), New(path), KeyText(box, k));
  }

  lemma NothingChanged(f: Files)
    ensures SameBut(f, f, {})
  {
  }

  lemma Wider(f: Files, names: set<Name>, more: set<Name>)
    requires names <= more
    ensures forall g :: SameBut(f, g, names) ==> SameBut(f, g, more)
  {
  }

  /** One turn of the last loop of `Rotate`: back the store up, then seal it anew. */
  method RewrapStore(disk: Store, box: Box, d: Payload, key: Key, suffix: string, nonce: nat) returns (ok: bool, ghost sealed: Bytes)
    requires disk.Valid() && IsStamp(suffix)
    modifies disk
    ensures disk.Valid() && old(disk.past) <= disk.past
    ensures forall i :: |old(disk.past)| <= i < |disk.past| ==>
              SameBut(old(disk.files), disk.past[i], {Bak(d.path, suffix), Tmp(d.path)}) || (ok && disk.past[i] == disk.files)
    ensures ok ==> box.seal(key, d.plain, nonce) == Some(sealed)
                   && Replaced(old(disk.files), disk.files, d.path, Bak(d.path, suffix), Tmp(d.path), sealed)
    ensures !ok ==> SameBut(old(disk.files), disk.files, {Bak(d.path, suffix), Tmp(d.path)})
    ensures ok ==> Emptied(disk.past, |old(disk.past)|, Bak(d.path, suffix)) && Emptied(disk.past, |old(disk.past)|, Tmp(d.path))
    ensures disk.steady && d.path in old(disk.files) && box.seal(key, d.plain, nonce).Some? ==> ok
  {
    hide SameBut, Replaced, Emptied;
    SuffixesDiffer(d.path, d.path, suffix);
    sealed := "";
    ghost var n, f := |disk.past|, disk.files;
    NothingChanged(f);
    ok := disk.CopyFile(d.path, Bak(d.path, suffix));
    Wider(f, {Bak(d.path, suffix)}, {Bak(d.path, suffix), Tmp(d.path)});
    if !ok { return; }
    EmptiedAt(disk.past, n, n, Bak(d.path, suffix));
    ghost var before, g := disk.past, disk.files;
    ok := MkdirAll(disk);
    if !ok { return; }
    ok, sealed := SealedFile(d.path, key).Save(disk, box, d.plain, nonce);
    EmptiedStays(before, disk.past, n, n, Bak(d.path, suffix));
    EmptiedStays(disk.past, disk.past, |before|, n, Tmp(d.path));
    Wider(g, {Tmp(d.path)}, {d.path, Tmp(d.path)});
    BackedUp(f, g, disk.files, d.path, Bak(d.path, suffix), Tmp(d.path), sealed);
  }

  /** Work on files that are neither keys in use nor stores keeps the rotation safe. */
  lemma KeptElsewhere(job: Job, f: Files, g: Files, names: set<Name>)
    requires job.Fits() && job.Kept(f) && SameBut(f, g, names)
    requires names <= job.paths.Derived() + {job.paths.pub}
    requires job.Before(f) || Bak(job.paths.priv, job.paths.suffix) !in names
    ensures job.Kept(g) && (job.After(f) && Bak(job.paths.priv, job.paths.suffix) !in names ==> job.After(g))
  {
    hide Job.Before, Job.After;
    SafeElsewhere(job, f, g, names);
  }

  /** Work on one file, its backup and what serves on the way leaves the others undoable. */
  lemma RevertibleStep(job: Job, f: Files, g: Files, path: Name)
    requires job.paths.Apart() && job.Revertible(f) && path in job.paths.Given()
    requires path !in job.paths.stores ==> SameBut(f, g, {path, Bak(path, job.paths.suffix), New(path)})
    requires path in job.paths.stores ==> SameBut(f, g, {path, Bak(path, job.paths.suffix), Tmp(path)})
    requires path in {job.paths.priv, job.paths.pub} || multiset(job.paths.stores)[path] == 1 ==> job.Undoable(g, path)
    ensures job.Revertible(g)
  {
    forall n | n in job.paths.Given() && n != path ensures job.Undoable(f, n) ==> job.Undoable(g, n) { UndoableStays(job, f, g, path, n); }
  }

  lemma UndoableStays(job: Job, f: Files, g: Files, path: Name, n: Name)
    requires job.paths.Apart() && path in job.paths.Given() && n in job.paths.Given() && n != path
    requires path !in job.paths.stores ==> SameBut(f, g, {path, Bak(path, job.paths.suffix), New(path)})
    requires path in job.paths.stores ==> SameBut(f, g, {path, Bak(path, job.paths.suffix), Tmp(path)})
    ensures job.Undoable(f, n) ==> job.Undoable(g, n)
  {
    var paths := job.paths;
    SuffixesDiffer(n, path, paths.suffix);
    MadeUpIsDerived(paths, n);
    MadeUpIsDerived(paths, path);
  }

  lemma MadeUpIsDerived(paths: Paths, n: Name)
    requires n in paths.Given()
    ensures Bak(n, paths.suffix) in paths.Derived()
    ensures n in paths.stores ==> Tmp(n) in paths.Derived()
    ensures n !in paths.stores ==> New(n) in paths.Derived()
  {
  }

  datatype Loaded = Loaded(key: Key, generated: bool)

  /** There is a key to load, or none yet and one to write. */
  ghost predicate CanLoad(box: Box, f: Files, priv: Name, pub: Name, made: Option<KeyPair>) {
    && priv != "" && pub != ""
    && if priv in f then KeyAt(box, f, priv).Some? && box.public(KeyAt(box, f, priv).value).Some?
       else made.Some? && box.public(made.value.priv).Some?
  }

  /** `LoadOrGenerate`. */
  method LoadOrGenerate(disk: Store, box: Box, priv: Name, pub: Name, made: Option<KeyPair>) returns (r: Result<Loaded, ()>)
    requires disk.Valid()
    modifies disk
    ensures disk.Valid() && old(disk.past) <= disk.past
    ensures forall i :: |old(disk.past)| <= i < |disk.past| ==>
              SameBut(old(disk.files), disk.past[i],
                      if priv !in old(disk.files) then {priv, pub} else if pub !in old(disk.files) then {pub} else {})
    ensures SameBut(old(disk.files), disk.files,
                    if priv !in old(disk.files) then {priv, pub} else if pub !in old(disk.files) then {pub} else {})
    ensures r.Ok? ==> (r.value.generated <==> priv !in old(disk.files)) && box.public(r.value.key).Some?
    ensures r.Ok? && !r.value.generated ==> KeyAt(box, old(disk.files), priv) == Some(r.value.key) && pub in disk.files
    ensures r.Ok? ==> CanLoad(box, old(disk.files), priv, pub, made)
    ensures disk.steady && CanLoad(box, old(disk.files), priv, pub, made) ==> r.Ok?
    // a new pair is written and returned; of a pair that is there only the missing public half is written
    ensures r.Ok? && r.value.generated && priv != pub ==>
              && made.Some? && r.value.key == made.value.priv
              && Get(disk.files, priv) == Some(box.encode(made.value.priv) + "\n") && Get(disk.files, pub) == Some(box.encode(made.value.pub) + "\n")
    ensures r.Ok? && !r.value.generated ==>
              Get(disk.files, pub) == if pub in old(disk.files) then Get(old(disk.files), pub) else Some(box.encode(box.public(r.value.key).value) + "\n")
  {
    if priv == "" || pub == "" { return Err(()); }
    var there := disk.Exists(priv);
    if there {
      var k := ReadKeyFile(disk, box, priv);
      if k.None? { return Err(()); }
      var p := box.public(k.value);
      if p.None? { return Err(()); }
      var known := disk.Exists(pub);
      if !known {
        var written := disk.WriteFile(pub, KeyText(box, p.value));
        if !written { return Err(()); }
      }
      return Ok(Loaded(k.value, false));
    }
    if made.None? { return Err(()); }
    var dir := MkdirAll(disk);
    if !dir { return Err(()); }
    var written := disk.WriteFile(priv, KeyText(box, made.value.priv));
    if !written { return Err(()); }
    dir := MkdirAll(disk);
    if !dir { return Err(()); }
    written := disk.WriteFile(pub, KeyText(box, made.value.pub));
    if !written || box.public(made.value.priv).None? { return Err(()); }
    return Ok(Loaded(made.value.priv, true));
  }

  /** The first loop of `Rotate`: open every store with the old key before anything is touched. */
  method OpenAll(disk: Store, box: Box, key: Key, stores: seq<Name>) returns (r: Result<seq<Payload>, RotateError>)
    ensures r.Ok? ==> r.value == Payloads(box, disk.files, stores, key)
    ensures r.Ok? ==> forall s :: s in stores ==> s != "" && !Locked(box, disk.files, s, key)
    ensures disk.steady && (forall s :: s in stores ==> s != "" && !Locked(box, disk.files, s, key)) ==> r.Ok?
    ensures r.Err? ==> && r.error.StoreUnusable? && r.error.path in stores
                       && (disk.steady ==> r.error.path == "" || Locked(box, disk.files, r.error.path, key))
  {
    var found := [];
    for i := 0 to |stores|
      invariant found == Payloads(box, disk.files, stores[..i], key)
      invariant forall j :: 0 <= j < i ==> stores[j] != "" && !Locked(box, disk.files, stores[j], key)
    {
      PrefixStep(stores, i);
      assert stores[i] in stores;
      if stores[i] == "" { return Err(StoreUnusable(stores[i])); }
      var made := MkdirAll(disk);
      if !made { return Err(StoreUnusable(stores[i])); }
      var plain := SealedFile(stores[i], key).Load(disk, box);
      if plain.Err? { return Err(StoreUnusable(stores[i])); }
      if plain.value.Some? {
        found := found + [Payload(stores[i], plain.value.value)];
      }
    }
    PrefixAll(stores);
    return Ok(found);
  }

  /** Both key files are swapped, the private one first. */
  method SwapKeys(disk: Store, box: Box, paths: Paths, pair: KeyPair, ghost job: Job) returns (ok: bool)
    requires disk.Valid() && IsStamp(paths.suffix) && job.box == box && job.paths == paths && job.next == pair.priv
    requires job.Fits() ==> job.Before(disk.files) && job.Sound(disk.files)
    requires paths.pub in job.start ==> Get(disk.files, paths.pub) == Get(job.start, paths.pub)
    modifies disk
    ensures disk.Valid() && old(disk.past) <= disk.past
    ensures job.Fits() ==> forall i :: |old(disk.past)| <= i < |disk.past| ==> job.Sound(disk.past[i])
    ensures ok && job.Fits() ==>
              && job.After(disk.files) && job.Sound(disk.files) && (forall s :: s in paths.stores ==> Get(disk.files, s) == Get(job.start, s))
              && Get(disk.files, paths.pub) == Some(KeyText(box, pair.pub))
              && (paths.pub in old(disk.files) ==> Get(disk.files, Bak(paths.pub, paths.suffix)) == Get(old(disk.files), paths.pub))
    ensures ok && paths.priv in old(disk.files) && paths.pub in old(disk.files) ==>
              forall x :: KeyName(paths, x) ==> Emptied(disk.past, |old(disk.past)|, x)
    ensures disk.steady ==> ok
  {
    hide Job.After, Job.Before, Job.Sound, Job.Fits, Emptied;
    ghost var f0 := disk.files;
    ok := BackupAndReplaceKey(disk, box, paths.priv, pair.priv, paths.suffix);
    ghost var n1, f1 := |disk.past|, disk.files;
    if job.Fits() {
      PrivSteps(job, f0, f1, ok);
      forall i | |old(disk.past)| <= i < n1 ensures job.Sound(disk.past[i]) {
        if !(ok && disk.past[i] == f1) { PrivSteps(job, f0, disk.past[i], false); }
      }
    }
    if !ok { return; }
    ghost var before := disk.past;
    ok := BackupAndReplaceKey(disk, box, paths.pub, pair.pub, paths.suffix);
    if ok && paths.priv in f0 && paths.pub in f0 {
      PubStillThere(paths, f0, f1, KeyText(box, pair.priv));
      forall x | KeyName(paths, x) ensures Emptied(disk.past, |old(disk.past)|, x) {
        EmptiedStays(before, disk.past, |old(disk.past)|, |old(disk.past)|, x);
        EmptiedStays(disk.past, disk.past, |before|, |old(disk.past)|, x);
      }
    }
    if job.Fits() {
      PubUntouched(job, f0, f1);
      PubSteps(job, f1, disk.files, ok, pair.pub);
      forall i | n1 <= i < |disk.past| ensures job.Sound(disk.past[i]) {
        if !(ok && disk.past[i] == disk.files) { PubSteps(job, f1, disk.past[i], false, pair.pub); }
      }
      if ok { PubSwapped(job, f0, f1, disk.files, pair.pub); }
    }
  }

  lemma PrivSteps(job: Job, f: Files, g: Files, done: bool)
    requires job.Fits() && job.Sound(f) && job.Before(f)
    requires if done then Replaced(f, g, job.paths.priv, Bak(job.paths.priv, job.paths.suffix), New(job.paths.priv), KeyText(job.box, job.next))
             else SameBut(f, g, {Bak(job.paths.priv, job.paths.suffix), New(job.paths.priv)})
    ensures job.Sound(g) && (done ==> job.After(g))
  {
    hide Job.Revertible;
    if done { SwapStep(job, f, g); }
    else { KeptElsewhere(job, f, g, {Bak(job.paths.priv, job.paths.suffix), New(job.paths.priv)}); }
    RevertibleStep(job, f, g, job.paths.priv);
  }

  lemma PubSteps(job: Job, f: Files, g: Files, done: bool, pub: Key)
    requires job.Fits() && job.Sound(f) && job.After(f)
    requires job.paths.pub in job.start ==> Get(f, job.paths.pub) == Get(job.start, job.paths.pub)
    requires if done then Replaced(f, g, job.paths.pub, Bak(job.paths.pub, job.paths.suffix), New(job.paths.pub), KeyText(job.box, pub))
             else SameBut(f, g, {Bak(job.paths.pub, job.paths.suffix), New(job.paths.pub)})
    ensures job.Sound(g) && job.After(g)
  {
    hide Job.After, Job.Before, Job.Kept, Job.Revertible;
    var paths := job.paths;
    var names := {paths.pub, Bak(paths.pub, paths.suffix), New(paths.pub)};
    SuffixesDiffer(paths.priv, paths.pub, paths.suffix);
    assert SameBut(f, g, names);
    KeptElsewhere(job, f, g, names);
    RevertibleStep(job, f, g, paths.pub);
  }

  /** The names that swapping the keys makes up and empties. */
  ghost predicate KeyName(paths: Paths, x: Name) {
    x in {New(paths.priv), New(paths.pub), Bak(paths.priv, paths.suffix)}
    || (x == Bak(paths.pub, paths.suffix) && paths.pub != New(paths.priv))
  }

  lemma PubStillThere(paths: Paths, f: Files, g: Files, text: Bytes)
    requires paths.pub in f && paths.priv in f
    requires Replaced(f, g, paths.priv, Bak(paths.priv, paths.suffix), New(paths.priv), text)
    ensures paths.pub != New(paths.priv) ==> paths.pub in g
  {
    if paths.pub !in {paths.priv, Bak(paths.priv, paths.suffix), New(paths.priv)} { assert Get(g, paths.pub) == Get(f, paths.pub); }
  }

  lemma PubUntouched(job: Job, f: Files, g: Files)
    requires job.Fits() && Replaced(f, g, job.paths.priv, Bak(job.paths.priv, job.paths.suffix), New(job.paths.priv), KeyText(job.box, job.next))
    ensures Get(g, job.paths.pub) == Get(f, job.paths.pub)
  {
    assert job.paths.pub !in {job.paths.priv, Bak(job.paths.priv, job.paths.suffix), New(job.paths.priv)};
  }

  lemma PubSwapped(job: Job, f0: Files, f1: Files, g: Files, pub: Key)
    requires job.Fits() && job.Before(f0)
    requires Replaced(f0, f1, job.paths.priv, Bak(job.paths.priv, job.paths.suffix), New(job.paths.priv), KeyText(job.box, job.next))
    requires Replaced(f1, g, job.paths.pub, Bak(job.paths.pub, job.paths.suffix), New(job.paths.pub), KeyText(job.box, pub))
    ensures forall s :: s in job.paths.stores ==> Get(g, s) == Get(job.start, s)
    ensures Get(g, job.paths.pub) == Some(KeyText(job.box, pub))
    ensures job.paths.pub in f0 ==> Get(g, Bak(job.paths.pub, job.paths.suffix)) == Get(f0, job.paths.pub)
  {
    var paths := job.paths;
    var names := {paths.priv, Bak(paths.priv, paths.suffix), New(paths.priv)} + {paths.pub, Bak(paths.pub, paths.suffix), New(paths.pub)};
    forall s | s in paths.stores ensures Get(g, s) == Get(job.start, s) { assert s !in names; }
    assert paths.pub !in {paths.priv, Bak(paths.priv, paths.suffix), New(paths.priv)};
  }

  /**
   After a complete rotation: the new key is in place and the old one in its
   backup; every store with a plaintext that is not empty opens to it under
   the new key. Its backup opens to it as well, under the old key if the store
   was listed once, and under the new one if it was listed repeatedly.
   */
  lemma RotatedOpens(job: Job, f: Files, pub: Key)
    requires job.Fits() && job.Rotated(f, pub)
    ensures KeyAt(job.box, f, job.paths.priv) == Some(job.next)
    ensures KeyAt(job.box, f, Bak(job.paths.priv, job.paths.suffix)) == Some(job.was)
    ensures KeyAt(job.box, f, job.paths.pub) == Some(pub)
    ensures forall s :: s in job.paths.stores && job.Filled(s) ==>
              && Opened(job.box, f, s, job.next) == Opened(job.box, job.start, s, job.was)
              && Opened(job.box, f, Bak(s, job.paths.suffix), if multiset(job.paths.stores)[s] == 1 then job.was else job.next)
                 == Opened(job.box, job.start, s, job.was)
  {
    hide TrimKey, Paths.Apart, Job.After;
    assert job.After(f);
    KeysAfter(job, f);
    WrittenKey(job.box, f, job.paths.pub, pub);
    forall s | s in job.paths.stores && job.Filled(s) ensures job.StoreAt(f, s, multiset(job.paths.stores)[s]) && multiset(job.paths.stores)[s] > 0 {}
  }

  lemma KeysAfter(job: Job, f: Files)
    requires job.Fits() && job.After(f)
    ensures KeyAt(job.box, f, job.paths.priv) == Some(job.next)
    ensures KeyAt(job.box, f, Bak(job.paths.priv, job.paths.suffix)) == Some(job.was)
  {
    hide TrimKey, Paths.Apart;
    WrittenKey(job.box, f, job.paths.priv, job.next);
    SameKey(job.box, f, Bak(job.paths.priv, job.paths.suffix), job.start, job.paths.priv);
  }

  /** The backup of a store opens under the old key exactly if the store was listed once: a second turn backs up the new form. */
  lemma BackupExactly(job: Job, f: Files, pub: Key, s: Name)
    requires job.Fits() && job.Rotated(f, pub) && s in job.paths.stores && job.Filled(s)
    requires forall c :: job.box.open(job.next, c).Some? ==> job.box.open(job.was, c).None?
    ensures Opened(job.box, f, Bak(s, job.paths.suffix), job.was) == Opened(job.box, job.start, s, job.was)
            <==> multiset(job.paths.stores)[s] == 1
  {
    hide Job.After, TrimKey, Paths.Apart;
    RotatedOpens(job, f, pub);
  }

  /**
   The store of an empty plaintext is passed over: it stays under the old key.
   A store that opened before opens to the same plaintext under the new key
   exactly if that plaintext is not empty.
   */
  lemma MovedExactly(job: Job, f: Files, pub: Key, s: Name)
    requires job.Fits() && job.Rotated(f, pub) && s in job.paths.stores
    requires Opened(job.box, job.start, s, job.was).Some? && job.box.open(job.next, job.start[s]).None?
    ensures Opened(job.box, f, s, job.next) == Opened(job.box, job.start, s, job.was)
            <==> Opened(job.box, job.start, s, job.was) != Some("")
  {
    assert job.StoreAt(f, s, job.Turns(s));
    if !job.Filled(s) { SameOpened(job.box, f, job.start, s, job.next); }
  }

  lemma RewrapStep(job: Job, f: Files, g: Files, d: Payload, sealed: Bytes, done: bool)
    requires job.Fits() && job.Sound(f) && job.After(f) && d.path in job.paths.stores
    requires multiset(job.paths.stores)[d.path] == 1 ==> Get(f, d.path) == Get(job.start, d.path)
    requires if done then job.Renewed(g, d.path) && Replaced(f, g, d.path, Bak(d.path, job.paths.suffix), Tmp(d.path), sealed)
             else SameBut(f, g, {Bak(d.path, job.paths.suffix), Tmp(d.path)})
    ensures job.Sound(g) && job.After(g)
  {
    hide Job.Before, Job.After, Content, Job.Revertible;
    var paths := job.paths;
    SuffixesDiffer(paths.priv, d.path, paths.suffix);
    if done { StoreSafe(job, f, g, d, sealed); }
    else { KeptElsewhere(job, f, g, {Bak(d.path, paths.suffix), Tmp(d.path)}); }
    RevertibleStep(job, f, g, d.path);
  }

  /** After the first `k` turns every store is where its turns have brought it. */
  ghost predicate Progress(job: Job, f: Files, ds: seq<Payload>, k: nat, pub: Key)
    requires k <= |ds|
  {
    && job.After(f) && job.Sound(f) && PubDone(job, f, pub)
    && forall s :: s in job.paths.stores ==> job.StoreAt(f, s, multiset(PathsOf(ds[..k]))[s])
  }

  ghost predicate PubDone(job: Job, f: Files, pub: Key) {
    Get(f, job.paths.pub) == Some(KeyText(job.box, pub))
    && (job.paths.pub in job.start ==> Get(f, Bak(job.paths.pub, job.paths.suffix)) == Get(job.start, job.paths.pub))
  }

  ghost predicate BothEmptied(past: seq<Files>, n: nat, paths: Paths, s: Name) {
    Emptied(past, n, Bak(s, paths.suffix)) && Emptied(past, n, Tmp(s))
  }

  /** Sealing under this key never fails. */
  ghost predicate SealsAll(box: Box, key: Key) { forall m, n :: box.seal(key, m, n).Some? }

  lemma StillThere(job: Job, f: Files, ds: seq<Payload>, k: nat, pub: Key)
    requires k < |ds| && ds == Payloads(job.box, job.start, job.paths.stores, job.was) && Progress(job, f, ds, k, pub)
    ensures ds[k].path in f
  {
    hide Payloads, Job.After, Job.Sound;
    PayloadsExact(job.box, job.start, job.paths.stores, job.was);
    assert job.StoreAt(f, ds[k].path, multiset(PathsOf(ds[..k]))[ds[k].path]);
  }

  /** The last loop of `Rotate`. */
  method RewrapAll(disk: Store, box: Box, paths: Paths, ds: seq<Payload>, key: Key, nonces: nat -> nat, ghost job: Job, ghost pub: Key)
    returns (rewrapped: seq<Name>, err: Option<RotateError>)
    requires disk.Valid() && IsStamp(paths.suffix) && job.box == box && job.paths == paths && job.next == key
    requires job.Fits() ==> ds == Payloads(box, job.start, paths.stores, job.was) && Progress(job, disk.files, ds, 0, pub)
    modifies disk
    ensures disk.Valid() && old(disk.past) <= disk.past
    ensures job.Fits() ==> forall i :: |old(disk.past)| <= i < |disk.past| ==> job.Sound(disk.past[i])
    ensures err.None? ==> rewrapped == PathsOf(ds)
    ensures err.Some? ==> err.value.RewrapFailed? && rewrapped + [err.value.path] <= PathsOf(ds)
    ensures err.None? && job.Fits() ==> job.Rotated(disk.files, pub)
    ensures err.None? ==> forall j :: 0 <= j < |ds| ==> BothEmptied(disk.past, |old(disk.past)|, paths, ds[j].path)
    ensures disk.steady && job.Fits() && SealsAll(box, key) ==> err.None?
  {
    hide Job.Sound, Job.Fits, Replaced, Payloads, Progress, Job.Rotated, Emptied;
    rewrapped, err := [], None;
    for k := 0 to |ds|
      invariant disk.Valid() && old(disk.past) <= disk.past && err.None?
      invariant job.Fits() ==> forall i :: |old(disk.past)| <= i < |disk.past| ==> job.Sound(disk.past[i])
      invariant rewrapped == PathsOf(ds[..k])
      invariant job.Fits() ==> Progress(job, disk.files, ds, k, pub)
      invariant forall j :: 0 <= j < k ==> BothEmptied(disk.past, |old(disk.past)|, paths, ds[j].path)
    {
      ghost var before := disk.past;
      ghost var f0, n0 := disk.files, |disk.past|;
      var d := ds[k];
      var ok;
      ghost var sealed;
      ok, sealed := RewrapStore(disk, box, d, key, paths.suffix, nonces(k));
      if job.Fits() {
        StillThere(job, f0, ds, k, pub);
        OneTurn(job, f0, disk.files, ds, k, sealed, nonces(k), ok, pub);
        forall i | n0 <= i < |disk.past| ensures job.Sound(disk.past[i]) {
          if !(ok && disk.past[i] == disk.files) { OneTurn(job, f0, disk.past[i], ds, k, sealed, nonces(k), false, pub); }
        }
      }
      if !ok {
        PrefixStep(ds, k);
        assert rewrapped + [d.path] <= PathsOf(ds);
        return rewrapped, Some(RewrapFailed(d.path));
      }
      forall j | 0 <= j < k + 1 ensures BothEmptied(disk.past, |old(disk.past)|, paths, ds[j].path) {
        var m := if j < k then |old(disk.past)| else |before|;
        var was := if j < k then before else disk.past;
        EmptiedStays(was, disk.past, m, |old(disk.past)|, Bak(ds[j].path, paths.suffix));
        EmptiedStays(was, disk.past, m, |old(disk.past)|, Tmp(ds[j].path));
      }
      rewrapped := rewrapped + [d.path];
      PrefixStep(ds, k);
    }
    PrefixAll(ds);
    if job.Fits() { Finished(job, disk.files, ds, pub); }
  }

  lemma OneTurn(job: Job, f: Files, g: Files, ds: seq<Payload>, k: nat, sealed: Bytes, nonce: nat, done: bool, pub: Key)
    requires job.Fits() && k < |ds| && ds == Payloads(job.box, job.start, job.paths.stores, job.was) && Progress(job, f, ds, k, pub)
    requires if done then
               job.box.seal(job.next, ds[k].plain, nonce) == Some(sealed)
               && Replaced(f, g, ds[k].path, Bak(ds[k].path, job.paths.suffix), Tmp(ds[k].path), sealed)
             else SameBut(f, g, {Bak(ds[k].path, job.paths.suffix), Tmp(ds[k].path)})
    ensures job.Sound(g)
    ensures done ==> Progress(job, g, ds, k + 1, pub)
  {
    hide Job.After, Job.Before, Job.Sound, Job.StoreAt, Replaced, Payloads, Content, Job.Filled, Job.Renewed, PubDone, Paths.Apart;
    PayloadsExact(job.box, job.start, job.paths.stores, job.was);
    var d := ds[k];
    if done { StoresTurn(job, f, g, ds, k, sealed, nonce, pub); }
    FirstTurn(job, f, ds, k, pub);
    RewrapStep(job, f, g, d, sealed, done);
  }

  /** A store listed once is as it was when its turn comes. */
  lemma FirstTurn(job: Job, f: Files, ds: seq<Payload>, k: nat, pub: Key)
    requires k < |ds| && Progress(job, f, ds, k, pub) && ds[k].path in job.paths.stores
    requires multiset(PathsOf(ds))[ds[k].path] <= multiset(job.paths.stores)[ds[k].path]
    ensures multiset(job.paths.stores)[ds[k].path] == 1 ==> Get(f, ds[k].path) == Get(job.start, ds[k].path)
  {
    hide Job.After, Job.Sound, PubDone;
    assert PathsOf(ds) == PathsOf(ds[..k]) + [ds[k].path] + PathsOf(ds[k + 1..]);
  }

  /** One turn on, store by store. */
  lemma StoresTurn(job: Job, f: Files, g: Files, ds: seq<Payload>, k: nat, sealed: Bytes, nonce: nat, pub: Key)
    requires job.Fits() && k < |ds| && Progress(job, f, ds, k, pub)
    requires ds[k].path in job.paths.stores && Content(job.box, job.start, ds[k].path, job.was) == Some(ds[k].plain)
    requires job.box.seal(job.next, ds[k].plain, nonce) == Some(sealed)
    requires Replaced(f, g, ds[k].path, Bak(ds[k].path, job.paths.suffix), Tmp(ds[k].path), sealed)
    ensures job.Renewed(g, ds[k].path) && PubDone(job, g, pub)
    ensures forall s :: s in job.paths.stores ==> job.StoreAt(g, s, multiset(PathsOf(ds[..k + 1]))[s])
  {
    hide Job.After, Job.Before, Job.Sound, Job.StoreAt, Replaced, Content, Job.Filled, Job.Renewed;
    var d, turns := ds[k], multiset(PathsOf(ds[..k]));
    PrefixStep(ds, k);
    assert PathsOf(ds[..k + 1]) == PathsOf(ds[..k]) + [d.path];
    StoreStep(job, f, g, d, sealed, nonce, turns[d.path]);
    AtRenewed(job, g, d.path, turns[d.path] + 1);
    OthersStay(job, f, g, d, sealed, job.paths.pub, 0);
    forall s | s in job.paths.stores ensures job.StoreAt(g, s, multiset(PathsOf(ds[..k + 1]))[s]) {
      if s != d.path { OthersStay(job, f, g, d, sealed, s, turns[s]); }
    }
  }

  lemma AtRenewed(job: Job, f: Files, s: Name, n: nat)
    requires n > 0 && job.StoreAt(f, s, n)
    ensures job.Renewed(f, s)
  {
  }

  lemma Finished(job: Job, f: Files, ds: seq<Payload>, pub: Key)
    requires job.Fits() && ds == Payloads(job.box, job.start, job.paths.stores, job.was) && Progress(job, f, ds, |ds|, pub)
    ensures job.Rotated(f, pub)
  {
    hide Job.After, Job.StoreAt, Payloads, Job.Fits, Job.Sound;
    PayloadsExact(job.box, job.start, job.paths.stores, job.was);
    PrefixAll(ds);
    assert forall s :: job.Filled(s) <==> Content(job.box, job.start, s, job.was).Some?;
  }

  // ------------------------------------------------------------ rotation

  /** Wherever the process stops after the first `n` states, nothing is lost. */
  ghost predicate NothingLost(past: seq<Files>, n: nat, job: Job) {
    forall i :: n <= i < |past| ==>
      && Recoverable(job.box, job.paths, job.start, job.was, past[i])
      && KeyAt(job.box, past[i], job.paths.priv) in {Some(job.was), Some(job.next)}
      && SameBut(job.start, past[i], job.paths.Given() + job.paths.Derived())
      && job.Revertible(past[i])
  }

  ghost predicate OnlyTouched(past: seq<Files>, n: nat, start: Files, names: set<Name>) {
    forall i :: n <= i < |past| ==> SameBut(start, past[i], names)
  }

  /** A public key file that is missing is written on the way in. */
  function Missing(f: Files, path: Name): set<Name> { if path in f then {} else {path} }

  lemma SoundIsSafe(job: Job, past: seq<Files>, n: nat)
    requires job.Fits() && forall i :: n <= i < |past| ==> job.Sound(past[i])
    ensures NothingLost(past, n, job)
  {
    hide Job.Fits, Job.Safe, Recoverable;
    forall i | n <= i < |past|
      ensures Recoverable(job.box, job.paths, job.start, job.was, past[i])
      ensures KeyAt(job.box, past[i], job.paths.priv) in {Some(job.was), Some(job.next)}
    {
      SafeRecovers(job, past[i]);
    }
  }

  lemma TouchedIsSound(job: Job, f: Files)
    requires job.Fits() && SameBut(job.start, f, Missing(job.start, job.paths.pub))
    ensures job.Before(f) && job.Sound(f)
  {
  }

  /** What was locked still is; on paths that are apart the stores carry what they carried. */
  lemma LockedSame(job: Job, f: Files)
    requires SameBut(job.start, f, Missing(job.start, job.paths.pub))
    ensures forall s :: Locked(job.box, job.start, s, job.was) ==> Locked(job.box, f, s, job.was)
    ensures job.Fits() ==> Payloads(job.box, f, job.paths.stores, job.was) == Payloads(job.box, job.start, job.paths.stores, job.was)
  {
    forall s | Locked(job.box, job.start, s, job.was) ensures Locked(job.box, f, s, job.was) { assert Get(f, s) == Get(job.start, s); }
    if job.Fits() {
      TouchedIsSound(job, f);
      PayloadsSame(job.box, f, job.start, job.paths.stores, job.was);
    }
  }

  lemma NoneLocked(job: Job, f: Files)
    requires job.Fits() && SameBut(job.start, f, Missing(job.start, job.paths.pub))
    ensures !SomeLocked(job.box, job.paths, job.start, job.was) ==> forall s :: s in job.paths.stores ==> !Locked(job.box, f, s, job.was)
  {
    if !SomeLocked(job.box, job.paths, job.start, job.was) {
      forall s | s in job.paths.stores ensures !Locked(job.box, f, s, job.was) {
        assert Get(f, s) == Get(job.start, s);
        assert !Locked(job.box, job.start, s, job.was);
      }
    }
  }

  /** What there must be for a rotation to succeed. */
  ghost predicate CanRotate(box: Box, paths: Paths, start: Files, second: Option<KeyPair>) {
    && paths.priv != "" && paths.pub != "" && "" !in paths.stores
    && KeyAt(box, start, paths.priv).Some? && box.public(KeyAt(box, start, paths.priv).value).Some?
    && second.Some? && box.public(second.value.priv).Some?
    && !SomeLocked(box, paths, start, KeyAt(box, start, paths.priv).value)
  }

  lemma RotatableLoads(box: Box, paths: Paths, start: Files, first: Option<KeyPair>, second: Option<KeyPair>)
    ensures CanRotate(box, paths, start, second) ==> CanLoad(box, start, paths.priv, paths.pub, first) && paths.priv in start
  {
  }

  ghost function TheJob(box: Box, paths: Paths, start: Files, second: Option<KeyPair>): Job
    requires KeyAt(box, start, paths.priv).Some?
  {
    var was := KeyAt(box, start, paths.priv).value;
    Job(box, paths, start, was, if second.Some? then second.value.priv else was)
  }

  ghost predicate SomeLocked(box: Box, paths: Paths, f: Files, key: Key) {
    exists s :: s in paths.stores && Locked(box, f, s, key)
  }

  /** The result of a rotation from `was` to `next`. */
  ghost predicate Reports(result: Option<RotateResult>, job: Job) {
    && result.Some? && result.value.backupSuffix == job.paths.suffix
    && Some(result.value.oldPublicKey) == job.box.public(job.was) && Some(result.value.newPublicKey) == job.box.public(job.next)
    && result.value.rewrapped == PathsOf(Payloads(job.box, job.start, job.paths.stores, job.was))
  }

  /** The result when the store `path` could not be sealed anew: it lists the stores in front of it. */
  ghost predicate StopsAt(result: Option<RotateResult>, job: Job, path: Name) {
    && result.Some? && result.value.backupSuffix == job.paths.suffix
    && Some(result.value.oldPublicKey) == job.box.public(job.was) && Some(result.value.newPublicKey) == job.box.public(job.next)
    && result.value.rewrapped + [path] <= PathsOf(Payloads(job.box, job.start, job.paths.stores, job.was))
  }

  /** The rest of `Rotate`, once the old key is loaded. */
  method RotateFrom(disk: Store, box: Box, paths: Paths, key: Key, second: Option<KeyPair>, nonces: nat -> nat, ghost job: Job)
    returns (result: Option<RotateResult>, err: Option<RotateError>)
    requires disk.Valid() && IsStamp(paths.suffix) && job.box == box && job.paths == paths && job.was == key && box.public(key).Some?
    requires second.Some? ==> job.next == second.value.priv
    requires SameBut(job.start, disk.files, Missing(job.start, paths.pub)) && paths.priv in job.start && paths.pub in disk.files
    modifies disk
    ensures disk.Valid() && old(disk.past) <= disk.past
    ensures job.Fits() ==> forall i :: |old(disk.past)| <= i < |disk.past| ==> job.Sound(disk.past[i])
    ensures err.None? ==> second.Some?
    ensures result.Some? <==> err.None? || err.value.RewrapFailed?
    ensures err.Some? && err.value.RewrapFailed? && job.Fits() ==> StopsAt(result, job, err.value.path)
    ensures err.Some? && err.value.StoreUnusable? ==>
              err.value.path in paths.stores && (disk.steady ==> err.value.path == "" || Locked(box, old(disk.files), err.value.path, key))
    ensures err.Some? ==> !err.value.PathsRequired? && !err.value.KeyUnreadable? && !err.value.JustGenerated?
    ensures err.None? && job.Fits() ==> job.Rotated(disk.files, second.value.pub) && Reports(result, job)
    ensures SomeLocked(box, paths, job.start, job.was) ==> err.Some? && result.None? && disk.past == old(disk.past)
    ensures result.Some? ==> forall x :: KeyName(paths, x) ==> Emptied(disk.past, |old(disk.past)|, x)
    ensures err.None? ==> forall s :: s in paths.stores && job.Filled(s) ==> BothEmptied(disk.past, |old(disk.past)|, paths, s)
    ensures err.None? ==> "" !in paths.stores && box.public(second.value.priv).Some?
    ensures disk.steady && job.Fits() && second.Some? && box.public(second.value.priv).Some? && SealsAll(box, job.next)
              && "" !in paths.stores && !SomeLocked(box, paths, job.start, job.was)
            ==> err.None?
  {
    hide Job.Fits, Job.After, Job.Before, Job.Sound, Job.Rotated, Locked, Payloads, Content, Progress, Emptied, KeyName, Job.Filled;
    if job.Fits() { TouchedIsSound(job, disk.files); }
    LockedSame(job, disk.files);
    if job.Fits() { NoneLocked(job, disk.files); }
    var found := OpenAll(disk, box, key, paths.stores);
    if found.Err? { return None, Some(found.error); }
    if second.None? { return None, Some(KeyGenFailed); }
    var pair := second.value;
    var newPublic := box.public(pair.priv);
    if newPublic.None? { return None, Some(KeyGenFailed); }
    var res := RotateResult(box.public(key).value, newPublic.value, paths.suffix, []);
    ghost var f0 := disk.files;
    var swapped := SwapKeys(disk, box, paths, pair, job);
    if !swapped { return None, Some(KeySwapFailed); }
    ghost var before := disk.past;
    assert Get(f0, paths.priv) == Get(job.start, paths.priv);
    if job.Fits() { NothingMoved(job, f0, disk.files, found.value, pair.pub); }
    var rewrapped;
    rewrapped, err := RewrapAll(disk, box, paths, found.value, pair.priv, nonces, job, pair.pub);
    forall x | KeyName(paths, x) ensures Emptied(disk.past, |old(disk.past)|, x) {
      EmptiedStays(before, disk.past, |old(disk.past)|, |old(disk.past)|, x);
    }
    if err.None? { AllEmptied(job, f0, found.value, disk.past, |before|, |old(disk.past)|); }
    result := Some(res.(rewrapped := rewrapped));
  }

  lemma AllEmptied(job: Job, f: Files, ds: seq<Payload>, past: seq<Files>, m: nat, n: nat)
    requires SameBut(job.start, f, Missing(job.start, job.paths.pub)) && ds == Payloads(job.box, f, job.paths.stores, job.was) && n <= m
    requires forall j :: 0 <= j < |ds| ==> BothEmptied(past, m, job.paths, ds[j].path)
    ensures forall s :: s in job.paths.stores && job.Filled(s) ==> BothEmptied(past, n, job.paths, s)
  {
    hide Payloads, Emptied;
    PayloadsExact(job.box, f, job.paths.stores, job.was);
    forall s | s in job.paths.stores && job.Filled(s) ensures BothEmptied(past, n, job.paths, s) {
      SameOpened(job.box, f, job.start, s, job.was);
      assert s in multiset(job.paths.stores) && s in multiset(PathsOf(ds));
      var j :| 0 <= j < |ds| && PathsOf(ds)[j] == s;
      assert BothEmptied(past, m, job.paths, ds[j].path);
      EmptiedStays(past, past, m, n, Bak(s, job.paths.suffix));
      EmptiedStays(past, past, m, n, Tmp(s));
    }
  }

  lemma NothingMoved(job: Job, f0: Files, f: Files, ds: seq<Payload>, pub: Key)
    requires SameBut(job.start, f0, Missing(job.start, job.paths.pub))
    requires job.After(f) && job.Sound(f) && Get(f, job.paths.pub) == Some(KeyText(job.box, pub))
    requires job.paths.pub in f0 ==> Get(f, Bak(job.paths.pub, job.paths.suffix)) == Get(f0, job.paths.pub)
    requires forall s :: s in job.paths.stores ==> Get(f, s) == Get(job.start, s)
    ensures Progress(job, f, ds, 0, pub)
  {
    hide Job.After, Job.Sound;
    assert ds[..0] == [] && PathsOf(ds[..0]) == [];
    assert job.paths.pub in job.start ==> Get(f0, job.paths.pub) == Get(job.start, job.paths.pub);
  }

  /**
   `Rotate`. `first` and `second` are what key generation would give: one
   pair in case there is no keypair yet, one for the rotation.
   */
  method Rotate(disk: Store, box: Box, paths: Paths, first: Option<KeyPair>, second: Option<KeyPair>, nonces: nat -> nat)
    returns (result: Option<RotateResult>, err: Option<RotateError>)
    requires disk.Valid() && Lawful(box) && IsStamp(paths.suffix)
    modifies disk
    ensures disk.Valid() && old(disk.past) <= disk.past
    // at every stopping point
    ensures KeyAt(box, old(disk.files), paths.priv).Some? && paths.Apart() ==>
              NothingLost(disk.past, |old(disk.past)|, TheJob(box, paths, old(disk.files), second))
    // on success
    ensures err.None? ==> KeyAt(box, old(disk.files), paths.priv).Some? && second.Some? && result.Some?
    ensures err.None? && paths.Apart() ==>
              var job := TheJob(box, paths, old(disk.files), second);
              job.Rotated(disk.files, second.value.pub) && Reports(result, job)
    ensures err.None? ==> CanRotate(box, paths, old(disk.files), second)
    ensures result.Some? <==> err.None? || err.value.RewrapFailed?
    ensures paths.priv == "" || paths.pub == "" <==> err == Some(PathsRequired)
    ensures paths.priv in old(disk.files) ==> err != Some(JustGenerated)
    ensures disk.steady && paths.priv !in old(disk.files) && CanLoad(box, old(disk.files), paths.priv, paths.pub, first) ==> err == Some(JustGenerated)
    ensures disk.steady && paths.Apart() && CanRotate(box, paths, old(disk.files), second) && SealsAll(box, second.value.priv) ==> err.None?
    // if some store does not decrypt, no key and no store is replaced
    ensures KeyAt(box, old(disk.files), paths.priv).Some? && SomeLocked(box, paths, old(disk.files), KeyAt(box, old(disk.files), paths.priv).value) ==>
              err.Some? && result.None? && OnlyTouched(disk.past, |old(disk.past)|, old(disk.files), Missing(old(disk.files), paths.pub))
    // without a readable key there is nothing to rotate
    ensures KeyAt(box, old(disk.files), paths.priv).None? ==>
              && err.Some? && result.None?
              && OnlyTouched(disk.past, |old(disk.past)|, old(disk.files), Missing(old(disk.files), paths.priv) + {paths.pub})
    // a store kept under a name that the rotation makes up is lost
    ensures result.Some? ==> KeyAt(box, old(disk.files), paths.priv).Some?
    ensures err.Some? && err.value.RewrapFailed? && paths.Apart() ==> StopsAt(result, TheJob(box, paths, old(disk.files), second), err.value.path)
    ensures result.Some? && InTheWay(TheJob(box, paths, old(disk.files), second), err.None?) ==>
              !NothingLost(disk.past, |old(disk.past)|, TheJob(box, paths, old(disk.files), second))
  {
    hide KeyAt, Job.Fits, Job.Sound, Job.Rotated, NothingLost, Paths.Apart, Locked, Payloads, OnlyTouched, SomeLocked, InTheWay, Reports;
    ghost var start, n := disk.files, |disk.past|;
    if paths.priv == "" || paths.pub == "" {
      LoadStates(disk.past, n, box, paths, start, second);
      return None, Some(PathsRequired);
    }
    RotatableLoads(box, paths, start, first, second);
    var loaded := LoadOrGenerate(disk, box, paths.priv, paths.pub, first);
    LoadStates(disk.past, n, box, paths, start, second);
    if loaded.Err? { return None, Some(KeyUnreadable); }
    if loaded.value.generated { return None, Some(JustGenerated); }
    ghost var job := TheJob(box, paths, start, second);
    ghost var loadedPast := disk.past;
    result, err := RotateFrom(disk, box, paths, loaded.value.key, second, nonces, job);
    if paths.Apart() {
      JobFits(box, paths, start, second);
      SoundIsSafe(job, disk.past, |loadedPast|);
      NothingLostJoins(loadedPast, disk.past, n, job);
    }
    if result.Some? && InTheWay(job, err.None?) { EmptiedIsLost(job, disk.past, n, |loadedPast|, err.None?); }
  }

  /** The names that a rotation empties: those of the keys, and once it is complete those of all stores with content. */
  ghost predicate MadeUp(job: Job, complete: bool, x: Name) {
    KeyName(job.paths, x)
    || (complete && exists s :: s in job.paths.stores && job.Filled(s) && x in {Bak(s, job.paths.suffix), Tmp(s)})
  }

  /** A store that opens is kept under such a name. */
  ghost predicate InTheWay(job: Job, complete: bool) {
    exists s :: s in job.paths.stores && Opened(job.box, job.start, s, job.was).Some? && MadeUp(job, complete, s)
  }

  /** Every name that rotation makes up is emptied before it is filled: a store kept there opens under no key then. */
  lemma EmptiedIsLost(job: Job, past: seq<Files>, n: nat, m: nat, complete: bool)
    requires InTheWay(job, complete) && n <= m
    requires forall x :: KeyName(job.paths, x) ==> Emptied(past, m, x)
    requires complete ==> forall s :: s in job.paths.stores && job.Filled(s) ==> BothEmptied(past, m, job.paths, s)
    ensures !NothingLost(past, n, job)
  {
    hide KeyName, Job.Filled, Job.Revertible;
    var s :| s in job.paths.stores && Opened(job.box, job.start, s, job.was).Some? && MadeUp(job, complete, s);
    assert Emptied(past, m, s);
    var w :| m <= w < |past| && Get(past[w], s) == Some("");
    assert HeldBy(job.box, past[w], job.paths.priv, s) == None;
    assert HeldBy(job.box, past[w], Bak(job.paths.priv, job.paths.suffix), s) == None;
    assert !Recoverable(job.box, job.paths, job.start, job.was, past[w]);
  }

  lemma JobFits(box: Box, paths: Paths, start: Files, second: Option<KeyPair>)
    requires Lawful(box) && paths.Apart() && KeyAt(box, start, paths.priv).Some?
    ensures TheJob(box, paths, start, second).Fits()
  {
  }

  lemma NothingLostJoins(before: seq<Files>, past: seq<Files>, n: nat, job: Job)
    requires before <= past && NothingLost(before, n, job) && NothingLost(past, |before|, job)
    ensures NothingLost(past, n, job)
  {
    hide Recoverable;
    assert forall i :: 0 <= i < |before| ==> past[i] == before[i];
  }

  lemma LoadStates(past: seq<Files>, n: nat, box: Box, paths: Paths, start: Files, second: Option<KeyPair>)
    requires Lawful(box)
    requires forall i :: n <= i < |past| ==> SameBut(start, past[i],
                  if paths.priv !in start then {paths.priv, paths.pub} else if paths.pub !in start then {paths.pub} else {})
    ensures KeyAt(box, start, paths.priv).Some? && paths.Apart() ==> NothingLost(past, n, TheJob(box, paths, start, second))
    ensures KeyAt(box, start, paths.priv).Some? ==> OnlyTouched(past, n, start, Missing(start, paths.pub))
    ensures OnlyTouched(past, n, start, Missing(start, paths.priv) + {paths.pub})
  {
    hide Lawful, Paths.Apart, NothingLost, Recoverable;
    if KeyAt(box, start, paths.priv).Some? && paths.Apart() {
      var job := TheJob(box, paths, start, second);
      forall i | n <= i < |past| ensures job.Sound(past[i]) { TouchedIsSound(job, past[i]); }
      SoundIsSafe(job, past, n);
    }
  }

  // ------------------------------------------------------------ the empty store

  /** A box to show the case: what is sealed under a key begins with it. */
  function PlainBox(): Box {
    Box(k => Some(k),
        (k: Key, m: Bytes, n: nat) => Some(k + ("=" + m)),
        (k: Key, c: Bytes) => if |c| > |k| && c[..|k|] == k && c[|k|] == '=' then Some(c[|k| + 1..]) else None,
        k => k + "=",
        s => if s != "" && s[|s| - 1] == '=' then Some(s[..|s| - 1]) else None)
  }

  lemma PlainBoxLawful()
    ensures Lawful(PlainBox())
  {
    var box := PlainBox();
    forall k: Key, m: Bytes, n: nat ensures box.open(k, box.seal(k, m, n).value) == Some(m) {
      var c := k + ("=" + m);
      assert c[..|k|] == k && c[|k|] == '=' && c[|k| + 1..] == m;
    }
    forall k: Key ensures box.decode(box.encode(k)) == Some(k) { assert (k + "=")[..|k + "="| - 1] == k; }
  }

  const EMPTY_START: Files := map["k" := "A=", "p" := "A=", "s" := "A="]
  const EMPTY_END: Files :=
    map["k" := "B=\n", "k.bak.0" := "A=", "p" := "B=\n", "p.bak.0" := "A=", "s" := "A="]

  function EmptyJob(): Job { Job(PlainBox(), Paths("k", "p", ["s"], "0"), EMPTY_START, "A", "B") }

  lemma EmptyJobFits()
    ensures EmptyJob().Fits()
  {
    hide Paths.Apart, Lawful;
    PlainBoxLawful();
    SmallApart(EmptyJob().paths);
    assert TrimKey("A=") == "A=" && "A="[..1] == "A";
  }

  lemma EmptyStore()
    ensures Opened(PlainBox(), EMPTY_START, "s", "A") == Some("")
    ensures Opened(PlainBox(), EMPTY_END, "s", "A") == Some("") && Opened(PlainBox(), EMPTY_END, "s", "B") == None
  {
    assert "A="[2..] == "" && "A="[..1] == "A";
  }

  /** A complete rotation that leaves a store with the sealed empty text under the old key. */
  lemma EmptyIsPassedOver()
    ensures EmptyJob().Fits() && EmptyJob().Rotated(EMPTY_END, "B")
    ensures Opened(PlainBox(), EMPTY_START, "s", "A") == Some("")
    ensures Opened(PlainBox(), EMPTY_END, "s", "A") == Some("") && Opened(PlainBox(), EMPTY_END, "s", "B") == None
  {
    EmptyJobFits();
    EmptyStore();
    hide Opened, Job.Fits;
    assert Bak("k", "0") == "k.bak.0" && Bak("p", "0") == "p.bak.0";
    assert KeyText(PlainBox(), "B") == "B=\n";
  }

  // ------------------------------------------------------------ the repeated store

  const TWICE_START: Files := map["k" := "A=", "p" := "A=", "s" := "A=x"]
  const TWICE_END: Files :=
    map["k" := "B=\n", "k.bak.0" := "A=", "p" := "B=\n", "p.bak.0" := "A=", "s" := "B=x", "s.bak.0" := "B=x"]

  function TwiceJob(): Job { Job(PlainBox(), Paths("k", "p", ["s", "s"], "0"), TWICE_START, "A", "B") }

  lemma TwiceJobFits()
    ensures TwiceJob().Fits()
  {
    hide Paths.Apart, Lawful;
    PlainBoxLawful();
    SmallApart(TwiceJob().paths);
    assert TrimKey("A=") == "A=" && "A="[..1] == "A";
  }

  lemma TwiceStore()
    ensures Opened(PlainBox(), TWICE_START, "s", "A") == Some("x") && Opened(PlainBox(), TWICE_END, "s", "B") == Some("x")
    ensures Opened(PlainBox(), TWICE_END, "s.bak.0", "B") == Some("x") && Opened(PlainBox(), TWICE_END, "s.bak.0", "A") == None
  {
    assert "A=x"[2..] == "x" && "A=x"[..1] == "A";
    assert "B=x"[2..] == "x" && "B=x"[..1] == "B";
  }

  /** A complete rotation with a store listed twice: the backup no longer opens under the old key. */
  lemma RepeatedLosesOldForm()
    ensures TwiceJob().Fits() && TwiceJob().Rotated(TWICE_END, "B")
    ensures Opened(PlainBox(), TWICE_START, "s", "A") == Some("x")
    ensures Opened(PlainBox(), TWICE_END, Bak("s", "0"), "A") == None && Opened(PlainBox(), TWICE_END, Bak("s", "0"), "B") == Some("x")
  {
    TwiceJobFits();
    TwiceStore();
    hide Opened, Job.Fits;
    assert Bak("k", "0") == "k.bak.0" && Bak("p", "0") == "p.bak.0" && Bak("s", "0") == "s.bak.0";
    assert KeyText(PlainBox(), "B") == "B=\n";
    assert multiset(["s", "s"])["s"] == 2;
  }

  lemma SmallApart(paths: Paths)
    requires paths in {Paths("k", "p", ["s"], "0"), Paths("k", "p", ["s", "s"], "0")}
    ensures paths.Apart()
  {
    forall x | x in paths.Derived() ensures |x| > 1 {
      DerivedLong(paths, x);
    }
    forall x | x in paths.Given() ensures |x| == 1 {}
  }

  lemma DerivedLong(paths: Paths, x: Name)
    requires x in paths.Derived()
    ensures |x| >= 4
  {
  }
}
