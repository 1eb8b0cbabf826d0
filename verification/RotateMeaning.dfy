/**
 What key rotation does to the files, said in terms of their contents and of
 what the cryptography makes of them: nothing here names the functions by
 which the rotation is specified, except to say what they mean.
 */
module RotateMeaning {
  import opened Base
  import opened Disk
  import opened Rotate

  /** The file holds the text of the key `k`, with any line ends and spaces behind it. */
  ghost predicate HoldsKey(box: Box, f: Files, path: Name, k: Key) {
    exists t, w ::
      && Get(f, path) == Some(t + w) && box.decode(t) == Some(k)
      && (forall i :: 0 <= i < |w| ==> w[i] in "\n\r ")
      && (t == "" || t[|t| - 1] !in "\n\r ")
  }

  lemma {:induction false} TrimmedKey(t: string, w: string)
    requires forall i :: 0 <= i < |w| ==> w[i] in "\n\r "
    requires t == "" || t[|t| - 1] !in "\n\r "
    ensures TrimKey(t + w) == t
  {
    if w == "" {
      assert t + w == t;
    } else {
      assert (t + w)[..|t + w| - 1] == t + w[..|w| - 1];
      TrimmedKey(t, w[..|w| - 1]);
    }
  }

  lemma {:induction false} KeyEnd(s: string) returns (w: string)
    ensures s == TrimKey(s) + w && forall i :: 0 <= i < |w| ==> w[i] in "\n\r "
    ensures TrimKey(s) == "" || TrimKey(s)[|TrimKey(s)| - 1] !in "\n\r "
  {
    w := "";
    if s != "" && Rotate.Trimmed(s[|s| - 1]) {
      var rest := KeyEnd(s[..|s| - 1]);
      w := rest + [s[|s| - 1]];
    }
  }

  lemma KeyAtMeaning(box: Box, f: Files, path: Name, k: Key)
    ensures HoldsKey(box, f, path, k) <==> KeyAt(box, f, path) == Some(k)
  {
    if HoldsKey(box, f, path, k) {
      var t, w :|
        && Get(f, path) == Some(t + w) && box.decode(t) == Some(k)
        && (forall i :: 0 <= i < |w| ==> w[i] in "\n\r ")
        && (t == "" || t[|t| - 1] !in "\n\r ");
      TrimmedKey(t, w);
    }
    if path in f {
      var w := KeyEnd(f[path]);
      assert Get(f, path) == Some(TrimKey(f[path]) + w);
    }
  }

  /** The file has something in it, and under the key that is `plain`. */
  ghost predicate Holds(box: Box, f: Files, path: Name, key: Key, plain: Bytes) {
    path in f && f[path] != "" && box.open(key, f[path]) == Some(plain)
  }

  /** Only what has something in it can be opened, can be locked, and is carried over. */
  lemma StoreMeaning(box: Box, f: Files, s: Name, key: Key, p: Bytes)
    ensures Opened(box, f, s, key) == Some(p) <==> Holds(box, f, s, key, p)
    ensures Content(box, f, s, key) == Some(p) <==> p != "" && Holds(box, f, s, key, p)
    ensures Locked(box, f, s, key) <==> s in f && f[s] != "" && box.open(key, f[s]) == None
  {
  }

  /** Places in the list of stores, from front to back. */
  ghost predicate Climbs(at: seq<nat>, n: nat) {
    (forall i :: 0 <= i < |at| ==> at[i] < n) && forall i, j :: 0 <= i < j < |at| ==> at[i] < at[j]
  }

  /** The payloads stand in the order of the list. */
  lemma {:induction false} PayloadsInOrder(box: Box, f: Files, stores: seq<Name>, key: Key) returns (at: seq<nat>)
    ensures var ds := Payloads(box, f, stores, key);
            |at| == |ds| && Climbs(at, |stores|) && forall i :: 0 <= i < |ds| ==> ds[i].path == stores[at[i]]
    decreases |stores|
  {
    hide Content;
    at := [];
    if stores != [] {
      var k := |stores| - 1;
      at := PayloadsInOrder(box, f, stores[..k], key);
      if Content(box, f, stores[k], key).Some? { at := at + [k]; }
    }
  }

  /** A second start after the first finds the same key, whether it was generated or loaded, and both files. */
  lemma KeysStay(box: Box, f: Files, priv: Name, pub: Name, pair: KeyPair)
    requires Lawful(box)
    requires Get(f, priv) == Some(box.encode(pair.priv) + "\n") && Get(f, pub) == Some(box.encode(pair.pub) + "\n")
    ensures HoldsKey(box, f, priv, pair.priv) && HoldsKey(box, f, pub, pair.pub)
  {
    WrittenKey(box, f, priv, pair.priv);
    WrittenKey(box, f, pub, pair.pub);
    KeyAtMeaning(box, f, priv, pair.priv);
    KeyAtMeaning(box, f, pub, pair.pub);
  }

  /** Two starts in a row: the second loads the key of the first, and the files hold what the first left. */
  method StartTwice(disk: Store, box: Box, priv: Name, pub: Name, made: Option<KeyPair>, again: Option<KeyPair>)
    returns (first: Result<Loaded, ()>, second: Result<Loaded, ()>)
    requires disk.Valid() && Lawful(box) && priv != pub
    modifies disk
    ensures first.Ok? && second.Ok? ==> second.value == Loaded(first.value.key, false)
    ensures first.Ok? ==> HoldsKey(box, disk.files, priv, first.value.key)
    ensures first.Ok? && first.value.generated ==> made.Some? && HoldsKey(box, disk.files, pub, made.value.pub)
    ensures first.Ok? && !first.value.generated && pub !in old(disk.files) ==>
              box.public(first.value.key).Some? && HoldsKey(box, disk.files, pub, box.public(first.value.key).value)
  {
    hide *;
    first := LoadOrGenerate(disk, box, priv, pub, made);
    if first.Err? { return first, Err(()); }
    ghost var f := disk.files;
    if priv in old(disk.files) { SamePriv(old(disk.files), f, priv, pub); }
    AfterFirst(box, old(disk.files), f, priv, pub, first.value, made);
    second := LoadOrGenerate(disk, box, priv, pub, again);
    SameFiles(f, disk.files);
  }

  lemma AfterFirst(box: Box, start: Files, f: Files, priv: Name, pub: Name, r: Loaded, made: Option<KeyPair>)
    requires Lawful(box) && priv != pub && box.public(r.key).Some?
    requires if r.generated then made.Some? && r.key == made.value.priv
                                 && Get(f, priv) == Some(box.encode(made.value.priv) + "\n") && Get(f, pub) == Some(box.encode(made.value.pub) + "\n")
             else KeyAt(box, start, priv) == Some(r.key) && Get(f, priv) == Get(start, priv)
                  && Get(f, pub) == if pub in start then Get(start, pub) else Some(box.encode(box.public(r.key).value) + "\n")
    ensures priv in f && pub in f && KeyAt(box, f, priv) == Some(r.key) && HoldsKey(box, f, priv, r.key)
    ensures r.generated ==> HoldsKey(box, f, pub, made.value.pub)
    ensures !r.generated && pub !in start ==> HoldsKey(box, f, pub, box.public(r.key).value)
  {
    hide HoldsKey, Lawful;
    if r.generated {
      KeysStay(box, f, priv, pub, made.value);
    } else {
      if pub !in start {
        WrittenKey(box, f, pub, box.public(r.key).value);
        KeyAtMeaning(box, f, pub, box.public(r.key).value);
      }
    }
    KeyAtMeaning(box, f, priv, r.key);
  }

  lemma SamePriv(f: Files, g: Files, priv: Name, pub: Name)
    requires priv in f && priv != pub && SameBut(f, g, if pub !in f then {pub} else {})
    ensures Get(g, priv) == Get(f, priv)
  {
  }

  lemma SameFiles(f: Files, g: Files)
    requires SameBut(f, g, {})
    ensures f == g
  {
    forall n ensures n in f <==> n in g { assert Get(g, n) == Get(f, n); }
    forall n | n in f ensures f[n] == g[n] { assert Get(g, n) == Get(f, n); }
  }

  /**
   A complete rotation, file by file. The new keys are in place and the old
   ones beside them. A store that held a plaintext holds it under the new key,
   and its former content is beside it if it was listed once; a store that was
   missing, empty or held the empty plaintext is as it was.
   */
  lemma RotationMeaning(job: Job, f: Files, pub: Key, s: Name, p: Bytes)
    requires job.Fits() && job.Rotated(f, pub) && s in job.paths.stores
    ensures Get(f, job.paths.priv) == Some(job.box.encode(job.next) + "\n") && Get(f, job.paths.pub) == Some(job.box.encode(pub) + "\n")
    ensures Get(f, job.paths.priv + ".bak." + job.paths.suffix) == Get(job.start, job.paths.priv)
    ensures job.paths.pub in job.start ==> Get(f, job.paths.pub + ".bak." + job.paths.suffix) == Get(job.start, job.paths.pub)
    ensures Holds(job.box, job.start, s, job.was, p) && p != "" ==>
              && Holds(job.box, f, s, job.next, p)
              && (multiset(job.paths.stores)[s] == 1 ==> Get(f, s + ".bak." + job.paths.suffix) == Get(job.start, s))
    ensures (forall q :: q != "" ==> !Holds(job.box, job.start, s, job.was, q)) ==> Get(f, s) == Get(job.start, s)
  {
    hide Paths.Apart, Holds;
    forall n: string ensures Bak(n, job.paths.suffix) == n + ".bak." + job.paths.suffix { BakName(n, job.paths.suffix); }
    assert job.StoreAt(f, s, job.Turns(s));
    forall q ensures Opened(job.box, job.start, s, job.was) == Some(q) <==> Holds(job.box, job.start, s, job.was, q) { StoreMeaning(job.box, job.start, s, job.was, q); }
    StoreMeaning(job.box, f, s, job.next, p);
    assert multiset(job.paths.stores)[s] > 0;
  }

  lemma BakName(n: string, suffix: string)
    ensures Bak(n, suffix) == n + ".bak." + suffix
  {
  }

  /** At every point of a rotation each plaintext opens with the key in one of the two files. */
  lemma NothingLostMeaning(past: seq<Files>, n: nat, job: Job, i: nat, s: Name, p: Bytes)
    requires NothingLost(past, n, job) && n <= i < |past| && s in job.paths.stores && Holds(job.box, job.start, s, job.was, p)
    ensures exists path, k ::
              && path in {job.paths.priv, job.paths.priv + ".bak." + job.paths.suffix}
              && HoldsKey(job.box, past[i], path, k) && Holds(job.box, past[i], s, k, p)
    ensures HoldsKey(job.box, past[i], job.paths.priv, job.was) || HoldsKey(job.box, past[i], job.paths.priv, job.next)
  {
    hide HoldsKey, KeyAt, Opened, Job.Revertible;
    var f := past[i];
    BakName(job.paths.priv, job.paths.suffix);
    StoreMeaning(job.box, job.start, s, job.was, p);
    forall k, path ensures HoldsKey(job.box, f, path, k) <==> KeyAt(job.box, f, path) == Some(k) { KeyAtMeaning(job.box, f, path, k); }
    assert Opened(job.box, job.start, s, job.was) == Some(p);
    var path := if HeldBy(job.box, f, job.paths.priv, s) == Some(p) then job.paths.priv else Bak(job.paths.priv, job.paths.suffix);
    assert HeldBy(job.box, f, path, s) == Some(p);
    StoreMeaning(job.box, f, s, KeyAt(job.box, f, path).value, p);
    assert HoldsKey(job.box, f, path, KeyAt(job.box, f, path).value);
  }
}
