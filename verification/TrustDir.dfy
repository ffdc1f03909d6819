/** `trust-accept`: a directory holds the last file of the chain it accepted;
    files are taken in order up to the first refusal. */
module TrustDir {
  import opened DebVersion
  import opened Options
  import opened TrustBody
  import opened TrustChain
  import opened TrustFile

  // ── the command as a function ───────────────────────────────────────

  /** What the files leave in the directory, and how many were accepted. */
  function Take(c: Crypto, dir: Option<string>, files: seq<string>): (r: (Option<string>, nat))
    ensures r.1 <= |files|
    decreases |files|
  {
    if files == [] || !Accepts(c, dir, files[0]) then (dir, 0) else
      var r := Take(c, Some(files[0]), files[1..]);
      (r.0, r.1 + 1)
  }

  /** `--bootstrap` is for a directory without a file, and only for that. */
  predicate Admits(c: Crypto, dir: Option<string>, bootstrap: bool) {
    if dir.None? then bootstrap else !bootstrap && Open(c, dir.value).Some?
  }

  function Command(c: Crypto, dir: Option<string>, bootstrap: bool, files: seq<string>): (Option<string>, nat) {
    if Admits(c, dir, bootstrap) then Take(c, dir, files) else (dir, 0)
  }

  lemma {:induction false} TakeSplit(c: Crypto, dir: Option<string>, a: seq<string>, b: seq<string>)
    ensures var r := Take(c, dir, a);
            var s := Take(c, r.0, b);
            Take(c, dir, a + b) == if r.1 == |a| then (s.0, |a| + s.1) else r
    decreases |a|
  {
    hide Accepts;
    if a == [] {
      assert a + b == b;
    } else {
      assert (a + b)[1..] == a[1..] + b;
      TakeSplit(c, Some(a[0]), a[1..], b);
    }
  }

  lemma {:induction false} TakenOpen(c: Crypto, dir: Option<string>, files: seq<string>)
    ensures var r := Take(c, dir, files); r.1 > 0 ==> r.0 == Some(files[r.1 - 1]) && Open(c, files[r.1 - 1]).Some?
    decreases |files|
  {
    hide Open;
    if files != [] && Accepts(c, dir, files[0]) { TakenOpen(c, Some(files[0]), files[1..]); }
  }

  /** Giving the files in one command is giving them in two, the second
      without `--bootstrap` and only when the first took all of its own; so
      it is giving them one by one up to the first refusal. */
  lemma OneByOne(c: Crypto, dir: Option<string>, bootstrap: bool, a: seq<string>, b: seq<string>)
    requires a != []
    ensures var r := Command(c, dir, bootstrap, a);
            var s := Command(c, r.0, false, b);
            Command(c, dir, bootstrap, a + b) == if r.1 == |a| then (s.0, |a| + s.1) else r
  {
    hide Accepts, Open;
    TakeSplit(c, dir, a, b);
    TakenOpen(c, dir, a);
  }

  /** The file in the directory once the first n were accepted. */
  function Latest(dir: Option<string>, files: seq<string>, n: nat): Option<string>
    requires n <= |files|
  {
    if n == 0 then dir else Some(files[n - 1])
  }

  /** Files accepted one after the other up to the first that is not. */
  lemma {:induction false} TakeIs(c: Crypto, dir: Option<string>, files: seq<string>, n: nat)
    requires n <= |files| && forall i :: 0 <= i < n ==> Accepts(c, Latest(dir, files, i), files[i])
    requires n == |files| || !Accepts(c, Latest(dir, files, n), files[n])
    ensures Take(c, dir, files) == (Latest(dir, files, n), n)
    decreases n
  {
    hide Accepts;
    if n > 0 {
      var rest := files[1..];
      assert Accepts(c, Latest(dir, files, 0), files[0]);
      forall i | 0 <= i < n - 1 ensures Accepts(c, Latest(Some(files[0]), rest, i), rest[i]) {
        assert Latest(Some(files[0]), rest, i) == Latest(dir, files, i + 1);
      }
      if n < |files| { assert Latest(Some(files[0]), rest, n - 1) == Latest(dir, files, n); }
      TakeIs(c, Some(files[0]), rest, n - 1);
    }
  }

  // ── the directory ───────────────────────────────────────────────────

  method CheckFloor(pkg: string, version: string, after: seq<Record>) returns (ok: bool)
    ensures ok == Keeps(Floor(pkg, version), after)
  {
    hide Order, IsVersion, FloorFor;
    var found := FloorFor(after, pkg);
    if found.None? { return false; }
    var cmp := CompareVersions(found.value, version);
    return cmp.Some? && cmp.value >= 0;
  }

  method CheckKept(before: seq<Record>, after: seq<Record>) returns (ok: bool)
    ensures ok == KeepsAll(before, after)
  {
    hide AtLeast, FloorFor;
    for i := 0 to |before|
      invariant forall k :: 0 <= k < i && !before[k].Floor? ==> Keeps(before[k], after)
    {
      if before[i].Revoked? && !IsRevoked(after, before[i].fp) {
        assert !Keeps(before[i], after);
        return false;
      }
    }
    for i := 0 to |before|
      invariant forall k :: 0 <= k < i ==> Keeps(before[k], after)
    {
      if before[i].Floor? {
        var kept := CheckFloor(before[i].pkg, before[i].version, after);
        if !kept { return false; }
      }
    }
    return true;
  }

  class Directory {
    const crypto: Crypto
    var file: Option<string>
    ghost var chain: seq<string>

    constructor (c: Crypto)
      ensures crypto == c && Valid() && chain == []
    {
      crypto, file, chain := c, None, [];
    }

    /** The file is the last of a chain that starts at serial 1. */
    ghost predicate Valid()
      reads this
    {
      GoodChain(crypto, chain) && file == StoredAt(chain, |chain|)
    }

    method Verify(f: string) returns (ok: bool)
      ensures ok == Accepts(crypto, file, f)
    {
      hide ParseLayout, ParseBody, KeepsAll, Message;
      var o := Open(crypto, f);
      if o.None? { return false; }
      var t := o.value.file;
      if file.None? {
        var key := KeyFor(o.value.records, t.signer);
        if key.None? { return false; }
        if t.serial != 1 { return false; }
        return crypto.verify(t.sig, MessageOf(crypto, t, ZEROS), key.value);
      }
      var p := Open(crypto, file.value);
      if p.None? { return false; }
      if t.serial <= p.value.file.serial || IsRevoked(p.value.records, t.signer) { return false; }
      var key := KeyFor(p.value.records, t.signer);
      if key.None? { return false; }
      var kept := CheckKept(p.value.records, o.value.records);
      if !kept { return false; }
      return crypto.verify(t.sig, MessageOf(crypto, t, crypto.hash(file.value)), key.value);
    }

    /** Each file is stored before the next is checked against it. */
    method TrustAccept(files: seq<string>, bootstrap: bool) returns (accepted: nat)
      modifies this
      ensures (file, accepted) == Command(crypto, old(file), bootstrap, files)
      ensures accepted <= |files| && file == Latest(old(file), files, accepted)
      ensures forall i :: 0 <= i < accepted ==> Accepts(crypto, Latest(old(file), files, i), files[i])
      ensures accepted > 0 ==> (bootstrap <==> old(file).None?)
      ensures (bootstrap <==> old(file).None?) && (old(file).Some? ==> Open(crypto, old(file).value).Some?) ==>
        accepted == |files| || !Accepts(crypto, file, files[accepted])
      ensures old(Valid()) ==> Valid() && chain == old(chain) + files[..accepted]
    {
      hide Accepts, Open, GoodChain, Take;
      accepted := 0;
      if !(if file.None? then bootstrap else !bootstrap && Open(crypto, file.value).Some?) { return; }
      while accepted < |files|
        invariant 0 <= accepted <= |files|
        invariant old(Valid()) ==> Valid() && chain == old(chain) + files[..accepted]
        invariant file == Latest(old(file), files, accepted)
        invariant forall i :: 0 <= i < accepted ==> Accepts(crypto, Latest(old(file), files, i), files[i])
      {
        var ok := Verify(files[accepted]);
        if !ok {
          TakeIs(crypto, old(file), files, accepted);
          return;
        }
        if old(Valid()) { ChainGrows(crypto, chain, files[accepted]); }
        file := Some(files[accepted]);
        chain := chain + [files[accepted]];
        accepted := accepted + 1;
      }
      TakeIs(crypto, old(file), files, accepted);
    }
  }

  lemma ChainGrows(c: Crypto, chain: seq<string>, f: string)
    requires GoodChain(c, chain) && Accepts(c, StoredAt(chain, |chain|), f)
    ensures GoodChain(c, chain + [f])
  {
    hide Accepts;
    var next := chain + [f];
    forall i | 0 <= i < |next| ensures Accepts(c, StoredAt(next, i), next[i]) {
      assert StoredAt(next, i) == StoredAt(chain, i);
    }
  }
}
