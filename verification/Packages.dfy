/** The version rule of `deb-verify`: never below the trust floor, and not
    below the highest version accepted before unless a downgrade is allowed.
    The record of a package is the highest version it was ever accepted at. */
module Packages {
  import opened DebVersion
  import opened TrustBody
  import opened TrustChain

  datatype Accepted = Accepted(pkg: string, version: string)

  /** The record covers every acceptance of the package and is one of them. */
  ghost predicate Covers(record: map<string, string>, history: seq<Accepted>) {
    && (forall i :: 0 <= i < |history| ==>
          history[i].pkg in record && AtLeast(record[history[i].pkg], history[i].version))
    && (forall p :: p in record ==> IsVersion(record[p]) && Accepted(p, record[p]) in history)
  }

  /** Not below any version the package was accepted at. */
  predicate AboveHistory(history: seq<Accepted>, pkg: string, version: string) {
    forall i :: 0 <= i < |history| && history[i].pkg == pkg ==> AtLeast(version, history[i].version)
  }

  /** A version is at least itself; of two versions, the one that is not at
      least the other is below it. */
  lemma AtLeastTotal(v: string, w: string)
    requires IsVersion(v) && IsVersion(w)
    ensures AtLeast(v, v) && (AtLeast(v, w) || AtLeast(w, v))
  {
    hide Order, Split;
    OrderTotal(Split(v).value, Split(w).value);
  }

  class Verifier {
    var record: map<string, string>
    ghost var history: seq<Accepted>

    constructor ()
      ensures Valid() && history == []
    {
      record, history := map[], [];
    }

    ghost predicate Valid()
      reads this
    {
      Covers(record, history)
    }

    method Check(rs: seq<Record>, pkg: string, version: string, downgrade: bool) returns (ok: bool)
      requires Valid()
      modifies this
      ensures Valid()
      ensures ok <==>
        && PackageOk(pkg) && IsVersion(version) && (downgrade || AboveHistory(old(history), pkg, version))
        && (FloorFor(rs, pkg).Some? ==> AtLeast(version, FloorFor(rs, pkg).value))
      ensures history == if ok then old(history) + [Accepted(pkg, version)] else old(history)
    {
      hide Order, Split, PackageOk, Covers, FloorFor, AboveHistory;
      if !PackageOk(pkg) || !IsVersion(version) { return false; }
      var floor := FloorFor(rs, pkg);
      if floor.Some? {
        var cmp := CompareVersions(version, floor.value);
        if cmp.None? || cmp.value < 0 { return false; }
      }
      AtLeastTotal(version, version);
      if pkg !in record {
        NotYet(record, history, pkg, version);
        Extends(record, history, pkg, version, version);
        record, history := record[pkg := version], history + [Accepted(pkg, version)];
        return true;
      }
      Recorded(record, history, pkg);
      AtLeastTotal(version, record[pkg]);
      var cmp := CompareVersions(version, record[pkg]);
      if cmp.value < 0 && !downgrade {
        BelowOne(record, history, pkg, version);
        return false;
      }
      var high := if cmp.value > 0 then version else record[pkg];
      AtLeastTotal(record[pkg], record[pkg]);
      OrderTotal(Split(version).value, Split(record[pkg]).value);
      Extends(record, history, pkg, version, high);
      if !downgrade { AboveAll(record, history, pkg, version); }
      record, history := record[pkg := high], history + [Accepted(pkg, version)];
      return true;
    }
  }

  lemma NotYet(record: map<string, string>, history: seq<Accepted>, pkg: string, version: string)
    requires Covers(record, history) && pkg !in record
    ensures AboveHistory(history, pkg, version)
  {
  }

  lemma Recorded(record: map<string, string>, history: seq<Accepted>, pkg: string)
    requires Covers(record, history) && pkg in record
    ensures IsVersion(record[pkg])
  {
  }

  /** The record is one of the versions accepted. */
  lemma BelowOne(record: map<string, string>, history: seq<Accepted>, pkg: string, version: string)
    requires Covers(record, history) && pkg in record && !AtLeast(version, record[pkg])
    ensures !AboveHistory(history, pkg, version)
  {
    hide AtLeast;
    var i :| 0 <= i < |history| && history[i] == Accepted(pkg, record[pkg]);
  }

  lemma AboveAll(record: map<string, string>, history: seq<Accepted>, pkg: string, version: string)
    requires Covers(record, history) && pkg in record && AtLeast(version, record[pkg])
    ensures AboveHistory(history, pkg, version)
  {
    hide AtLeast;
    forall i | 0 <= i < |history| && history[i].pkg == pkg ensures AtLeast(version, history[i].version) {
      AtLeastChains(version, record[pkg], history[i].version);
    }
  }

  lemma Extends(record: map<string, string>, history: seq<Accepted>, pkg: string, version: string, high: string)
    requires Covers(record, history) && AtLeast(high, version)
    requires high == version || (pkg in record && high == record[pkg])
    requires pkg in record ==> AtLeast(high, record[pkg])
    ensures Covers(record[pkg := high], history + [Accepted(pkg, version)])
  {
    hide Split, Order;
    var record', history' := record[pkg := high], history + [Accepted(pkg, version)];
    forall i | 0 <= i < |history'|
      ensures history'[i].pkg in record' && AtLeast(record'[history'[i].pkg], history'[i].version)
    {
      if i < |history| {
        assert history'[i] == history[i];
        if history[i].pkg == pkg { AtLeastChains(high, record[pkg], history[i].version); }
      }
    }
    forall p | p in record' ensures IsVersion(record'[p]) && Accepted(p, record'[p]) in history' {
      if p != pkg || high != version {
        assert p in record && record'[p] == record[p];
      } else {
        assert history'[|history|] == Accepted(p, record'[p]);
      }
    }
  }
}
