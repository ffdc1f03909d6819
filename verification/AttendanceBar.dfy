/** The participation bar against the commits an epoch's blocks carry: when
    every commit has more than two thirds of the power, a bar of 50% cannot
    fail everybody, and a bar of 80% can. */
module AttendanceBar {
  import opened Sums
  import opened Ledger
  import opened Settlement
  import opened Runs

  /** Who committed, in one block's vote list. */
  function Committers(votes: seq<Vote>): set<Key> {
    set i | 0 <= i < |votes| && votes[i].commit :: votes[i].voter
  }

  /** The rows of a set of validators; the others weigh nothing. */
  function Weighing(power: map<Key, nat>, ks: set<Key>): (r: map<Key, nat>)
    ensures r.Keys == power.Keys
    ensures forall v :: v in r ==> r[v] == if v in ks then power[v] else 0
  {
    map v | v in power :: if v in ks then power[v] else 0
  }

  ghost function WeightOf(power: map<Key, nat>, ks: set<Key>): nat { Sum(Weighing(power, ks)) }

  /** The commit carries more than two thirds of the power. */
  ghost predicate Quorum(power: map<Key, nat>, votes: seq<Vote>) {
    3 * WeightOf(power, Committers(votes)) > 2 * Sum(power)
  }

  /** In how many of the blocks v committed. */
  function Attended(lists: seq<seq<Vote>>, v: Key): (n: nat)
    ensures n <= |lists|
  {
    if lists == [] then 0
    else Attended(lists[..|lists| - 1], v) + (if v in Committers(lists[|lists| - 1]) then 1 else 0)
  }

  /** The attendance table after the blocks from + 1 to from + |lists|. */
  function Credited(att: map<Key, Attendance>, from: nat, lists: seq<seq<Vote>>): map<Key, Attendance> {
    if lists == [] then att
    else Credit(Credited(att, from, lists[..|lists| - 1]), from + |lists|, lists[|lists| - 1])
  }

  function SignedBy(att: map<Key, Attendance>, v: Key): nat { if v in att then att[v].signed else 0 }

  lemma {:induction false} CreditOne(att: map<Key, Attendance>, h: nat, votes: seq<Vote>, v: Key)
    requires h > 0
    ensures SignedBy(Credit(att, h, votes), v) >= SignedBy(att, v)
    ensures v in Committers(votes) ==>
              && v in Credit(att, h, votes) && Credit(att, h, votes)[v].last == h - 1
              && SignedBy(Credit(att, h, votes), v) > SignedBy(att, v)
  {
    if votes != [] {
      var head, last := votes[..|votes| - 1], votes[|votes| - 1];
      CreditOne(att, h, head, v);
      assert Committers(votes) == Committers(head) + (if last.commit then {last.voter} else {});
    }
  }

  lemma {:induction false} CreditedCounts(att: map<Key, Attendance>, from: nat, lists: seq<seq<Vote>>, v: Key)
    ensures SignedBy(Credited(att, from, lists), v) >= Attended(lists, v)
  {
    if lists != [] {
      CreditedCounts(att, from, lists[..|lists| - 1], v);
      CreditOne(Credited(att, from, lists[..|lists| - 1]), from + |lists|, lists[|lists| - 1], v);
    }
  }

  // ── double counting ─────────────────────────────────────────────────

  function Turnout(power: map<Key, nat>, lists: seq<seq<Vote>>): (r: map<Key, nat>)
    ensures r.Keys == power.Keys
    ensures forall v :: v in r ==> r[v] == power[v] * Attended(lists, v)
  {
    map v | v in power :: power[v] * Attended(lists, v)
  }

  lemma TurnoutStep(power: map<Key, nat>, lists: seq<seq<Vote>>)
    requires lists != []
    ensures Turnout(power, lists)
         == Plus(Turnout(power, lists[..|lists| - 1]), Weighing(power, Committers(lists[|lists| - 1])))
  {
    var head, last := lists[..|lists| - 1], Committers(lists[|lists| - 1]);
    var l, r := Turnout(power, lists), Plus(Turnout(power, head), Weighing(power, last));
    assert l.Keys == r.Keys;
    forall v | v in l.Keys ensures l[v] == r[v] {
      Distribute(Attended(head, v), if v in last then 1 else 0, power[v]);
    }
  }

  /** Counted block by block, the turnout exceeds two thirds of everything. */
  lemma {:induction false} TurnoutByBlock(power: map<Key, nat>, lists: seq<seq<Vote>>)
    requires forall i :: 0 <= i < |lists| ==> Quorum(power, lists[i])
    ensures 3 * Sum(Turnout(power, lists)) >= 2 * Sum(power) * |lists| + |lists|
  {
    if lists != [] {
      var head := lists[..|lists| - 1];
      TurnoutByBlock(power, head);
      TurnoutStep(power, lists);
      SumPlus(Turnout(power, head), Weighing(power, Committers(lists[|lists| - 1])));
      assert Quorum(power, lists[|lists| - 1]);
      Distribute(|lists| - 1, 1, 2 * Sum(power));
    }
  }

  /** Those who attended no more than `bps` of the blocks. */
  function Under(power: map<Key, nat>, lists: seq<seq<Vote>>, bps: nat): set<Key> {
    set v | v in power && Attended(lists, v) * 10000 <= |lists| * bps
  }

  function Times(a: nat, b: nat): nat { a * b }

  lemma TimesAdd(a: nat, b: nat, c: nat)
    ensures Times(a + b, c) == Times(a, c) + Times(b, c)
  {
  }

  function Scaled(m: map<Key, nat>, c: nat): (r: map<Key, nat>)
    ensures r.Keys == m.Keys && forall v :: v in r ==> r[v] == Times(m[v], c)
  {
    map v | v in m :: Times(m[v], c)
  }

  lemma ScaledDrop(m: map<Key, nat>, c: nat, k: Key)
    ensures Scaled(m, c) - {k} == Scaled(m - {k}, c)
  {
    var l, r := Scaled(m, c) - {k}, Scaled(m - {k}, c);
    assert l.Keys == r.Keys;
    forall v | v in l.Keys ensures l[v] == r[v] {
      assert v in m - {k} && (m - {k})[v] == m[v];
    }
  }

  lemma {:induction false} ScaledSum(m: map<Key, nat>, c: nat)
    ensures Sum(Scaled(m, c)) == Times(Sum(m), c)
    decreases |m|
  {
    hide Sum;
    if m == map[] {
      SumZero(m);
      SumZero(Scaled(m, c));
    } else {
      var k :| k in m;
      assert (m - {k}).Keys == m.Keys - {k};
      SumRemove(m, k);
      SumRemove(Scaled(m, c), k);
      ScaledDrop(m, c, k);
      ScaledSum(m - {k}, c);
      TimesAdd(m[k], Sum(m - {k}), c);
    }
  }

  /** Counted member by member, those not over the bar add at most `bps` of
      their share. */
  lemma MemberTurnout(p: nat, a: nat, n: nat, bps: nat, under: bool)
    requires a <= n && bps <= 10000 && (under <==> a * 10000 <= n * bps)
    ensures p * a * 10000 + (if under then p else 0) * (n * (10000 - bps)) <= p * (n * 10000)
  {
    if under {
      MulMono(a * 10000, n * bps, p);
      assert p * a * 10000 == p * (a * 10000);
      assert n * bps + n * (10000 - bps) == n * 10000;
      Distribute(n * bps, n * (10000 - bps), p);
    } else {
      MulMono(a * 10000, n * 10000, p);
      assert p * a * 10000 == p * (a * 10000);
    }
  }

  lemma TurnoutByMember(power: map<Key, nat>, lists: seq<seq<Vote>>, bps: nat)
    requires bps <= 10000
    ensures Sum(Turnout(power, lists)) * 10000 + WeightOf(power, Under(power, lists, bps)) * (|lists| * (10000 - bps))
         <= Sum(power) * (|lists| * 10000)
  {
    var n, under := |lists|, Under(power, lists, bps);
    var a := Scaled(Turnout(power, lists), 10000);
    var b := Scaled(Weighing(power, under), n * (10000 - bps));
    var c := Scaled(power, n * 10000);
    ScaledSum(Turnout(power, lists), 10000);
    ScaledSum(Weighing(power, under), n * (10000 - bps));
    ScaledSum(power, n * 10000);
    SumPlus(a, b);
    forall v | v in Plus(a, b) ensures Plus(a, b)[v] <= At(c, v) {
      MemberTurnout(power[v], Attended(lists, v), n, bps, v in under);
    }
    SumMono(Plus(a, b), c);
  }

  /** Those not over a bar of `bps` hold less than 1 / (3 · (1 − bps)) of the
      power: less than two thirds at 50%. */
  lemma UnderBarWeight(power: map<Key, nat>, lists: seq<seq<Vote>>, bps: nat)
    requires lists != [] && bps <= 10000
    requires forall i :: 0 <= i < |lists| ==> Quorum(power, lists[i])
    ensures 3 * WeightOf(power, Under(power, lists, bps)) * (10000 - bps) < Sum(power) * 10000
  {
    hide Sum, Turnout, WeightOf, Under, Quorum;
    var n, w, p, f := |lists|, Sum(Turnout(power, lists)), Sum(power), WeightOf(power, Under(power, lists, bps));
    TurnoutByBlock(power, lists);
    TurnoutByMember(power, lists, bps);
    WeightBound(n, w, p, f, 10000 - bps);
  }

  lemma WeightBound(n: nat, w: nat, p: nat, f: nat, c: nat)
    requires n > 0 && 3 * w >= 2 * p * n + n && w * 10000 + f * (n * c) <= p * (n * 10000)
    ensures 3 * f * c < p * 10000
  {
    Reorder(f, n, c);
    Reorder(p, n, 10000);
    Thrice(f, c, n);
    Twice(p, n);
    LinearBound(n, w, p * n, f * c * n);
    LessCancel(3 * f * c, p * 10000, n);
  }

  lemma Reorder(a: nat, b: nat, c: nat)
    ensures a * (b * c) == a * c * b == a * b * c
  {
  }

  lemma Thrice(a: nat, b: nat, c: nat)
    ensures 3 * a * b * c == 3 * (a * b * c)
  {
  }

  lemma Twice(a: nat, b: nat)
    ensures 2 * a * b == 2 * (a * b)
  {
  }

  lemma LinearBound(n: nat, w: nat, x: nat, y: nat)
    requires n > 0 && 3 * w >= 2 * x + n && w * 10000 + y <= x * 10000
    ensures 3 * y < x * 10000
  {
  }

  lemma LessCancel(a: nat, b: nat, n: nat)
    requires a * n < b * n
    ensures a < b
  {
    if b <= a { MulMono(b, a, n); }
  }

  /** In every epoch whose commits all carry more than two thirds of the
      power, some member with power meets the whole participation bar, the
      last-blocks window included. An epoch has up to two commits that are not
      of its set: more than half of the other 718 blocks are still half of the
      epoch. */
  lemma SomeoneMeetsBar(power: map<Key, nat>, att: map<Key, Attendance>, from: nat, lists: seq<seq<Vote>>)
    requires EPOCH - 2 <= |lists| <= EPOCH
    requires forall i :: 0 <= i < |lists| ==> Quorum(power, lists[i])
    ensures exists v :: v in power && power[v] > 0 && MeetsBar(Credited(att, from, lists), v, from + |lists|)
  {
    hide MeetsBar, Credited, Committers, WeightOf;
    var last := lists[|lists| - 1];
    UnderBarWeight(power, lists, LIVENESS_THRESHOLD_BPS);
    assert Quorum(power, last);
    var v := Outside(power, Committers(last), Under(power, lists, LIVENESS_THRESHOLD_BPS));
    Meets(att, from, lists, v);
  }

  /** More than half of 718 blocks or more, the last one among them, is the
      bar. */
  lemma Meets(att: map<Key, Attendance>, from: nat, lists: seq<seq<Vote>>, v: Key)
    requires EPOCH - 2 <= |lists| && v in Committers(lists[|lists| - 1])
    requires Attended(lists, v) * 10000 > |lists| * LIVENESS_THRESHOLD_BPS
    ensures MeetsBar(Credited(att, from, lists), v, from + |lists|)
  {
    hide Committers, Attended, Credit;
    var n := |lists|;
    CreditedCounts(att, from, lists, v);
    CreditOne(Credited(att, from, lists[..n - 1]), from + n, lists[n - 1], v);
  }

  lemma Outside(power: map<Key, nat>, a: set<Key>, b: set<Key>) returns (v: Key)
    requires WeightOf(power, a) > WeightOf(power, b)
    ensures v in power && power[v] > 0 && v in a && v !in b
  {
    if forall k :: k in power && power[k] > 0 && k in a ==> k in b {
      SumMono(Weighing(power, a), Weighing(power, b));
    }
    v :| v in power && power[v] > 0 && v in a && v !in b;
  }

  // ── why the bar is not 80% ──────────────────────────────────────────

  /** Four members of equal power; block i is committed by all but member
      i mod 4. */
  function AllBut(j: nat): seq<Vote> {
    seq(4, k requires 0 <= k < 4 => Vote(Key(k), k != j % 4))
  }

  function Rotation(n: nat): (r: seq<seq<Vote>>)
    ensures |r| == n
  {
    if n == 0 then [] else Rotation(n - 1) + [AllBut(n - 1)]
  }

  lemma AllButCommitters(j: nat, k: nat)
    requires k < 4
    ensures Key(k) in Committers(AllBut(j)) <==> k != j % 4
  {
    assert AllBut(j)[k].commit <==> k != j % 4;
    assert AllBut(j)[k].voter == Key(k);
  }

  lemma {:induction false} RotationAttended(n: nat, k: nat)
    requires k < 4
    ensures Attended(Rotation(n), Key(k)) + Turns(n, k) == n
  {
    hide Committers, AllBut;
    if n > 0 {
      RotationAttended(n - 1, k);
      assert Rotation(n)[..n - 1] == Rotation(n - 1);
      AllButCommitters(n - 1, k);
    }
  }

  /** How many of the first n blocks skip member k. */
  function Turns(n: nat, k: nat): nat {
    if n == 0 then 0 else Turns(n - 1, k) + (if k == (n - 1) % 4 then 1 else 0)
  }

  lemma FourTurns(m: nat, k: nat)
    requires k < 4
    ensures Turns(4 * m + 4, k) == Turns(4 * m, k) + 1
  {
    var n := 4 * m;
    assert (n + 1) % 4 == 1 && (n + 2) % 4 == 2 && (n + 3) % 4 == 3;
    assert Turns(n + 2, k) == Turns(n, k) + (if k == 0 || k == 1 then 1 else 0);
    assert Turns(n + 4, k) == Turns(n + 2, k) + (if k == 2 || k == 3 then 1 else 0);
  }

  lemma {:induction false} TurnsQuarter(m: nat, k: nat)
    requires k < 4
    ensures Turns(4 * m, k) == m
  {
    if m > 0 {
      TurnsQuarter(m - 1, k);
      FourTurns(m - 1, k);
    }
  }

  function FourEqual(p: nat): map<Key, nat> {
    map[Key(0) := p, Key(1) := p, Key(2) := p, Key(3) := p]
  }

  lemma FourSum(a: nat, b: nat, c: nat, d: nat)
    ensures Sum(map[Key(0) := a, Key(1) := b, Key(2) := c, Key(3) := d]) == a + b + c + d
  {
    var m: map<Key, nat> := map[];
    SumSet(m, Key(0), a);
    SumSet(m[Key(0) := a], Key(1), b);
    SumSet(m[Key(0) := a][Key(1) := b], Key(2), c);
    SumSet(m[Key(0) := a][Key(1) := b][Key(2) := c], Key(3), d);
    assert map[Key(0) := a, Key(1) := b, Key(2) := c, Key(3) := d]
        == m[Key(0) := a][Key(1) := b][Key(2) := c][Key(3) := d];
  }

  lemma RotationQuorum(p: nat, j: nat)
    requires p > 0
    ensures Quorum(FourEqual(p), AllBut(j))
  {
    var w := Weighing(FourEqual(p), Committers(AllBut(j)));
    AllButCommitters(j, 0);
    AllButCommitters(j, 1);
    AllButCommitters(j, 2);
    AllButCommitters(j, 3);
    FourSum(p, p, p, p);
    FourSum(w[Key(0)], w[Key(1)], w[Key(2)], w[Key(3)]);
    assert w == map[Key(0) := w[Key(0)], Key(1) := w[Key(1)], Key(2) := w[Key(2)], Key(3) := w[Key(3)]];
  }

  lemma {:induction false} RotationAt(n: nat, i: nat)
    requires i < n
    ensures Rotation(n)[i] == AllBut(i)
  {
    if i < n - 1 { RotationAt(n - 1, i); }
  }

  /** An epoch in which every commit carries three quarters of the power, and
      nobody reaches an 80% bar. */
  lemma EightyFailsAll(p: nat)
    requires p > 0
    ensures forall i :: 0 <= i < EPOCH ==> Quorum(FourEqual(p), Rotation(EPOCH)[i])
    ensures forall v :: v in FourEqual(p) ==> Attended(Rotation(EPOCH), v) * 10000 < EPOCH * 8000
  {
    forall i | 0 <= i < EPOCH ensures Quorum(FourEqual(p), Rotation(EPOCH)[i]) {
      RotationAt(EPOCH, i);
      RotationQuorum(p, i);
    }
    forall k | 0 <= k < 4 ensures Attended(Rotation(EPOCH), Key(k)) == EPOCH - EPOCH / 4 {
      RotationAttended(EPOCH, k);
      TurnsQuarter(EPOCH / 4, k);
    }
  }
}
