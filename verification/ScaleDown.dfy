/** Which containers a scale-down takes, and how many it leaves. */
module ScaleDown {
  import opened Options
  import opened Arithmetic

  /** A container as the scale filters see it: whether it is on a node that the item's constraints admit,
      whether it passes the item's filters, its app label, and its MIN_NUMBER. */
  datatype Candidate = Candidate(id: string, admitted: bool, matches: bool, app: Option<string>, minNumber: int)

  /** How selecting ends: with a list, which may be nil, or a slice expression out of range panics. */
  datatype Selection = Selected(containers: seq<Candidate>, isNil: bool) | NoAppLabel | Panics

  function Abs(i: int): (n: nat)
    ensures n == i || n == -i
  {
    if i < 0 then -i else i
  }

  ghost function Fits(c: Candidate, app: string): seq<Candidate> {
    if c.matches && c.app == Some(app) then [c] else []
  }

  /** The matching containers of an app, in order. */
  ghost function Of(cs: seq<Candidate>, app: string): seq<Candidate> {
    if cs == [] then [] else Of(cs[..|cs| - 1], app) + Fits(cs[|cs| - 1], app)
  }

  lemma OfSnoc(cs: seq<Candidate>, c: Candidate, app: string)
    ensures Of(cs + [c], app) == Of(cs, app) + Fits(c, app)
  {
    assert (cs + [c])[..|cs|] == cs;
  }

  lemma {:induction false} OfConcat(cs: seq<Candidate>, ds: seq<Candidate>, app: string)
    ensures Of(cs + ds, app) == Of(cs, app) + Of(ds, app)
  {
    if ds == [] {
      assert cs + ds == cs;
    } else {
      var front, last := ds[..|ds| - 1], ds[|ds| - 1];
      assert cs + ds == cs + front + [last];
      OfConcat(cs, front, app);
      OfSnoc(cs + front, last, app);
      assert Of(cs, app) + Of(front, app) + Fits(last, app) == Of(cs, app) + (Of(front, app) + Fits(last, app));
    }
  }

  lemma {:induction false} OfMembers(cs: seq<Candidate>, app: string)
    ensures forall c :: c in Of(cs, app) <==> c in cs && c.matches && c.app == Some(app)
  {
    if cs != [] {
      OfMembers(cs[..|cs| - 1], app);
      assert cs == cs[..|cs| - 1] + [cs[|cs| - 1]];
    }
  }

  /** Containers that all are matches of one app. */
  lemma {:induction false} OfOwn(cs: seq<Candidate>, app: string, other: string)
    requires forall c | c in cs :: c.matches && c.app == Some(app)
    ensures Of(cs, other) == if other == app then cs else []
  {
    if cs != [] {
      OfOwn(cs[..|cs| - 1], app, other);
      assert cs == cs[..|cs| - 1] + [cs[|cs| - 1]];
    }
  }

  /** The first n of a list that leaves at least m of it, or all but the first m. */
  ghost function Pick(l: seq<Candidate>, n: nat, m: nat): seq<Candidate>
    requires m <= |l|
  {
    if |l| >= n + m then l[..n] else l[m..]
  }

  /** The minimum that counts for an app is that of its first match. */
  ghost function Minimum(l: seq<Candidate>): int {
    if l == [] then 0 else l[0].minNumber
  }

  /** `s` is what an app with the matches `l` gives up. */
  ghost predicate IsShare(s: seq<Candidate>, l: seq<Candidate>, n: nat) {
    0 <= Minimum(l) <= |l| && s == Pick(l, n, Minimum(l))
  }

  /** The guarantee: scaling down by n takes n containers unless that leaves fewer than the minimum; in any
      case max(|l| - n, minimum) remain, and what is taken is a contiguous part of the list. */
  lemma MinimumKept(s: seq<Candidate>, l: seq<Candidate>, n: nat)
    requires IsShare(s, l, n)
    ensures |s| == if n <= |l| - Minimum(l) then n else |l| - Minimum(l)
    ensures |l| - |s| == if |l| - n >= Minimum(l) then |l| - n else Minimum(l)
    ensures exists lo, hi :: 0 <= lo <= hi <= |l| && s == l[lo..hi]
  {
    if |l| >= n + Minimum(l) {
      assert s == l[0..n];
    } else {
      assert s == l[Minimum(l)..|l|];
    }
  }

  /** With two matches that state different minimums it is the order that decides how many remain. */
  lemma OrderDecides(s: seq<Candidate>, t: seq<Candidate>, a: Candidate, b: Candidate, n: nat)
    requires a.minNumber == 0 && b.minNumber == 2 && n >= 2
    requires IsShare(s, [a, b], n) && IsShare(t, [b, a], n)
    ensures s == [a, b] && t == []
  {
  }

  // ---- Several items for one app ----

  /** The i-th of `len` matches is given up to an item that asks for n and has to leave m. */
  predicate GivenUp(len: nat, m: nat, n: nat, i: nat) {
    i < len && if len >= n + m then i < n else i >= m
  }

  /** That is what the share of the item consists of. */
  lemma ShareIs(s: seq<Candidate>, l: seq<Candidate>, n: nat)
    requires IsShare(s, l, n)
    ensures var m := Minimum(l);
            |s| == |set i | 0 <= i < |l| && GivenUp(|l|, m, n, i)|
            && (forall i | 0 <= i < |l| && GivenUp(|l|, m, n, i) :: s[if |l| >= n + m then i else i - m] == l[i])
  {
    var m := Minimum(l);
    var given := set i | 0 <= i < |l| && GivenUp(|l|, m, n, i);
    if |l| >= n + m {
      assert given == Range(0, n);
      RangeSize(0, n);
    } else {
      assert given == Range(m, |l|);
      RangeSize(m, |l|);
    }
  }

  predicate Between(lo: nat, hi: nat, i: nat) {
    lo <= i < hi
  }

  function Range(lo: nat, hi: nat): set<nat> {
    set i | 0 <= i < hi && Between(lo, hi, i)
  }

  lemma {:induction false} RangeSize(lo: nat, hi: nat)
    requires lo <= hi
    ensures |Range(lo, hi)| == hi - lo
    decreases hi - lo
  {
    if lo < hi {
      RangeSize(lo, hi - 1);
      assert Range(lo, hi) == Range(lo, hi - 1) + {hi - 1};
    }
  }

  function Elements(s: seq<Candidate>): set<Candidate> {
    set c | c in s
  }

  ghost predicate Distinct(l: seq<Candidate>) {
    forall i, j | 0 <= i < j < |l| :: l[i] != l[j]
  }

  /** `l` is an order of these matches. Every item of a request sees them in an order of its own: each ranges over the
      maps of engines and containers anew. */
  ghost predicate OrderOf(l: seq<Candidate>, all: set<Candidate>) {
    Elements(l) == all && Distinct(l)
  }

  lemma {:induction false} DistinctSize(l: seq<Candidate>)
    requires Distinct(l)
    ensures |Elements(l)| == |l|
  {
    if l != [] {
      DistinctSize(l[1..]);
      assert l == [l[0]] + l[1..];
      assert Elements(l) == {l[0]} + Elements(l[1..]);
    }
  }

  /** What a filter is given of an app is an order of the app's matches. */
  lemma {:induction false} OfOrder(cs: seq<Candidate>, app: string)
    requires Distinct(cs)
    ensures OrderOf(Of(cs, app), set c | c in cs && c.matches && c.app == Some(app))
  {
    OfMembers(cs, app);
    if cs != [] {
      var front := cs[..|cs| - 1];
      OfOrder(front, app);
      OfMembers(front, app);
    }
  }

  /** What some item that asks for n is given of these matches. */
  ghost predicate ShareIn(s: seq<Candidate>, all: set<Candidate>, n: nat) {
    exists l :: OrderOf(l, all) && IsShare(s, l, n)
  }

  /** All items of a request are filtered before any container is removed, so that they see the same matches. */
  ghost predicate AreShares(shares: seq<seq<Candidate>>, all: set<Candidate>, ns: seq<nat>) {
    |shares| == |ns| && forall k | 0 <= k < |ns| :: ShareIn(shares[k], all, ns[k])
  }

  function Gone(shares: seq<seq<Candidate>>): set<Candidate> {
    if shares == [] then {} else Gone(shares[..|shares| - 1]) + Elements(shares[|shares| - 1])
  }

  ghost predicate AllKeep(all: set<Candidate>, m: nat) {
    forall c | c in all :: c.minNumber == m
  }

  /** How many containers the items take in sum, when none of them takes more than `room`. */
  function Total(ns: seq<nat>, room: nat): nat {
    if ns == [] then 0 else Total(ns[..|ns| - 1], room) + Min(ns[|ns| - 1], room)
  }

  lemma OrderMinimum(l: seq<Candidate>, all: set<Candidate>, m: nat)
    requires OrderOf(l, all) && AllKeep(all, m) && m <= |all|
    ensures |l| == |all| && Minimum(l) == m
  {
    DistinctSize(l);
    if l != [] {
      assert l[0] in Elements(l);
    }
  }

  lemma ShareSize(s: seq<Candidate>, all: set<Candidate>, m: nat, n: nat)
    requires ShareIn(s, all, n) && AllKeep(all, m) && m <= |all|
    ensures Elements(s) <= all && |Elements(s)| == Min(n, |all| - m)
  {
    var l :| OrderOf(l, all) && IsShare(s, l, n);
    OrderMinimum(l, all, m);
    DistinctSize(s);
    assert forall c | c in s :: c in Elements(l);
  }

  lemma UnionSize(a: set<Candidate>, b: set<Candidate>)
    ensures |a + b| <= |a| + |b|
    ensures a !! b ==> |a + b| == |a| + |b|
  {
    assert a + b == a + (b - a);
    assert b == (b - a) + b * a;
  }

  lemma SubsetSize(a: set<Candidate>, b: set<Candidate>)
    requires a <= b
    ensures |b - a| == |b| - |a|
  {
    assert b == a + (b - a);
  }

  lemma {:induction false} GoneAtMost(shares: seq<seq<Candidate>>, all: set<Candidate>, m: nat, ns: seq<nat>)
    requires AreShares(shares, all, ns) && AllKeep(all, m) && m <= |all|
    ensures Gone(shares) <= all && |Gone(shares)| <= Total(ns, |all| - m)
  {
    if ns != [] {
      var k := |ns| - 1;
      assert forall h | 0 <= h < k :: ShareIn(shares[..k][h], all, ns[..k][h]) by {
        assert forall h | 0 <= h < k :: ShareIn(shares[h], all, ns[h]);
      }
      GoneAtMost(shares[..k], all, m, ns[..k]);
      ShareSize(shares[k], all, m, ns[k]);
      UnionSize(Gone(shares[..k]), Elements(shares[k]));
    }
  }

  lemma {:induction false} Ordered(all: set<Candidate>) returns (l: seq<Candidate>)
    ensures OrderOf(l, all)
    decreases |all|
  {
    l := [];
    if all != {} {
      var c :| c in all;
      var rest := Ordered(all - {c});
      l := [c] + rest;
      assert c !in Elements(rest);
      assert Elements(l) == {c} + Elements(rest);
    }
  }

  lemma Joined(a: seq<Candidate>, b: seq<Candidate>)
    requires Distinct(a) && Distinct(b) && Elements(a) !! Elements(b)
    ensures OrderOf(a + b, Elements(a) + Elements(b))
  {
    forall i, j | 0 <= i < j < |a + b| ensures (a + b)[i] != (a + b)[j] {
      assert i < |a| ==> a[i] in Elements(a);
      assert j >= |a| ==> b[j - |a|] in Elements(b);
    }
  }

  /** Any part of the matches can come first, or last. */
  lemma PartFirst(all: set<Candidate>, part: set<Candidate>) returns (l: seq<Candidate>)
    requires part <= all
    ensures OrderOf(l, all) && |l| == |all| && |part| <= |all| && Elements(l[..|part|]) == part
  {
    var a := Ordered(part);
    var b := Ordered(all - part);
    l := a + b;
    Joined(a, b);
    DistinctSize(l);
    DistinctSize(a);
    assert l[..|part|] == a;
  }

  /** `t` takes as much as it can of what is not gone yet. */
  ghost predicate Greedy(t: set<Candidate>, all: set<Candidate>, gone: set<Candidate>) {
    if |t| + |gone| <= |all| then t !! gone else all - gone <= t
  }

  lemma GreedySize(t: set<Candidate>, all: set<Candidate>, gone: set<Candidate>)
    requires t <= all && gone <= all && Greedy(t, all, gone)
    ensures gone + t <= all && |gone + t| == Min(|all|, |gone| + |t|)
  {
    UnionSize(gone, t);
    if |t| + |gone| > |all| {
      assert gone + t == all;
    }
  }

  lemma FirstShare(all: set<Candidate>, m: nat, n: nat, gone: set<Candidate>) returns (s: seq<Candidate>)
    requires AllKeep(all, m) && n + m <= |all| && gone <= all
    ensures ShareIn(s, all, n) && Greedy(Elements(s), all, gone)
  {
    SubsetSize(gone, all);
    var l := PartFirst(all, all - gone);
    OrderMinimum(l, all, m);
    s := l[..n];
    assert IsShare(s, l, n);
    ShareSize(s, all, m, n);
    PrefixPart(l, all - gone, n);
  }

  lemma LastShare(all: set<Candidate>, m: nat, n: nat, gone: set<Candidate>) returns (s: seq<Candidate>)
    requires AllKeep(all, m) && m <= |all| < n + m && gone <= all
    ensures ShareIn(s, all, n) && Greedy(Elements(s), all, gone)
  {
    var l := PartFirst(all, gone);
    OrderMinimum(l, all, m);
    s := l[m..];
    assert IsShare(s, l, n);
    ShareSize(s, all, m, n);
    SuffixPart(l, gone, m);
  }

  /** With an order that suits, an item takes as many containers that are not taken yet as it can. */
  lemma WorstShare(all: set<Candidate>, m: nat, n: nat, gone: set<Candidate>) returns (s: seq<Candidate>)
    requires AllKeep(all, m) && m <= |all| && gone <= all
    ensures ShareIn(s, all, n)
    ensures gone + Elements(s) <= all && |gone + Elements(s)| == Min(|all|, |gone| + Min(n, |all| - m))
  {
    if n + m <= |all| {
      s := FirstShare(all, m, n, gone);
    } else {
      s := LastShare(all, m, n, gone);
    }
    ShareSize(s, all, m, n);
    GreedySize(Elements(s), all, gone);
  }

  lemma PrefixPart(l: seq<Candidate>, part: set<Candidate>, n: nat)
    requires Distinct(l) && n <= |l| && |part| <= |l| && Elements(l[..|part|]) == part
    ensures if n <= |part| then Elements(l[..n]) <= part else part <= Elements(l[..n])
  {
    if n <= |part| {
      assert l[..n] == l[..|part|][..n];
    } else {
      assert l[..|part|] == l[..n][..|part|];
    }
  }

  lemma SuffixPart(l: seq<Candidate>, part: set<Candidate>, m: nat)
    requires Distinct(l) && m <= |l| && |part| <= |l| && Elements(l[..|part|]) == part
    ensures if m >= |part| then Elements(l[m..]) !! part else Elements(l) - part <= Elements(l[m..])
  {
    if m >= |part| {
      forall i, j | 0 <= i < |part| && m <= j < |l| ensures l[i] != l[j] {
      }
      assert forall c | c in part :: c in l[..|part|];
    } else {
      assert l == l[..|part|] + l[|part|..];
      assert l[|part|..] == l[m..][|part| - m..];
    }
  }

  /** With orders that suit, the items take as many containers as they can in sum. */
  lemma {:induction false} WorstShares(all: set<Candidate>, m: nat, ns: seq<nat>) returns (shares: seq<seq<Candidate>>)
    requires AllKeep(all, m) && m <= |all|
    ensures AreShares(shares, all, ns) && Gone(shares) <= all
    ensures |Gone(shares)| == Min(|all|, Total(ns, |all| - m))
  {
    shares := [];
    if ns != [] {
      var k := |ns| - 1;
      var front := WorstShares(all, m, ns[..k]);
      var last := WorstShare(all, m, ns[k], Gone(front));
      shares := front + [last];
      assert shares[..k] == front;
      OneShareMore(front, last, all, ns);
    }
  }

  lemma OneShareMore(front: seq<seq<Candidate>>, last: seq<Candidate>, all: set<Candidate>, ns: seq<nat>)
    requires ns != [] && AreShares(front, all, ns[..|ns| - 1]) && ShareIn(last, all, ns[|ns| - 1])
    ensures AreShares(front + [last], all, ns)
  {
    forall h | 0 <= h < |ns| ensures ShareIn((front + [last])[h], all, ns[h]) {
      assert h < |ns| - 1 ==> ShareIn(front[h], all, ns[..|ns| - 1][h]);
    }
  }

  /** Several items for one app, in whatever order each of them sees the matches: the minimum is kept in any case
      exactly when there is none, or the items together take no more than may go. */
  lemma RequestKeepsMinimumIff(all: set<Candidate>, m: nat, ns: seq<nat>)
    requires AllKeep(all, m) && m <= |all|
    ensures (forall shares | AreShares(shares, all, ns) :: |all - Gone(shares)| >= m)
            <==> m == 0 || Total(ns, |all| - m) <= |all| - m
  {
    if Total(ns, |all| - m) <= |all| - m {
      forall shares | AreShares(shares, all, ns) ensures |all - Gone(shares)| >= m {
        GoneAtMost(shares, all, m, ns);
        SubsetSize(Gone(shares), all);
      }
    } else if m > 0 {
      var shares := WorstShares(all, m, ns);
      SubsetSize(Gone(shares), all);
      assert |all - Gone(shares)| < m;
    }
  }

  lemma TotalTwo(a: nat, b: nat, room: nat)
    ensures Total([a, b], room) == Min(a, room) + Min(b, room)
  {
    assert [a, b][..1] == [a] && [a][..0] == [];
    assert Total([a], room) == Total([], room) + Min(a, room);
  }

  /** Of five matches with a minimum of two, two items that ask for two each may leave one, and items that ask for
      three and for four may leave none. */
  lemma TwoItemsTakeTooMany(all: set<Candidate>) returns (one: seq<seq<Candidate>>, none: seq<seq<Candidate>>)
    requires AllKeep(all, 2) && |all| == 5
    ensures AreShares(one, all, [2, 2]) && |all - Gone(one)| == 1
    ensures AreShares(none, all, [3, 4]) && all - Gone(none) == {}
  {
    one := WorstShares(all, 2, [2, 2]);
    none := WorstShares(all, 2, [3, 4]);
    TotalTwo(2, 2, 3);
    TotalTwo(3, 4, 3);
    SubsetSize(Gone(one), all);
    SubsetSize(Gone(none), all);
  }

  ghost predicate Unlabelled(cs: seq<Candidate>) {
    exists c :: c in cs && c.matches && c.app == None
  }

  ghost predicate Natural(cs: seq<Candidate>) {
    forall c | c in cs :: c.minNumber >= 0
  }

  /** Some app has fewer matches than it must keep. */
  ghost predicate Overdrawn(cs: seq<Candidate>) {
    exists app :: Minimum(Of(cs, app)) > |Of(cs, app)|
  }

  /** The list an app collects while the containers are scanned: no more than it takes to decide. */
  ghost function Capped(l: seq<Candidate>, n: nat): seq<Candidate> {
    if l != [] && Minimum(l) >= 0 && n + Minimum(l) < |l| then l[..n + Minimum(l)] else l
  }

  /** What the scan has collected for an app with the matches `l` so far. */
  ghost predicate Right(apps: map<string, seq<Candidate>>, l: seq<Candidate>, n: nat, app: string) {
    if l == [] then app !in apps else app in apps && apps[app] == Capped(l, n)
  }

  ghost predicate Collected(apps: map<string, seq<Candidate>>, cs: seq<Candidate>, n: nat) {
    forall app :: Right(apps, Of(cs, app), n, app)
  }

  /** One step of the scan, for a matching container of app `a`. */
  function Collect(apps: map<string, seq<Candidate>>, a: string, c: Candidate, n: nat): map<string, seq<Candidate>> {
    if a !in apps then apps[a := [c]]
    else if apps[a] != [] && |apps[a]| < n + apps[a][0].minNumber then apps[a := apps[a] + [c]]
    else apps
  }

  lemma RightSnoc(apps: map<string, seq<Candidate>>, l: seq<Candidate>, c: Candidate, n: nat, app: string)
    requires Right(apps, l, n, app) && n >= 1 && c.minNumber >= 0 && Minimum(l) >= 0
    ensures !c.matches ==> Right(apps, l + Fits(c, app), n, app)
    ensures c.matches && c.app.Some? ==> Right(Collect(apps, c.app.value, c, n), l + Fits(c, app), n, app)
  {
    assert l + [] == l;
    if c.matches && c.app == Some(app) && l != [] {
      CappedSnoc(l, c, n);
    }
  }

  lemma CollectedSnoc(apps: map<string, seq<Candidate>>, cs: seq<Candidate>, c: Candidate, n: nat)
    requires Collected(apps, cs, n) && n >= 1 && Natural(cs + [c])
    ensures !c.matches ==> Collected(apps, cs + [c], n)
    ensures c.matches && c.app.Some? ==> Collected(Collect(apps, c.app.value, c, n), cs + [c], n)
  {
    forall app
      ensures !c.matches ==> Right(apps, Of(cs + [c], app), n, app)
      ensures c.matches && c.app.Some? ==> Right(Collect(apps, c.app.value, c, n), Of(cs + [c], app), n, app)
    {
      OfSnoc(cs, c, app);
      if Of(cs, app) != [] {
        FirstNatural(cs + [c], cs, app);
      }
      assert c in cs + [c];
      RightSnoc(apps, Of(cs, app), c, n, app);
    }
  }

  lemma FirstNatural(all: seq<Candidate>, cs: seq<Candidate>, app: string)
    requires Natural(all) && cs <= all && Of(cs, app) != []
    ensures Of(cs, app)[0].minNumber >= 0
  {
    OfMembers(cs, app);
    assert Of(cs, app)[0] in Of(cs, app);
    assert Of(cs, app)[0] in all;
  }

  lemma CappedFirst(l: seq<Candidate>, n: nat)
    requires l != [] && n >= 1 && l[0].minNumber >= 0
    ensures Capped(l, n) != [] && Capped(l, n)[0] == l[0] && Capped(l, n) <= l
    ensures |Capped(l, n)| >= n + l[0].minNumber <==> |l| >= n + l[0].minNumber
    ensures |l| < n + l[0].minNumber ==> Capped(l, n) == l
  {
  }

  /** The apps in `todo` have given up nothing yet, all others their share. */
  ghost predicate Shared(taken: seq<Candidate>, cs: seq<Candidate>, n: nat, todo: set<string>) {
    && (forall app | app in todo :: Of(taken, app) == [])
    && (forall app | app !in todo :: IsShare(Of(taken, app), Of(cs, app), n))
  }

  lemma SharedMore(taken: seq<Candidate>, cs: seq<Candidate>, n: nat, todo: set<string>, a: string,
                   part: seq<Candidate>)
    requires Shared(taken, cs, n, todo) && a in todo && IsShare(part, Of(cs, a), n)
    requires forall c | c in part :: c in Of(cs, a)
    ensures Shared(taken + part, cs, n, todo - {a})
    ensures forall c | c in part :: c.matches && c.app.Some?
  {
    OfMembers(cs, a);
    forall app | app != a ensures Of(taken + part, app) == Of(taken, app) {
      OfConcat(taken, part, app);
      OfOwn(part, a, app);
      assert Of(taken, app) + [] == Of(taken, app);
    }
    assert Of(taken + part, a) == part by {
      OfConcat(taken, part, a);
      OfOwn(part, a, a);
      assert [] + part == part;
    }
    forall app | app in todo - {a} ensures Of(taken + part, app) == [] {
      assert Of(taken, app) == [];
    }
    forall app | app !in todo - {a} ensures IsShare(Of(taken + part, app), Of(cs, app), n) {
      assert app != a ==> IsShare(Of(taken, app), Of(cs, app), n);
    }
  }

  lemma SharedNone(apps: map<string, seq<Candidate>>, cs: seq<Candidate>, n: nat)
    requires Collected(apps, cs, n)
    ensures Shared([], cs, n, apps.Keys)
  {
    forall app | app !in apps ensures IsShare([], Of(cs, app), n) {
      assert Right(apps, Of(cs, app), n, app);
    }
  }

  lemma SharedAll(taken: seq<Candidate>, cs: seq<Candidate>, n: nat)
    requires Shared(taken, cs, n, {})
    ensures !Overdrawn(cs) && forall app :: IsShare(Of(taken, app), Of(cs, app), n)
  {
    forall app ensures Minimum(Of(cs, app)) <= |Of(cs, app)| {
      assert IsShare(Of(taken, app), Of(cs, app), n);
    }
  }

  lemma CappedSnoc(l: seq<Candidate>, c: Candidate, n: nat)
    requires l != [] && n >= 1 && l[0].minNumber >= 0
    ensures Capped(l, n) != [] && Capped(l, n)[0] == l[0]
    ensures Capped(l + [c], n) == if |Capped(l, n)| < n + l[0].minNumber then Capped(l, n) + [c] else Capped(l, n)
  {
    var k := n + l[0].minNumber;
    if k <= |l| {
      assert (l + [c])[..k] == l[..k];
      assert k == |l| ==> l[..k] == l;
    }
  }

  /** The containers that the non-service form considers. */
  ghost function Considered(cs: seq<Candidate>): seq<Candidate> {
    if cs == [] then []
    else Considered(cs[..|cs| - 1]) + if cs[|cs| - 1].admitted && cs[|cs| - 1].matches then [cs[|cs| - 1]] else []
  }

  lemma ConsideredSnoc(cs: seq<Candidate>, c: Candidate)
    ensures Considered(cs + [c]) == Considered(cs) + if c.admitted && c.matches then [c] else []
  {
    assert (cs + [c])[..|cs|] == cs;
  }

  /** Those are the matching containers on admitted nodes. */
  lemma {:induction false} ConsideredAre(cs: seq<Candidate>)
    ensures forall c :: c in Considered(cs) <==> c in cs && c.admitted && c.matches
  {
    if cs != [] {
      ConsideredAre(cs[..|cs| - 1]);
      assert cs == cs[..|cs| - 1] + [cs[|cs| - 1]];
    }
  }

  /** The collected list becomes long enough for the minimum of the container added last. */
  ghost predicate Stops(l: seq<Candidate>, n: nat) {
    exists k :: 0 <= k < |l| && k + 1 >= n + l[k].minNumber
  }

  ghost function LastMinimum(l: seq<Candidate>): int {
    if l == [] then 0 else l[|l| - 1].minNumber
  }

  ghost predicate Uniform(l: seq<Candidate>, m: int) {
    forall c | c in l :: c.minNumber == m
  }

  /** When all considered containers have the same minimum, the last one seen is as good as any. */
  lemma UniformShare(l: seq<Candidate>, n: nat, m: nat)
    requires n >= 1 && Uniform(l, m) && l != []
    ensures Stops(l, n) <==> |l| >= n + m
    ensures !Stops(l, n) ==> LastMinimum(l) == m
    ensures m <= |l| ==> IsShare(if Stops(l, n) then l[..n] else l[m..], l, n)
  {
    assert l[0] in l && l[|l| - 1] in l;
    if |l| >= n + m {
      assert l[n + m - 1] in l;
    }
  }

  /** In the form without apps nothing is given up exactly when the minimum runs. */
  lemma EmptyHandedOnIff(l: seq<Candidate>, n: nat, m: nat)
    requires n >= 1 && Uniform(l, m) && l != [] && m <= |l|
    ensures (if Stops(l, n) then l[..n] else l[m..]) == [] <==> |l| == m
  {
    UniformShare(l, n, m);
    if Stops(l, n) {
      assert |l[..n]| == n;
    }
  }

  /** What the form without apps selects of the containers that it considers. */
  ghost function Decision(l: seq<Candidate>, n: nat): seq<Candidate>
    requires Stops(l, n) ==> n <= |l|
    requires !Stops(l, n) ==> 0 <= LastMinimum(l) <= |l|
  {
    if Stops(l, n) then l[..n] else l[LastMinimum(l)..]
  }

  /** How the form without apps ends, given the containers that it considers: it panics exactly when the scan saw all of
      them and the last one seen has a minimum beyond their number. */
  ghost predicate Decided(r: Selection, l: seq<Candidate>, n: nat) {
    && !r.NoAppLabel?
    && (r.Panics? <==> !Stops(l, n) && LastMinimum(l) > |l|)
    && (r.Selected? ==>
          && (Stops(l, n) ==> n <= |l|) && (!Stops(l, n) ==> 0 <= LastMinimum(l) <= |l|)
          && r.containers == Decision(l, n) && (r.isNil <==> l == []))
  }

  /** With different minimums that of a container is kept exactly when enough containers are left by the number asked
      for, or, when the scan saw all of them, when the last one seen has no smaller minimum. */
  lemma LastSeenDecides(l: seq<Candidate>, n: nat, c: Candidate)
    requires n >= 1 && c in l && forall d | d in l :: d.minNumber >= 0
    requires !Stops(l, n) ==> LastMinimum(l) <= |l|
    ensures (Stops(l, n) ==> n <= |l|) && (!Stops(l, n) ==> 0 <= LastMinimum(l))
    ensures |l| - |Decision(l, n)| >= c.minNumber <==>
            if Stops(l, n) then |l| >= n + c.minNumber else LastMinimum(l) >= c.minNumber
  {
    assert l[|l| - 1] in l;
    if k :| 0 <= k < |l| && k + 1 >= n + l[k].minNumber {
      assert l[k] in l;
    }
  }

  lemma StopsSnoc(l: seq<Candidate>, c: Candidate, n: nat)
    ensures Stops(l + [c], n) <==> Stops(l, n) || |l| + 1 >= n + c.minNumber
  {
    if Stops(l, n) {
      var k :| 0 <= k < |l| && k + 1 >= n + l[k].minNumber;
      assert (l + [c])[k] == l[k];
    }
    assert (l + [c])[|l|] == c;
  }

  lemma StopsPrefix(l: seq<Candidate>, all: seq<Candidate>, n: nat)
    requires l <= all && Stops(l, n)
    ensures Stops(all, n)
  {
    var k :| 0 <= k < |l| && k + 1 >= n + l[k].minNumber;
    assert all[k] == l[k];
  }

  lemma {:induction false} ConsideredPrefix(cs: seq<Candidate>, i: nat)
    requires i <= |cs|
    ensures Considered(cs[..i]) <= Considered(cs)
    decreases |cs| - i
  {
    if i == |cs| {
      assert cs[..i] == cs;
    } else {
      assert cs[..i + 1] == cs[..i] + [cs[i]];
      ConsideredSnoc(cs[..i], cs[i]);
      ConsideredPrefix(cs, i + 1);
    }
  }

  /** Once the scan stops, its decision is that on the whole list. */
  lemma StoppedEarly(cs: seq<Candidate>, i: nat, n: nat)
    requires i <= |cs| && Stops(Considered(cs[..i]), n) && n <= |Considered(cs[..i])|
    ensures Stops(Considered(cs), n) && n <= |Considered(cs)| && Considered(cs)[..n] == Considered(cs[..i])[..n]
  {
    ConsideredPrefix(cs, i);
    StopsPrefix(Considered(cs[..i]), Considered(cs), n);
  }

  class ContainerFilter {
    var containers: seq<Candidate>
    const number: int

    constructor (containers: seq<Candidate>, number: int)
      ensures this.containers == containers && this.number == number
    {
      this.containers, this.number := containers, number;
    }

    /** filterService. Each app gives up what keeps its minimum. A matching container without an app label ends
        the selection early and leaves the list of containers as it was, unfiltered. */
    method FilterService() returns (r: Selection)
      requires number != 0 && Natural(containers)
      modifies this`containers
      ensures r.NoAppLabel? <==> Unlabelled(old(containers))
      ensures r.Panics? <==> !Unlabelled(old(containers)) && Overdrawn(old(containers))
      ensures r.Selected? ==> containers == r.containers
      ensures !r.Selected? ==> containers == old(containers)
      ensures r.Selected? ==> forall app :: IsShare(Of(r.containers, app), Of(old(containers), app), Abs(number))
      ensures r.Selected? ==> (r.isNil <==> r.containers == [])
      ensures r.Selected? ==> forall c | c in r.containers :: c.matches && c.app.Some?
    {
      var n := Abs(number);
      var apps := map[];
      for i := 0 to |containers|
        invariant containers == old(containers) && !Unlabelled(containers[..i])
        invariant Collected(apps, containers[..i], n)
      {
        var c := containers[i];
        assert containers[..i + 1] == containers[..i] + [c];
        CollectedSnoc(apps, containers[..i], c, n);
        if c.matches {
          if c.app == None {
            return NoAppLabel;
          }
          apps := Collect(apps, c.app.value, c, n);
        }
      }
      assert containers[..|containers|] == containers;
      r := TakeAll(apps, n);
      if r.Selected? {
        containers := r.containers;
      }
    }

    /** filterContainers, the form without apps: the scan stops as soon as the minimum of the container just
        added would be kept; else the minimum of the last one added is. */
    method FilterContainers() returns (r: Selection)
      requires number != 0 && Natural(containers)
      modifies this`containers
      ensures Decided(r, Considered(old(containers)), Abs(number)) && (r.Selected? ==> containers == r.containers)
    {
      var n := Abs(number);
      var taken, isNil, minNum := [], true, 0;
      for i := 0 to |containers|
        invariant containers == old(containers)
        invariant taken == Considered(containers[..i]) && minNum == LastMinimum(taken) >= 0 && !Stops(taken, n)
        invariant isNil <==> taken == []
      {
        var c := containers[i];
        assert containers[..i + 1] == containers[..i] + [c];
        ConsideredSnoc(containers[..i], c);
        if c.admitted && c.matches {
          StopsSnoc(taken, c, n);
          taken, isNil := taken + [c], false;
          minNum := c.minNumber;
          if |taken| >= n + minNum {
            StoppedEarly(containers, i + 1, n);
            containers := taken[..n];
            return Selected(containers, false);
          }
        }
      }
      assert containers[..|containers|] == containers;
      if minNum > |taken| {
        return Panics;
      }
      containers := taken[minNum..];
      r := Selected(containers, isNil);
    }

    /** What one app gives up; slicing off more than there is panics. */
    method TakeOne(v: seq<Candidate>, n: nat, ghost l: seq<Candidate>) returns (part: Option<seq<Candidate>>)
      requires n >= 1 && l != [] && l[0].minNumber >= 0 && v == Capped(l, n)
      ensures part == None <==> Minimum(l) > |l|
      ensures part.Some? ==> IsShare(part.value, l, n) && forall c | c in part.value :: c in l
    {
      CappedFirst(l, n);
      var minNum := v[0].minNumber;
      if |v| >= n + minNum {
        return Some(v[..n]);
      }
      if minNum > |v| {
        return None;
      }
      part := Some(v[minNum..]);
    }

    /** The second loop: the apps in the order in which the map gives them. */
    method TakeAll(apps: map<string, seq<Candidate>>, n: nat) returns (r: Selection)
      requires n >= 1 && Natural(containers) && Collected(apps, containers, n)
      ensures !r.NoAppLabel? && (r.Panics? <==> Overdrawn(containers))
      ensures r.Selected? ==> forall app :: IsShare(Of(r.containers, app), Of(containers, app), n)
      ensures r.Selected? ==> (r.isNil <==> r.containers == [])
      ensures r.Selected? ==> forall c | c in r.containers :: c.matches && c.app.Some?
    {
      var taken: seq<Candidate>, isNil := [], true;
      var todo := apps.Keys;
      SharedNone(apps, containers, n);
      while todo != {}
        invariant todo <= apps.Keys && Shared(taken, containers, n, todo)
        invariant forall c | c in taken :: c.matches && c.app.Some?
        invariant isNil <==> taken == []
      {
        var a :| a in todo;
        assert Right(apps, Of(containers, a), n, a);
        FirstNatural(containers, containers, a);
        var part := TakeOne(apps[a], n, Of(containers, a));
        if part == None {
          return Panics;
        }
        SharedMore(taken, containers, n, todo, a, part.value);
        taken, isNil, todo := taken + part.value, isNil && part.value == [], todo - {a};
      }
      SharedAll(taken, containers, n);
      r := Selected(taken, isNil);
    }
  }
}
