/** Work stealing settles (requesting.go, the fill and steal loop).

    Connections take unrequested chunks and steal requests from each other. With no
    chunk arriving and last-useful times fixed, the number of such takeovers is
    bounded, whatever the connections, the order of updates and the steps between. */
module Stealing {
  import opened Outcomes
  import opened RequestState
  import opened RequestInvariant
  import opened RequestFill
  import opened RequestRuns
  import opened Arithmetic
  import opened Sets

  // ---------- sums over queue lengths ----------

  function Dot(l: seq<nat>, w: seq<nat>): nat
    requires |l| == |w|
  {
    if l == [] then 0 else Dot(l[..|l| - 1], w[..|l| - 1]) + l[|l| - 1] * w[|l| - 1]
  }

  function SumSq(l: seq<nat>): nat {
    Dot(l, l)
  }

  function Ones(n: nat): seq<nat> {
    seq(n, _ => 1)
  }

  function Sum(l: seq<nat>): nat {
    Dot(l, Ones(|l|))
  }

  lemma {:induction false} SumSnoc(l: seq<nat>)
    requires l != []
    ensures Sum(l) == Sum(l[..|l| - 1]) + l[|l| - 1]
  {
    assert Ones(|l|)[..|l| - 1] == Ones(|l| - 1);
  }

  lemma {:induction false} DotUpdate(l: seq<nat>, w: seq<nat>, i: nat, v: nat)
    requires |l| == |w| && i < |l|
    ensures Dot(l[i := v], w) == Dot(l, w) - l[i] * w[i] + v * w[i]
    decreases |l|
  {
    var n := |l| - 1;
    if i < n {
      DotUpdate(l[..n], w[..n], i, v);
      assert l[i := v][..n] == l[..n][i := v];
    } else {
      assert l[i := v][..n] == l[..n];
    }
  }

  lemma {:induction false} DotUpdateRight(l: seq<nat>, w: seq<nat>, i: nat, v: nat)
    requires |l| == |w| && i < |l|
    ensures Dot(l, w[i := v]) == Dot(l, w) - l[i] * w[i] + l[i] * v
    decreases |l|
  {
    var n := |l| - 1;
    if i < n {
      DotUpdateRight(l[..n], w[..n], i, v);
      assert w[i := v][..n] == w[..n][i := v];
    } else {
      assert w[i := v][..n] == w[..n];
    }
  }

  lemma {:induction false} SumSqUpdate(l: seq<nat>, i: nat, v: nat)
    requires i < |l|
    ensures SumSq(l[i := v]) == SumSq(l) - l[i] * l[i] + v * v
  {
    DotUpdate(l, l, i, v);
    DotUpdateRight(l[i := v], l, i, v);
  }

  /** Sums of products are bounded when one factor is. */
  lemma {:induction false} DotBound(l: seq<nat>, w: seq<nat>, m: nat)
    requires |l| == |w| && forall i :: 0 <= i < |w| ==> w[i] <= m
    ensures Dot(l, w) <= Sum(l) * m
    decreases |l|
  {
    if l != [] {
      var n := |l| - 1;
      DotBound(l[..n], w[..n], m);
      SumSnoc(l);
      assert l[n] * w[n] <= l[n] * m;
      assert Sum(l) * m == Sum(l[..n]) * m + l[n] * m;
    }
  }

  lemma {:induction false} ElemAtMostSum(l: seq<nat>, i: nat)
    requires i < |l|
    ensures l[i] <= Sum(l)
    decreases |l|
  {
    var n := |l| - 1;
    SumSnoc(l);
    if i < n { ElemAtMostSum(l[..n], i); }
  }

  /** One unit moves from position h to position c. */
  lemma {:induction false} MoveOneDot(l: seq<nat>, w: seq<nat>, h: nat, c: nat)
    requires |l| == |w| && h < |l| && c < |l| && h != c && l[h] > 0
    ensures Dot(l[h := l[h] - 1][c := l[c] + 1], w) + w[h] == Dot(l, w) + w[c]
  {
    DotUpdate(l, w, h, l[h] - 1);
    DotUpdate(l[h := l[h] - 1], w, c, l[c] + 1);
    OneMore(l[h] - 1, w[h]);
    OneMore(l[c], w[c]);
  }

  lemma {:induction false} OneMore(x: nat, y: nat)
    ensures (x + 1) * y == x * y + y
  {
  }

  lemma {:induction false} MoveOneSq(l: seq<nat>, h: nat, c: nat)
    requires h < |l| && c < |l| && h != c && l[h] > 0
    ensures SumSq(l[h := l[h] - 1][c := l[c] + 1]) + 2 * l[h] == SumSq(l) + 2 * l[c] + 2
  {
    SumSqUpdate(l, h, l[h] - 1);
    SumSqUpdate(l[h := l[h] - 1], c, l[c] + 1);
    Squares(l[h] - 1);
    Squares(l[c]);
  }

  lemma {:induction false} Squares(x: nat)
    ensures (x + 1) * (x + 1) == x * x + 2 * x + 1
  {
  }

  // ---------- the measure ----------

  function Lens(s: State): seq<nat> {
    seq(|s.conns|, i requires 0 <= i < |s.conns| => |s.conns[i].requests|)
  }

  /** The connections that were useful more recently than x. */
  function Newer(s: State, x: int): set<ConnId> {
    set j: ConnId | j < |s.conns| && s.conns[j].lastUseful > x
  }

  function Ranks(s: State): seq<nat> {
    seq(|s.conns|, i requires 0 <= i < |s.conns| => |Newer(s, s.conns[i].lastUseful)|)
  }

  lemma {:induction false} NewerAtMost(s: State, x: int)
    ensures |Newer(s, x)| <= |s.conns|
  {
    SubsetCard(Newer(s, x), Below(|s.conns|));
  }

  lemma {:induction false} RankDrops(s: State, c: ConnId, h: ConnId)
    requires c < |s.conns| && h < |s.conns| && s.conns[c].lastUseful > s.conns[h].lastUseful
    ensures Ranks(s)[c] < Ranks(s)[h]
  {
    var a, b := Newer(s, s.conns[c].lastUseful), Newer(s, s.conns[h].lastUseful);
    assert c in b && c !in a;
    SubsetCard(a, b);
  }

  ghost function OwnedBelow(s: State, k: nat): set<RequestIndex> {
    set r | r in s.owner && s.owner[r].peer < k
  }

  lemma {:induction false} OwnedStep(s: State, k: nat)
    requires Inv(s) && k < |s.conns|
    ensures OwnedBelow(s, k + 1) == OwnedBelow(s, k) + s.conns[k].requests
    ensures OwnedBelow(s, k) !! s.conns[k].requests
  {
    forall r: RequestIndex
      ensures r in s.conns[k].requests <==> r in s.owner && s.owner[r].peer == k
    {
      assert OwnsAgrees(s, k, r);
    }
  }

  /** Owned requests are the disjoint union of the queues. */
  lemma {:induction false} OwnedCount(s: State, k: nat)
    requires Inv(s) && k <= |s.conns|
    ensures |OwnedBelow(s, k)| == Sum(Lens(s)[..k])
    decreases k
  {
    if k == 0 {
      assert OwnedBelow(s, k) == {};
    } else {
      OwnedCount(s, k - 1);
      OwnedStep(s, k - 1);
      SumSnoc(Lens(s)[..k]);
      assert Lens(s)[..k][..k - 1] == Lens(s)[..k - 1];
    }
  }

  lemma {:induction false} TotalOwned(s: State)
    requires Inv(s)
    ensures Sum(Lens(s)) == |s.owner|
  {
    OwnedCount(s, |s.conns|);
    assert Lens(s)[..|s.conns|] == Lens(s);
    assert OwnedBelow(s, |s.conns|) == s.owner.Keys;
  }

  /** The chunks are numbered below n. */
  ghost predicate Within(s: State, n: nat) {
    forall r :: r in s.owner ==> r < n
  }

  /** Unrequested chunks, then squared queue lengths, then ownership weighted by how
      many connections were useful more recently. */
  datatype Load = Load(free: int, squares: nat, weighted: nat)

  function LoadOf(s: State, n: nat): Load {
    Load(n - |s.owner|, SumSq(Lens(s)), Dot(Lens(s), Ranks(s)))
  }

  ghost predicate Bounded(l: Load, n: nat, conns: nat) {
    0 <= l.free <= n && l.squares <= n * n && l.weighted <= n * conns
  }

  ghost predicate Lighter(l: Load, m: Load) {
    || l.free < m.free
    || (l.free == m.free && l.squares < m.squares)
    || (l.free == m.free && l.squares == m.squares && l.weighted < m.weighted)
  }

  /** The lexicographic order as one number. */
  function Number(l: Load, n: nat, conns: nat): int {
    l.free * ((n * n + 1) * (n * conns + 1)) + l.squares * (n * conns + 1) + l.weighted
  }

  lemma {:induction false} LoadBounded(s: State, n: nat)
    requires Inv(s) && Within(s, n)
    ensures Bounded(LoadOf(s, n), n, |s.conns|)
  {
    TotalOwned(s);
    SubsetCard(s.owner.Keys, Below(n));
    var m := Sum(Lens(s));
    forall i | 0 <= i < |s.conns|
      ensures Lens(s)[i] <= m && Ranks(s)[i] <= |s.conns|
    {
      ElemAtMostSum(Lens(s), i);
      NewerAtMost(s, s.conns[i].lastUseful);
    }
    DotBound(Lens(s), Lens(s), m);
    DotBound(Lens(s), Ranks(s), |s.conns|);
    MulMono(m, n, m, n);
    MulMono(m, n, |s.conns|, |s.conns|);
  }

  lemma {:induction false} NumberDrops(l: Load, m: Load, n: nat, conns: nat)
    requires Bounded(l, n, conns) && Bounded(m, n, conns) && Lighter(l, m)
    ensures Number(l, n, conns) < Number(m, n, conns)
  {
    var b, sq := n * conns + 1, n * n;
    if l.free < m.free {
      FreshLowers(l.free, l.squares, l.weighted, m.squares, m.weighted, sq, b);
      MulMono(l.free + 1, m.free, (sq + 1) * b, (sq + 1) * b);
    } else if l.squares < m.squares {
      SquaresLower(l.squares, l.weighted, m.squares, m.weighted, b);
    }
  }

  lemma {:induction false} NumberNonNegative(l: Load, n: nat, conns: nat)
    requires Bounded(l, n, conns)
    ensures Number(l, n, conns) >= 0
  {
    MulMono(0, l.free, 0, (n * n + 1) * (n * conns + 1));
    MulMono(0, l.squares, 0, n * conns + 1);
  }

  // ---------- steps ----------

  /** c obtains r, which it did not hold: an unrequested chunk, or a steal. */
  ghost predicate Takes(s: State, s': State, c: ConnId, r: RequestIndex, u: Update) {
    && Ready(s, c) && Desired(s.conns[c], r, u)
    && NumPending(s.conns[c]) < NominalMaxRequests(s.conns[c])
    && TryRequest(s, c, r, u).Ok? && TryRequest(s, c, r, u).value.0 == s'
    && r !in s.conns[c].requests && r in s'.conns[c].requests
  }

  /** Any step that leaves queues, owners and last-useful times as they are: acknowledged
      cancels, chokes with the fast extension, interest, flushes, nudges. */
  ghost predicate Quiet(s: State, s': State) {
    && Inv(s') && |s'.conns| == |s.conns| && s'.owner == s.owner
    && (forall i :: 0 <= i < |s.conns| ==> s'.conns[i].requests == s.conns[i].requests)
    && (forall i :: 0 <= i < |s.conns| ==> s'.conns[i].lastUseful == s.conns[i].lastUseful)
  }

  ghost predicate TakesSome(s: State, s': State, n: nat) {
    exists c, r: RequestIndex, u :: r < n && Takes(s, s', c, r, u)
  }

  lemma {:induction false} SameRanks(s: State, s': State)
    requires |s'.conns| == |s.conns|
    requires forall i :: 0 <= i < |s.conns| ==> s'.conns[i].lastUseful == s.conns[i].lastUseful
    ensures Ranks(s') == Ranks(s)
  {
    forall i | 0 <= i < |s.conns|
      ensures Newer(s', s'.conns[i].lastUseful) == Newer(s, s.conns[i].lastUseful)
    {
    }
  }

  /** What a takeover is: the chunk is requested, and if someone had it requested it is cancelled there. */
  lemma {:induction false} TakesObtains(s: State, s': State, c: ConnId, r: RequestIndex, u: Update)
    requires Takes(s, s', c, r, u)
    ensures Obtained(s, s', c, r, u) && Inv(s') && !Settled(s, c, r, u)
  {
    PassIs(s, c, r, u);
    hide Settled, Obtained, TryRequest;
  }

  /** Taking an unrequested chunk. */
  lemma {:induction false} TakesFresh(s: State, s': State, c: ConnId, r: RequestIndex, u: Update)
    requires Takes(s, s', c, r, u) && r !in s.owner
    ensures Inv(s') && |s'.conns| == |s.conns|
    ensures s'.owner.Keys == s.owner.Keys + {r}
  {
    TakesObtains(s, s', c, r, u);
  }

  /** A queue worth taking from: two longer or more, or one longer and less recently useful. */
  predicate WorthTaking(mine: nat, theirs: nat, myLast: int, theirLast: int) {
    theirs >= mine + 2 || (theirs == mine + 1 && myLast > theirLast)
  }

  /** Stealing: one request moves from the holder's queue to c's. */
  lemma {:induction false} TakesSteal(s: State, s': State, c: ConnId, r: RequestIndex, u: Update)
    requires Takes(s, s', c, r, u) && r in s.owner
    ensures var h := s.owner[r].peer;
            && Inv(s') && |s'.conns| == |s.conns| && Ranks(s') == Ranks(s)
            && s'.owner.Keys == s.owner.Keys
            && h != c && h < |s.conns| && Lens(s)[h] > 0
            && WorthTaking(Lens(s)[c], Lens(s)[h], s.conns[c].lastUseful, s.conns[h].lastUseful)
            && (u.grace <= 0 || u.now - s.owner[r].when >= u.grace)
            && s.conns[c].needRequestUpdate != PeerCancel && s.conns[c].needRequestUpdate != RemoteReject
            && Lens(s') == Lens(s)[h := Lens(s)[h] - 1][c := Lens(s)[c] + 1]
  {
    TakesObtains(s, s', c, r, u);
    hide Takes, TryRequest, Inv;
    HeldElsewhere(s, c, r);
    UnsettledWorth(s, c, r, u);
    hide Settled, WorthTaking;
    assert s'.owner.Keys == s.owner.Keys;
    ObtainedMoves(s, s', c, s.owner[r].peer, r, u);
  }

  lemma {:induction false} ObtainedMoves(s: State, s': State, c: ConnId, h: ConnId, r: RequestIndex, u: Update)
    requires Inv(s) && c < |s.conns| && Obtained(s, s', c, r, u)
    requires r in s.owner && s.owner[r].peer == h < |s.conns| && h != c && r in s.conns[h].requests
    ensures Lens(s)[h] > 0 && Lens(s') == Lens(s)[h := Lens(s)[h] - 1][c := Lens(s)[c] + 1] && Ranks(s') == Ranks(s)
  {
    forall i | 0 <= i < |s.conns| && i != h ensures r !in s.conns[i].requests { assert OwnsAgrees(s, i, r); }
    hide Inv;
    MovedLens(s, s', c, h, r);
  }

  lemma {:induction false} HeldElsewhere(s: State, c: ConnId, r: RequestIndex)
    requires Inv(s) && c < |s.conns| && r in s.owner && r !in s.conns[c].requests
    ensures s.owner[r].peer < |s.conns| && s.owner[r].peer != c && r in s.conns[s.owner[r].peer].requests
  {
    assert OwnsAgrees(s, c, r) && OwnsAgrees(s, s.owner[r].peer, r);
  }

  lemma {:induction false} UnsettledWorth(s: State, c: ConnId, r: RequestIndex, u: Update)
    requires c < |s.conns| && r in s.owner && s.owner[r].peer < |s.conns| && s.owner[r].peer != c && !Settled(s, c, r, u)
    ensures var h := s.conns[s.owner[r].peer];
            && WorthTaking(|s.conns[c].requests|, |h.requests|, s.conns[c].lastUseful, h.lastUseful)
            && (u.grace <= 0 || u.now - s.owner[r].when >= u.grace)
            && s.conns[c].needRequestUpdate != PeerCancel && s.conns[c].needRequestUpdate != RemoteReject
  {
  }

  /** A request that moves from h's queue to c's. */
  lemma {:induction false} MovedLens(s: State, s': State, c: ConnId, h: ConnId, r: RequestIndex)
    requires c < |s.conns| && h < |s.conns| && c != h && |s'.conns| == |s.conns|
    requires r in s.conns[h].requests && s'.conns[h].requests == s.conns[h].requests - {r}
    requires r !in s.conns[c].requests && s'.conns[c].requests == s.conns[c].requests + {r}
    requires forall i :: 0 <= i < |s.conns| && i != c && i != h ==> s'.conns[i].requests == s.conns[i].requests
    requires forall i :: 0 <= i < |s.conns| ==> s'.conns[i].lastUseful == s.conns[i].lastUseful
    ensures Lens(s)[h] > 0 && Lens(s') == Lens(s)[h := Lens(s)[h] - 1][c := Lens(s)[c] + 1] && Ranks(s') == Ranks(s)
  {
    SameRanks(s, s');
  }

  /** A steal lowers the squares, or keeps them and moves a request to a connection
      that was useful more recently. */
  lemma {:induction false} StealLightens(s: State, s': State, c: ConnId, h: ConnId, n: nat)
    requires |s'.conns| == |s.conns| && c < |s.conns| && h < |s.conns| && h != c
    requires Ranks(s') == Ranks(s) && |s'.owner| == |s.owner|
    requires Lens(s)[h] > 0 && WorthTaking(Lens(s)[c], Lens(s)[h], s.conns[c].lastUseful, s.conns[h].lastUseful)
    requires Lens(s') == Lens(s)[h := Lens(s)[h] - 1][c := Lens(s)[c] + 1]
    ensures Lighter(LoadOf(s', n), LoadOf(s, n))
  {
    MoveOneSq(Lens(s), h, c);
    MoveOneDot(Lens(s), Ranks(s), h, c);
    if SumSq(Lens(s')) >= SumSq(Lens(s)) {
      RankDrops(s, c, h);
    }
  }

  /** The heart of it: every takeover lightens the load. */
  lemma {:induction false} TakesLightens(s: State, s': State, c: ConnId, r: RequestIndex, u: Update, n: nat)
    requires Takes(s, s', c, r, u) && Within(s, n) && r < n
    ensures Inv(s') && Within(s', n) && |s'.conns| == |s.conns|
    ensures Lighter(LoadOf(s', n), LoadOf(s, n))
  {
    if r !in s.owner {
      TakesFresh(s, s', c, r, u);
      assert |s'.owner.Keys| == |s.owner.Keys| + 1;
    } else {
      TakesSteal(s, s', c, r, u);
      assert |s'.owner.Keys| == |s.owner.Keys|;
      StealLightens(s, s', c, s.owner[r].peer, n);
    }
  }

  lemma {:induction false} TakesSomeLightens(s: State, s': State, n: nat)
    requires TakesSome(s, s', n) && Within(s, n)
    ensures Inv(s') && Within(s', n) && |s'.conns| == |s.conns|
    ensures Lighter(LoadOf(s', n), LoadOf(s, n))
  {
    var c, r: RequestIndex, u :| r < n && Takes(s, s', c, r, u);
    TakesLightens(s, s', c, r, u, n);
  }

  lemma {:induction false} FreshLowers(k: nat, q': nat, d': nat, q: nat, d: nat, sq: nat, b: nat)
    requires q' <= sq && d' < b
    ensures k * ((sq + 1) * b) + q' * b + d' < (k + 1) * ((sq + 1) * b) + q * b + d
  {
    MulMono(q', sq, b, b);
    assert (k + 1) * ((sq + 1) * b) == k * ((sq + 1) * b) + (sq + 1) * b;
    assert (sq + 1) * b == sq * b + b;
    MulMono(0, q, 0, b);
  }

  lemma {:induction false} SquaresLower(q': nat, d': nat, q: nat, d: nat, b: nat)
    requires q' < q && d' < b
    ensures q' * b + d' < q * b + d
  {
    MulMono(q' + 1, q, b, b);
    assert (q' + 1) * b == q' * b + b;
  }

  lemma {:induction false} QuietKeeps(s: State, s': State, n: nat)
    requires Quiet(s, s') && Within(s, n)
    ensures Within(s', n) && LoadOf(s', n) == LoadOf(s, n)
  {
    SameRanks(s, s');
    assert Lens(s') == Lens(s);
  }

  // ---------- runs ----------

  ghost predicate RunStep(s: State, s': State, n: nat) {
    TakesSome(s, s', n) || Quiet(s, s')
  }

  /** A run in which nothing but takeovers and quiet steps happens. */
  ghost predicate StealRun(run: seq<State>, n: nat) {
    && run != [] && Inv(run[0]) && Within(run[0], n)
    && forall i :: 0 <= i < |run| - 1 ==> RunStep(run[i], run[i + 1], n)
  }

  ghost function Takeovers(run: seq<State>): nat {
    if |run| <= 1 then 0
    else (if Quiet(run[0], run[1]) then 0 else 1) + Takeovers(run[1..])
  }

  /** One step of a run, in terms of the load. */
  lemma {:induction false} StepLoad(s: State, s': State, n: nat)
    requires Inv(s) && Within(s, n) && RunStep(s, s', n)
    ensures Inv(s') && Within(s', n) && |s'.conns| == |s.conns|
    ensures if Quiet(s, s') then LoadOf(s', n) == LoadOf(s, n) else Lighter(LoadOf(s', n), LoadOf(s, n))
  {
    if Quiet(s, s') {
      QuietKeeps(s, s', n);
    } else {
      TakesSomeLightens(s, s', n);
    }
  }

  lemma {:induction false} RunTail(run: seq<State>, n: nat)
    requires StealRun(run, n) && |run| > 1
    ensures RunStep(run[0], run[1], n) && StealRun(run[1..], n)
  {
    assert RunStep(run[0], run[0 + 1], n);
    StepLoad(run[0], run[1], n);
    forall i | 0 <= i < |run[1..]| - 1
      ensures RunStep(run[1..][i], run[1..][i + 1], n)
    {
      assert RunStep(run[i + 1], run[i + 1 + 1], n);
    }
  }

  /** Main result: the takeovers in a run are bounded by the load at its start,
      however long the run and whatever quiet steps come between. */
  lemma {:induction false} TakeoversBounded(run: seq<State>, n: nat)
    requires StealRun(run, n)
    ensures Takeovers(run) <= Number(LoadOf(run[0], n), n, |run[0].conns|)
    decreases |run|
  {
    var s := run[0];
    LoadBounded(s, n);
    NumberNonNegative(LoadOf(s, n), n, |s.conns|);
    if |run| > 1 {
      RunTail(run, n);
      StepLoad(s, run[1], n);
      LoadBounded(run[1], n);
      if !Quiet(s, run[1]) {
        NumberDrops(LoadOf(run[1], n), LoadOf(s, n), n, |s.conns|);
      }
      TakeoversBounded(run[1..], n);
    }
  }

  /** A bound in terms of the torrent alone: chunks and connections. */
  lemma {:induction false} TakeoversAtMost(run: seq<State>, n: nat)
    requires StealRun(run, n)
    ensures Takeovers(run) < (n + 1) * ((n * n + 1) * (n * |run[0].conns| + 1))
  {
    hide LoadOf, Number, Bounded;
    TakeoversBounded(run, n);
    LoadBounded(run[0], n);
    NumberAtMost(LoadOf(run[0], n), n, |run[0].conns|);
  }

  lemma {:induction false} NumberAtMost(l: Load, n: nat, conns: nat)
    requires Bounded(l, n, conns)
    ensures Number(l, n, conns) < (n + 1) * ((n * n + 1) * (n * conns + 1))
  {
    var unit := (n * n + 1) * (n * conns + 1);
    FreshLowers(l.free, l.squares, l.weighted, 0, 0, n * n, n * conns + 1);
    MulMono(l.free + 1, n + 1, unit, unit);
  }

  // ---------- the fill loop is such a run, and leaves nothing it could still take ----------

  lemma {:induction false} PassTakes(s: State, c: ConnId, r: RequestIndex, u: Update)
    requires Ready(s, c) && Desired(s.conns[c], r, u)
    requires NumPending(s.conns[c]) < NominalMaxRequests(s.conns[c])
    ensures TryRequest(s, c, r, u).Ok?
    ensures var s' := TryRequest(s, c, r, u).value.0;
            if Settled(s, c, r, u) then s' == s else Takes(s, s', c, r, u)
  {
    PassIs(s, c, r, u);
  }

  /** The states the fill loop passes through form a run. */
  lemma {:induction false} FillIsRun(s: State, c: ConnId, order: seq<RequestIndex>, u: Update, n: nat) returns (run: seq<State>)
    requires Ready(s, c) && FillRequests(s, c, order, u).Ok? && Within(s, n)
    requires forall r :: r in order ==> r < n && Desired(s.conns[c], r, u)
    ensures StealRun(run, n) && run[0] == s
    ensures FillRequests(s, c, order, u) == Ok(run[|run| - 1])
    decreases |order|
  {
    run := [s];
    if order != [] && NumPending(s.conns[c]) < NominalMaxRequests(s.conns[c]) {
      var r := order[0];
      PassTakes(s, c, r, u);
      TryRequestOk(s, c, r, u);
      var (s1, more) := TryRequest(s, c, r, u).value;
      assert forall x :: x in order[1..] ==> x in order;
      assert RunStep(s, s1, n) by {
        if s1 == s { assert Quiet(s, s1); } else { assert TakesSome(s, s1, n); }
      }
      StepLoad(s, s1, n);
      var rest := FillIsRun(s1, c, order[1..], u, n);
      run := [s] + rest;
      forall i | 0 <= i < |run| - 1
        ensures RunStep(run[i], run[i + 1], n)
      {
        if i > 0 { assert RunStep(rest[i - 1], rest[i - 1 + 1], n); }
      }
    }
  }

  lemma {:induction false} RunBefore(s: State, run: seq<State>, n: nat)
    requires StealRun(run, n) && Inv(s) && Within(s, n) && Quiet(s, run[0])
    ensures StealRun([s] + run, n)
  {
    var all := [s] + run;
    forall i | 0 <= i < |all| - 1 ensures RunStep(all[i], all[i + 1], n) {
      if i > 0 { assert RunStep(run[i - 1], run[i - 1 + 1], n); }
    }
  }

  lemma {:induction false} RunAfter(run: seq<State>, s: State, n: nat)
    requires StealRun(run, n) && Quiet(run[|run| - 1], s)
    ensures StealRun(run + [s], n)
  {
    var all := run + [s];
    forall i | 0 <= i < |all| - 1 ensures RunStep(all[i], all[i + 1], n) {
      if i < |run| - 1 { assert RunStep(run[i], run[i + 1], n); }
    }
  }

  /** Replacing a connection by one with the same queue and last-useful time is quiet. */
  lemma {:induction false} ReplaceQuiet(s: State, c: ConnId, conn: Conn)
    requires Inv(s) && c < |s.conns| && ConnOk(conn)
    requires conn.requests == s.conns[c].requests && conn.lastUseful == s.conns[c].lastUseful
    requires conn.member == s.conns[c].member && conn.closed == s.conns[c].closed
    ensures Quiet(s, WithConn(s, c, conn))
  {
    ReplaceConn(s, c, conn);
  }

  /** A whole update is a run: its interest and its new peak are quiet steps. */
  lemma {:induction false} ApplyIsRun(s: State, c: ConnId, order: seq<RequestIndex>, interested: bool, u: Update, n: nat)
    returns (run: seq<State>)
    requires Ready(s, c) && RoomToUpdate(s.conns[c], interested) && Within(s, n)
    requires forall r :: r in order ==> r < n && Desired(s.conns[c], r, u)
    ensures StealRun(run, n) && run[0] == s
    ensures ApplyRequestState(s, c, order, interested, u) == Ok(run[|run| - 1])
  {
    hide Quiet, Within, FillRequests;
    var conn := SetInterested(s.conns[c], interested);
    if conn != s.conns[c] && conn.buffered >= WRITE_BUFFER_HIGH_WATER {
      ReplaceQuiet(s, c, conn.(needRequestUpdate := NoReason));
      run := [s];
      RunAfter(run, WithConn(s, c, conn.(needRequestUpdate := NoReason)), n);
      run := run + [WithConn(s, c, conn.(needRequestUpdate := NoReason))];
    } else {
      var s0 := WithConn(s, c, conn);
      var s1 := InterestedFill(s, c, order, interested, u);
      ReplaceQuiet(s, c, conn);
      QuietKeeps(s, s0, n);
      assert forall r :: r in order ==> Desired(s.conns[c], r, u) && Desired(s0.conns[c], r, u);
      run := FillIsRun(s0, c, order, u, n);
      var end := EndUpdate(s1.conns[c], |s.conns[c].requests|);
      ReplaceQuiet(s1, c, end);
      RunAfter(run, WithConn(s1, c, end), n);
      run := run + [WithConn(s1, c, end)];
      RunBefore(s, run, n);
      run := [s] + run;
    }
  }

  /** Filling the write buffer is a run, hash requests included, so the bound above covers any
      sequence of updates by any connections. */
  lemma {:induction false} BufferIsRun(
    s: State, c: ConnId, hashes: nat, candidates: seq<RequestIndex>, interested: bool, u: Update, n: nat)
    returns (run: seq<State>)
    requires Inv(s) && c < |s.conns| && RoomToFill(s.conns[c], hashes, interested) && Within(s, n)
    requires forall r :: r in candidates ==> r < n
    ensures StealRun(run, n) && run[0] == s
    ensures FillWriteBuffer(s, c, hashes, candidates, interested, u) == Ok(run[|run| - 1])
  {
    run := [s];
    if !s.conns[c].closed && s.conns[c].buffered <= WRITE_BUFFER_LOW_WATER {
      var conn := WithHashes(s.conns[c], hashes);
      var s0 := WithConn(s, c, conn);
      ReplaceQuiet(s, c, conn);
      if conn.needRequestUpdate == NoReason {
        RunAfter(run, s0, n);
        run := run + [s0];
      } else {
        QuietKeeps(s, s0, n);
        FilterFrom(conn, candidates, u);
        run := ApplyIsRun(s0, c, FilterDesired(conn, candidates, u), interested, u, n);
        RunBefore(s, run, n);
        run := [s] + run;
      }
    }
  }

  lemma {:induction false} FilterFrom(conn: Conn, candidates: seq<RequestIndex>, u: Update)
    ensures forall r :: r in FilterDesired(conn, candidates, u) ==> r in candidates
  {
    if candidates != [] {
      FilterFrom(conn, candidates[1..], u);
      assert candidates == [candidates[0]] + candidates[1..];
    }
  }

  /** What an update of c does to everyone: c only gains, others only lose to c. */
  ghost predicate Evolves(s: State, s': State, c: ConnId)
    requires c < |s.conns|
  {
    && |s'.conns| == |s.conns|
    && s.conns[c].requests <= s'.conns[c].requests
    && s'.conns[c].needRequestUpdate == s.conns[c].needRequestUpdate
    && (forall i :: 0 <= i < |s.conns| ==> s'.conns[i].lastUseful == s.conns[i].lastUseful)
    && (forall i :: 0 <= i < |s.conns| && i != c ==> s'.conns[i].requests <= s.conns[i].requests)
    && (forall r :: r in s.owner ==> r in s'.owner && (s'.owner[r].peer == c || s'.owner[r] == s.owner[r]))
  }

  lemma {:induction false} SettledStays(s: State, s': State, c: ConnId, r: RequestIndex, u: Update)
    requires Inv(s') && c < |s.conns| && Evolves(s, s', c) && Settled(s, c, r, u)
    ensures Settled(s', c, r, u)
  {
    if r in s.owner && s'.owner[r].peer == c {
      assert OwnsAgrees(s', c, r);
    } else if r in s.owner && s.owner[r].peer < |s.conns| && s.owner[r].peer != c {
      var h := s.owner[r].peer;
      SubsetCard(s.conns[c].requests, s'.conns[c].requests);
      SubsetCard(s'.conns[h].requests, s.conns[h].requests);
    }
  }

  /** What is obtained is settled, and affects others only in what they lose to c. */
  lemma {:induction false} ObtainedEvolves(s: State, s': State, c: ConnId, r: RequestIndex, u: Update)
    requires Ready(s, c) && Obtained(s, s', c, r, u)
    ensures Evolves(s, s', c) && Settled(s', c, r, u)
  {
  }

  lemma {:induction false} PassSettles(s: State, c: ConnId, r: RequestIndex, u: Update)
    requires Ready(s, c) && Desired(s.conns[c], r, u)
    requires NumPending(s.conns[c]) < NominalMaxRequests(s.conns[c])
    ensures TryRequest(s, c, r, u).Ok?
    ensures Evolves(s, TryRequest(s, c, r, u).value.0, c)
    ensures Settled(TryRequest(s, c, r, u).value.0, c, r, u)
  {
    PassIs(s, c, r, u);
    if !Settled(s, c, r, u) { ObtainedEvolves(s, TryRequest(s, c, r, u).value.0, c, r, u); }
    hide TryRequest, Obtained;
  }

  lemma {:induction false} EvolvesTrans(s: State, s1: State, s2: State, c: ConnId)
    requires c < |s.conns| && Evolves(s, s1, c) && Evolves(s1, s2, c)
    ensures Evolves(s, s2, c)
  {
  }

  /** Main result on one update: unless it stopped at the request limit, every desired
      chunk is settled when it ends: c has it, or its holder is in its grace, has no longer queue, or has one
      longer by one and was useful as recently; or the update was told not to take. */
  lemma {:induction false} FillSaturates(s: State, c: ConnId, order: seq<RequestIndex>, u: Update)
    requires Ready(s, c) && RoomForAll(s.conns[c])
    requires forall r :: r in order ==> Desired(s.conns[c], r, u)
    ensures var o := FillRequests(s, c, order, u);
            && o.Ok? && Ready(o.value, c) && Evolves(s, o.value, c)
            && (|| NumPending(o.value.conns[c]) >= NominalMaxRequests(o.value.conns[c])
                || forall r :: r in order ==> Settled(o.value, c, r, u))
    decreases |order|
  {
    FillOk(s, c, order, u);
    if order != [] && NumPending(s.conns[c]) < NominalMaxRequests(s.conns[c]) {
      var r := order[0];
      PassSettles(s, c, r, u);
      TryRequestOk(s, c, r, u);
      var s1 := TryRequest(s, c, r, u).value.0;
      assert forall x :: x in order[1..] ==> x in order;
      FillSaturates(s1, c, order[1..], u);
      var s2 := FillRequests(s1, c, order[1..], u).value;
      EvolvesTrans(s, s1, s2, c);
      SettledStays(s1, s2, c, r, u);
      assert FillRequests(s, c, order, u) == Ok(s2);
      assert forall x :: x in order ==> x == r || x in order[1..];
    }
  }

  /** So running it again, with the same clock, changes nothing. */
  lemma {:induction false} FillAgain(s: State, c: ConnId, order: seq<RequestIndex>, u: Update)
    requires Ready(s, c) && forall r :: r in order ==> Desired(s.conns[c], r, u) && Settled(s, c, r, u)
    ensures FillRequests(s, c, order, u) == Ok(s)
    decreases |order|
  {
    if order != [] && NumPending(s.conns[c]) < NominalMaxRequests(s.conns[c]) {
      assert order[0] in order;
      PassIs(s, c, order[0], u);
      assert forall r :: r in order[1..] ==> r in order;
      FillAgain(s, c, order[1..], u);
    }
  }
}
