/** Where the feed of connection events comes from: connections of a torrent joining and
    leaving, with drops held back while there are few of them (pex.go). */
module PexSwarm {
  import opened Outcomes
  import opened Pex

  const PEX_TARG_ADDED := 25
  const PEX_MAX_HOLD := 25

  /** pexState: the number of connections, the drops held back, the feed and its first
      message. */
  datatype Peers = Peers(nc: int, hold: seq<Addr>, feed: seq<Event>, msg0: Factory)

  function AppendEvent(p: Peers, e: Event): Peers {
    p.(feed := p.feed + [e], msg0 := Append(p.msg0, e))
  }

  function AppendDrops(p: Peers, addrs: seq<Addr>): Peers
    decreases |addrs|
  {
    if addrs == [] then p else AppendDrops(AppendEvent(p, Event.Drop(addrs[0])), addrs[1..])
  }

  /** The held drops go out once there are connections enough. */
  function Flushed(p: Peers): Peers {
    if p.nc + 1 >= PEX_TARG_ADDED then AppendDrops(p, p.hold).(hold := []) else p
  }

  function AddPeer(p: Peers, a: Addr, flags: nat): Peers {
    AppendEvent(Flushed(p), Event.Add(a, flags)).(nc := p.nc + 1)
  }

  function DropPeer(p: Peers, a: Addr): Peers {
    if p.nc - 1 < PEX_TARG_ADDED && |p.hold| < PEX_MAX_HOLD then p.(nc := p.nc - 1, hold := p.hold + [a])
    else AppendEvent(p, Event.Drop(a)).(nc := p.nc - 1)
  }

  /** pexState, edited in place. */
  class PexState {
    var nc: int
    var hold: seq<Addr>
    var feed: seq<Event>
    var msg0: Factory

    function Now(): Peers
      reads this
    {
      Peers(nc, hold, feed, msg0)
    }

    constructor ()
      ensures Now() == Peers(0, [], [], EmptyFactory)
    {
      nc, hold, feed, msg0 := 0, [], [], EmptyFactory;
    }

    method Add(a: Addr, flags: nat)
      modifies this
      ensures Now() == AddPeer(old(Now()), a, flags)
    {
      ghost var p := Now();
      nc := nc + 1;
      if nc >= PEX_TARG_ADDED {
        var i := 0;
        while i < |hold|
          invariant i <= |hold| && hold == p.hold && nc == p.nc + 1
          invariant AppendDrops(Now().(nc := p.nc), hold[i..]) == AppendDrops(p, p.hold)
        {
          assert hold[i..][1..] == hold[i + 1..];
          feed, msg0, i := feed + [Event.Drop(hold[i])], Append(msg0, Event.Drop(hold[i])), i + 1;
        }
        hold := [];
      }
      feed, msg0 := feed + [Event.Add(a, flags)], Append(msg0, Event.Add(a, flags));
    }

    method Drop(a: Addr)
      modifies this
      ensures Now() == DropPeer(old(Now()), a)
    {
      nc := nc - 1;
      if nc < PEX_TARG_ADDED && |hold| < PEX_MAX_HOLD {
        hold := hold + [a];
      } else {
        feed, msg0 := feed + [Event.Drop(a)], Append(msg0, Event.Drop(a));
      }
    }
  }

  // ---------- runs ----------

  /** The connections listed, and one connection's position in the feed and other end. */
  datatype Swarm = Swarm(peers: Peers, conns: multiset<Addr>, last: nat, remote: map<Addr, Option<nat>>)

  const Start := Swarm(Peers(0, [], [], EmptyFactory), multiset{}, 0, map[])

  function View(s: Swarm): State {
    State(s.peers.feed, s.peers.msg0, s.last, s.remote)
  }

  datatype Op = Join(addr: Addr, flags: nat) | Leave(addr: Addr) | Turn

  /** Only a connection that was listed leaves. */
  predicate Allowed(s: Swarm, op: Op) {
    op.Leave? ==> op.addr in s.conns
  }

  function Act(s: Swarm, op: Op): Swarm {
    match op
    case Join(a, flags) => s.(peers := AddPeer(s.peers, a, flags), conns := s.conns + multiset{a})
    case Leave(a) => s.(peers := DropPeer(s.peers, a), conns := s.conns - multiset{a})
    case Turn =>
      if s.last > |s.peers.feed| then s
      else
        var v := Next(View(s), Send);
        s.(last := v.last, remote := v.remote)
  }

  predicate IsRun(s: Swarm, ops: seq<Op>)
    decreases |ops|
  {
    ops == [] || (Allowed(s, ops[0]) && IsRun(Act(s, ops[0]), ops[1..]))
  }

  function Run(s: Swarm, ops: seq<Op>): Swarm
    decreases |ops|
  {
    if ops == [] then s else Run(Act(s, ops[0]), ops[1..])
  }

  /** An address joins when it has neither a connection nor a drop still held once the join
      has let the held ones go. */
  predicate Fresh(s: Swarm, op: Op) {
    op.Join? ==> op.addr !in s.conns && (s.peers.nc + 1 >= PEX_TARG_ADDED || op.addr !in s.peers.hold)
  }

  predicate AllFresh(s: Swarm, ops: seq<Op>)
    decreases |ops|
  {
    ops == [] || (Fresh(s, ops[0]) && AllFresh(Act(s, ops[0]), ops[1..]))
  }

  // ---------- the books ----------

  /** The feed's live addresses are those connected and those whose drop is held. */
  ghost predicate Books(p: Peers, conns: multiset<Addr>) {
    && p.nc == |conns| && NoDup(p.hold) && |p.hold| <= PEX_MAX_HOLD && (p.hold != [] ==> p.nc < PEX_TARG_ADDED)
    && (forall a :: conns[a] <= 1)
    && (forall a :: a in conns ==> a !in p.hold)
    && (forall a :: a in Live(p.feed) <==> a in conns || a in p.hold)
  }

  ghost predicate Tidy(s: Swarm) {
    Pex.Inv(View(s)) && Books(s.peers, s.conns)
  }

  lemma {:induction false} LiveAppend(feed: seq<Event>, e: Event)
    ensures Live(feed + [e]) == if e.Add? then Live(feed) + {e.addr} else Live(feed) - {e.addr}
  {
    assert (feed + [e])[..|feed|] == feed;
  }

  lemma {:induction false} AlternatingAppend(feed: seq<Event>, e: Event)
    ensures Alternating(feed + [e]) <==> Alternating(feed) && (e.Add? <==> e.addr !in Live(feed))
  {
    var feed' := feed + [e];
    assert feed'[..|feed|] == feed;
    forall i | 0 <= i < |feed| ensures feed'[..i] == feed[..i] && feed'[i] == feed[i] { }
    if Alternating(feed') { assert feed'[|feed|] == e; }
  }

  lemma {:induction false} AppendDropsLive(p: Peers, addrs: seq<Addr>, a: Addr)
    ensures a in Live(AppendDrops(p, addrs).feed) <==> a in Live(p.feed) && a !in addrs
    decreases |addrs|
  {
    if addrs != [] {
      LiveAppend(p.feed, Event.Drop(addrs[0]));
      assert addrs == [addrs[0]] + addrs[1..];
      AppendDropsLive(AppendEvent(p, Event.Drop(addrs[0])), addrs[1..], a);
    }
  }

  lemma {:induction false} DropEventOk(s: Swarm, a: Addr)
    requires Pex.Inv(View(s)) && a in Live(s.peers.feed)
    ensures Pex.Inv(View(s.(peers := AppendEvent(s.peers, Event.Drop(a)))))
  {
    AlternatingAppend(s.peers.feed, Event.Drop(a));
    NewEventOk(View(s), Event.Drop(a));
    assert View(s.(peers := AppendEvent(s.peers, Event.Drop(a)))) == Next(View(s), NewEvent(Event.Drop(a)));
  }

  ghost predicate AllLive(feed: seq<Event>, addrs: seq<Addr>) {
    NoDup(addrs) && forall a :: a in addrs ==> a in Live(feed)
  }

  lemma {:induction false} AllLiveTail(feed: seq<Event>, addrs: seq<Addr>)
    requires addrs != [] && AllLive(feed, addrs)
    ensures addrs[0] in Live(feed) && AllLive(feed + [Event.Drop(addrs[0])], addrs[1..])
  {
    LiveAppend(feed, Event.Drop(addrs[0]));
    assert addrs[0] in addrs;
    forall a | a in addrs[1..] ensures a in addrs && a != addrs[0] { }
  }

  /** Letting the held drops go, one by one. */
  lemma {:induction false} AppendDropsOk(s: Swarm, addrs: seq<Addr>)
    requires Pex.Inv(View(s)) && AllLive(s.peers.feed, addrs)
    ensures var p := AppendDrops(s.peers, addrs);
            Pex.Inv(View(s.(peers := p))) && p.nc == s.peers.nc && p.hold == s.peers.hold
    decreases |addrs|
  {
    if addrs != [] {
      AllLiveTail(s.peers.feed, addrs);
      DropEventOk(s, addrs[0]);
      AppendDropsOk(s.(peers := AppendEvent(s.peers, Event.Drop(addrs[0]))), addrs[1..]);
    }
  }

  lemma {:induction false} FlushedOk(s: Swarm)
    requires Tidy(s)
    ensures var s' := s.(peers := Flushed(s.peers));
            && Tidy(s') && s'.peers.nc == s.peers.nc
            && s'.peers.hold == if s.peers.nc + 1 >= PEX_TARG_ADDED then [] else s.peers.hold
  {
    AppendDropsOk(s, s.peers.hold);
    forall a ensures a in Live(AppendDrops(s.peers, s.peers.hold).feed) <==> a in Live(s.peers.feed) && a !in s.peers.hold {
      AppendDropsLive(s.peers, s.peers.hold, a);
    }
  }

  lemma {:induction false} JoinBooks(p: Peers, conns: multiset<Addr>, a: Addr, flags: nat)
    requires Books(p, conns) && a !in conns && a !in p.hold && (p.nc + 1 >= PEX_TARG_ADDED ==> p.hold == [])
    ensures Books(AppendEvent(p, Event.Add(a, flags)).(nc := p.nc + 1), conns + multiset{a})
  {
    LiveAppend(p.feed, Event.Add(a, flags));
  }

  lemma {:induction false} JoinOk(s: Swarm, a: Addr, flags: nat)
    requires Tidy(s) && Fresh(s, Join(a, flags))
    ensures Tidy(Act(s, Join(a, flags)))
  {
    var s1, e := s.(peers := Flushed(s.peers)), Event.Add(a, flags);
    FlushedOk(s);
    AlternatingAppend(s1.peers.feed, e);
    NewEventOk(View(s1), e);
    JoinBooks(s1.peers, s1.conns, a, flags);
    assert View(Act(s, Join(a, flags))) == Next(View(s1), NewEvent(e));
  }

  lemma {:induction false} LeaveBooks(p: Peers, conns: multiset<Addr>, a: Addr)
    requires Books(p, conns) && a in conns
    ensures Books(DropPeer(p, a), conns - multiset{a})
  {
    LiveAppend(p.feed, Event.Drop(a));
  }

  lemma {:induction false} LeaveOk(s: Swarm, a: Addr)
    requires Tidy(s) && a in s.conns
    ensures Tidy(Act(s, Leave(a)))
  {
    LeaveBooks(s.peers, s.conns, a);
    if !(s.peers.nc - 1 < PEX_TARG_ADDED && |s.peers.hold| < PEX_MAX_HOLD) {
      DropEventOk(s, a);
      assert View(Act(s, Leave(a))) == View(s.(peers := AppendEvent(s.peers, Event.Drop(a))));
    }
  }

  lemma {:induction false} ActOk(s: Swarm, op: Op)
    requires Tidy(s) && Allowed(s, op) && Fresh(s, op)
    ensures Tidy(Act(s, op))
  {
    match op
    case Join(a, flags) => JoinOk(s, a, flags);
    case Leave(a) => LeaveOk(s, a);
    case Turn =>
      Pex.StepOk(View(s), Send);
      assert View(Act(s, Turn)) == Next(View(s), Send);
  }

  // ---------- when the feed alternates ----------

  /** Joining again before the drop is out puts the address in the feed twice. */
  lemma {:induction false} StaleJoin(s: Swarm, op: Op)
    requires Tidy(s) && !Fresh(s, op)
    ensures !Alternating(Act(s, op).peers.feed)
  {
    FlushedOk(s);
    AlternatingAppend(Flushed(s.peers).feed, Event.Add(op.addr, op.flags));
  }

  lemma {:induction false} AppendDropsGrows(p: Peers, addrs: seq<Addr>)
    ensures p.feed <= AppendDrops(p, addrs).feed
    decreases |addrs|
  {
    if addrs != [] { AppendDropsGrows(AppendEvent(p, Event.Drop(addrs[0])), addrs[1..]); }
  }

  lemma {:induction false} RunGrows(s: Swarm, ops: seq<Op>)
    ensures s.peers.feed <= Run(s, ops).peers.feed
    decreases |ops|
  {
    if ops != [] {
      AppendDropsGrows(s.peers, s.peers.hold);
      RunGrows(Act(s, ops[0]), ops[1..]);
    }
  }

  lemma {:induction false} AlternatingPrefix(feed: seq<Event>, more: seq<Event>)
    requires feed <= more && Alternating(more)
    ensures Alternating(feed)
  {
    forall i | 0 <= i < |feed| ensures feed[i].Add? <==> feed[i].addr !in Live(feed[..i]) {
      assert feed[..i] == more[..i] && feed[i] == more[i];
    }
  }

  lemma {:induction false} AlternatesFrom(s: Swarm, ops: seq<Op>)
    requires Tidy(s) && IsRun(s, ops)
    ensures Alternating(Run(s, ops).peers.feed) <==> AllFresh(s, ops)
    ensures AllFresh(s, ops) ==> Tidy(Run(s, ops))
    decreases |ops|
  {
    if ops != [] {
      if Fresh(s, ops[0]) {
        ActOk(s, ops[0]);
        AlternatesFrom(Act(s, ops[0]), ops[1..]);
      } else {
        StaleJoin(s, ops[0]);
        RunGrows(Act(s, ops[0]), ops[1..]);
        if Alternating(Run(s, ops).peers.feed) {
          AlternatingPrefix(Act(s, ops[0]).peers.feed, Run(s, ops).peers.feed);
        }
      }
    }
  }

  lemma {:induction false} StartTidy()
    ensures Tidy(Start)
  {
  }

  /** The events of each address alternate in the feed exactly when no address joins while it
      has a connection, or while its drop is held. */
  lemma {:induction false} AlternatesExactly(ops: seq<Op>)
    requires IsRun(Start, ops)
    ensures Alternating(Run(Start, ops).peers.feed) <==> AllFresh(Start, ops)
  {
    StartTidy();
    AlternatesFrom(Start, ops);
  }

  function Connected(s: Swarm): set<Addr> {
    set a | a in s.conns
  }

  function Held(s: Swarm): set<Addr> {
    set a | a in s.peers.hold
  }

  /** In those runs the other end follows the feed, whatever the turns to send; once it has caught up
      it has the connected addresses and those whose drop is held, so with 25 connections or
      more exactly the connected ones. */
  lemma {:induction false} SwarmReplicates(ops: seq<Op>)
    requires IsRun(Start, ops) && AllFresh(Start, ops)
    ensures var s := Run(Start, ops);
            && s.last <= |s.peers.feed| && s.remote.Keys == Live(s.peers.feed[..s.last])
            && (s.last == |s.peers.feed| ==> s.remote.Keys == Connected(s) + Held(s))
            && (s.last == |s.peers.feed| && |s.conns| >= PEX_TARG_ADDED ==> s.remote.Keys == Connected(s))
            && |s.peers.hold| <= PEX_MAX_HOLD
  {
    StartTidy();
    AlternatesFrom(Start, ops);
    TidyReplicates(Run(Start, ops));
  }

  lemma {:induction false} TidyReplicates(s: Swarm)
    requires Tidy(s)
    ensures s.last <= |s.peers.feed| && s.remote.Keys == Live(s.peers.feed[..s.last])
    ensures Live(s.peers.feed) == Connected(s) + Held(s)
    ensures s.last == |s.peers.feed| ==> s.remote.Keys == Live(s.peers.feed)
    ensures |s.conns| >= PEX_TARG_ADDED ==> s.peers.hold == []
    ensures |s.peers.hold| <= PEX_MAX_HOLD
  {
    LiveBooks(s.peers.feed, s.conns, s.peers.hold, Connected(s), Held(s));
    assert s.last == |s.peers.feed| ==> s.peers.feed[..s.last] == s.peers.feed;
  }

  lemma {:induction false} LiveBooks(
    feed: seq<Event>, conns: multiset<Addr>, hold: seq<Addr>, connected: set<Addr>, held: set<Addr>)
    requires connected == (set a | a in conns) && held == (set a | a in hold)
    requires forall a :: a in Live(feed) <==> a in conns || a in hold
    ensures Live(feed) == connected + held
  {
    forall a ensures a in Live(feed) <==> a in connected + held { }
  }

  // ---------- and when it does not ----------

  /** A held drop that goes out takes its address from the feed's live ones, connected or not. */
  lemma {:induction false} HeldDropLost(s: Swarm, a: Addr, b: Addr, flags: nat)
    requires a in s.conns && a in s.peers.hold && a != b && s.peers.nc + 1 >= PEX_TARG_ADDED
    ensures var s' := Act(s, Join(b, flags)); a in s'.conns && a !in Live(s'.peers.feed)
  {
    AppendDropsLive(s.peers, s.peers.hold, a);
    LiveAppend(Flushed(s.peers).feed, Event.Add(b, flags));
  }

  function Joins(bs: seq<Addr>): seq<Op> {
    if bs == [] then [] else [Join(bs[0], 0)] + Joins(bs[1..])
  }

  /** The run: a joins, leaves and joins again, and then others join until the drop of a, held
      since it left, goes out. */
  lemma {:induction false} RejoinLost(a: Addr, bs: seq<Addr>)
    requires |bs| == PEX_TARG_ADDED - 1 && a !in bs
    ensures var ops := [Join(a, 0), Leave(a), Join(a, 0)] + Joins(bs);
            && IsRun(Start, ops) && !AllFresh(Start, ops)
            && (var s := Run(Start, ops); a in s.conns && a !in Live(s.peers.feed))
  {
    var s1, s2, s3 := Rejoined(a);
    JoinsLose(s3, a, bs);
    var js := Joins(bs);
    var ops1 := [Join(a, 0)] + js;
    var ops2 := [Leave(a)] + ops1;
    ThreeThen(Join(a, 0), Leave(a), Join(a, 0), ops2, ops1, js, Start, s1, s2, s3);
    assert [Join(a, 0)] + ops2 == [Join(a, 0), Leave(a), Join(a, 0)] + js;
  }

  lemma {:induction false} Rejoined(a: Addr) returns (s1: Swarm, s2: Swarm, s3: Swarm)
    ensures s1 == Act(Start, Join(a, 0)) && s2 == Act(s1, Leave(a)) && s3 == Act(s2, Join(a, 0))
    ensures a in s1.conns && !Fresh(s2, Join(a, 0))
    ensures a in s3.conns && a in s3.peers.hold && s3.peers.nc == 1
  {
    s1 := Act(Start, Join(a, 0));
    s2 := Act(s1, Leave(a));
    s3 := Act(s2, Join(a, 0));
    assert s2.peers.hold == [a];
  }

  lemma {:induction false} ThreeThen(
    a: Op, b: Op, c: Op, ops2: seq<Op>, ops1: seq<Op>, ops: seq<Op>, s: Swarm, s1: Swarm, s2: Swarm, s3: Swarm)
    requires s1 == Act(s, a) && s2 == Act(s1, b) && s3 == Act(s2, c)
    requires ops1 == [c] + ops && ops2 == [b] + ops1
    requires Allowed(s, a) && Allowed(s1, b) && Allowed(s2, c) && IsRun(s3, ops)
    ensures IsRun(s, [a] + ops2) && Run(s, [a] + ops2) == Run(s3, ops)
    ensures AllFresh(s, [a] + ops2) ==> Fresh(s2, c)
  {
    hide *;
    OneThen(s2, c, ops);
    OneThen(s1, b, ops1);
    OneThen(s, a, ops2);
  }

  lemma {:induction false} OneThen(s: Swarm, op: Op, ops: seq<Op>)
    ensures IsRun(s, [op] + ops) <==> Allowed(s, op) && IsRun(Act(s, op), ops)
    ensures Run(s, [op] + ops) == Run(Act(s, op), ops)
    ensures AllFresh(s, [op] + ops) <==> Fresh(s, op) && AllFresh(Act(s, op), ops)
  {
    assert ([op] + ops)[1..] == ops;
  }

  lemma {:induction false} JoinsLose(s: Swarm, a: Addr, bs: seq<Addr>)
    requires a in s.conns && a in s.peers.hold && a !in bs && bs != [] && s.peers.nc + |bs| == PEX_TARG_ADDED
    ensures IsRun(s, Joins(bs)) && (var s' := Run(s, Joins(bs)); a in s'.conns && a !in Live(s'.peers.feed))
    decreases |bs|
  {
    var s1 := Act(s, Join(bs[0], 0));
    assert Joins(bs)[1..] == Joins(bs[1..]);
    if |bs| == 1 {
      HeldDropLost(s, a, bs[0], 0);
    } else {
      JoinsLose(s1, a, bs[1..]);
    }
  }
}
