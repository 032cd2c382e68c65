/** Peer exchange: a feed of connection events sent as batched deltas (pex.go, pexconn.go;
    "Messages" of BEP 11).

    The event list is a sequence; a position in it is the number of events up to and
    including the one pointed to, with zero for nil. Addresses are IPv4 or IPv6, without
    IPv4-mapped ones. */
module Pex {
  import opened Outcomes

  datatype Addr = V4(ip: nat, port: nat) | V6(ip: nat, port: nat)

  datatype Event = Add(addr: Addr, flags: nat) | Drop(addr: Addr)

  const PEX_MAX_DELTA := 50

  /** The message under construction: the lists as sent, per address family. */
  datatype Msg = Msg(
    added4: seq<Addr>, flags4: seq<nat>, added6: seq<Addr>, flags6: seq<nat>,
    dropped4: seq<Addr>, dropped6: seq<Addr>)
  {
    function Len(): nat {
      |added4| + |added6| + |dropped4| + |dropped6|
    }
  }

  /** pexMsgFactory: the message and the sets that find duplicates. */
  datatype Factory = Factory(msg: Msg, added: set<Addr>, dropped: set<Addr>)

  const EmptyFactory := Factory(Msg([], [], [], [], [], []), {}, {})

  function DeltaLen(f: Factory): nat {
    if |f.added| < |f.dropped| then |f.dropped| else |f.added|
  }

  /** The first index of an address, or -1. */
  function IndexOf(s: seq<Addr>, a: Addr): (i: int)
    ensures -1 <= i < |s|
    ensures i >= 0 ==> s[i] == a
    ensures i < 0 <==> a !in s
  {
    if s == [] then -1
    else if s[0] == a then 0
    else
      var i := IndexOf(s[1..], a);
      if i < 0 then -1 else i + 1
  }

  function RemoveAt<T>(s: seq<T>, i: int): seq<T> {
    if 0 <= i < |s| then s[..i] + s[i + 1..] else s
  }

  function Append(f: Factory, e: Event): Factory {
    match e
    case Add(a, flags) => AppendAdd(f, a, flags)
    case Drop(a) => AppendDrop(f, a)
  }

  /** pexMsgFactory.add: an add undoes a drop still in the message. */
  function AppendAdd(f: Factory, a: Addr, flags: nat): Factory {
    var m := f.msg;
    if a in f.added then f
    else if a in f.dropped then
      var m' := if a.V4? then m.(dropped4 := RemoveAt(m.dropped4, IndexOf(m.dropped4, a)))
                else m.(dropped6 := RemoveAt(m.dropped6, IndexOf(m.dropped6, a)));
      f.(msg := m', dropped := f.dropped - {a})
    else
      var m' := if a.V4? then m.(added4 := m.added4 + [a], flags4 := m.flags4 + [flags])
                else m.(added6 := m.added6 + [a], flags6 := m.flags6 + [flags]);
      f.(msg := m', added := f.added + {a})
  }

  /** pexMsgFactory.drop: a drop undoes an add still in the message, with its flags. */
  function AppendDrop(f: Factory, a: Addr): Factory {
    var m := f.msg;
    if a in f.dropped then f
    else if a in f.added then
      var i := if a.V4? then IndexOf(m.added4, a) else IndexOf(m.added6, a);
      var m' := if a.V4? then m.(added4 := RemoveAt(m.added4, i), flags4 := RemoveAt(m.flags4, i))
                else m.(added6 := RemoveAt(m.added6, i), flags6 := RemoveAt(m.flags6, i));
      f.(msg := m', added := f.added - {a})
    else
      var m' := if a.V4? then m.(dropped4 := m.dropped4 + [a]) else m.(dropped6 := m.dropped6 + [a]);
      f.(msg := m', dropped := f.dropped + {a})
  }

  /** pexState.Genmsg past the first message: events from the position on, until the
      delta is full. Returns the factory and the new position. */
  function Consume(f: Factory, feed: seq<Event>, last: nat): (r: (Factory, nat))
    requires last <= |feed|
    ensures last <= r.1 <= |feed|
    decreases |feed| - last
  {
    if last == |feed| || DeltaLen(f) >= PEX_MAX_DELTA then (f, last)
    else Consume(Append(f, feed[last]), feed, last + 1)
  }

  // ---------- the addresses live after some events ----------

  function Live(feed: seq<Event>): set<Addr> {
    if feed == [] then {}
    else
      var before, e := Live(feed[..|feed| - 1]), feed[|feed| - 1];
      if e.Add? then before + {e.addr} else before - {e.addr}
  }

  /** Every address is added only when not live, and dropped only when live. */
  ghost predicate Alternating(feed: seq<Event>) {
    forall i :: 0 <= i < |feed| ==> (feed[i].Add? <==> feed[i].addr !in Live(feed[..i]))
  }

  lemma {:induction false} LiveNext(feed: seq<Event>, i: nat)
    requires i < |feed|
    ensures Live(feed[..i + 1]) ==
            if feed[i].Add? then Live(feed[..i]) + {feed[i].addr} else Live(feed[..i]) - {feed[i].addr}
  {
    assert feed[..i + 1][..i] == feed[..i];
  }

  // ---------- messages say what changed ----------

  ghost predicate NoDup<T>(s: seq<T>) {
    forall i, j :: 0 <= i < j < |s| ==> s[i] != s[j]
  }

  /** A list holds, once each, the members of a set that belong to one family. */
  ghost predicate ListOf(s: seq<Addr>, xs: set<Addr>, v4: bool) {
    NoDup(s) && forall a :: a in s <==> a in xs && a.V4? == v4
  }

  /** The lists agree with the sets, flags stand beside their addresses, and no address
      is on both sides. */
  ghost predicate Sound(f: Factory) {
    && ListOf(f.msg.added4, f.added, true) && ListOf(f.msg.added6, f.added, false)
    && ListOf(f.msg.dropped4, f.dropped, true) && ListOf(f.msg.dropped6, f.dropped, false)
    && |f.msg.flags4| == |f.msg.added4| && |f.msg.flags6| == |f.msg.added6|
    && |f.msg.added4| + |f.msg.added6| == |f.added|
    && |f.msg.dropped4| + |f.msg.dropped6| == |f.dropped|
    && f.added !! f.dropped
  }

  lemma {:induction false} ListGrows(s: seq<Addr>, xs: set<Addr>, a: Addr)
    requires ListOf(s, xs, a.V4?) && a !in xs
    ensures ListOf(s + [a], xs + {a}, a.V4?)
  {
  }

  lemma {:induction false} ListShrinks(s: seq<Addr>, xs: set<Addr>, a: Addr)
    requires ListOf(s, xs, a.V4?) && a in xs
    ensures IndexOf(s, a) >= 0
    ensures ListOf(RemoveAt(s, IndexOf(s, a)), xs - {a}, a.V4?) && |RemoveAt(s, IndexOf(s, a))| == |s| - 1
  {
    var i := IndexOf(s, a);
    var t := RemoveAt(s, i);
    forall x
      ensures x in t <==> x in xs - {a} && x.V4? == a.V4?
    {
      if x in s && x != a {
        var k :| 0 <= k < |s| && s[k] == x;
        assert t[if k < i then k else k - 1] == x;
      }
      if x in t {
        var k :| 0 <= k < |t| && t[k] == x;
        assert x == s[if k < i then k else k + 1];
      }
    }
  }

  /** The other family's list is unaffected by a change to the set. */
  lemma {:induction false} ListOther(s: seq<Addr>, xs: set<Addr>, a: Addr)
    requires ListOf(s, xs, !a.V4?)
    ensures ListOf(s, xs + {a}, !a.V4?) && ListOf(s, xs - {a}, !a.V4?)
  {
  }

  lemma {:induction false} AddSound(f: Factory, a: Addr, flags: nat)
    requires Sound(f)
    ensures Sound(AppendAdd(f, a, flags))
  {
    var m := f.msg;
    if a !in f.added && a in f.dropped {
      ListShrinks(if a.V4? then m.dropped4 else m.dropped6, f.dropped, a);
      ListOther(if a.V4? then m.dropped6 else m.dropped4, f.dropped, a);
      assert |f.dropped - {a}| == |f.dropped| - 1;
    } else if a !in f.added {
      ListGrows(if a.V4? then m.added4 else m.added6, f.added, a);
      ListOther(if a.V4? then m.added6 else m.added4, f.added, a);
      assert |f.added + {a}| == |f.added| + 1;
    }
  }

  lemma {:induction false} DropSound(f: Factory, a: Addr)
    requires Sound(f)
    ensures Sound(AppendDrop(f, a))
  {
    var m := f.msg;
    if a !in f.dropped && a in f.added {
      ListShrinks(if a.V4? then m.added4 else m.added6, f.added, a);
      ListOther(if a.V4? then m.added6 else m.added4, f.added, a);
      assert |f.added - {a}| == |f.added| - 1;
    } else if a !in f.dropped {
      ListGrows(if a.V4? then m.dropped4 else m.dropped6, f.dropped, a);
      ListOther(if a.V4? then m.dropped6 else m.dropped4, f.dropped, a);
      assert |f.dropped + {a}| == |f.dropped| + 1;
    }
  }

  /** The factory holds exactly the difference between two live sets. */
  ghost predicate Delta(f: Factory, base: set<Addr>, live: set<Addr>) {
    Sound(f) && f.added == live - base && f.dropped == base - live
  }

  /** The sets after an event are those of the difference after it. */
  ghost predicate DeltaSets(f: Factory, base: set<Addr>, live: set<Addr>) {
    f.added == live - base && f.dropped == base - live
  }

  lemma {:induction false} AddDeltaSets(f: Factory, a: Addr, flags: nat, base: set<Addr>, live: set<Addr>)
    requires DeltaSets(f, base, live) && a !in live
    ensures DeltaSets(AppendAdd(f, a, flags), base, live + {a})
    ensures |AppendAdd(f, a, flags).added| <= |f.added| + 1 && |AppendAdd(f, a, flags).dropped| <= |f.dropped|
  {
    assert a in f.dropped ==> |f.dropped - {a}| < |f.dropped|;
  }

  lemma {:induction false} DropDeltaSets(f: Factory, a: Addr, base: set<Addr>, live: set<Addr>)
    requires DeltaSets(f, base, live) && a in live
    ensures DeltaSets(AppendDrop(f, a), base, live - {a})
    ensures |AppendDrop(f, a).added| <= |f.added| && |AppendDrop(f, a).dropped| <= |f.dropped| + 1
  {
    assert a in f.added ==> |f.added - {a}| < |f.added|;
  }

  /** One more event of an alternating feed: the factory stays the exact difference, and
      each side grows by at most one. */
  lemma {:induction false} AppendDelta(f: Factory, feed: seq<Event>, k: nat, base: set<Addr>)
    requires Alternating(feed) && k < |feed| && Delta(f, base, Live(feed[..k]))
    ensures Delta(Append(f, feed[k]), base, Live(feed[..k + 1]))
    ensures |Append(f, feed[k]).added| <= |f.added| + 1 && |Append(f, feed[k]).dropped| <= |f.dropped| + 1
  {
    var e := feed[k];
    LiveNext(feed, k);
    if e.Add? {
      AddSound(f, e.addr, e.flags);
      AddDeltaSets(f, e.addr, e.flags, base, Live(feed[..k]));
    } else {
      DropSound(f, e.addr);
      DropDeltaSets(f, e.addr, base, Live(feed[..k]));
    }
  }

  /** An incremental message is the difference between the live sets at its two ends,
      with at most 50 adds and 50 drops. */
  lemma {:induction false} ConsumeDelta(f: Factory, feed: seq<Event>, last: nat, base: set<Addr>)
    requires Alternating(feed) && last <= |feed| && Delta(f, base, Live(feed[..last]))
    requires |f.added| <= PEX_MAX_DELTA && |f.dropped| <= PEX_MAX_DELTA
    ensures var (g, p) := Consume(f, feed, last);
            && Delta(g, base, Live(feed[..p]))
            && |g.added| <= PEX_MAX_DELTA && |g.dropped| <= PEX_MAX_DELTA
            && (p < |feed| ==> DeltaLen(g) == PEX_MAX_DELTA)
    decreases |feed| - last
  {
    if last < |feed| && DeltaLen(f) < PEX_MAX_DELTA {
      AppendDelta(f, feed, last, base);
      ConsumeDelta(Append(f, feed[last]), feed, last + 1, base);
    }
  }

  // ---------- flags ----------

  /** The flags of the latest add of an address. */
  function LastFlags(feed: seq<Event>, a: Addr): nat {
    if feed == [] then 0
    else
      var e := feed[|feed| - 1];
      if e.Add? && e.addr == a then e.flags else LastFlags(feed[..|feed| - 1], a)
  }

  ghost predicate Aligned(addrs: seq<Addr>, flags: seq<nat>, feed: seq<Event>) {
    |flags| == |addrs| && forall i :: 0 <= i < |addrs| ==> flags[i] == LastFlags(feed, addrs[i])
  }

  ghost predicate FlagsAligned(f: Factory, feed: seq<Event>) {
    Aligned(f.msg.added4, f.msg.flags4, feed) && Aligned(f.msg.added6, f.msg.flags6, feed)
  }

  lemma {:induction false} AlignedNext(addrs: seq<Addr>, flags: seq<nat>, feed: seq<Event>, k: nat)
    requires k < |feed| && Aligned(addrs, flags, feed[..k])
    requires feed[k].Add? ==> feed[k].addr !in addrs
    ensures Aligned(addrs, flags, feed[..k + 1])
    ensures feed[k].Add? ==> Aligned(addrs + [feed[k].addr], flags + [feed[k].flags], feed[..k + 1])
    ensures forall i :: 0 <= i < |addrs| ==> Aligned(RemoveAt(addrs, i), RemoveAt(flags, i), feed[..k + 1])
  {
    assert feed[..k + 1][..k] == feed[..k];
  }

  /** In a message, the flags beside an address are those of its latest add. */
  lemma {:induction false} AppendFlags(f: Factory, feed: seq<Event>, k: nat, base: set<Addr>)
    requires Alternating(feed) && k < |feed| && Delta(f, base, Live(feed[..k])) && FlagsAligned(f, feed[..k])
    ensures FlagsAligned(Append(f, feed[k]), feed[..k + 1])
  {
    var m, a := f.msg, feed[k].addr;
    if feed[k].Add? { assert a !in f.added; }
    AlignedNext(m.added4, m.flags4, feed, k);
    AlignedNext(m.added6, m.flags6, feed, k);
  }

  lemma {:induction false} ConsumeFlags(f: Factory, feed: seq<Event>, last: nat, base: set<Addr>)
    requires Alternating(feed) && last <= |feed|
    requires Delta(f, base, Live(feed[..last])) && FlagsAligned(f, feed[..last])
    ensures var (g, p) := Consume(f, feed, last); FlagsAligned(g, feed[..p])
    decreases |feed| - last
  {
    if last < |feed| && DeltaLen(f) < PEX_MAX_DELTA {
      AppendDelta(f, feed, last, base);
      AppendFlags(f, feed, last, base);
      ConsumeFlags(Append(f, feed[last]), feed, last + 1, base);
    }
  }

  // ---------- the remote end ----------

  function DropAll(conns: map<Addr, Option<nat>>, addrs: seq<Addr>): map<Addr, Option<nat>>
    decreases |addrs|
  {
    if addrs == [] then conns else DropAll(conns - {addrs[0]}, addrs[1..])
  }

  function AddAll(conns: map<Addr, Option<nat>>, addrs: seq<Addr>, flags: seq<nat>): map<Addr, Option<nat>>
    decreases |addrs|
  {
    if addrs == [] then conns
    else AddAll(conns[addrs[0] := if flags == [] then None else Some(flags[0])],
                addrs[1..], if flags == [] then [] else flags[1..])
  }

  /** updateRemoteLiveConns: drops of both families, then adds of both. */
  function UpdateRemote(conns: map<Addr, Option<nat>>, m: Msg): map<Addr, Option<nat>> {
    AddAll(AddAll(DropAll(DropAll(conns, m.dropped4), m.dropped6), m.added4, m.flags4), m.added6, m.flags6)
  }

  function Elems(s: seq<Addr>): set<Addr> {
    set a | a in s
  }

  lemma {:induction false} ElemsHead(s: seq<Addr>)
    requires s != []
    ensures Elems(s) == {s[0]} + Elems(s[1..])
  {
  }

  lemma {:induction false} DropAllKeys(conns: map<Addr, Option<nat>>, addrs: seq<Addr>)
    ensures DropAll(conns, addrs).Keys == conns.Keys - Elems(addrs)
    decreases |addrs|
  {
    if addrs != [] {
      DropAllKeys(conns - {addrs[0]}, addrs[1..]);
      ElemsHead(addrs);
    }
  }

  lemma {:induction false} AddAllKeys(conns: map<Addr, Option<nat>>, addrs: seq<Addr>, flags: seq<nat>)
    ensures AddAll(conns, addrs, flags).Keys == conns.Keys + Elems(addrs)
    decreases |addrs|
  {
    if addrs != [] {
      AddAllKeys(conns[addrs[0] := if flags == [] then None else Some(flags[0])], addrs[1..], if flags == [] then [] else flags[1..]);
      ElemsHead(addrs);
    }
  }

  lemma {:induction false} ListsCover(s4: seq<Addr>, s6: seq<Addr>, xs: set<Addr>)
    requires ListOf(s4, xs, true) && ListOf(s6, xs, false)
    ensures Elems(s4) + Elems(s6) == xs
  {
  }

  lemma {:induction false} UpdateRemoteKeys(conns: map<Addr, Option<nat>>, m: Msg)
    ensures UpdateRemote(conns, m).Keys ==
            conns.Keys - Elems(m.dropped4) - Elems(m.dropped6) + Elems(m.added4) + Elems(m.added6)
  {
    var c1 := DropAll(conns, m.dropped4);
    var c2 := DropAll(c1, m.dropped6);
    DropAllKeys(conns, m.dropped4);
    DropAllKeys(c1, m.dropped6);
    AddAllKeys(c2, m.added4, m.flags4);
    AddAllKeys(AddAll(c2, m.added4, m.flags4), m.added6, m.flags6);
  }

  /** A sound message takes the remote set from one live set to the other. */
  lemma {:induction false} RemoteFollows(conns: map<Addr, Option<nat>>, f: Factory, base: set<Addr>, live: set<Addr>)
    requires Delta(f, base, live) && conns.Keys == base
    ensures UpdateRemote(conns, f.msg).Keys == live
  {
    UpdateRemoteKeys(conns, f.msg);
    ListsCover(f.msg.added4, f.msg.added6, f.added);
    ListsCover(f.msg.dropped4, f.msg.dropped6, f.dropped);
    var m := f.msg;
    ApplyDifference(base, live, Elems(m.dropped4), Elems(m.dropped6), Elems(m.added4), Elems(m.added6));
  }

  lemma {:induction false} ApplyDifference(base: set<Addr>, live: set<Addr>, d4: set<Addr>, d6: set<Addr>, a4: set<Addr>, a6: set<Addr>)
    requires d4 + d6 == base - live && a4 + a6 == live - base
    ensures base - d4 - d6 + a4 + a6 == live
  {
    forall x
      ensures x in base - d4 - d6 + a4 + a6 <==> x in live
    {
      assert x in d4 + d6 <==> x in base - live;
      assert x in a4 + a6 <==> x in live - base;
    }
  }

  // ---------- the flags the remote end has ----------

  lemma {:induction false} DropAllIs(conns: map<Addr, Option<nat>>, addrs: seq<Addr>, a: Addr)
    requires a in conns && a !in addrs
    ensures a in DropAll(conns, addrs) && DropAll(conns, addrs)[a] == conns[a]
    decreases |addrs|
  {
    if addrs != [] { DropAllIs(conns - {addrs[0]}, addrs[1..], a); }
  }

  /** An address added has the flags beside it; any other keeps what it had. */
  lemma {:induction false} AddAllIs(conns: map<Addr, Option<nat>>, addrs: seq<Addr>, flags: seq<nat>, a: Addr)
    requires NoDup(addrs) && |flags| == |addrs|
    ensures a in conns && a !in addrs ==> a in AddAll(conns, addrs, flags) && AddAll(conns, addrs, flags)[a] == conns[a]
    ensures forall i :: 0 <= i < |addrs| && addrs[i] == a ==>
      a in AddAll(conns, addrs, flags) && AddAll(conns, addrs, flags)[a] == Some(flags[i])
    decreases |addrs|
  {
    if addrs != [] {
      AddAllIs(conns[addrs[0] := Some(flags[0])], addrs[1..], flags[1..], a);
      assert forall i :: 1 <= i < |addrs| ==> addrs[i] == addrs[1..][i - 1] && flags[i] == flags[1..][i - 1];
    }
  }

  /** The lists of one family after the drops: what was there keeps its flags, what is added has the flags of
      its latest add. */
  lemma {:induction false} FamilyFlags(
    conns: map<Addr, Option<nat>>, s4: seq<Addr>, f4: seq<nat>, s6: seq<Addr>, f6: seq<nat>, feed: seq<Event>, a: Addr)
    requires NoDup(s4) && NoDup(s6) && Aligned(s4, f4, feed) && Aligned(s6, f6, feed) && !(a in s4 && a in s6)
    ensures var r := AddAll(AddAll(conns, s4, f4), s6, f6);
            && (a in s4 || a in s6 ==> a in r && r[a] == Some(LastFlags(feed, a)))
            && (a !in s4 && a !in s6 && a in conns ==> a in r && r[a] == conns[a])
  {
    hide LastFlags;
    var c := AddAll(conns, s4, f4);
    AddAllIs(conns, s4, f4, a);
    AddAllIs(c, s6, f6, a);
  }

  /** A message leaves the flags of what the remote end had, and gives what is new the flags of its latest
      add. */
  lemma {:induction false} RemoteFlags(
    conns: map<Addr, Option<nat>>, f: Factory, base: set<Addr>, live: set<Addr>, feed: seq<Event>, a: Addr)
    requires Delta(f, base, live) && FlagsAligned(f, feed) && conns.Keys == base && a in live
    ensures a in UpdateRemote(conns, f.msg)
    ensures UpdateRemote(conns, f.msg)[a] == if a in base then conns[a] else Some(LastFlags(feed, a))
  {
    hide LastFlags;
    var m := f.msg;
    var c1 := DropAll(conns, m.dropped4);
    var c2 := DropAll(c1, m.dropped6);
    assert a !in m.dropped4 && a !in m.dropped6;
    if a in base {
      DropAllIs(conns, m.dropped4, a);
      DropAllIs(c1, m.dropped6, a);
    }
    assert (a in m.added4 || a in m.added6) <==> a !in base;
    FamilyFlags(c2, m.added4, m.flags4, m.added6, m.flags6, feed, a);
  }

  // ---------- runs ----------

  /** The sender's feed and first message, the position it keeps for one connection, and
      what the other end of that connection has. */
  datatype State = State(feed: seq<Event>, msg0: Factory, last: nat, remote: map<Addr, Option<nat>>)

  const Initial := State([], EmptyFactory, 0, map[])

  /** A new event reaches the feed, or the connection's turn to send comes up. */
  datatype Step = NewEvent(e: Event) | Send

  function Genmsg(s: State): (Factory, nat)
    requires s.last <= |s.feed|
  {
    if s.last == 0 then (s.msg0, |s.feed|) else Consume(EmptyFactory, s.feed, s.last)
  }

  /** An empty message is not sent, and then the position stays. */
  function Next(s: State, step: Step): (r: State)
    requires s.last <= |s.feed|
    ensures r.last <= |r.feed|
  {
    match step
    case NewEvent(e) => s.(feed := s.feed + [e], msg0 := Append(s.msg0, e))
    case Send =>
      var (f, last) := Genmsg(s);
      if f.msg.Len() == 0 then s else s.(last := last, remote := UpdateRemote(s.remote, f.msg))
  }

  ghost predicate Inv(s: State) {
    && s.last <= |s.feed| && Alternating(s.feed)
    && Delta(s.msg0, {}, Live(s.feed)) && FlagsAligned(s.msg0, s.feed)
    && s.remote.Keys == Live(s.feed[..s.last])
  }

  ghost predicate Allowed(s: State, step: Step) {
    step.NewEvent? ==> Alternating(s.feed + [step.e])
  }

  lemma {:induction false} NewEventOk(s: State, e: Event)
    requires Inv(s) && Alternating(s.feed + [e])
    ensures Inv(Next(s, NewEvent(e)))
  {
    hide Append, Alternating, Delta, FlagsAligned, Live;
    var feed := s.feed + [e];
    assert feed[..|s.feed|] == s.feed && feed[..|feed|] == feed && feed[..s.last] == s.feed[..s.last];
    AppendDelta(s.msg0, feed, |s.feed|, {});
    AppendFlags(s.msg0, feed, |s.feed|, {});
  }

  ghost predicate WithinLimit(m: Msg) {
    |m.added4| + |m.added6| <= PEX_MAX_DELTA && |m.dropped4| + |m.dropped6| <= PEX_MAX_DELTA
  }

  /** The message generated in a state of the invariant, and where it leads. */
  lemma {:induction false} GenmsgOk(s: State)
    requires Inv(s)
    ensures var (f, last) := Genmsg(s);
            && last <= |s.feed| && Delta(f, Live(s.feed[..s.last]), Live(s.feed[..last]))
            && FlagsAligned(f, s.feed[..last])
            && (s.last != 0 ==> WithinLimit(f.msg))
  {
    if s.last == 0 {
      assert s.feed[..|s.feed|] == s.feed;
    } else {
      assert Delta(EmptyFactory, Live(s.feed[..s.last]), Live(s.feed[..s.last]));
      ConsumeDelta(EmptyFactory, s.feed, s.last, Live(s.feed[..s.last]));
      ConsumeFlags(EmptyFactory, s.feed, s.last, Live(s.feed[..s.last]));
    }
  }

  lemma {:induction false} StepOk(s: State, step: Step)
    requires Inv(s) && Allowed(s, step)
    ensures Inv(Next(s, step))
  {
    match step
    case NewEvent(e) => NewEventOk(s, e);
    case Send =>
      GenmsgOk(s);
      var (f, last) := Genmsg(s);
      RemoteFollows(s.remote, f, Live(s.feed[..s.last]), Live(s.feed[..last]));
  }

  ghost predicate IsRun(s: State, steps: seq<Step>)
    requires s.last <= |s.feed|
    decreases |steps|
  {
    steps == [] || (Allowed(s, steps[0]) && IsRun(Next(s, steps[0]), steps[1..]))
  }

  function Run(s: State, steps: seq<Step>): State
    requires s.last <= |s.feed|
    decreases |steps|
  {
    if steps == [] then s else Run(Next(s, steps[0]), steps[1..])
  }

  lemma {:induction false} RunOk(s: State, steps: seq<Step>)
    requires Inv(s) && IsRun(s, steps)
    ensures Inv(Run(s, steps))
    decreases |steps|
  {
    if steps != [] {
      StepOk(s, steps[0]);
      RunOk(Next(s, steps[0]), steps[1..]);
    }
  }

  /** Main result: for every alternating feed and every schedule of sends, the set the
      other end built equals the set live after the events up to the sender's position;
      and whatever is sent next carries at most 50 adds and 50 drops unless it is the
      first message, each flag that of its address's latest add. */
  lemma {:induction false} PexReplicates(steps: seq<Step>)
    requires IsRun(Initial, steps)
    ensures var s := Run(Initial, steps);
            && s.last <= |s.feed| && s.remote.Keys == Live(s.feed[..s.last])
            && (s.last == |s.feed| ==> s.remote.Keys == Live(s.feed))
            && var (f, last) := Genmsg(s);
               && (s.last != 0 ==> WithinLimit(f.msg))
               && FlagsAligned(f, s.feed[..last])
  {
    assert Inv(Initial);
    RunOk(Initial, steps);
    var s := Run(Initial, steps);
    GenmsgOk(s);
    assert s.feed[..|s.feed|] == s.feed;
  }

  /** The remote end has the flags of each address's latest add before the sender's position. */
  ghost predicate FlagsCurrent(s: State)
    requires s.last <= |s.feed|
  {
    forall a :: a in s.remote ==> s.remote[a] == Some(LastFlags(s.feed[..s.last], a))
  }

  /** No address live before the message and after it was added again in between with other flags. */
  ghost predicate FlagsKept(feed: seq<Event>, from: nat, to: nat)
    requires from <= |feed| && to <= |feed|
  {
    forall a :: a in Live(feed[..from]) && a in Live(feed[..to]) ==> LastFlags(feed[..from], a) == LastFlags(feed[..to], a)
  }

  /** After a send, an address the other end had keeps its flags, and a new one has those of its latest add. */
  lemma {:induction false} SendFlags(s: State, a: Addr)
    requires Inv(s) && Genmsg(s).0.msg.Len() != 0 && a in Live(s.feed[..Genmsg(s).1])
    ensures var s' := Next(s, Send);
            && s'.last == Genmsg(s).1 && a in s'.remote
            && s'.remote[a] == if a in Live(s.feed[..s.last]) then s.remote[a] else Some(LastFlags(s.feed[..s'.last], a))
  {
    GenmsgOk(s);
    var (f, last) := Genmsg(s);
    RemoteFlags(s.remote, f, Live(s.feed[..s.last]), Live(s.feed[..last]), s.feed[..last], a);
  }

  /** The other end's flags stay those of the latest adds exactly if no address it keeps was dropped and
      added again with other flags: the drop and the add cancel out in the message. */
  lemma {:induction false} FlagsCurrentIff(s: State)
    requires Inv(s) && FlagsCurrent(s) && Genmsg(s).0.msg.Len() != 0
    ensures FlagsCurrent(Next(s, Send)) <==> FlagsKept(s.feed, s.last, Genmsg(s).1)
  {
    hide LastFlags;
    StepOk(s, Send);
    var s' := Next(s, Send);
    forall a | a in Live(s.feed[..s'.last])
      ensures a in s'.remote
      ensures s'.remote[a] == if a in Live(s.feed[..s.last]) then s.remote[a] else Some(LastFlags(s.feed[..s'.last], a))
    {
      SendFlags(s, a);
    }
  }

  /** The other end's flags are those of the latest adds after every step. */
  ghost predicate CurrentThroughout(s: State, steps: seq<Step>)
    requires s.last <= |s.feed|
    decreases |steps|
  {
    FlagsCurrent(s) && (steps == [] || CurrentThroughout(Next(s, steps[0]), steps[1..]))
  }

  /** No message of the run covers a drop and an add of the same address with other flags. */
  ghost predicate KeptThroughout(s: State, steps: seq<Step>)
    requires s.last <= |s.feed|
    decreases |steps|
  {
    steps == [] || (StepKept(s, steps[0]) && KeptThroughout(Next(s, steps[0]), steps[1..]))
  }

  ghost predicate StepKept(s: State, step: Step)
    requires s.last <= |s.feed|
  {
    step.Send? && Genmsg(s).0.msg.Len() != 0 && Genmsg(s).1 <= |s.feed| ==> FlagsKept(s.feed, s.last, Genmsg(s).1)
  }

  lemma {:induction false} StepFlags(s: State, step: Step)
    requires Inv(s) && FlagsCurrent(s) && Allowed(s, step)
    ensures FlagsCurrent(Next(s, step)) <==> StepKept(s, step)
  {
    match step {
      case NewEvent(e) => assert Next(s, step).feed[..s.last] == s.feed[..s.last];
      case Send =>
        GenmsgOk(s);
        if Genmsg(s).0.msg.Len() != 0 { FlagsCurrentIff(s); }
    }
  }

  lemma {:induction false} ThroughoutFrom(s: State, steps: seq<Step>)
    requires Inv(s) && FlagsCurrent(s) && IsRun(s, steps)
    ensures CurrentThroughout(s, steps) <==> KeptThroughout(s, steps)
    decreases |steps|
  {
    if steps != [] {
      var s1 := Next(s, steps[0]);
      StepOk(s, steps[0]);
      StepFlags(s, steps[0]);
      if FlagsCurrent(s1) { ThroughoutFrom(s1, steps[1..]); }
    }
    hide Inv, FlagsCurrent, StepKept, Allowed, Next, Genmsg;
  }

  /** Over every run the other end's flags are always those of the latest adds, exactly if no message covers
      a drop and an add of an address with other flags. */
  lemma {:induction false} FlagsThroughout(steps: seq<Step>)
    requires IsRun(Initial, steps)
    ensures CurrentThroughout(Initial, steps) <==> KeptThroughout(Initial, steps)
  {
    assert Inv(Initial);
    ThroughoutFrom(Initial, steps);
  }

  lemma {:induction false} RunFirst(s: State, step: Step, rest: seq<Step>, s': State)
    requires s.last <= |s.feed| && Allowed(s, step) && IsRun(Next(s, step), rest) && Run(Next(s, step), rest) == s'
    ensures IsRun(s, [step] + rest) && Run(s, [step] + rest) == s'
  {
    assert ([step] + rest)[1..] == rest;
  }

  lemma {:induction false} OneAdded(conns: map<Addr, Option<nat>>, a: Addr, f: nat)
    ensures UpdateRemote(conns, Msg([a], [f], [], [], [], [])) == conns[a := Some(f)]
  {
    assert AddAll(conns, [a], [f]) == AddAll(conns[a := Some(f)], [], []);
  }

  /** What the second message of that run holds: the drop and the add of one address are gone. */
  lemma {:induction false} StaleMessage(a: Addr, b: Addr, f: nat, g: nat)
    requires a.V4? && b.V4? && a != b
    ensures Consume(EmptyFactory, [Add(a, f), Drop(a), Add(a, g), Add(b, 0)], 1)
            == (Factory(Msg([b], [0], [], [], [], []), {b}, {}), 4)
  {
    var feed := [Add(a, f), Drop(a), Add(a, g), Add(b, 0)];
    var f1 := Append(EmptyFactory, feed[1]);
    assert f1 == Factory(Msg([], [], [], [], [a], []), {}, {a});
    var f2 := Append(f1, feed[2]);
    assert f2 == EmptyFactory;
    var f3 := Append(f2, feed[3]);
    assert f3 == Factory(Msg([b], [0], [], [], [], []), {b}, {});
    assert Consume(f3, feed, 4) == (f3, 4);
    assert Consume(f2, feed, 3) == (f3, 4);
    assert Consume(f1, feed, 2) == (f3, 4);
  }

  lemma {:induction false} StaleFeed(a: Addr, b: Addr, f: nat, g: nat)
    requires a != b
    ensures Alternating([Add(a, f), Drop(a), Add(a, g), Add(b, 0)])
    ensures Alternating([Add(a, f), Drop(a), Add(a, g)]) && Alternating([Add(a, f), Drop(a)]) && Alternating([Add(a, f)])
    ensures LastFlags([Add(a, f), Drop(a), Add(a, g), Add(b, 0)], a) == g
  {
    var feed := [Add(a, f), Drop(a), Add(a, g), Add(b, 0)];
    assert feed[..0] == [] && feed[..1] == [Add(a, f)] && feed[..2] == [Add(a, f), Drop(a)];
    LiveNext(feed, 0);
    LiveNext(feed, 1);
    LiveNext(feed, 2);
    assert forall n, i :: 0 <= i < n <= 4 ==> feed[..n][..i] == feed[..i];
    assert Alternating(feed) && Alternating(feed[..3]) && Alternating(feed[..2]) && Alternating(feed[..1]);
    assert feed[..3] == [Add(a, f), Drop(a), Add(a, g)];
  }

  /** The states of that run: after the first message, after each event, and after the second message. */
  function StaleState(a: Addr, b: Addr, f: nat, g: nat, n: nat): (s: State)
    ensures s.last <= |s.feed|
  {
    var feed := [Add(a, f), Drop(a), Add(a, g), Add(b, 0)];
    if n == 0 then State(feed[..1], Factory(Msg([a], [f], [], [], [], []), {a}, {}), 1, map[a := Some(f)])
    else if n == 1 then State(feed[..2], EmptyFactory, 1, map[a := Some(f)])
    else if n == 2 then State(feed[..3], Factory(Msg([a], [g], [], [], [], []), {a}, {}), 1, map[a := Some(f)])
    else
      State(feed, Factory(Msg([a, b], [g, 0], [], [], [], []), {a, b}, {}),
            if n == 3 then 1 else 4, if n == 3 then map[a := Some(f)] else map[a := Some(f), b := Some(0)])
  }

  lemma {:induction false} StaleSends(a: Addr, b: Addr, f: nat, g: nat)
    requires a.V4? && b.V4? && a != b
    ensures Next(Next(Initial, NewEvent(Add(a, f))), Send) == StaleState(a, b, f, g, 0)
    ensures Next(StaleState(a, b, f, g, 3), Send) == StaleState(a, b, f, g, 4)
  {
    OneAdded(map[], a, f);
    OneAdded(map[a := Some(f)], b, 0);
    StaleMessage(a, b, f, g);
    hide UpdateRemote, Consume, Live;
    assert Next(Initial, NewEvent(Add(a, f))) == State([Add(a, f)], Factory(Msg([a], [f], [], [], [], []), {a}, {}), 0, map[]);
  }

  lemma {:induction false} StaleAppends(a: Addr, b: Addr, f: nat, g: nat)
    requires a.V4? && b.V4? && a != b
    ensures Append(Factory(Msg([a], [f], [], [], [], []), {a}, {}), Drop(a)) == EmptyFactory
    ensures Append(EmptyFactory, Add(a, g)) == Factory(Msg([a], [g], [], [], [], []), {a}, {})
    ensures Append(Factory(Msg([a], [g], [], [], [], []), {a}, {}), Add(b, 0))
            == Factory(Msg([a, b], [g, 0], [], [], [], []), {a, b}, {})
  {
  }

  lemma {:induction false} StaleEvents(a: Addr, b: Addr, f: nat, g: nat)
    requires a.V4? && b.V4? && a != b
    ensures Next(StaleState(a, b, f, g, 0), NewEvent(Drop(a))) == StaleState(a, b, f, g, 1)
    ensures Next(StaleState(a, b, f, g, 1), NewEvent(Add(a, g))) == StaleState(a, b, f, g, 2)
    ensures Next(StaleState(a, b, f, g, 2), NewEvent(Add(b, 0))) == StaleState(a, b, f, g, 3)
  {
    StaleAppends(a, b, f, g);
    hide UpdateRemote, Consume, Live, Append;
    var feed := [Add(a, f), Drop(a), Add(a, g), Add(b, 0)];
    assert feed[..1] + [feed[1]] == feed[..2] && feed[..2] + [feed[2]] == feed[..3] && feed[..3] + [feed[3]] == feed;
  }

  lemma {:induction false} StaleAllowed(a: Addr, b: Addr, f: nat, g: nat)
    requires a != b
    ensures Allowed(Initial, NewEvent(Add(a, f))) && Allowed(StaleState(a, b, f, g, 0), NewEvent(Drop(a)))
    ensures Allowed(StaleState(a, b, f, g, 1), NewEvent(Add(a, g)))
    ensures Allowed(StaleState(a, b, f, g, 2), NewEvent(Add(b, 0)))
  {
    StaleFeed(a, b, f, g);
    hide Alternating;
    var feed := [Add(a, f), Drop(a), Add(a, g), Add(b, 0)];
    assert feed[..1] + [Drop(a)] == [Add(a, f), Drop(a)] && [] + [Add(a, f)] == [Add(a, f)];
    assert feed[..2] + [Add(a, g)] == [Add(a, f), Drop(a), Add(a, g)] && feed[..3] + [Add(b, 0)] == feed;
  }

  lemma {:induction false} StaleLast(a: Addr, b: Addr, f: nat, g: nat)
    requires a.V4? && b.V4? && a != b
    ensures IsRun(StaleState(a, b, f, g, 3), [Send]) && Run(StaleState(a, b, f, g, 3), [Send]) == StaleState(a, b, f, g, 4)
  {
    StaleSends(a, b, f, g);
    hide StaleState, Next;
    RunFirst(StaleState(a, b, f, g, 3), Send, [], StaleState(a, b, f, g, 4));
    assert [Send] + [] == [Send];
  }

  lemma {:induction false} StaleTail(a: Addr, b: Addr, f: nat, g: nat, rest: seq<Step>)
    requires a.V4? && b.V4? && a != b && rest == [NewEvent(Drop(a)), NewEvent(Add(a, g)), NewEvent(Add(b, 0)), Send]
    ensures IsRun(StaleState(a, b, f, g, 0), rest) && Run(StaleState(a, b, f, g, 0), rest) == StaleState(a, b, f, g, 4)
  {
    hide Next, Allowed, StaleState, IsRun, Run;
    StaleAllowed(a, b, f, g);
    StaleEvents(a, b, f, g);
    StaleLast(a, b, f, g);
    var end := StaleState(a, b, f, g, 4);
    assert [NewEvent(Add(b, 0))] + [Send] == [NewEvent(Add(b, 0)), Send];
    assert [NewEvent(Add(a, g))] + [NewEvent(Add(b, 0)), Send] == [NewEvent(Add(a, g)), NewEvent(Add(b, 0)), Send];
    RunFirst(StaleState(a, b, f, g, 2), NewEvent(Add(b, 0)), [Send], end);
    RunFirst(StaleState(a, b, f, g, 1), NewEvent(Add(a, g)), [NewEvent(Add(b, 0)), Send], end);
    RunFirst(StaleState(a, b, f, g, 0), NewEvent(Drop(a)), [NewEvent(Add(a, g)), NewEvent(Add(b, 0)), Send], end);
    assert [NewEvent(Drop(a))] + [NewEvent(Add(a, g)), NewEvent(Add(b, 0)), Send] == rest;
  }

  /** A connection is dropped and made again with other flags between two messages, and another is made: the
      other end has the old flags, at the end of the feed. */
  lemma {:induction false} FlagsStale(a: Addr, b: Addr, f: nat, g: nat)
    requires a.V4? && b.V4? && a != b && f != g
    ensures var rest := [NewEvent(Drop(a)), NewEvent(Add(a, g)), NewEvent(Add(b, 0)), Send];
            var steps := [NewEvent(Add(a, f))] + ([Send] + rest);
            && IsRun(Initial, steps) && Run(Initial, steps).last == |Run(Initial, steps).feed| == 4
            && a in Run(Initial, steps).remote && Run(Initial, steps).remote[a] == Some(f)
            && LastFlags(Run(Initial, steps).feed, a) == g
  {
    var rest := [NewEvent(Drop(a)), NewEvent(Add(a, g)), NewEvent(Add(b, 0)), Send];
    StaleFeed(a, b, f, g);
    StaleAllowed(a, b, f, g);
    StaleSends(a, b, f, g);
    StaleTail(a, b, f, g, rest);
    hide Next, Allowed, IsRun, Run, LastFlags, Alternating;
    RunFirst(Next(Initial, NewEvent(Add(a, f))), Send, rest, StaleState(a, b, f, g, 4));
    RunFirst(Initial, NewEvent(Add(a, f)), [Send] + rest, StaleState(a, b, f, g, 4));
  }

  // ---------- as it runs ----------

  /** pexMsgFactory: sets and lists edited in place. */
  class MsgFactory {
    var msg: Msg
    var added: set<Addr>
    var dropped: set<Addr>

    function Now(): Factory
      reads this
    {
      Factory(msg, added, dropped)
    }

    constructor ()
      ensures Now() == EmptyFactory
    {
      msg, added, dropped := EmptyFactory.msg, {}, {};
    }

    method Add(a: Addr, flags: nat)
      modifies this
      ensures Now() == AppendAdd(old(Now()), a, flags)
    {
      if a in added { return; }
      if a.V4? {
        if a in dropped {
          var i := IndexOf(msg.dropped4, a);
          if i >= 0 { msg := msg.(dropped4 := msg.dropped4[..i] + msg.dropped4[i + 1..]); }
          dropped := dropped - {a};
          return;
        }
        msg := msg.(added4 := msg.added4 + [a], flags4 := msg.flags4 + [flags]);
      } else {
        if a in dropped {
          var i := IndexOf(msg.dropped6, a);
          if i >= 0 { msg := msg.(dropped6 := msg.dropped6[..i] + msg.dropped6[i + 1..]); }
          dropped := dropped - {a};
          return;
        }
        msg := msg.(added6 := msg.added6 + [a], flags6 := msg.flags6 + [flags]);
      }
      added := added + {a};
    }

    method Drop(a: Addr)
      modifies this
      ensures Now() == AppendDrop(old(Now()), a)
    {
      if a in dropped { return; }
      if a in added {
        var i := if a.V4? then IndexOf(msg.added4, a) else IndexOf(msg.added6, a);
        if a.V4? {
          msg := msg.(added4 := RemoveAt(msg.added4, i), flags4 := RemoveAt(msg.flags4, i));
        } else {
          msg := msg.(added6 := RemoveAt(msg.added6, i), flags6 := RemoveAt(msg.flags6, i));
        }
        added := added - {a};
        return;
      }
      msg := if a.V4? then msg.(dropped4 := msg.dropped4 + [a]) else msg.(dropped6 := msg.dropped6 + [a]);
      dropped := dropped + {a};
    }
  }

  /** pexState.Genmsg with a position in the feed. */
  method GenmsgFrom(feed: seq<Event>, start: nat) returns (m: Msg, last: nat)
    requires start <= |feed|
    ensures last <= |feed| && (Consume(EmptyFactory, feed, start).0.msg, Consume(EmptyFactory, feed, start).1) == (m, last)
  {
    var f := new MsgFactory();
    last := start;
    while last < |feed|
      invariant start <= last <= |feed|
      invariant Consume(f.Now(), feed, last) == Consume(EmptyFactory, feed, start)
    {
      if DeltaLen(f.Now()) >= PEX_MAX_DELTA { break; }
      match feed[last] {
        case Add(a, flags) => f.Add(a, flags);
        case Drop(a) => f.Drop(a);
      }
      last := last + 1;
    }
    m := f.msg;
  }

  /** The loops of updateRemoteLiveConns. */
  method UpdateRemoteLiveConns(conns: map<Addr, Option<nat>>, m: Msg) returns (r: map<Addr, Option<nat>>)
    ensures r == UpdateRemote(conns, m)
  {
    r := RemoveEach(conns, m.dropped4);
    r := RemoveEach(r, m.dropped6);
    r := InsertEach(r, m.added4, m.flags4);
    r := InsertEach(r, m.added6, m.flags6);
  }

  method RemoveEach(conns: map<Addr, Option<nat>>, addrs: seq<Addr>) returns (r: map<Addr, Option<nat>>)
    ensures r == DropAll(conns, addrs)
  {
    r := conns;
    for i := 0 to |addrs|
      invariant DropAll(r, addrs[i..]) == DropAll(conns, addrs)
    {
      r := r - {addrs[i]};
      assert addrs[i..][1..] == addrs[i + 1..];
    }
  }

  method InsertEach(conns: map<Addr, Option<nat>>, addrs: seq<Addr>, flags: seq<nat>) returns (r: map<Addr, Option<nat>>)
    ensures r == AddAll(conns, addrs, flags)
  {
    r := conns;
    for i := 0 to |addrs|
      invariant AddAll(r, addrs[i..], if i < |flags| then flags[i..] else []) == AddAll(conns, addrs, flags)
    {
      r := r[addrs[i] := if i < |flags| then Some(flags[i]) else None];
      assert addrs[i..][1..] == addrs[i + 1..];
      if i < |flags| { assert flags[i..][1..] == flags[i + 1..]; }
    }
  }
}
