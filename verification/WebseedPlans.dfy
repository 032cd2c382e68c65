/** What a planning pass chooses, cancels and starts (webseed-requesting.go). */
module WebseedPlans {
  import opened Arithmetic
  import opened ByteOrder
  import opened Outcomes
  import opened Webseed
  import opened WebseedRuns

  // ---------- the possible requests ----------

  /** The first chunk of a piece, within what is requested of it, that is not received. */
  ghost predicate IsFirst(env: Env, inp: Input, t: Torrent, piece: nat, first: nat) {
    && PieceBegin(env, t, piece) <= first < PieceMaxEnd(env, t, piece) && (t, first) !in inp.dirty
    && forall r :: PieceBegin(env, t, piece) <= r < first ==> (t, r) in inp.dirty
  }

  /** A piece is offered to exactly its webseeds, if it has some priority, may be requested and misses a chunk:
      with its priority, from the first chunk it misses, in that chunk's slice. */
  lemma {:induction false} OfferIs(env: Env, s: State, inp: Input, item: Item, c: Candidate)
    requires EnvOk(env) && ItemOk(env, s, item)
    ensures Offer(env, inp, item).Ok?
    ensures c in Offer(env, inp, item).value <==>
      && c.key.url in item.urls && c.priority == item.priority > 0
      && item.t !in inp.barred && (item.t, item.piece) !in inp.ignored
      && IsFirst(env, inp, item.t, item.piece, c.start)
      && c.key.slice == Slice(item.t, c.start / PerSlice(env, item.t))
  {
    OfferOk(env, s, inp, item);
    var t := item.t;
    assert PerSlice(env, t) > 0;
    var first := FirstClean(inp.dirty, t, PieceBegin(env, t, item.piece), PieceMaxEnd(env, t, item.piece));
    if c.key.url in item.urls && EffectivePriority(inp, item) > 0 && first.Some? {
      var i :| 0 <= i < |item.urls| && item.urls[i] == c.key.url;
      assert Offer(env, inp, item).value[i]
        == Candidate(Key(c.key.url, Slice(t, SliceIndex(env, t, first.value))), item.priority, first.value);
    }
  }

  /** One possible request of a slice is as good as another: of higher priority, or not held by a peer
      connection when the other is, or starting no later. */
  predicate AsGood(a: Candidate, b: Candidate, held: set<(Torrent, nat)>) {
    var t := a.key.slice.t;
    || a.priority > b.priority
    || (a.priority == b.priority && (t, a.start) !in held && (t, b.start) in held)
    || (a.priority == b.priority && ((t, a.start) in held <==> (t, b.start) in held) && a.start <= b.start)
  }

  /** A possible request is kept for each key whose slice nobody is fetching, and it is as good as every
      other offered for the key. */
  lemma {:induction false} CollectBest(cs: seq<Candidate>, taken: set<Slice>, held: set<(Torrent, nat)>, k: Key)
    ensures k in Collect(cs, taken, held) <==> k.slice !in taken && exists c :: c in cs && c.key == k
    ensures k in Collect(cs, taken, held) ==>
      var best := Collect(cs, taken, held)[k];
      best in cs && best.key == k && forall c :: c in cs && c.key == k ==> AsGood(best, c, held)
  {
    if cs != [] {
      var rest, c := cs[..|cs| - 1], cs[|cs| - 1];
      assert cs == rest + [c];
      CollectBest(rest, taken, held, k);
    }
  }

  // ---------- slices ----------

  /** A slice is as many whole chunks as its bytes hold. */
  lemma {:induction false} SliceChunks(env: Env, t: Torrent, n: nat)
    requires env.geo(t).chunkSize > 0
    ensures n <= PerSlice(env, t) <==> n * env.geo(t).chunkSize <= env.sliceBytes
  {
    var c, per := env.geo(t).chunkSize, PerSlice(env, t);
    assert env.sliceBytes == per * c + env.sliceBytes % c;
    if n <= per { MulMono(n, per, c, c); } else { MulLess(per, n, c); }
  }

  lemma {:induction false} RangeInSlice(begin: nat, end: nat, per: nat, index: nat)
    requires per > 0 && index == begin / per && begin <= end <= (index + 1) * per
    ensures end - begin <= per
  {
    assert begin == index * per + begin % per && (index + 1) * per == index * per + per;
  }

  /** No active request asks for more bytes than a slice has. */
  lemma {:induction false} RequestBytes(env: Env, s: State, id: Id)
    requires EnvOk(env) && Inv(env, s) && id in s.reqs
    ensures (s.reqs[id].end - s.reqs[id].begin) * env.geo(s.reqs[id].t).chunkSize <= env.sliceBytes
  {
    var r := s.reqs[id];
    var per := PerSlice(env, r.t);
    assert RangeOk(env, r) && env.geo(r.t).Valid() && per > 0;
    hide Inv, EnvOk;
    RangeInSlice(r.begin, r.end, per, SliceIndex(env, r.t, r.begin));
    SliceChunks(env, r.t, r.end - r.begin);
  }

  // ---------- the order of the heap ----------

  /** One of two comes first, or they are level and `next` decides. */
  predicate First(sooner: bool, level: bool, next: bool) {
    sooner || (level && next)
  }

  /** Higher priority; an existing request; fewer peer connections; files that might be partial; the name
      and then the infohash that is less; the earlier slice. */
  ghost predicate Sooner(env: Env, inp: Input, l: Elem, r: Elem) {
    var t, u := l.key.slice.t, r.key.slice.t;
    First(l.priority > r.priority, l.priority == r.priority,
    First(l.existing && !r.existing, l.existing == r.existing,
    First(inp.conns(t) < inp.conns(u), inp.conns(t) == inp.conns(u),
    First(l.key in inp.partial && r.key !in inp.partial, l.key in inp.partial <==> r.key in inp.partial,
    First(Precedes(env.name(t), env.name(u)), env.name(t) == env.name(u),
    First(Precedes(env.infohash(t), env.infohash(u)), env.infohash(t) == env.infohash(u),
          l.key.slice.index < r.key.slice.index))))))
  }

  lemma {:induction false} OrderIs(env: Env, inp: Input, l: Elem, r: Elem)
    ensures Order(env, inp, l, r) < 0 <==> Sooner(env, inp, l, r)
  {
    hide Less, Precedes;
    var t, u := l.key.slice.t, r.key.slice.t;
    LessIs(env.name(t), env.name(u));
    Trichotomy(env.name(t), env.name(u));
    Trichotomy(env.infohash(t), env.infohash(u));
    LessIs(env.infohash(t), env.infohash(u));
  }

  /** The heap's comparison, and its panic: two elements of one url neither of which is sooner. */
  lemma {:induction false} AheadIs(env: Env, inp: Input, l: Elem, r: Elem)
    ensures Ahead(env, inp, l, r)
            == if l.key.url == r.key.url && !Sooner(env, inp, l, r) && !Sooner(env, inp, r, l) then Panic
               else Ok(Sooner(env, inp, l, r))
  {
    OrderIs(env, inp, l, r);
    OrderIs(env, inp, r, l);
    OrderOk(env, inp, l, r, l);
    hide Sooner, Order;
  }

  /** The order in which a heap gives up its elements: none comes after one it is sooner than. */
  ghost predicate Popped(env: Env, inp: Input, order: seq<Elem>) {
    forall i, j :: 0 <= i < j < |order| ==> !Sooner(env, inp, order[j], order[i])
  }

  // ---------- panics ----------

  /** A plan panics exactly on an element of a barred torrent or a new one of no priority. */
  lemma {:induction false} MakePlanExact(env: Env, order: seq<Elem>, barred: set<Torrent>, plan: Plan)
    ensures MakePlan(env, order, barred, plan).Panic?
            <==> exists e :: e in order && (e.key.slice.t in barred || (!e.existing && e.priority == 0))
    decreases |order|
  {
    if order != [] {
      var e, rest := order[0], order[1..];
      assert order == [e] + rest;
      MakePlanExact(env, rest, barred, plan);
      MakePlanExact(env, rest, barred,
                    Plan(plan.picked + [Planned(e.key, e.start)], plan.taken + {e.key.slice}, plan.unwanted - {e.key}));
    }
  }

  /** The end of a request is refused exactly for a start not before the slice's end, and for one that is not wanted when
      requests are shortened. */
  lemma {:induction false} RequestEndExact(env: Env, inp: Input, begin: nat, slice: Slice)
    requires EnvOk(env)
    ensures RequestEnd(env, inp, begin, slice).Panic?
            <==> SliceEnd(env, slice) <= begin || (inp.shorten && !Wanted(env, inp, slice.t, begin))
  {
    var last := SliceEnd(env, slice);
    if begin < MaxEnd(env, slice.t) { WantsOk(env, inp, slice.t, begin); }
    if begin + 1 <= last { WantedToOk(env, inp, slice.t, begin + 1, last); }
  }

  // ---------- the plan ----------

  /** A planned request is of some element not after this one. */
  ghost predicate From(env: Env, inp: Input, p: Planned, seen: seq<Elem>, e: Elem) {
    exists f :: f in seen && p == Planned(f.key, f.start) && !Sooner(env, inp, e, f)
  }

  /** Why an element is not planned: its host has as many as it may, none of them after it; or its slice
      is fetched already or planned for one not after it. */
  ghost predicate PassedOver(env: Env, inp: Input, plan: Plan, taken: set<Slice>, seen: seq<Elem>, e: Elem) {
    || (var ps := For(env, plan.picked, HostOf(env, e.key));
        |ps| >= env.limit && forall p :: p in ps ==> From(env, inp, p, seen, e))
    || (!e.existing && e.key.slice in taken)
    || (!e.existing && exists p :: p in plan.picked && p.key.slice == e.key.slice && From(env, inp, p, seen, e))
  }

  ghost predicate Weighed(env: Env, inp: Input, plan: Plan, taken: set<Slice>, seen: seq<Elem>, e: Elem) {
    Planned(e.key, e.start) in plan.picked || PassedOver(env, inp, plan, taken, seen, e)
  }

  lemma {:induction false} ForAdds(env: Env, picked: seq<Planned>, p: Planned, h: Host)
    ensures For(env, picked + [p], h) == For(env, picked, h) + if HostOf(env, p.key) == h then [p] else []
  {
    if picked != [] {
      assert (picked + [p])[1..] == picked[1..] + [p];
      ForAdds(env, picked[1..], p, h);
    }
  }

  lemma {:induction false} FromMore(env: Env, inp: Input, p: Planned, seen: seq<Elem>, f: Elem, e: Elem)
    requires From(env, inp, p, seen, e)
    ensures From(env, inp, p, seen + [f], e)
  {
    hide Sooner;
    var g :| g in seen && p == Planned(g.key, g.start) && !Sooner(env, inp, e, g);
    assert g in seen + [f];
  }

  /** What was weighed stays so when another element is passed over, or planned for a host below its limit. */
  lemma {:induction false} StaysWeighed(
    env: Env, inp: Input, plan: Plan, picked': seq<Planned>, taken: set<Slice>, seen: seq<Elem>, f: Elem, e: Elem)
    requires Weighed(env, inp, plan, taken, seen, e)
    requires picked' == plan.picked
      || (picked' == plan.picked + [Planned(f.key, f.start)] && |For(env, plan.picked, HostOf(env, f.key))| < env.limit)
    ensures Weighed(env, inp, plan.(picked := picked'), taken, seen + [f], e)
  {
    hide Sooner, From, For;
    var h := HostOf(env, e.key);
    if picked' != plan.picked { ForAdds(env, plan.picked, Planned(f.key, f.start), h); }
    if Planned(e.key, e.start) in plan.picked || (!e.existing && e.key.slice in taken) {
    } else if p :| p in plan.picked && !e.existing && p.key.slice == e.key.slice && From(env, inp, p, seen, e) {
      FromMore(env, inp, p, seen, f, e);
    } else {
      forall p | p in For(env, picked', h) ensures From(env, inp, p, seen + [f], e) {
        FromMore(env, inp, p, seen, f, e);
      }
    }
  }

  /** The planned requests are of elements seen, and the slices taken are those given and theirs. */
  ghost predicate Traced(plan: Plan, taken: set<Slice>, unwanted: set<Key>, seen: seq<Elem>) {
    && (forall p :: p in plan.picked ==> exists f :: f in seen && p == Planned(f.key, f.start))
    && (forall q :: q in plan.taken <==> q in taken || exists p :: p in plan.picked && p.key.slice == q)
    && (forall k :: k in plan.unwanted <==> k in unwanted && forall p :: p in plan.picked ==> p.key != k)
  }

  /** A planned request is of an element seen, so of none after this one. */
  lemma {:induction false} TracedFrom(
    env: Env, inp: Input, plan: Plan, taken: set<Slice>, unwanted: set<Key>, seen: seq<Elem>, e: Elem, rest: seq<Elem>,
    p: Planned)
    requires Traced(plan, taken, unwanted, seen) && Popped(env, inp, seen + [e] + rest) && p in plan.picked
    ensures From(env, inp, p, seen + [e], e)
  {
    hide Sooner;
    var f :| f in seen && p == Planned(f.key, f.start);
    var i :| 0 <= i < |seen| && seen[i] == f;
    var all := seen + [e] + rest;
    assert all[i] == f && all[|seen|] == e;
    assert f in seen + [e];
  }

  /** What is done with the next element. */
  function Next(env: Env, plan: Plan, e: Elem): Plan {
    if |For(env, plan.picked, HostOf(env, e.key))| >= env.limit || (!e.existing && e.key.slice in plan.taken) then plan
    else Plan(plan.picked + [Planned(e.key, e.start)], plan.taken + {e.key.slice}, plan.unwanted - {e.key})
  }

  lemma {:induction false} NextTraced(env: Env, plan: Plan, taken: set<Slice>, unwanted: set<Key>, seen: seq<Elem>, e: Elem)
    requires Traced(plan, taken, unwanted, seen)
    ensures Traced(Next(env, plan, e), taken, unwanted, seen + [e])
  {
    hide For;
    var plan' := Next(env, plan, e);
    forall p | p in plan'.picked ensures exists f :: f in seen + [e] && p == Planned(f.key, f.start) {
      if p in plan.picked {
        var f :| f in seen && p == Planned(f.key, f.start);
        assert f in seen + [e];
      } else {
        assert e in seen + [e];
      }
    }
    if plan' != plan {
      assert plan'.picked == plan.picked + [Planned(e.key, e.start)];
      assert forall p :: p in plan'.picked <==> p in plan.picked || p == Planned(e.key, e.start);
    }
  }

  lemma {:induction false} NextWeighed(
    env: Env, inp: Input, plan: Plan, taken: set<Slice>, unwanted: set<Key>, seen: seq<Elem>, e: Elem, rest: seq<Elem>)
    requires Traced(plan, taken, unwanted, seen) && Popped(env, inp, seen + [e] + rest)
    ensures Weighed(env, inp, Next(env, plan, e), taken, seen + [e], e)
  {
    hide Sooner, From, Popped;
    var h := HostOf(env, e.key);
    forall p | p in plan.picked ensures From(env, inp, p, seen + [e], e) {
      TracedFrom(env, inp, plan, taken, unwanted, seen, e, rest, p);
    }
    forall p | p in For(env, plan.picked, h) ensures From(env, inp, p, seen + [e], e) {
      ForMember(env, plan.picked, h, p);
    }
  }

  lemma {:induction false} MakePlanNext(env: Env, order: seq<Elem>, barred: set<Torrent>, plan: Plan)
    requires order != [] && MakePlan(env, order, barred, plan).Ok?
    ensures MakePlan(env, order, barred, plan) == MakePlan(env, order[1..], barred, Next(env, plan, order[0]))
  {
  }

  /** The planning loop, over what is left of the elements popped. */
  lemma {:induction false} PlanWeighs(
    env: Env, inp: Input, order: seq<Elem>, barred: set<Torrent>, plan: Plan, taken: set<Slice>, unwanted: set<Key>,
    seen: seq<Elem>)
    requires MakePlan(env, order, barred, plan).Ok? && Popped(env, inp, seen + order)
    requires Traced(plan, taken, unwanted, seen) && forall e :: e in seen ==> Weighed(env, inp, plan, taken, seen, e)
    ensures var plan' := MakePlan(env, order, barred, plan).value;
            && Traced(plan', taken, unwanted, seen + order)
            && forall e :: e in seen + order ==> Weighed(env, inp, plan', taken, seen + order, e)
    decreases |order|
  {
    hide Sooner, From, Popped, Traced, Weighed, For, Next;
    if order == [] {
      assert seen + order == seen;
    } else {
      var f, rest := order[0], order[1..];
      assert seen + order == seen + [f] + rest;
      MakePlanNext(env, order, barred, plan);
      NextTraced(env, plan, taken, unwanted, seen, f);
      NextWeighed(env, inp, plan, taken, unwanted, seen, f, rest);
      var plan' := Next(env, plan, f);
      forall e | e in seen + [f] ensures Weighed(env, inp, plan', taken, seen + [f], e) {
        if e in seen { NextStays(env, inp, plan, taken, seen, f, e); }
      }
      PlanWeighs(env, inp, rest, barred, plan', taken, unwanted, seen + [f]);
    }
  }

  lemma {:induction false} NextStays(env: Env, inp: Input, plan: Plan, taken: set<Slice>, seen: seq<Elem>, f: Elem, e: Elem)
    requires Weighed(env, inp, plan, taken, seen, e)
    ensures Weighed(env, inp, Next(env, plan, f), taken, seen + [f], e)
  {
    hide Sooner, From, For;
    StaysWeighed(env, inp, plan, Next(env, plan, f).picked, taken, seen, f, e);
  }

  /** A plan keeps every host within its limit. */
  ghost predicate Within(env: Env, plan: Plan) {
    forall h :: |For(env, plan.picked, h)| <= env.limit
  }

  lemma {:induction false} PlanWithin(env: Env, order: seq<Elem>, barred: set<Torrent>, plan: Plan)
    requires MakePlan(env, order, barred, plan).Ok? && Within(env, plan)
    ensures Within(env, MakePlan(env, order, barred, plan).value)
    decreases |order|
  {
    if order != [] {
      var e, plan' := order[0], Next(env, plan, order[0]);
      MakePlanNext(env, order, barred, plan);
      forall h ensures |For(env, plan'.picked, h)| <= env.limit { ForAdds(env, plan.picked, Planned(e.key, e.start), h); }
      PlanWithin(env, order[1..], barred, plan');
    }
  }

  lemma {:induction false} PlanTraced(
    env: Env, order: seq<Elem>, barred: set<Torrent>, plan: Plan, taken: set<Slice>, unwanted: set<Key>, seen: seq<Elem>)
    requires MakePlan(env, order, barred, plan).Ok? && Traced(plan, taken, unwanted, seen)
    ensures Traced(MakePlan(env, order, barred, plan).value, taken, unwanted, seen + order)
    decreases |order|
  {
    hide Traced, Next;
    if order == [] {
      assert seen + order == seen;
    } else {
      assert seen + order == seen + [order[0]] + order[1..];
      MakePlanNext(env, order, barred, plan);
      NextTraced(env, plan, taken, unwanted, seen, order[0]);
      PlanTraced(env, order[1..], barred, Next(env, plan, order[0]), taken, unwanted, seen + [order[0]]);
    }
  }

  /** The plan a pass begins with and the one it makes. */
  ghost predicate IsPlan(env: Env, inp: Input, existing: set<Key>, plan: Plan) {
    MakePlan(env, inp.order, inp.barred, Plan([], Slices(existing), existing)) == Ok(plan)
  }

  ghost predicate PlannedKey(plan: Plan, k: Key) {
    exists p :: p in plan.picked && p.key == k
  }

  /** Each host is planned no more than its limit, each planned request is one of the listed elements, and
      what is left unwanted is the existing requests not planned. */
  lemma {:induction false} PlanIs(env: Env, inp: Input, existing: set<Key>, plan: Plan)
    requires IsPlan(env, inp, existing, plan)
    ensures forall h :: |For(env, plan.picked, h)| <= env.limit
    ensures forall p :: p in plan.picked ==> exists e :: e in inp.order && p == Planned(e.key, e.start)
    ensures forall k :: k in plan.unwanted <==> k in existing && !PlannedKey(plan, k)
  {
    var plan0 := Plan([], Slices(existing), existing);
    PlanWithin(env, inp.order, inp.barred, plan0);
    PlanTraced(env, inp.order, inp.barred, plan0, Slices(existing), existing, []);
    assert [] + inp.order == inp.order;
  }

  /** The plan takes the elements soonest first: one is left out only for others no later than it that fill
      its host or have its slice, or for a request already fetching the slice. */
  lemma {:induction false} PlanPrefers(env: Env, inp: Input, existing: set<Key>, plan: Plan)
    requires IsPlan(env, inp, existing, plan) && Popped(env, inp, inp.order)
    ensures forall e :: e in inp.order ==>
      Planned(e.key, e.start) in plan.picked || PassedOver(env, inp, plan, Slices(existing), inp.order, e)
  {
    hide Sooner, From, Popped, PassedOver, For;
    assert [] + inp.order == inp.order;
    PlanWeighs(env, inp, inp.order, inp.barred, Plan([], Slices(existing), existing), Slices(existing), existing, []);
  }

  // ---------- what a pass changes ----------

  /** The request started for a planned one. */
  ghost predicate StartedAs(env: Env, inp: Input, p: Planned, r: Request) {
    && RequestEnd(env, inp, p.start, p.key.slice).Ok?
    && r == Request(p.key.slice.t, p.key.url, p.start, p.start, RequestEnd(env, inp, p.start, p.key.slice).value, false)
  }

  /** What starting these planned requests changes: those active stay as they are; each new one is one of
      these; each of these that was not active is, or its host is at the limit. */
  ghost predicate Started(env: Env, inp: Input, existing: set<Key>, ps: seq<Planned>, s: State, s': State) {
    Extends(s, s') && NewAreOf(env, inp, existing, ps, s, s') && AllTried(env, inp, existing, ps, s, s')
  }

  ghost predicate Extends(s: State, s': State) {
    && (forall id :: id in s.reqs ==> id in s'.reqs && s'.reqs[id] == s.reqs[id])
    && (forall h :: CountOf(s.count, h) <= CountOf(s'.count, h))
    && (forall id :: id in s'.reqs ==> id < s'.nextId && (id in s.reqs || s.nextId <= id)) && s.nextId <= s'.nextId
  }

  ghost predicate NewAreOf(env: Env, inp: Input, existing: set<Key>, ps: seq<Planned>, s: State, s': State) {
    forall id :: id in s'.reqs && id !in s.reqs ==>
      exists p :: p in ps && p.key !in existing && StartedAs(env, inp, p, s'.reqs[id])
  }

  ghost predicate IsStarted(env: Env, inp: Input, p: Planned, s: State, s': State) {
    exists id :: id in s'.reqs && id !in s.reqs && StartedAs(env, inp, p, s'.reqs[id])
  }

  ghost predicate AllTried(env: Env, inp: Input, existing: set<Key>, ps: seq<Planned>, s: State, s': State) {
    forall p :: p in ps && p.key !in existing ==>
      CountOf(s'.count, HostOf(env, p.key)) >= env.limit || IsStarted(env, inp, p, s, s')
  }

  ghost predicate Numbered(s: State) {
    forall id :: id in s.reqs ==> id < s.nextId
  }

  lemma {:induction false} StartedOne(env: Env, inp: Input, existing: set<Key>, p: Planned, s: State, end: nat, s': State)
    requires Numbered(s) && p.key !in existing && RequestEnd(env, inp, p.start, p.key.slice) == Ok(end)
    requires Spawn(env, s, Seed(p.key.slice.t, p.key.url), p.start, end) == Ok(s')
    ensures Started(env, inp, existing, [p], s, s')
  {
    hide RequestEnd, KeyOf;
    assert s'.reqs[s.nextId] == Request(p.key.slice.t, p.key.url, p.start, p.start, end, false);
    assert StartedAs(env, inp, p, s'.reqs[s.nextId]);
  }

  lemma {:induction false} NewBoth(
    env: Env, inp: Input, existing: set<Key>, ps: seq<Planned>, qs: seq<Planned>, s: State, s1: State, s': State)
    requires Extends(s, s1) && Extends(s1, s')
    requires NewAreOf(env, inp, existing, ps, s, s1) && NewAreOf(env, inp, existing, qs, s1, s')
    ensures NewAreOf(env, inp, existing, ps + qs, s, s')
  {
    hide StartedAs;
    forall id | id in s'.reqs && id !in s.reqs
      ensures exists p :: p in ps + qs && p.key !in existing && StartedAs(env, inp, p, s'.reqs[id])
    {
      if id in s1.reqs {
        var p :| p in ps && p.key !in existing && StartedAs(env, inp, p, s1.reqs[id]);
        assert p in ps + qs;
      } else {
        var p :| p in qs && p.key !in existing && StartedAs(env, inp, p, s'.reqs[id]);
        assert p in ps + qs;
      }
    }
  }

  /** A request started before stays started, and one started after was not active before. */
  lemma {:induction false} StartedStays(env: Env, inp: Input, p: Planned, s: State, s1: State, s': State)
    requires Extends(s, s1) && Extends(s1, s') && (IsStarted(env, inp, p, s, s1) || IsStarted(env, inp, p, s1, s'))
    ensures IsStarted(env, inp, p, s, s')
  {
    hide StartedAs;
    if IsStarted(env, inp, p, s, s1) {
      var id :| id in s1.reqs && id !in s.reqs && StartedAs(env, inp, p, s1.reqs[id]);
      assert id in s'.reqs;
    }
  }

  lemma {:induction false} TriedBoth(
    env: Env, inp: Input, existing: set<Key>, ps: seq<Planned>, qs: seq<Planned>, s: State, s1: State, s': State)
    requires Extends(s, s1) && Extends(s1, s')
    requires AllTried(env, inp, existing, ps, s, s1) && AllTried(env, inp, existing, qs, s1, s')
    ensures AllTried(env, inp, existing, ps + qs, s, s')
  {
    hide IsStarted;
    forall p | p in ps + qs && p.key !in existing && CountOf(s'.count, HostOf(env, p.key)) < env.limit
      ensures IsStarted(env, inp, p, s, s')
    {
      assert CountOf(s1.count, HostOf(env, p.key)) <= CountOf(s'.count, HostOf(env, p.key));
      StartedStays(env, inp, p, s, s1, s');
    }
  }

  lemma {:induction false} StartedBoth(
    env: Env, inp: Input, existing: set<Key>, ps: seq<Planned>, qs: seq<Planned>, s: State, s1: State, s': State)
    requires Started(env, inp, existing, ps, s, s1) && Started(env, inp, existing, qs, s1, s')
    ensures Started(env, inp, existing, ps + qs, s, s')
  {
    NewBoth(env, inp, existing, ps, qs, s, s1, s');
    TriedBoth(env, inp, existing, ps, qs, s, s1, s');
    hide NewAreOf, AllTried;
  }

  lemma {:induction false} HostStarted(
    env: Env, inp: Input, existing: set<Key>, unwanted: set<Key>, ps: seq<Planned>, h: Host, s: State)
    requires SpawnHost(env, s, inp, existing, unwanted, ps).Ok? && Numbered(s)
    requires forall p :: p in ps ==> HostOf(env, p.key) == h
    ensures Started(env, inp, existing, ps, s, SpawnHost(env, s, inp, existing, unwanted, ps).value)
    decreases |ps|
  {
    hide RequestEnd, Spawn, StartedAs, Wants, KeyOf;
    if ps != [] && CountOf(s.count, HostOf(env, ps[0].key)) < env.limit {
      var p, rest := ps[0], ps[1..];
      assert ps == [p] + rest;
      if p.key in existing {
        HostStarted(env, inp, existing, unwanted, rest, h, s);
        assert Started(env, inp, existing, [p], s, s);
        StartedBoth(env, inp, existing, [p], rest, s, s, SpawnHost(env, s, inp, existing, unwanted, rest).value);
      } else {
        var end := RequestEnd(env, inp, p.start, p.key.slice).value;
        var s1 := Spawn(env, s, Seed(p.key.slice.t, p.key.url), p.start, end).value;
        StartedOne(env, inp, existing, p, s, end, s1);
        HostStarted(env, inp, existing, unwanted, rest, h, s1);
        StartedBoth(env, inp, existing, [p], rest, s, s1, SpawnHost(env, s1, inp, existing, unwanted, rest).value);
      }
    }
  }

  /** The planned requests of these hosts, host by host. */
  function ForHosts(env: Env, picked: seq<Planned>, hosts: seq<Host>): seq<Planned> {
    if hosts == [] then [] else For(env, picked, hosts[0]) + ForHosts(env, picked, hosts[1..])
  }

  lemma {:induction false} ForHostsMember(env: Env, picked: seq<Planned>, hosts: seq<Host>, p: Planned)
    ensures p in ForHosts(env, picked, hosts) <==> p in picked && HostOf(env, p.key) in hosts
  {
    if hosts != [] {
      ForMember(env, picked, hosts[0], p);
      ForHostsMember(env, picked, hosts[1..], p);
      assert hosts == [hosts[0]] + hosts[1..];
    }
  }

  lemma {:induction false} HostsStarted(env: Env, inp: Input, existing: set<Key>, plan: Plan, hosts: seq<Host>, s: State)
    requires SpawnHosts(env, s, inp, existing, plan, hosts).Ok? && Numbered(s)
    ensures Started(env, inp, existing, ForHosts(env, plan.picked, hosts), s,
                    SpawnHosts(env, s, inp, existing, plan, hosts).value)
    decreases |hosts|
  {
    hide StartedAs, For, SpawnHost;
    if hosts != [] {
      var ps := For(env, plan.picked, hosts[0]);
      var s1 := SpawnHost(env, s, inp, existing, plan.unwanted, ps).value;
      forall p | p in ps ensures HostOf(env, p.key) == hosts[0] { ForMember(env, plan.picked, hosts[0], p); }
      HostStarted(env, inp, existing, plan.unwanted, ps, hosts[0], s);
      HostsStarted(env, inp, existing, plan, hosts[1..], s1);
      StartedBoth(env, inp, existing, ps, ForHosts(env, plan.picked, hosts[1..]), s, s1,
                  SpawnHosts(env, s1, inp, existing, plan, hosts[1..]).value);
    }
  }

  /** A request of a live torrent that the plan leaves out is cancelled, and nothing else of a request changes. */
  function AfterPass(r: Request, dropped: bool): Request {
    r.(cancelled := r.cancelled || dropped)
  }

  lemma {:induction false} CancelKeysIs(env: Env, s: State, keys: set<Key>, id: Id)
    requires Keyed(env, s.reqs, s.byKey) && id in s.reqs
    ensures id in CancelKeys(s, keys).reqs
    ensures CancelKeys(s, keys).reqs[id] == AfterPass(s.reqs[id], KeyOf(env, s.reqs[id]) in keys)
  {
    var k := KeyOf(env, s.reqs[id]);
    assert k in s.byKey && s.byKey[k] == id;
  }

  lemma {:induction false} PassPlan(env: Env, s: State, inp: Input) returns (plan: Plan)
    requires EnvOk(env) && Inv(env, s) && InputOk(env, s, inp)
    ensures IsPlan(env, inp, Current(s).Keys, plan) && Update(env, s, inp).Ok?
    ensures Update(env, s, inp) == SpawnHosts(env, CancelKeys(s, plan.unwanted), inp, Current(s).Keys, plan, inp.hosts)
  {
    var cs := PassReady(env, s, inp);
    UpdateOk(env, s, inp);
    PlanReady(env, s, inp, cs, Current(s), Collect(cs, Slices(Current(s).Keys), inp.held));
    plan := MakePlan(env, inp.order, inp.barred, Plan([], Slices(Current(s).Keys), Current(s).Keys)).value;
    hide Inv, InputOk, Comparable, SpawnHosts, MakePlan, Collect, Possible, CancelKeys;
  }

  /** A pass cancels exactly the active requests of live torrents that its plan leaves out. It starts only
      requests planned, from the start planned, and starts each of a host in turn that was not active unless
      the host is at its limit. */
  lemma {:induction false} PassIs(env: Env, s: State, inp: Input) returns (plan: Plan)
    requires EnvOk(env) && Inv(env, s) && InputOk(env, s, inp)
    ensures IsPlan(env, inp, Current(s).Keys, plan) && Update(env, s, inp).Ok?
    ensures forall id :: id in s.reqs ==>
      var r := s.reqs[id];
      && id in Update(env, s, inp).value.reqs
      && Update(env, s, inp).value.reqs[id] == AfterPass(r, r.t in s.live && !PlannedKey(plan, KeyOf(env, r)))
    ensures var s' := Update(env, s, inp).value; forall id :: id in s'.reqs && id !in s.reqs ==>
      exists p :: p in plan.picked && p.key !in Current(s) && StartedAs(env, inp, p, s'.reqs[id])
    ensures var s' := Update(env, s, inp).value;
      forall p :: p in plan.picked && HostOf(env, p.key) in inp.hosts && p.key !in Current(s) ==>
        CountOf(s'.count, HostOf(env, p.key)) >= env.limit || IsStarted(env, inp, p, s, s')
  {
    plan := PassPlan(env, s, inp);
    PlanIs(env, inp, Current(s).Keys, plan);
    var existing, s1 := Current(s).Keys, CancelKeys(s, plan.unwanted);
    HostsStarted(env, inp, existing, plan, inp.hosts, s1);
    forall id | id in s.reqs
      ensures var r := s.reqs[id];
              id in s1.reqs && s1.reqs[id] == AfterPass(r, r.t in s.live && !PlannedKey(plan, KeyOf(env, r)))
    {
      CancelKeysIs(env, s, plan.unwanted, id);
      assert KeyOf(env, s.reqs[id]) in existing <==> s.reqs[id].t in s.live;
    }
    forall p ensures p in ForHosts(env, plan.picked, inp.hosts) <==> p in plan.picked && HostOf(env, p.key) in inp.hosts {
      ForHostsMember(env, plan.picked, inp.hosts, p);
    }
  }

  // ---------- over a run ----------

  /** A request that is still active is the one it was, read no less far and still cancelled if it was; one
      that was not active is new. */
  ghost predicate Persists(s: State, s': State) {
    && (forall id :: id in s.reqs && id in s'.reqs ==>
          && s'.reqs[id].t == s.reqs[id].t && s'.reqs[id].url == s.reqs[id].url
          && s'.reqs[id].begin == s.reqs[id].begin && s'.reqs[id].end == s.reqs[id].end
          && s.reqs[id].next <= s'.reqs[id].next && (s.reqs[id].cancelled ==> s'.reqs[id].cancelled))
    && (forall id :: id in s'.reqs && id !in s.reqs ==> id >= s.nextId)
    && s.nextId <= s'.nextId
  }

  /** Which requests are active after a step other than a pass, and how they are. */
  ghost predicate Moves(s: State, op: Op, s': State) {
    && (forall id :: id in s'.reqs <==> id in s.reqs && op != Remove(id))
    && (forall id :: id in s'.reqs ==>
          && s'.reqs[id].next == (if op.Read? && op.id == id then op.next else s.reqs[id].next)
          && (s'.reqs[id].cancelled <==> s.reqs[id].cancelled || op == Cancel(id)))
    && (forall t :: t in s'.live <==> op == Add(t) || (t in s.live && op != Drop(t)))
  }

  lemma {:induction false} StepMoves(env: Env, s: State, op: Op)
    requires EnvOk(env) && Inv(env, s) && Allowed(env, s, op) && !op.Pass?
    ensures Step(env, s, op).Ok? && Persists(s, Step(env, s, op).value) && Moves(s, op, Step(env, s, op).value)
  {
    hide Inv, Delete, EnvOk, Allowed, Persists, Moves;
    match op
    case Remove(id) => RemoveStep(env, s, id);
    case Read(_, _) => MarkStep(env, s, op);
    case Cancel(_) => MarkStep(env, s, op);
    case _ => LiveMoves(env, s, op);
  }

  lemma {:induction false} RemoveStep(env: Env, s: State, id: Id)
    requires Inv(env, s) && Allowed(env, s, Remove(id))
    ensures Delete(env, s, id).Ok? && Persists(s, Delete(env, s, id).value) && Moves(s, Remove(id), Delete(env, s, id).value)
  {
    DeleteOk(env, s, id);
    hide Inv, Delete, Persists, Moves;
    RemoveMoves(s, id, Delete(env, s, id).value);
  }

  lemma {:induction false} MarkStep(env: Env, s: State, op: Op)
    requires Allowed(env, s, op) && (op.Read? || op.Cancel?)
    ensures Step(env, s, op).Ok? && Persists(s, Step(env, s, op).value) && Moves(s, op, Step(env, s, op).value)
  {
    hide Persists, Moves;
    if op.Read? {
      MarkMoves(s, op, op.id, s.reqs[op.id].(next := op.next));
    } else {
      MarkMoves(s, op, op.id, s.reqs[op.id].(cancelled := true));
    }
  }

  lemma {:induction false} LiveMoves(env: Env, s: State, op: Op)
    requires op.Add? || op.Drop?
    ensures Step(env, s, op).Ok? && Persists(s, Step(env, s, op).value) && Moves(s, op, Step(env, s, op).value)
  {
  }

  lemma {:induction false} RemoveMoves(s: State, id: Id, s': State)
    requires id in s.reqs && s'.live == s.live && s'.nextId == s.nextId && s'.reqs.Keys == s.reqs.Keys - {id}
    requires forall i :: i in s.reqs && i != id ==> s'.reqs[i] == s.reqs[i]
    ensures Persists(s, s') && Moves(s, Remove(id), s')
  {
  }

  lemma {:induction false} MarkMoves(s: State, op: Op, id: Id, r: Request)
    requires id in s.reqs && (op == Read(id, r.next) || op == Cancel(id)) && s.reqs[id].next <= r.next
    requires r == s.reqs[id].(next := r.next, cancelled := s.reqs[id].cancelled || op.Cancel?)
    requires op.Cancel? ==> r.next == s.reqs[id].next
    ensures Persists(s, s.(reqs := s.reqs[id := r])) && Moves(s, op, s.(reqs := s.reqs[id := r]))
  {
  }

  lemma {:induction false} CancelPersists(s: State, keys: set<Key>)
    ensures Persists(s, CancelKeys(s, keys)) && CancelKeys(s, keys).nextId == s.nextId
  {
  }

  lemma {:induction false} StartedPersists(env: Env, inp: Input, existing: set<Key>, ps: seq<Planned>, s: State, s': State)
    requires Started(env, inp, existing, ps, s, s')
    ensures Persists(s, s')
  {
    hide NewAreOf, AllTried;
  }

  lemma {:induction false} PassPersists(env: Env, s: State, inp: Input)
    requires EnvOk(env) && Inv(env, s) && InputOk(env, s, inp)
    ensures Update(env, s, inp).Ok? && Persists(s, Update(env, s, inp).value)
  {
    var plan := PassPlan(env, s, inp);
    assert Numbered(s);
    hide Inv, InputOk, EnvOk, Update, SpawnHosts, Persists, Started, IsPlan, Current;
    var s1, s' := CancelKeys(s, plan.unwanted), Update(env, s, inp).value;
    HostsStarted(env, inp, Current(s).Keys, plan, inp.hosts, s1);
    hide CancelKeys;
    CancelPersists(s, plan.unwanted);
    StartedPersists(env, inp, Current(s).Keys, ForHosts(env, plan.picked, inp.hosts), s1, s');
    PersistsOn(s, s1, s');
  }

  lemma {:induction false} PersistsOn(s: State, s1: State, s2: State)
    requires Persists(s, s1) && Persists(s1, s2) && Numbered(s)
    ensures Persists(s, s2)
  {
    forall id | id in s.reqs && id in s2.reqs ensures id in s1.reqs { }
  }

  /** Over every run an active request keeps its torrent, webseed and range, its reading only goes on, and a
      cancelled one stays cancelled; a removed one does not come back. */
  lemma {:induction false} RunPersists(env: Env, s: State, ops: seq<Op>)
    requires EnvOk(env) && Inv(env, s) && IsRun(env, s, ops)
    ensures Run(env, s, ops).Ok? && Persists(s, Run(env, s, ops).value)
    decreases |ops|
  {
    if ops != [] {
      StepOk(env, s, ops[0]);
      var s1 := Step(env, s, ops[0]).value;
      if ops[0].Pass? { PassPersists(env, s, ops[0].inp); } else { StepMoves(env, s, ops[0]); }
      RunPersists(env, s1, ops[1..]);
      PersistsOn(s, s1, Run(env, s1, ops[1..]).value);
    }
  }
}
