/** The client object that plans and tracks webseed requests, each method proved against the
    function it computes (webseed-requesting.go, webseed-peer.go). A panic is an assertion. */
module WebseedClient {
  import opened Outcomes
  import opened Webseed
  import opened WebseedRuns

  /** firstCleanChunk, as the index of a request. */
  method FirstCleanRequest(env: Env, dirty: set<(Torrent, nat)>, t: Torrent, piece: nat) returns (first: Option<nat>)
    ensures first == FirstClean(dirty, t, PieceBegin(env, t, piece), PieceMaxEnd(env, t, piece))
  {
    var next, end := PieceBegin(env, t, piece), PieceMaxEnd(env, t, piece);
    while next < end
      invariant FirstClean(dirty, t, next, end) == FirstClean(dirty, t, PieceBegin(env, t, piece), end)
    {
      if (t, next) !in dirty { return Some(next); }
      next := next + 1;
    }
    first := None;
  }

  /** The possible requests of a piece, in iterPossibleWebseedRequests. */
  method OfferPiece(env: Env, ghost s: State, inp: Input, item: Item) returns (cs: seq<Candidate>)
    requires EnvOk(env) && ItemOk(env, s, item)
    ensures Ok(cs) == Offer(env, inp, item) && CandidatesOk(env, s, inp, cs)
  {
    OfferOk(env, s, inp, item);
    var priority := EffectivePriority(inp, item);
    if priority == 0 { return []; }
    var first := FirstCleanRequest(env, inp.dirty, item.t, item.piece);
    if first.None? { return []; }
    assert first.value < MaxEnd(env, item.t);
    cs := Candidates(item.urls, Slice(item.t, SliceIndex(env, item.t, first.value)), priority, first.value);
  }

  /** iterPossibleWebseedRequests. */
  method IterPossible(env: Env, ghost s: State, inp: Input) returns (cs: seq<Candidate>)
    requires EnvOk(env) && ItemsOk(env, s, inp.items)
    ensures Ok(cs) == Possible(env, inp, inp.items) && CandidatesOk(env, s, inp, cs)
  {
    cs := [];
    var i := 0;
    while i < |inp.items|
      invariant i <= |inp.items| && Ok(cs) == Possible(env, inp, inp.items[..i]) && CandidatesOk(env, s, inp, cs)
    {
      var more := OfferPiece(env, s, inp, inp.items[i]);
      assert inp.items[..i + 1][..i] == inp.items[..i];
      cs, i := cs + more, i + 1;
    }
    assert inp.items[..i] == inp.items;
  }

  /** The fold behind the map of possible requests, taken from the front. */
  method CollectCandidates(cs: seq<Candidate>, taken: set<Slice>, held: set<(Torrent, nat)>)
    returns (apriori: map<Key, Candidate>)
    ensures apriori == Collect(cs, taken, held)
  {
    apriori := map[];
    var i := 0;
    while i < |cs|
      invariant i <= |cs| && apriori == Collect(cs[..i], taken, held)
    {
      var c := cs[i];
      assert cs[..i + 1][..i] == cs[..i];
      i := i + 1;
      if c.key.slice in taken { continue; }
      if c.key in apriori && !Replaces(c, apriori[c.key], held) { continue; }
      apriori := apriori[c.key := c];
    }
    assert cs[..i] == cs;
  }

  /** getWebseedRequestEnd. */
  method GetRequestEnd(env: Env, inp: Input, begin: nat, slice: Slice) returns (end: nat)
    requires EnvOk(env) && Ready(env, inp, begin, slice)
    ensures Ok(end) == RequestEnd(env, inp, begin, slice)
    ensures begin < end <= SliceEnd(env, slice)
    ensures inp.shorten ==> IsWantedRun(env, inp, slice.t, begin, end, SliceEnd(env, slice))
  {
    EndOk(env, inp, begin, slice);
    var chunkEnd := SliceEnd(env, slice);
    if !inp.shorten { return chunkEnd; }
    assert Wants(env, inp, slice.t, begin) == Ok(true);
    end := begin + 1;
    while end < chunkEnd
      invariant end <= chunkEnd
      invariant WantedTo(env, inp, slice.t, end, chunkEnd) == RequestEnd(env, inp, begin, slice)
      decreases chunkEnd - end
    {
      var wants := Wants(env, inp, slice.t, end);
      assert wants.Ok?;
      if !wants.value { break; }
      end := end + 1;
    }
    assert end <= chunkEnd;
  }

  /** The planning loop: pops the elements, holds each host to the limit and each slice to
      one request. */
  method PlanRequests(
    env: Env, order: seq<Elem>, barred: set<Torrent>, plan0: Plan, ghost existing: set<Key>,
    ghost apriori: map<Key, Candidate>)
    returns (plan: Plan)
    requires PlanOk(plan0, existing, apriori)
    requires forall e :: e in order ==> ElemOk(e, existing, apriori, barred)
    ensures Ok(plan) == MakePlan(env, order, barred, plan0) && PlanOk(plan, existing, apriori)
  {
    MakePlanOk(env, order, barred, plan0, existing, apriori);
    plan := plan0;
    var heap := order;
    while heap != []
      invariant MakePlan(env, heap, barred, plan) == MakePlan(env, order, barred, plan0)
      decreases |heap|
    {
      var e := heap[0];
      heap := heap[1..];
      assert e.key.slice.t !in barred && (e.existing || e.priority > 0);
      if |For(env, plan.picked, HostOf(env, e.key))| >= env.limit { continue; }
      if !e.existing && e.key.slice in plan.taken { continue; }
      plan := Plan(plan.picked + [Planned(e.key, e.start)], plan.taken + {e.key.slice}, plan.unwanted - {e.key});
    }
  }

  class Client {
    const env: Env
    var reqs: map<Id, Request>
    var sets: map<Seed, set<Id>>
    var byKey: map<Key, Id>
    var count: map<Host, nat>
    var live: set<Torrent>
    var nextId: Id

    constructor (env: Env)
      ensures this.env == env && Now() == State(map[], map[], map[], map[], {}, 0)
    {
      this.env := env;
      reqs, sets, byKey, count, live, nextId := map[], map[], map[], map[], {}, 0;
    }

    function Now(): State
      reads this
    {
      State(reqs, sets, byKey, count, live, nextId)
    }

    /** spawnRequest. */
    method SpawnRequest(w: Seed, begin: nat, end: nat)
      requires Inv(env, Now()) && CountOf(count, env.host(w.t, w.url)) < env.limit
      requires RangeOk(env, Request(w.t, w.url, begin, begin, end, false))
      requires Slice(w.t, SliceIndex(env, w.t, begin)) !in Occupied(env, reqs)
      modifies this
      ensures Ok(Now()) == old(Spawn(env, Now(), w, begin, end)) && Inv(env, Now())
      ensures Occupied(env, reqs) == old(Occupied(env, reqs)) + {Slice(w.t, SliceIndex(env, w.t, begin))}
    {
      hide Inv, Occupied, RangeOk;
      SpawnOk(env, Now(), w, begin, end);
      ghost var goal := Spawn(env, Now(), w, begin, end).value;
      var r := Request(w.t, w.url, begin, begin, end, false);
      var h := env.host(w.t, w.url);
      assert KeyOf(env, r) !in byKey;
      reqs := reqs[nextId := r];
      sets := sets[w := SetOf(sets, w) + {nextId}];
      assert reqs == goal.reqs && sets == goal.sets;
      byKey := byKey[KeyOf(env, r) := nextId];
      count := count[h := CountOf(count, h) + 1];
      nextId := nextId + 1;
      assert Now() == goal;
    }

    /** deleteActiveRequest. */
    method DeleteActiveRequest(id: Id)
      requires Inv(env, Now()) && id in reqs
      modifies this
      ensures Ok(Now()) == old(Delete(env, Now(), id)) && Inv(env, Now())
    {
      DeleteOk(env, Now(), id);
      var r := reqs[id];
      var w, h := Seed(r.t, r.url), env.host(r.t, r.url);
      assert id in SetOf(sets, w);
      sets := sets[w := SetOf(sets, w) - {id}];
      count := count[h := CountOf(count, h) - 1];
      assert KeyOf(env, r) in byKey;
      byKey := byKey - {KeyOf(env, r)};
      reqs := reqs - {id};
    }

    /** Starts a host's planned requests until the host is at its limit. */
    method SpawnPlanned(inp: Input, existing: set<Key>, unwanted: set<Key>, planned: seq<Planned>)
      requires EnvOk(env) && Inv(env, Now()) && Apart(planned, existing)
      requires forall p :: p in planned ==> CanStart(env, Occupied(env, reqs), inp, existing, unwanted, p)
      modifies this
      ensures Ok(Now()) == old(SpawnHost(env, Now(), inp, existing, unwanted, planned)) && Inv(env, Now())
    {
      hide Inv, Occupied;
      SpawnHostOk(env, Now(), inp, existing, unwanted, planned);
      ghost var goal := SpawnHost(env, Now(), inp, existing, unwanted, planned);
      var ps := planned;
      while ps != []
        invariant SpawnHost(env, Now(), inp, existing, unwanted, ps) == goal
        invariant Inv(env, Now()) && Apart(ps, existing)
        invariant forall p :: p in ps ==> CanStart(env, Occupied(env, reqs), inp, existing, unwanted, p)
        decreases |ps|
      {
        var p := ps[0];
        assert CanStart(env, Occupied(env, reqs), inp, existing, unwanted, p);
        if CountOf(count, HostOf(env, p.key)) >= env.limit { break; }
        ps := ps[1..];
        if p.key in existing {
          assert p.key !in unwanted;
          continue;
        }
        var end := GetRequestEnd(env, inp, p.start, p.key.slice);
        StillCanStart(env, Occupied(env, reqs), Occupied(env, reqs) + {p.key.slice}, inp, existing, unwanted, [p] + ps);
        SpawnRequest(Seed(p.key.slice.t, p.key.url), p.start, end);
      }
    }

    /** updateWebseedRequests. */
    method UpdateWebseedRequests(inp: Input)
      requires EnvOk(env) && Inv(env, Now()) && InputOk(env, Now(), inp)
      modifies this
      ensures Ok(Now()) == old(Update(env, Now(), inp)) && Inv(env, Now())
    {
      ghost var cs0 := PassReady(env, Now(), inp);
      var existing := Current(Now());
      assert IsCurrent(env, Now(), existing);
      var cs := IterPossible(env, Now(), inp);
      var apriori := CollectCandidates(cs, Slices(existing.Keys), inp.held);
      assert forall k :: k in apriori ==> k !in existing;
      ScheduleRequests(inp, cs, existing, apriori);
    }

    /** The second half of updateWebseedRequests: plans, cancels and starts. */
    method ScheduleRequests(inp: Input, ghost cs: seq<Candidate>, existing: map<Key, Id>, apriori: map<Key, Candidate>)
      requires EnvOk(env) && Inv(env, Now()) && CandidatesOk(env, Now(), inp, cs) && existing == Current(Now())
      requires apriori == Collect(cs, Slices(existing.Keys), inp.held) && Comparable(env, inp, inp.order)
      requires forall e :: e in inp.order ==> ElemOk(e, existing.Keys, apriori, inp.barred)
      requires forall i, j :: 0 <= i < j < |inp.hosts| ==> inp.hosts[i] != inp.hosts[j]
      modifies this
      ensures Ok(Now()) == old(Schedule(env, Now(), inp, existing, Slices(existing.Keys))) && Inv(env, Now())
    {
      ghost var goal := Schedule(env, Now(), inp, existing, Slices(existing.Keys));
      PlanReady(env, Now(), inp, cs, existing, apriori);
      var plan := PlanRequests(
        env, inp.order, inp.barred, Plan([], Slices(existing.Keys), existing.Keys), existing.Keys, apriori);
      CancelOk(env, Now(), plan.unwanted);
      reqs := CancelKeys(Now(), plan.unwanted).reqs;
      var hosts := inp.hosts;
      while hosts != []
        invariant SpawnHosts(env, Now(), inp, existing.Keys, plan, hosts) == goal
        invariant Inv(env, Now()) && HostsCanStart(env, Occupied(env, reqs), inp, existing.Keys, plan, hosts)
        decreases |hosts|
      {
        HostOk(env, Now(), inp, existing.Keys, plan, hosts);
        SpawnPlanned(inp, existing.Keys, plan.unwanted, For(env, plan.picked, hosts[0]));
        hosts := hosts[1..];
      }
    }
  }
}
