/** What every step of webseed planning, spawning and removal keeps. */
module WebseedRuns {
  import opened Arithmetic
  import opened ByteOrder
  import opened Outcomes
  import opened Webseed
  import Geometry

  // ---------- the invariant ----------

  /** The client's map holds each active request under its key, and nothing else. */
  ghost predicate Keyed(env: Env, reqs: map<Id, Request>, byKey: map<Key, Id>) {
    && (forall id :: id in reqs ==> KeyOf(env, reqs[id]) in byKey && byKey[KeyOf(env, reqs[id])] == id)
    && (forall k :: k in byKey ==> byKey[k] in reqs && KeyOf(env, reqs[byKey[k]]) == k)
  }

  predicate IsOf(reqs: map<Id, Request>, id: Id, w: Seed) {
    id in reqs && reqs[id].t == w.t && reqs[id].url == w.url
  }

  /** Each webseed's set is its active requests. */
  ghost predicate Listed(reqs: map<Id, Request>, sets: map<Seed, set<Id>>) {
    forall w, id :: id in SetOf(sets, w) <==> IsOf(reqs, id, w)
  }

  function OfHost(env: Env, reqs: map<Id, Request>, h: Host): set<Id> {
    set id | id in reqs && env.host(reqs[id].t, reqs[id].url) == h
  }

  /** Each host's counter is its active requests, within the limit. */
  ghost predicate Counted(env: Env, reqs: map<Id, Request>, count: map<Host, nat>) {
    forall h :: CountOf(count, h) == |OfHost(env, reqs, h)| && CountOf(count, h) <= env.limit
  }

  /** A slice has one active request at most, whichever webseed it is from. */
  ghost predicate Alone(env: Env, reqs: map<Id, Request>) {
    forall i, j :: i in reqs && j in reqs && SliceOf(env, reqs[i]) == SliceOf(env, reqs[j]) ==> i == j
  }

  predicate RangeOk(env: Env, r: Request) {
    r.begin <= r.next <= r.end && r.begin < r.end <= SliceEnd(env, SliceOf(env, r))
  }

  ghost predicate Ranged(env: Env, reqs: map<Id, Request>, nextId: Id) {
    forall id :: id in reqs ==> RangeOk(env, reqs[id]) && id < nextId
  }

  /** The client has one torrent of an infohash. */
  ghost predicate Distinct(env: Env, live: set<Torrent>) {
    forall t, u :: t in live && u in live && env.infohash(t) == env.infohash(u) ==> t == u
  }

  ghost predicate Inv(env: Env, s: State) {
    && Keyed(env, s.reqs, s.byKey) && Listed(s.reqs, s.sets) && Counted(env, s.reqs, s.count)
    && Alone(env, s.reqs) && Ranged(env, s.reqs, s.nextId) && Distinct(env, s.live)
  }

  function Occupied(env: Env, reqs: map<Id, Request>): set<Slice> {
    set id | id in reqs :: SliceOf(env, reqs[id])
  }

  /** Ranges that stay in the slices they begin in do not meet when the slices differ. */
  lemma {:induction false} SlicesApart(per: nat, a: nat, b: nat, begin: nat, end: nat, begin': nat, end': nat)
    requires per > 0 && a == begin / per && b == begin' / per && a != b
    requires end <= (a + 1) * per && end' <= (b + 1) * per
    ensures end <= begin' || end' <= begin
  {
    assert a * per <= begin && b * per <= begin';
    if a < b { MulMono(a + 1, b, per, per); } else { MulMono(b + 1, a, per, per); }
  }

  /** The ranges of a torrent's active requests are pairwise disjoint. */
  lemma {:induction false} RangesDisjoint(env: Env, reqs: map<Id, Request>, nextId: Id, i: Id, j: Id)
    requires EnvOk(env) && Alone(env, reqs) && Ranged(env, reqs, nextId)
    requires i in reqs && j in reqs && i != j && reqs[i].t == reqs[j].t
    ensures reqs[i].end <= reqs[j].begin || reqs[j].end <= reqs[i].begin
  {
    var p, q := reqs[i], reqs[j];
    var a, b := SliceIndex(env, p.t, p.begin), SliceIndex(env, q.t, q.begin);
    assert SliceOf(env, p) != SliceOf(env, q);
    assert RangeOk(env, p) && RangeOk(env, q);
    SlicesApart(PerSlice(env, p.t), a, b, p.begin, p.end, q.begin, q.end);
  }

  // ---------- one request more ----------

  lemma {:induction false} KeyedPut(env: Env, reqs: map<Id, Request>, byKey: map<Key, Id>, id: Id, r: Request)
    requires Keyed(env, reqs, byKey) && id !in reqs && KeyOf(env, r) !in byKey
    ensures Keyed(env, reqs[id := r], byKey[KeyOf(env, r) := id])
  {
  }

  lemma {:induction false} ListedPut(reqs: map<Id, Request>, sets: map<Seed, set<Id>>, id: Id, r: Request)
    requires Listed(reqs, sets) && id !in reqs
    ensures var w := Seed(r.t, r.url); Listed(reqs[id := r], sets[w := SetOf(sets, w) + {id}])
  {
    var w, reqs' := Seed(r.t, r.url), reqs[id := r];
    var sets' := sets[w := SetOf(sets, w) + {id}];
    forall w', id' ensures id' in SetOf(sets', w') <==> IsOf(reqs', id', w') {
      assert id' in SetOf(sets, w') <==> IsOf(reqs, id', w');
    }
  }

  lemma {:induction false} OfHostPut(env: Env, reqs: map<Id, Request>, id: Id, r: Request, h: Host)
    requires id !in reqs
    ensures OfHost(env, reqs[id := r], h) == OfHost(env, reqs, h) + if env.host(r.t, r.url) == h then {id} else {}
  {
  }

  lemma {:induction false} CountedPut(env: Env, reqs: map<Id, Request>, count: map<Host, nat>, id: Id, r: Request)
    requires Counted(env, reqs, count) && id !in reqs && CountOf(count, env.host(r.t, r.url)) < env.limit
    ensures var h := env.host(r.t, r.url); Counted(env, reqs[id := r], count[h := CountOf(count, h) + 1])
  {
    var h, reqs' := env.host(r.t, r.url), reqs[id := r];
    var count' := count[h := CountOf(count, h) + 1];
    forall h' ensures CountOf(count', h') == |OfHost(env, reqs', h')| && CountOf(count', h') <= env.limit {
      assert CountOf(count, h') == |OfHost(env, reqs, h')|;
      OfHostPut(env, reqs, id, r, h');
      assert id !in OfHost(env, reqs, h');
    }
  }

  lemma {:induction false} RangedPut(env: Env, reqs: map<Id, Request>, nextId: Id, r: Request)
    requires Ranged(env, reqs, nextId) && RangeOk(env, r)
    ensures Ranged(env, reqs[nextId := r], nextId + 1)
  {
  }

  lemma {:induction false} AlonePut(env: Env, reqs: map<Id, Request>, id: Id, r: Request)
    requires Alone(env, reqs) && id !in reqs && SliceOf(env, r) !in Occupied(env, reqs)
    ensures Alone(env, reqs[id := r])
  {
  }

  lemma {:induction false} KeyFree(env: Env, reqs: map<Id, Request>, byKey: map<Key, Id>, r: Request)
    requires Keyed(env, reqs, byKey) && SliceOf(env, r) !in Occupied(env, reqs)
    ensures KeyOf(env, r) !in byKey
  {
  }

  /** The webseed slice of a new request is free, so are its key and id. */
  lemma {:induction false} SpawnOk(env: Env, s: State, w: Seed, begin: nat, end: nat)
    requires Inv(env, s) && CountOf(s.count, env.host(w.t, w.url)) < env.limit
    requires RangeOk(env, Request(w.t, w.url, begin, begin, end, false))
    requires Slice(w.t, SliceIndex(env, w.t, begin)) !in Occupied(env, s.reqs)
    ensures var s' := Spawn(env, s, w, begin, end);
            && s'.Ok? && Inv(env, s'.value) && s'.value.live == s.live
            && s'.value.reqs == s.reqs[s.nextId := Request(w.t, w.url, begin, begin, end, false)] && s.nextId !in s.reqs
            && Occupied(env, s'.value.reqs) == Occupied(env, s.reqs) + {Slice(w.t, SliceIndex(env, w.t, begin))}
  {
    var r := Request(w.t, w.url, begin, begin, end, false);
    assert KeyOf(env, r) !in s.byKey by { KeyFree(env, s.reqs, s.byKey, r); }
    KeyedPut(env, s.reqs, s.byKey, s.nextId, r);
    ListedPut(s.reqs, s.sets, s.nextId, r);
    CountedPut(env, s.reqs, s.count, s.nextId, r);
    AlonePut(env, s.reqs, s.nextId, r);
    RangedPut(env, s.reqs, s.nextId, r);
    OccupiedPut(env, s.reqs, s.nextId, r);
  }

  lemma {:induction false} OccupiedPut(env: Env, reqs: map<Id, Request>, id: Id, r: Request)
    requires id !in reqs
    ensures Occupied(env, reqs[id := r]) == Occupied(env, reqs) + {SliceOf(env, r)}
  {
    var reqs' := reqs[id := r];
    assert id in reqs';
    forall i | i in reqs ensures SliceOf(env, reqs[i]) in Occupied(env, reqs') { assert i in reqs'; }
  }

  // ---------- one request less ----------

  lemma {:induction false} CountedDrop(env: Env, reqs: map<Id, Request>, count: map<Host, nat>, id: Id)
    requires Counted(env, reqs, count) && id in reqs
    ensures var h := env.host(reqs[id].t, reqs[id].url);
            CountOf(count, h) > 0 && Counted(env, reqs - {id}, count[h := CountOf(count, h) - 1])
  {
    var h, reqs' := env.host(reqs[id].t, reqs[id].url), reqs - {id};
    assert id in OfHost(env, reqs, h) && CountOf(count, h) == |OfHost(env, reqs, h)|;
    var count' := count[h := CountOf(count, h) - 1];
    forall h' ensures CountOf(count', h') == |OfHost(env, reqs', h')| && CountOf(count', h') <= env.limit {
      assert CountOf(count, h') == |OfHost(env, reqs, h')| && CountOf(count, h') <= env.limit;
      assert OfHost(env, reqs', h') == OfHost(env, reqs, h') - if h' == h then {id} else {};
    }
  }

  lemma {:induction false} ListedDrop(reqs: map<Id, Request>, sets: map<Seed, set<Id>>, id: Id)
    requires Listed(reqs, sets) && id in reqs
    ensures var w := Seed(reqs[id].t, reqs[id].url);
            id in SetOf(sets, w) && Listed(reqs - {id}, sets[w := SetOf(sets, w) - {id}])
  {
    var w, reqs' := Seed(reqs[id].t, reqs[id].url), reqs - {id};
    var sets' := sets[w := SetOf(sets, w) - {id}];
    assert IsOf(reqs, id, w);
    forall w', id' ensures id' in SetOf(sets', w') <==> IsOf(reqs', id', w') {
      assert id' in SetOf(sets, w') <==> IsOf(reqs, id', w');
    }
  }

  /** Removing an active request finds it in its set and its key in the map, and the counter
      above zero. */
  lemma {:induction false} DeleteOk(env: Env, s: State, id: Id)
    requires Inv(env, s) && id in s.reqs
    ensures var s' := Delete(env, s, id);
            && s'.Ok? && Inv(env, s'.value) && s'.value.live == s.live && s'.value.nextId == s.nextId
            && s'.value.reqs.Keys == s.reqs.Keys - {id}
            && forall i :: i in s.reqs && i != id ==> s'.value.reqs[i] == s.reqs[i]
  {
    CountedDrop(env, s.reqs, s.count, id);
    ListedDrop(s.reqs, s.sets, id);
    KeyedDrop(env, s.reqs, s.byKey, id);
  }

  lemma {:induction false} KeyedDrop(env: Env, reqs: map<Id, Request>, byKey: map<Key, Id>, id: Id)
    requires Keyed(env, reqs, byKey) && id in reqs
    ensures KeyOf(env, reqs[id]) in byKey && Keyed(env, reqs - {id}, byKey - {KeyOf(env, reqs[id])})
  {
  }

  // ---------- planning ----------

  /** The client's map and the webseeds' sets give the same live requests, so the check at
      the start of a planning pass never fails. */
  lemma {:induction false} CurrentAgrees(env: Env, s: State)
    requires Keyed(env, s.reqs, s.byKey) && Listed(s.reqs, s.sets)
    ensures IsCurrent(env, s, Current(s))
  {
    var m := Current(s);
    forall k | k in m ensures k.slice.t in s.live && InSet(env, s, k, m[k]) {
      assert IsOf(s.reqs, m[k], Seed(k.slice.t, k.url));
    }
  }

  /** A possible request chosen is one of those offered, for a slice nobody is fetching. */
  lemma {:induction false} CollectOk(cs: seq<Candidate>, taken: set<Slice>, held: set<(Torrent, nat)>, k: Key)
    requires k in Collect(cs, taken, held)
    ensures var c := Collect(cs, taken, held)[k]; c in cs && c.key == k && k.slice !in taken
  {
    var rest := cs[..|cs| - 1];
    if k in Collect(rest, taken, held) { CollectOk(rest, taken, held, k); }
  }

  /** A planned request is one of the existing, still wanted, or a possible one of a slice
      the plan has taken. */
  predicate PickOk(p: Planned, plan: Plan, existing: set<Key>, apriori: map<Key, Candidate>) {
    if p.key in existing then p.key !in plan.unwanted
    else p.key in apriori && p.start == apriori[p.key].start && p.key.slice in plan.taken
  }

  /** The new requests among those planned are of different slices. */
  ghost predicate Apart(ps: seq<Planned>, existing: set<Key>) {
    forall i, j :: 0 <= i < j < |ps| && ps[i].key !in existing && ps[j].key !in existing ==>
      ps[i].key.slice != ps[j].key.slice
  }

  ghost predicate PlanOk(plan: Plan, existing: set<Key>, apriori: map<Key, Candidate>) {
    && (forall p :: p in plan.picked ==> PickOk(p, plan, existing, apriori))
    && Apart(plan.picked, existing)
  }

  lemma {:induction false} PlanAdds(plan: Plan, existing: set<Key>, apriori: map<Key, Candidate>, e: Elem)
    requires PlanOk(plan, existing, apriori) && (e.existing <==> e.key in existing)
    requires !e.existing ==> e.key in apriori && e.start == apriori[e.key].start && e.key.slice !in plan.taken
    ensures PlanOk(Plan(plan.picked + [Planned(e.key, e.start)], plan.taken + {e.key.slice}, plan.unwanted - {e.key}),
                   existing, apriori)
  {
    var p := Planned(e.key, e.start);
    var plan' := Plan(plan.picked + [p], plan.taken + {e.key.slice}, plan.unwanted - {e.key});
    forall q | q in plan'.picked ensures PickOk(q, plan', existing, apriori) {
      if q in plan.picked { assert PickOk(q, plan, existing, apriori); }
    }
    forall i | 0 <= i < |plan.picked| && plan.picked[i].key !in existing && !e.existing
      ensures plan.picked[i].key.slice != e.key.slice
    {
      assert plan.picked[i] in plan.picked;
      assert PickOk(plan.picked[i], plan, existing, apriori);
    }
  }

  lemma {:induction false} MakePlanOk(
    env: Env, order: seq<Elem>, barred: set<Torrent>, plan: Plan, existing: set<Key>, apriori: map<Key, Candidate>)
    requires PlanOk(plan, existing, apriori)
    requires forall e :: e in order ==> ElemOk(e, existing, apriori, barred)
    ensures var plan' := MakePlan(env, order, barred, plan); plan'.Ok? && PlanOk(plan'.value, existing, apriori)
    decreases |order|
  {
    if order != [] {
      var e := order[0];
      assert ElemOk(e, existing, apriori, barred);
      if |For(env, plan.picked, HostOf(env, e.key))| >= env.limit || (!e.existing && e.key.slice in plan.taken) {
        MakePlanOk(env, order[1..], barred, plan, existing, apriori);
      } else {
        PlanAdds(plan, existing, apriori, e);
        MakePlanOk(env, order[1..], barred,
                   Plan(plan.picked + [Planned(e.key, e.start)], plan.taken + {e.key.slice}, plan.unwanted - {e.key}),
                   existing, apriori);
      }
    }
  }

  predicate ElemOk(e: Elem, existing: set<Key>, apriori: map<Key, Candidate>, barred: set<Torrent>) {
    && (e.existing <==> e.key in existing) && e.key.slice.t !in barred
    && (!e.existing ==> e.key in apriori && e.start == apriori[e.key].start && e.priority > 0)
  }

  // ---------- starting the planned requests ----------

  /** A chunk of a piece that may be requested, and not received yet. */
  predicate Wanted(env: Env, inp: Input, t: Torrent, ri: nat) {
    var g := env.geo(t);
    && g.Valid() && g.ChunksPerRegularPiece() > 0 && g.ValidIndex(ri)
    && !Ignored(inp, t, ri / g.ChunksPerRegularPiece()) && (t, ri) !in inp.dirty
  }

  predicate Ready(env: Env, inp: Input, begin: nat, slice: Slice) {
    && Wanted(env, inp, slice.t, begin) && begin < MaxEnd(env, slice.t)
    && slice.index == SliceIndex(env, slice.t, begin)
  }

  /** An index below the torrent's end is a request, so it can be asked for. */
  lemma {:induction false} WantsOk(env: Env, inp: Input, t: Torrent, ri: nat)
    requires EnvOk(env) && ri < MaxEnd(env, t)
    ensures Wants(env, inp, t, ri) == Ok(Wanted(env, inp, t, ri))
  {
    var g := env.geo(t);
    assert g.Valid();
    Geometry.BelowMaxEndValid(g, ri);
    Geometry.IndexRoundTrip(g, ri);
  }

  /** The run of wanted requests: all of it wanted, and not what follows. */
  ghost predicate IsWantedRun(env: Env, inp: Input, t: Torrent, begin: nat, end: nat, chunkEnd: nat) {
    && begin <= end <= chunkEnd
    && (forall r :: begin <= r < end ==> Wanted(env, inp, t, r))
    && (end < chunkEnd ==> !Wanted(env, inp, t, end))
  }

  lemma {:induction false} WantedToOk(env: Env, inp: Input, t: Torrent, begin: nat, chunkEnd: nat)
    requires EnvOk(env) && begin <= chunkEnd <= MaxEnd(env, t)
    ensures var end := WantedTo(env, inp, t, begin, chunkEnd);
            end.Ok? && IsWantedRun(env, inp, t, begin, end.value, chunkEnd)
    decreases chunkEnd - begin
  {
    if begin < chunkEnd {
      WantsOk(env, inp, t, begin);
      if Wanted(env, inp, t, begin) { WantedToOk(env, inp, t, begin + 1, chunkEnd); }
    }
  }

  lemma {:induction false} BelowSliceEnd(r: nat, per: nat)
    requires per > 0
    ensures r / per * per <= r < (r / per + 1) * per
  {
    assert r == r / per * per + r % per;
    assert (r / per + 1) * per == r / per * per + per;
  }

  /** A request that is ready gets a range within its slice: the whole rest of the slice, or the
      longest run of wanted chunks. */
  lemma {:induction false} EndOk(env: Env, inp: Input, begin: nat, slice: Slice)
    requires EnvOk(env) && Ready(env, inp, begin, slice)
    ensures var end, last := RequestEnd(env, inp, begin, slice), SliceEnd(env, slice);
            && end.Ok? && begin < end.value <= last
            && (if inp.shorten then IsWantedRun(env, inp, slice.t, begin, end.value, last) else end.value == last)
  {
    var last := SliceEnd(env, slice);
    assert begin + 1 <= last <= MaxEnd(env, slice.t) by { BelowSliceEnd(begin, PerSlice(env, slice.t)); }
    WantsOk(env, inp, slice.t, begin);
    if inp.shorten { WantedToOk(env, inp, slice.t, begin + 1, last); }
  }

  // ---------- the possible requests ----------

  /** What the possible requests are: of live torrents free to download, of some priority,
      starting at a wanted request of the slice. */
  ghost predicate CandidatesOk(env: Env, s: State, inp: Input, cs: seq<Candidate>) {
    forall i :: 0 <= i < |cs| ==> CandidateOk(env, s, inp, cs[i])
  }

  predicate CandidateOk(env: Env, s: State, inp: Input, c: Candidate) {
    c.key.slice.t in s.live && c.key.slice.t !in inp.barred && c.priority > 0 && Ready(env, inp, c.start, c.key.slice)
  }

  /** An index in a piece's range is the piece's. */
  lemma {:induction false} InPiece(g: Geometry.Torrent, piece: nat, ri: nat)
    requires g.Valid() && g.ChunksPerRegularPiece() > 0
    requires piece * g.ChunksPerRegularPiece() <= ri < (piece + 1) * g.ChunksPerRegularPiece()
    ensures ri / g.ChunksPerRegularPiece() == piece
  {
    var per := g.ChunksPerRegularPiece();
    assert (piece + 1) * per == piece * per + per;
    DivModUnique(ri, per, piece, ri - piece * per);
  }

  /** The first chunk a piece still misses is before the torrent's end, whatever its lengths, and
      can be requested if the piece can. */
  lemma {:induction false} FirstCleanReady(env: Env, inp: Input, t: Torrent, piece: nat, first: nat)
    requires EnvOk(env) && !Ignored(inp, t, piece)
    requires FirstClean(inp.dirty, t, PieceBegin(env, t, piece), PieceMaxEnd(env, t, piece)) == Some(first)
    ensures Ready(env, inp, first, Slice(t, SliceIndex(env, t, first)))
  {
    var g := env.geo(t);
    assert g.Valid();
    Geometry.BelowMaxEndValid(g, first);
    Geometry.CeilDivBounds(g.pieceLength, g.chunkSize);
    InPiece(g, piece, first);
  }

  /** No piece is offered from past the torrent's end. */
  lemma {:induction false} OfferOk(env: Env, s: State, inp: Input, item: Item)
    requires EnvOk(env) && ItemOk(env, s, item)
    ensures var cs := Offer(env, inp, item); cs.Ok? && CandidatesOk(env, s, inp, cs.value)
  {
    var first := FirstClean(inp.dirty, item.t, PieceBegin(env, item.t, item.piece), PieceMaxEnd(env, item.t, item.piece));
    if EffectivePriority(inp, item) > 0 && first.Some? {
      FirstCleanReady(env, inp, item.t, item.piece, first.value);
    }
  }

  /** A piece that begins where maxEndRequest is, 75 of 100 pieces of 24 KiB in chunks of 16 KiB: it
      has no first chunk to offer, so the panic past the end is not reached. */
  lemma {:induction false} LatePieceSkipped(env: Env, inp: Input, item: Item)
    requires env.geo(item.t) == Geometry.Torrent(2457600, 24576, 16384) && item.piece == 75
    ensures PieceBegin(env, item.t, 75) == 150 == MaxEnd(env, item.t)
    ensures Offer(env, inp, item) == Ok([])
  {
    assert env.geo(item.t).ChunksPerRegularPiece() == 2;
  }

  lemma {:induction false} PossibleOk(env: Env, s: State, inp: Input, items: seq<Item>)
    requires EnvOk(env) && ItemsOk(env, s, items)
    ensures var cs := Possible(env, inp, items); cs.Ok? && CandidatesOk(env, s, inp, cs.value)
  {
    if items != [] {
      PossibleOk(env, s, inp, items[..|items| - 1]);
      OfferOk(env, s, inp, items[|items| - 1]);
    }
  }

  /** Some chunks received leave this one the first to be offered. */
  ghost predicate CanBeOffered(env: Env, t: Torrent, piece: nat, ri: nat) {
    exists dirty: set<(Torrent, nat)> ::
      FirstClean(dirty, t, PieceBegin(env, t, piece), PieceMaxEnd(env, t, piece)) == Some(ri)
  }

  lemma {:induction false} FirstCleanIs(dirty: set<(Torrent, nat)>, t: Torrent, next: nat, end: nat, ri: nat)
    requires next <= ri < end && (t, ri) !in dirty && forall r :: next <= r < ri ==> (t, r) in dirty
    ensures FirstClean(dirty, t, next, end) == Some(ri)
  {
  }

  lemma {:induction false} OfferFirst(t: Torrent, next: nat, end: nat, ri: nat)
    requires next <= ri < end
    ensures exists dirty: set<(Torrent, nat)> :: FirstClean(dirty, t, next, end) == Some(ri)
  {
    FirstCleanIs(set r | 0 <= r < ri :: (t, r), t, next, end, ri);
  }

  /** A chunk of a piece can be offered to the webseeds exactly when its index is below
      maxEndRequest. */
  lemma {:induction false} OfferedExactly(env: Env, t: Torrent, piece: nat, ri: nat)
    requires PieceBegin(env, t, piece) <= ri < PieceBegin(env, t, piece + 1)
    ensures CanBeOffered(env, t, piece, ri) <==> ri < MaxEnd(env, t)
  {
    if ri < MaxEnd(env, t) {
      OfferFirst(t, PieceBegin(env, t, piece), PieceMaxEnd(env, t, piece), ri);
    }
  }

  /** So every chunk of a torrent can be, exactly when maxEndRequest is where its indexes end. */
  lemma {:induction false} AllOffered(env: Env, t: Torrent)
    requires EnvOk(env) && env.geo(t).Valid() && env.geo(t).ChunksPerRegularPiece() > 0 && env.geo(t).NumPieces() > 0
    ensures (forall ri: nat :: env.geo(t).ValidIndex(ri) ==>
               CanBeOffered(env, t, ri / env.geo(t).ChunksPerRegularPiece(), ri))
            <==> env.geo(t).MaxEnd() == Geometry.IndexEnd(env.geo(t))
  {
    var g := env.geo(t);
    forall ri: nat | g.ValidIndex(ri)
      ensures CanBeOffered(env, t, ri / g.ChunksPerRegularPiece(), ri) <==> ri < g.MaxEnd()
    {
      BelowSliceEnd(ri, g.ChunksPerRegularPiece());
      OfferedExactly(env, t, ri / g.ChunksPerRegularPiece(), ri);
    }
    Geometry.MaxEndExact(g);
  }

  // ---------- starting ----------

  function NewSlices(ps: seq<Planned>, existing: set<Key>): set<Slice> {
    set p | p in ps && p.key !in existing :: p.key.slice
  }

  /** A planned request can be started, or left as it is. */
  predicate CanStart(env: Env, occupied: set<Slice>, inp: Input, existing: set<Key>, unwanted: set<Key>, p: Planned) {
    if p.key in existing then p.key !in unwanted else Ready(env, inp, p.start, p.key.slice) && p.key.slice !in occupied
  }

  /** Starting a planned request whose slice is free. */
  lemma {:induction false} StartOk(env: Env, s: State, inp: Input, p: Planned) returns (s': State)
    requires EnvOk(env) && Inv(env, s) && Ready(env, inp, p.start, p.key.slice) && p.key.slice !in Occupied(env, s.reqs)
    requires CountOf(s.count, HostOf(env, p.key)) < env.limit
    ensures var end := RequestEnd(env, inp, p.start, p.key.slice);
            end.Ok? && Spawn(env, s, Seed(p.key.slice.t, p.key.url), p.start, end.value) == Ok(s')
    ensures Inv(env, s') && s'.live == s.live && Occupied(env, s'.reqs) == Occupied(env, s.reqs) + {p.key.slice}
  {
    EndOk(env, inp, p.start, p.key.slice);
    var end := RequestEnd(env, inp, p.start, p.key.slice).value;
    var w := Seed(p.key.slice.t, p.key.url);
    SpawnOk(env, s, w, p.start, end);
    s' := Spawn(env, s, w, p.start, end).value;
  }

  lemma {:induction false} SpawnHostOk(
    env: Env, s: State, inp: Input, existing: set<Key>, unwanted: set<Key>, ps: seq<Planned>)
    requires EnvOk(env) && Inv(env, s) && Apart(ps, existing)
    requires forall p :: p in ps ==> CanStart(env, Occupied(env, s.reqs), inp, existing, unwanted, p)
    ensures var s' := SpawnHost(env, s, inp, existing, unwanted, ps);
            && s'.Ok? && Inv(env, s'.value) && s'.value.live == s.live
            && Occupied(env, s'.value.reqs) <= Occupied(env, s.reqs) + NewSlices(ps, existing)
    decreases |ps|
  {
    if ps != [] && CountOf(s.count, HostOf(env, ps[0].key)) < env.limit {
      var p, rest := ps[0], ps[1..];
      assert CanStart(env, Occupied(env, s.reqs), inp, existing, unwanted, p);
      forall q | q in rest ensures q in ps { }
      NewSlicesTail(ps, existing);
      if p.key in existing {
        SpawnHostOk(env, s, inp, existing, unwanted, rest);
      } else {
        var s1 := StartOk(env, s, inp, p);
        StillCanStart(env, Occupied(env, s.reqs), Occupied(env, s1.reqs), inp, existing, unwanted, ps);
        SpawnHostOk(env, s1, inp, existing, unwanted, rest);
      }
    }
  }

  lemma {:induction false} NewSlicesTail(ps: seq<Planned>, existing: set<Key>)
    requires ps != []
    ensures NewSlices(ps[1..], existing) <= NewSlices(ps, existing)
    ensures ps[0].key !in existing ==> ps[0].key.slice in NewSlices(ps, existing)
  {
    assert ps[0] in ps;
    forall p | p in ps[1..] ensures p in ps { }
  }

  /** Starting the first leaves the others' slices free. */
  lemma {:induction false} StillCanStart(
    env: Env, occupied: set<Slice>, occupied': set<Slice>, inp: Input, existing: set<Key>, unwanted: set<Key>,
    ps: seq<Planned>)
    requires ps != [] && Apart(ps, existing) && ps[0].key !in existing
    requires occupied' == occupied + {ps[0].key.slice}
    requires forall p :: p in ps ==> CanStart(env, occupied, inp, existing, unwanted, p)
    ensures forall p :: p in ps[1..] ==> CanStart(env, occupied', inp, existing, unwanted, p)
  {
    forall p | p in ps[1..] ensures CanStart(env, occupied', inp, existing, unwanted, p) {
      var j :| 0 <= j < |ps| - 1 && ps[1..][j] == p;
      assert ps[j + 1] == p && p in ps;
      assert CanStart(env, occupied, inp, existing, unwanted, p);
    }
  }

  lemma {:induction false} ForMember(env: Env, picked: seq<Planned>, h: Host, p: Planned)
    ensures p in For(env, picked, h) <==> p in picked && HostOf(env, p.key) == h
  {
    if picked != [] {
      ForMember(env, picked[1..], h, p);
      assert picked == [picked[0]] + picked[1..];
    }
  }

  lemma {:induction false} ForApart(env: Env, picked: seq<Planned>, h: Host, existing: set<Key>)
    requires Apart(picked, existing)
    ensures Apart(For(env, picked, h), existing)
  {
    if picked != [] {
      var p, rest := picked[0], For(env, picked[1..], h);
      ForApart(env, picked[1..], h, existing);
      forall j | 0 <= j < |rest| && p.key !in existing && rest[j].key !in existing
        ensures p.key.slice != rest[j].key.slice
      {
        ForMember(env, picked[1..], h, rest[j]);
        var k :| 0 <= k < |picked| - 1 && picked[1..][k] == rest[j];
        assert picked[k + 1] == rest[j];
      }
    }
  }

  /** A host's requests take none of the slices of another's. */
  lemma {:induction false} OtherHosts(env: Env, picked: seq<Planned>, h: Host, existing: set<Key>, p: Planned)
    requires Apart(picked, existing) && p in picked && HostOf(env, p.key) != h && p.key !in existing
    ensures p.key.slice !in NewSlices(For(env, picked, h), existing)
  {
    forall q | q in For(env, picked, h) && q.key !in existing ensures q.key.slice != p.key.slice {
      ForMember(env, picked, h, q);
      var i :| 0 <= i < |picked| && picked[i] == p;
      var j :| 0 <= j < |picked| && picked[j] == q;
      assert i != j;
    }
  }

  lemma {:induction false} SpawnHostsOk(
    env: Env, s: State, inp: Input, existing: set<Key>, plan: Plan, hosts: seq<Host>)
    requires EnvOk(env) && Inv(env, s) && HostsCanStart(env, Occupied(env, s.reqs), inp, existing, plan, hosts)
    ensures var s' := SpawnHosts(env, s, inp, existing, plan, hosts);
            s'.Ok? && Inv(env, s'.value) && s'.value.live == s.live
    decreases |hosts|
  {
    if hosts != [] {
      HostOk(env, s, inp, existing, plan, hosts);
      var s1 := SpawnHost(env, s, inp, existing, plan.unwanted, For(env, plan.picked, hosts[0])).value;
      SpawnHostsOk(env, s1, inp, existing, plan, hosts[1..]);
    }
  }

  /** The planned requests of these hosts can be started. */
  ghost predicate HostsCanStart(
    env: Env, occupied: set<Slice>, inp: Input, existing: set<Key>, plan: Plan, hosts: seq<Host>)
  {
    && Apart(plan.picked, existing)
    && (forall i, j :: 0 <= i < j < |hosts| ==> hosts[i] != hosts[j])
    && (forall p :: p in plan.picked && HostOf(env, p.key) in hosts ==>
          CanStart(env, occupied, inp, existing, plan.unwanted, p))
  }

  /** Starting the first host's requests leaves the other hosts' to be started. */
  lemma {:induction false} HostOk(env: Env, s: State, inp: Input, existing: set<Key>, plan: Plan, hosts: seq<Host>)
    requires EnvOk(env) && Inv(env, s) && hosts != []
    requires HostsCanStart(env, Occupied(env, s.reqs), inp, existing, plan, hosts)
    ensures var ps := For(env, plan.picked, hosts[0]);
            && Apart(ps, existing)
            && (forall p :: p in ps ==> CanStart(env, Occupied(env, s.reqs), inp, existing, plan.unwanted, p))
            && (var s' := SpawnHost(env, s, inp, existing, plan.unwanted, ps);
                && s'.Ok? && Inv(env, s'.value) && s'.value.live == s.live
                && HostsCanStart(env, Occupied(env, s'.value.reqs), inp, existing, plan, hosts[1..]))
  {
    var h, ps := hosts[0], For(env, plan.picked, hosts[0]);
    ForApart(env, plan.picked, h, existing);
    forall p | p in ps ensures CanStart(env, Occupied(env, s.reqs), inp, existing, plan.unwanted, p) {
      ForMember(env, plan.picked, h, p);
    }
    SpawnHostOk(env, s, inp, existing, plan.unwanted, ps);
    var s1 := SpawnHost(env, s, inp, existing, plan.unwanted, ps).value;
    forall p | p in plan.picked && HostOf(env, p.key) in hosts[1..]
      ensures CanStart(env, Occupied(env, s1.reqs), inp, existing, plan.unwanted, p)
    {
      assert HostOf(env, p.key) != h;
      assert CanStart(env, Occupied(env, s.reqs), inp, existing, plan.unwanted, p);
      if p.key !in existing { OtherHosts(env, plan.picked, h, existing, p); }
    }
  }

  // ---------- changes that move no request ----------

  /** The same requests, but for how far they are and whether they are cancelled. */
  ghost predicate Alike(reqs: map<Id, Request>, reqs': map<Id, Request>) {
    && reqs'.Keys == reqs.Keys
    && forall id :: id in reqs ==>
         && reqs'[id].t == reqs[id].t && reqs'[id].url == reqs[id].url && reqs'[id].begin == reqs[id].begin
         && reqs'[id].end == reqs[id].end && reqs[id].begin <= reqs'[id].next <= reqs[id].end
  }

  lemma {:induction false} AlikeSlices(env: Env, reqs: map<Id, Request>, reqs': map<Id, Request>)
    requires Alike(reqs, reqs')
    ensures forall id :: id in reqs ==> SliceOf(env, reqs'[id]) == SliceOf(env, reqs[id])
    ensures Occupied(env, reqs') == Occupied(env, reqs)
  {
    forall id | id in reqs ensures SliceOf(env, reqs'[id]) == SliceOf(env, reqs[id]) { }
    forall id | id in reqs ensures SliceOf(env, reqs[id]) in Occupied(env, reqs') { assert id in reqs'; }
  }

  lemma {:induction false} AlikeCounted(env: Env, reqs: map<Id, Request>, reqs': map<Id, Request>, count: map<Host, nat>)
    requires Alike(reqs, reqs') && Counted(env, reqs, count)
    ensures Counted(env, reqs', count)
  {
    forall h ensures OfHost(env, reqs', h) == OfHost(env, reqs, h) { }
  }

  lemma {:induction false} AlikeListed(reqs: map<Id, Request>, reqs': map<Id, Request>, sets: map<Seed, set<Id>>)
    requires Alike(reqs, reqs') && Listed(reqs, sets)
    ensures Listed(reqs', sets)
  {
    forall w, id ensures id in SetOf(sets, w) <==> IsOf(reqs', id, w) {
      assert id in SetOf(sets, w) <==> IsOf(reqs, id, w);
    }
  }

  lemma {:induction false} AlikeKeyed(env: Env, reqs: map<Id, Request>, reqs': map<Id, Request>, byKey: map<Key, Id>)
    requires Alike(reqs, reqs') && Keyed(env, reqs, byKey)
    ensures Keyed(env, reqs', byKey)
  {
    AlikeSlices(env, reqs, reqs');
    forall id | id in reqs ensures KeyOf(env, reqs'[id]) == KeyOf(env, reqs[id]) { }
  }

  lemma {:induction false} AlikeOk(env: Env, s: State, reqs': map<Id, Request>)
    requires Inv(env, s) && Alike(s.reqs, reqs')
    ensures Inv(env, s.(reqs := reqs')) && Occupied(env, reqs') == Occupied(env, s.reqs)
  {
    AlikeSlices(env, s.reqs, reqs');
    AlikeCounted(env, s.reqs, reqs', s.count);
    AlikeListed(s.reqs, reqs', s.sets);
    AlikeKeyed(env, s.reqs, reqs', s.byKey);
  }

  lemma {:induction false} CancelOk(env: Env, s: State, keys: set<Key>)
    requires Inv(env, s)
    ensures var s' := CancelKeys(s, keys);
            Inv(env, s') && s'.live == s.live && Occupied(env, s'.reqs) == Occupied(env, s.reqs)
  {
    forall id | id in s.reqs ensures RangeOk(env, s.reqs[id]) { }
    AlikeOk(env, s, CancelKeys(s, keys).reqs);
  }

  /** The slices of a live torrent's active requests are those of the current requests. */
  lemma {:induction false} OccupiedLive(env: Env, s: State, q: Slice)
    requires Keyed(env, s.reqs, s.byKey) && q.t in s.live && q in Occupied(env, s.reqs)
    ensures q in Slices(Current(s).Keys)
  {
    var id :| id in s.reqs && SliceOf(env, s.reqs[id]) == q;
    assert KeyOf(env, s.reqs[id]) in Current(s);
  }

  /** What a chosen possible request satisfies. */
  lemma {:induction false} ChosenOk(env: Env, s: State, inp: Input, cs: seq<Candidate>, k: Key)
    requires Keyed(env, s.reqs, s.byKey) && CandidatesOk(env, s, inp, cs)
    requires k in Collect(cs, Slices(Current(s).Keys), inp.held)
    ensures var c := Collect(cs, Slices(Current(s).Keys), inp.held)[k];
            && Ready(env, inp, c.start, k.slice) && k.slice.t !in inp.barred && c.priority > 0
            && k.slice !in Occupied(env, s.reqs) && k !in Current(s)
  {
    CollectOk(cs, Slices(Current(s).Keys), inp.held, k);
    var c := Collect(cs, Slices(Current(s).Keys), inp.held)[k];
    assert CandidateOk(env, s, inp, c);
    if k.slice in Occupied(env, s.reqs) { OccupiedLive(env, s, k.slice); }
  }

  lemma {:induction false} ElemsOk(env: Env, s: State, inp: Input, cs: seq<Candidate>, e: Elem)
    requires Keyed(env, s.reqs, s.byKey) && CandidatesOk(env, s, inp, cs) && e in inp.order
    requires Listing(inp.order, Collect(cs, Slices(Current(s).Keys), inp.held), Current(s), inp.barred)
    ensures ElemOk(e, Current(s).Keys, Collect(cs, Slices(Current(s).Keys), inp.held), inp.barred)
  {
    var i :| 0 <= i < |inp.order| && inp.order[i] == e;
    if !e.existing { ChosenOk(env, s, inp, cs, e.key); }
  }

  /** Every planned request can be started once the unwanted are marked cancelled. */
  lemma {:induction false} PickedCanStart(env: Env, s: State, inp: Input, cs: seq<Candidate>, plan: Plan, p: Planned)
    requires Inv(env, s) && CandidatesOk(env, s, inp, cs)
    requires PickOk(p, plan, Current(s).Keys, Collect(cs, Slices(Current(s).Keys), inp.held))
    ensures CanStart(env, Occupied(env, CancelKeys(s, plan.unwanted).reqs), inp, Current(s).Keys, plan.unwanted, p)
  {
    CancelOk(env, s, plan.unwanted);
    if p.key !in Current(s) { ChosenOk(env, s, inp, cs, p.key); }
  }

  /** The plan: what it holds once it is made, and that it can be started. */
  lemma {:induction false} PlanReady(
    env: Env, s: State, inp: Input, cs: seq<Candidate>, existing: map<Key, Id>, apriori: map<Key, Candidate>)
    requires Inv(env, s) && CandidatesOk(env, s, inp, cs) && existing == Current(s)
    requires apriori == Collect(cs, Slices(existing.Keys), inp.held)
    requires forall e :: e in inp.order ==> ElemOk(e, existing.Keys, apriori, inp.barred)
    requires forall i, j :: 0 <= i < j < |inp.hosts| ==> inp.hosts[i] != inp.hosts[j]
    ensures var plan := MakePlan(env, inp.order, inp.barred, Plan([], Slices(existing.Keys), existing.Keys));
            && plan.Ok? && PlanOk(plan.value, existing.Keys, apriori)
            && HostsCanStart(env, Occupied(env, CancelKeys(s, plan.value.unwanted).reqs), inp, existing.Keys, plan.value,
                             inp.hosts)
  {
    var plan0 := Plan([], Slices(existing.Keys), existing.Keys);
    MakePlanOk(env, inp.order, inp.barred, plan0, existing.Keys, apriori);
    var plan := MakePlan(env, inp.order, inp.barred, plan0).value;
    forall p | p in plan.picked
      ensures CanStart(env, Occupied(env, CancelKeys(s, plan.unwanted).reqs), inp, existing.Keys, plan.unwanted, p)
    {
      PickedCanStart(env, s, inp, cs, plan, p);
    }
  }

  // ---------- the planning heap ----------

  /** How a comparison of two with a third goes on: from the first two to the third. */
  predicate Consistent(ab: int, bc: int, ac: int) {
    ab <= 0 && bc <= 0 ==> ac <= 0 && (ac == 0 <==> ab == 0 && bc == 0)
  }

  lemma {:induction false} CmpTextOrders(a: Text, b: Text, c: Text)
    ensures CmpText(a, b) == -CmpText(b, a) && Consistent(CmpText(a, b), CmpText(b, c), CmpText(a, c))
  {
    Trichotomy(a, b);
    Trichotomy(b, c);
    Trichotomy(a, c);
    if Less(a, b) && Less(b, c) { Transitive(a, b, c); }
  }

  /** The heap's order is one: it reverses with its arguments and is transitive. */
  lemma {:induction false} OrderOk(env: Env, inp: Input, a: Elem, b: Elem, c: Elem)
    ensures Order(env, inp, a, b) == -Order(env, inp, b, a)
    ensures Consistent(Order(env, inp, a, b), Order(env, inp, b, c), Order(env, inp, a, c))
  {
    hide Less;
    var t, u, w := a.key.slice.t, b.key.slice.t, c.key.slice.t;
    CmpTextOrders(env.name(t), env.name(u), env.name(w));
    CmpTextOrders(env.infohash(t), env.infohash(u), env.infohash(w));
  }

  /** Two elements compare equal only if they are of one torrent and slice, so two of one url do not. */
  lemma {:induction false} AheadOk(env: Env, inp: Input, live: set<Torrent>, l: Elem, r: Elem)
    requires Distinct(env, live) && l.key.slice.t in live && r.key.slice.t in live && l.key != r.key
    ensures Ahead(env, inp, l, r).Ok?
  {
    hide Less;
  }

  /** The elements listed are of live torrents, each key once, so the heap can compare them. */
  lemma {:induction false} ListingComparable(env: Env, s: State, inp: Input, cs: seq<Candidate>)
    requires Inv(env, s) && CandidatesOk(env, s, inp, cs)
    requires Listing(inp.order, Collect(cs, Slices(Current(s).Keys), inp.held), Current(s), inp.barred)
    ensures Comparable(env, inp, inp.order)
  {
    forall i, j | 0 <= i < |inp.order| && 0 <= j < |inp.order| && i != j
      ensures Ahead(env, inp, inp.order[i], inp.order[j]).Ok?
    {
      ElemLive(env, s, inp, cs, i);
      ElemLive(env, s, inp, cs, j);
      assert inp.order[if i < j then i else j].key != inp.order[if i < j then j else i].key;
      AheadOk(env, inp, s.live, inp.order[i], inp.order[j]);
    }
  }

  lemma {:induction false} ElemLive(env: Env, s: State, inp: Input, cs: seq<Candidate>, i: nat)
    requires CandidatesOk(env, s, inp, cs) && i < |inp.order|
    requires Listing(inp.order, Collect(cs, Slices(Current(s).Keys), inp.held), Current(s), inp.barred)
    ensures inp.order[i].key.slice.t in s.live
  {
    var e := inp.order[i];
    if !e.existing {
      CollectOk(cs, Slices(Current(s).Keys), inp.held, e.key);
      var c := Collect(cs, Slices(Current(s).Keys), inp.held)[e.key];
      assert CandidateOk(env, s, inp, c);
    }
  }

  lemma {:induction false} PassReady(env: Env, s: State, inp: Input) returns (cs: seq<Candidate>)
    requires EnvOk(env) && Inv(env, s) && InputOk(env, s, inp)
    ensures Possible(env, inp, inp.items) == Ok(cs) && CandidatesOk(env, s, inp, cs) && IsCurrent(env, s, Current(s))
    ensures Comparable(env, inp, inp.order)
    ensures var apriori := Collect(cs, Slices(Current(s).Keys), inp.held);
            && (forall k :: k in apriori ==> k !in Current(s))
            && (forall e :: e in inp.order ==> ElemOk(e, Current(s).Keys, apriori, inp.barred))
  {
    PossibleOk(env, s, inp, inp.items);
    cs := Possible(env, inp, inp.items).value;
    CurrentAgrees(env, s);
    var apriori := Collect(cs, Slices(Current(s).Keys), inp.held);
    ListingComparable(env, s, inp, cs);
    forall k | k in apriori ensures k !in Current(s) { ChosenOk(env, s, inp, cs, k); }
    forall e | e in inp.order ensures ElemOk(e, Current(s).Keys, apriori, inp.barred) { ElemsOk(env, s, inp, cs, e); }
  }

  /** A planning pass keeps everything and reaches no panic. */
  lemma {:induction false} UpdateOk(env: Env, s: State, inp: Input)
    requires EnvOk(env) && Inv(env, s) && InputOk(env, s, inp)
    ensures var s' := Update(env, s, inp); s'.Ok? && Inv(env, s'.value) && s'.value.live == s.live
  {
    var cs := PassReady(env, s, inp);
    ScheduleOk(env, s, inp, cs, Current(s), Collect(cs, Slices(Current(s).Keys), inp.held));
  }

  lemma {:induction false} ScheduleOk(
    env: Env, s: State, inp: Input, cs: seq<Candidate>, existing: map<Key, Id>, apriori: map<Key, Candidate>)
    requires EnvOk(env) && Inv(env, s) && CandidatesOk(env, s, inp, cs) && existing == Current(s)
    requires apriori == Collect(cs, Slices(existing.Keys), inp.held) && Comparable(env, inp, inp.order)
    requires forall e :: e in inp.order ==> ElemOk(e, existing.Keys, apriori, inp.barred)
    requires forall i, j :: 0 <= i < j < |inp.hosts| ==> inp.hosts[i] != inp.hosts[j]
    ensures var s' := Schedule(env, s, inp, existing, Slices(existing.Keys));
            s'.Ok? && Inv(env, s'.value) && s'.value.live == s.live
  {
    PlanReady(env, s, inp, cs, existing, apriori);
    var plan := MakePlan(env, inp.order, inp.barred, Plan([], Slices(existing.Keys), existing.Keys)).value;
    CancelOk(env, s, plan.unwanted);
    SpawnHostsOk(env, CancelKeys(s, plan.unwanted), inp, existing.Keys, plan, inp.hosts);
  }

  // ---------- runs ----------

  datatype Op =
    | Pass(inp: Input)
    | Remove(id: Id)
    | Read(id: Id, next: nat)
    | Cancel(id: Id)
    | Add(t: Torrent)
    | Drop(t: Torrent)

  /** A planning pass is given what the client offers; only an active request is read,
      cancelled or removed, and it is read no further than its end; a torrent is added when the client
      has none of its infohash. */
  ghost predicate Allowed(env: Env, s: State, op: Op) {
    match op
    case Pass(inp) => InputOk(env, s, inp)
    case Remove(id) => id in s.reqs
    case Read(id, next) => id in s.reqs && s.reqs[id].next <= next <= s.reqs[id].end
    case Cancel(id) => id in s.reqs
    case Add(t) => forall u :: u in s.live && env.infohash(u) == env.infohash(t) ==> u == t
    case Drop(_) => true
  }

  ghost function Step(env: Env, s: State, op: Op): Outcome<State> {
    match op
    case Pass(inp) => Update(env, s, inp)
    case Remove(id) => Delete(env, s, id)
    case Read(id, next) => if id in s.reqs then Ok(s.(reqs := s.reqs[id := s.reqs[id].(next := next)])) else Panic
    case Cancel(id) => if id in s.reqs then Ok(s.(reqs := s.reqs[id := s.reqs[id].(cancelled := true)])) else Panic
    case Add(t) => Ok(s.(live := s.live + {t}))
    case Drop(t) => Ok(s.(live := s.live - {t}))
  }

  lemma {:induction false} StepOk(env: Env, s: State, op: Op)
    requires EnvOk(env) && Inv(env, s) && Allowed(env, s, op)
    ensures Step(env, s, op).Ok? && Inv(env, Step(env, s, op).value)
  {
    match op
    case Pass(inp) => UpdateOk(env, s, inp);
    case Remove(id) => DeleteOk(env, s, id);
    case Read(id, next) =>
      assert RangeOk(env, s.reqs[id]);
      MarkOk(env, s, id, s.reqs[id].(next := next));
    case Cancel(id) =>
      assert RangeOk(env, s.reqs[id]);
      MarkOk(env, s, id, s.reqs[id].(cancelled := true));
    case Add(_) =>
    case Drop(_) =>
  }

  lemma {:induction false} MarkOk(env: Env, s: State, id: Id, r: Request)
    requires Inv(env, s) && id in s.reqs && r.begin <= r.next <= r.end
    requires r.t == s.reqs[id].t && r.url == s.reqs[id].url && r.begin == s.reqs[id].begin && r.end == s.reqs[id].end
    ensures Inv(env, s.(reqs := s.reqs[id := r]))
  {
    forall i | i in s.reqs ensures RangeOk(env, s.reqs[i]) { }
    AlikeOk(env, s, s.reqs[id := r]);
  }

  ghost predicate IsRun(env: Env, s: State, ops: seq<Op>)
    decreases |ops|
  {
    ops == [] || (Allowed(env, s, ops[0]) && (Step(env, s, ops[0]).Ok? ==> IsRun(env, Step(env, s, ops[0]).value, ops[1..])))
  }

  ghost function Run(env: Env, s: State, ops: seq<Op>): Outcome<State>
    decreases |ops|
  {
    if ops == [] then Ok(s)
    else
      var s' :- Step(env, s, ops[0]);
      Run(env, s', ops[1..])
  }

  lemma {:induction false} RunOk(env: Env, s: State, ops: seq<Op>)
    requires EnvOk(env) && Inv(env, s) && IsRun(env, s, ops)
    ensures Run(env, s, ops).Ok? && Inv(env, Run(env, s, ops).value)
    decreases |ops|
  {
    if ops != [] {
      StepOk(env, s, ops[0]);
      RunOk(env, Step(env, s, ops[0]).value, ops[1..]);
    }
  }

  /** Over every run from an empty client, and nothing panics: a torrent has at most one
      active request per slice and their ranges are disjoint; each host's counter is its
      active requests and within the limit; and the client's map of the live requests is what
      the webseeds' sets hold. */
  lemma {:induction false} WebseedsSafe(env: Env, ops: seq<Op>)
    requires EnvOk(env)
    requires IsRun(env, State(map[], map[], map[], map[], {}, 0), ops)
    ensures var s' := Run(env, State(map[], map[], map[], map[], {}, 0), ops);
            && s'.Ok?
            && (var reqs := s'.value.reqs;
                && (forall i, j :: i in reqs && j in reqs && i != j && reqs[i].t == reqs[j].t ==>
                      && SliceOf(env, reqs[i]) != SliceOf(env, reqs[j])
                      && (reqs[i].end <= reqs[j].begin || reqs[j].end <= reqs[i].begin))
                && (forall h :: CountOf(s'.value.count, h) == |OfHost(env, reqs, h)| <= env.limit))
            && IsCurrent(env, s'.value, Current(s'.value))
  {
    var s := State(map[], map[], map[], map[], {}, 0);
    forall h ensures OfHost(env, s.reqs, h) == {} { }
    RunOk(env, s, ops);
    var s' := Run(env, s, ops).value;
    CurrentAgrees(env, s');
    forall i, j | i in s'.reqs && j in s'.reqs && i != j && s'.reqs[i].t == s'.reqs[j].t
      ensures s'.reqs[i].end <= s'.reqs[j].begin || s'.reqs[j].end <= s'.reqs[i].begin
    {
      RangesDisjoint(env, s'.reqs, s'.nextId, i, j);
    }
  }
}
