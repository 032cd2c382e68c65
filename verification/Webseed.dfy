/** Webseed requests of a client: planning, spawning and removal (webseed-requesting.go,
    webseed-peer.go, client.go).

    Torrents, urls and hosts are numbers. Requests are told apart by an id, as the original
    tells them apart by address. The order in which the plan is built and the order in which
    the hosts' requests are started are any order. */
module Webseed {
  import opened ByteOrder
  import opened Outcomes
  import Geometry

  type Torrent = nat
  type Url = nat
  type Host = nat
  type Id = nat

  /** What is fixed: the host of each webseed, each torrent's lengths, name and infohash, the bytes
      of a slice, and the limit of requests per host. */
  datatype Env = Env(
    host: (Torrent, Url) -> Host, geo: Torrent -> Geometry.Torrent, name: Torrent -> Text, infohash: Torrent -> Text,
    sliceBytes: nat, limit: nat)

  /** chunksPerAlignedWebseedResponse. */
  function PerSlice(env: Env, t: Torrent): nat {
    var c := env.geo(t).chunkSize;
    if c == 0 then 0 else env.sliceBytes / c
  }

  /** maxEndRequest. */
  function MaxEnd(env: Env, t: Torrent): nat {
    if env.geo(t).chunkSize == 0 then 0 else env.geo(t).MaxEnd()
  }

  /** Slices divide a torrent's requests into runs of the same length. */
  ghost predicate EnvOk(env: Env) {
    forall t :: env.geo(t).Valid() && PerSlice(env, t) > 0
  }

  datatype Request = Request(t: Torrent, url: Url, begin: nat, next: nat, end: nat, cancelled: bool)
  datatype Seed = Seed(t: Torrent, url: Url)
  datatype Slice = Slice(t: Torrent, index: nat)
  datatype Key = Key(url: Url, slice: Slice)

  /** requestIndexToWebseedSliceIndex. */
  function SliceIndex(env: Env, t: Torrent, r: nat): nat {
    if PerSlice(env, t) == 0 then 0 else r / PerSlice(env, t)
  }

  function SliceOf(env: Env, r: Request): Slice {
    Slice(r.t, SliceIndex(env, r.t, r.begin))
  }

  /** getRequestKey. */
  function KeyOf(env: Env, r: Request): Key {
    Key(r.url, SliceOf(env, r))
  }

  /** endRequestForAlignedWebseedResponse. */
  function SliceEnd(env: Env, s: Slice): nat {
    var aligned := (s.index + 1) * PerSlice(env, s.t);
    if MaxEnd(env, s.t) < aligned then MaxEnd(env, s.t) else aligned
  }

  /** The active requests, the sets the webseeds keep of theirs, the client's map of them,
      the counters per host, and the torrents not dropped. */
  datatype State = State(
    reqs: map<Id, Request>, sets: map<Seed, set<Id>>, byKey: map<Key, Id>, count: map<Host, nat>,
    live: set<Torrent>, nextId: Id)

  function SetOf(sets: map<Seed, set<Id>>, w: Seed): set<Id> {
    if w in sets then sets[w] else {}
  }

  function CountOf(count: map<Host, nat>, h: Host): nat {
    if h in count then count[h] else 0
  }

  // ---------- spawning and removal ----------

  /** spawnRequest: a key already in the client's map is a panic. */
  function Spawn(env: Env, s: State, w: Seed, begin: nat, end: nat): Outcome<State> {
    var r := Request(w.t, w.url, begin, begin, end, false);
    var h := env.host(w.t, w.url);
    if KeyOf(env, r) in s.byKey then Panic
    else Ok(State(
      s.reqs[s.nextId := r], s.sets[w := SetOf(s.sets, w) + {s.nextId}], s.byKey[KeyOf(env, r) := s.nextId],
      s.count[h := CountOf(s.count, h) + 1], s.live, s.nextId + 1))
  }

  /** deleteActiveRequest: the request must be in its webseed's set and its key in the map. */
  function Delete(env: Env, s: State, id: Id): Outcome<State> {
    if id !in s.reqs then Panic
    else
      var r := s.reqs[id];
      var w, h := Seed(r.t, r.url), env.host(r.t, r.url);
      if id !in SetOf(s.sets, w) || CountOf(s.count, h) == 0 || KeyOf(env, r) !in s.byKey then Panic
      else Ok(State(
        s.reqs - {id}, s.sets[w := SetOf(s.sets, w) - {id}], s.byKey - {KeyOf(env, r)},
        s.count[h := CountOf(s.count, h) - 1], s.live, s.nextId))
  }

  // ---------- planning ----------

  /** A possible request: a slice of a torrent from one of its webseeds. */
  datatype Candidate = Candidate(key: Key, priority: nat, start: nat)

  /** A piece in request order: its priority by itself, and the webseeds not suspended that
      have it. */
  datatype Item = Item(t: Torrent, piece: nat, priority: nat, urls: seq<Url>)

  /** What a planning pass is given: the pieces in order, the pieces not to be requested (being
      hashed or marked, complete, without a hash), the chunks already received, the requests that
      peer connections hold, the torrents barred from downloading, the connections of each torrent,
      the keys whose files might be partial, whether requests are shortened, and the orders left
      open. */
  datatype Input = Input(
    items: seq<Item>, ignored: set<(Torrent, nat)>, dirty: set<(Torrent, nat)>, held: set<(Torrent, nat)>,
    barred: set<Torrent>, conns: Torrent -> nat, partial: set<Key>, shorten: bool, order: seq<Elem>, hosts: seq<Host>)

  /** An element of the planning heap. */
  datatype Elem = Elem(key: Key, start: nat, priority: nat, existing: bool)

  /** The live torrents' requests, as the client's map has them. */
  function Current(s: State): map<Key, Id> {
    map k | k in s.byKey && k.slice.t in s.live :: s.byKey[k]
  }

  /** The same, as the webseeds' sets have them. */
  ghost predicate IsCurrent(env: Env, s: State, m: map<Key, Id>) {
    && (forall k :: k in m ==> k.slice.t in s.live && InSet(env, s, k, m[k]))
    && (forall k: Key, id :: k.slice.t in s.live && InSet(env, s, k, id) ==> k in m && m[k] == id)
  }

  /** The webseed of the key has the request in its set, under that key. */
  predicate InSet(env: Env, s: State, k: Key, id: Id) {
    id in SetOf(s.sets, Seed(k.slice.t, k.url)) && id in s.reqs && KeyOf(env, s.reqs[id]) == k
  }

  // ---------- the possible requests ----------

  /** ignoreForRequests. */
  predicate Ignored(inp: Input, t: Torrent, piece: nat) {
    t in inp.barred || (t, piece) in inp.ignored
  }

  /** effectivePriority. */
  function EffectivePriority(inp: Input, item: Item): nat {
    if Ignored(inp, item.t, item.piece) then 0 else item.priority
  }

  /** pieceRequestIndexBegin. */
  function PieceBegin(env: Env, t: Torrent, piece: nat): nat {
    if env.geo(t).chunkSize == 0 then 0 else piece * env.geo(t).ChunksPerRegularPiece()
  }

  /** requestIndexMaxEnd. */
  function PieceMaxEnd(env: Env, t: Torrent, piece: nat): nat {
    var next := PieceBegin(env, t, piece + 1);
    if MaxEnd(env, t) < next then MaxEnd(env, t) else next
  }

  /** firstCleanChunk: the first index not received, if there is one. */
  function FirstClean(dirty: set<(Torrent, nat)>, t: Torrent, next: nat, end: nat): (first: Option<nat>)
    ensures first.Some? ==> next <= first.value < end && (t, first.value) !in dirty
    ensures forall r :: next <= r < (if first.Some? then first.value else end) ==> (t, r) in dirty
    decreases end - next
  {
    if next >= end then None
    else if (t, next) !in dirty then Some(next)
    else FirstClean(dirty, t, next + 1, end)
  }

  /** The possible requests of a piece, one for each webseed; a piece of no priority, or with
      every chunk received, has none, and a request past the torrent's end is a panic. */
  function Offer(env: Env, inp: Input, item: Item): Outcome<seq<Candidate>> {
    var t := item.t;
    if EffectivePriority(inp, item) == 0 then Ok([])
    else
      match FirstClean(inp.dirty, t, PieceBegin(env, t, item.piece), PieceMaxEnd(env, t, item.piece))
      case None => Ok([])
      case Some(first) =>
        if first >= MaxEnd(env, t) then Panic
        else Ok(Candidates(item.urls, Slice(t, SliceIndex(env, t, first)), EffectivePriority(inp, item), first))
  }

  function Candidates(urls: seq<Url>, slice: Slice, priority: nat, first: nat): seq<Candidate> {
    seq(|urls|, i requires 0 <= i < |urls| => Candidate(Key(urls[i], slice), priority, first))
  }

  /** iterPossibleWebseedRequests. */
  function Possible(env: Env, inp: Input, items: seq<Item>): Outcome<seq<Candidate>> {
    if items == [] then Ok([])
    else
      var before :- Possible(env, inp, items[..|items| - 1]);
      var more :- Offer(env, inp, items[|items| - 1]);
      Ok(before + more)
  }

  /** Whether a possible request takes the place of another for the same key. */
  predicate Replaces(c: Candidate, cur: Candidate, held: set<(Torrent, nat)>) {
    var t := c.key.slice.t;
    if c.priority != cur.priority then c.priority > cur.priority
    else if ((t, cur.start) in held) != ((t, c.start) in held) then (t, cur.start) in held
    else c.start < cur.start
  }

  /** The possible requests for slices not already being fetched, one for each key. */
  function Collect(cs: seq<Candidate>, taken: set<Slice>, held: set<(Torrent, nat)>): map<Key, Candidate> {
    if cs == [] then map[]
    else
      var m, c := Collect(cs[..|cs| - 1], taken, held), cs[|cs| - 1];
      if c.key.slice in taken then m
      else if c.key in m && !Replaces(c, m[c.key], held) then m
      else m[c.key := c]
  }

  // ---------- the planning heap ----------

  /** cmp.Compare of numbers, of flags with false first, and of byte strings. */
  function CmpInt(a: int, b: int): int {
    if a < b then -1 else if a == b then 0 else 1
  }

  function CmpBool(a: bool, b: bool): int {
    if a == b then 0 else if b then -1 else 1
  }

  function CmpText(a: Text, b: Text): int {
    if a == b then 0 else if Less(a, b) then -1 else 1
  }

  /** cmp.Or. */
  function Or(a: int, b: int): int {
    if a != 0 then a else b
  }

  /** The order of two elements: priority, existing requests, fewer connections, partial files, name,
      infohash, slice. */
  function Order(env: Env, inp: Input, l: Elem, r: Elem): int {
    var t, u := l.key.slice.t, r.key.slice.t;
    Or(-CmpInt(l.priority, r.priority),
       Or(CmpBool(!l.existing, !r.existing),
          Or(CmpInt(inp.conns(t), inp.conns(u)),
             Or(-CmpBool(l.key in inp.partial, r.key in inp.partial),
                Or(CmpText(env.name(t), env.name(u)),
                   Or(CmpText(env.infohash(t), env.infohash(u)), CmpInt(l.key.slice.index, r.key.slice.index)))))))
  }

  /** The heap's comparison; two elements of one url that compare equal are a panic. */
  function Ahead(env: Env, inp: Input, l: Elem, r: Elem): Outcome<bool> {
    var ret := Order(env, inp, l, r);
    if ret == 0 && l.key.url == r.key.url then Panic else Ok(ret < 0)
  }

  /** No two elements panic, whichever the heap compares. */
  ghost predicate Comparable(env: Env, inp: Input, order: seq<Elem>) {
    forall i, j :: 0 <= i < |order| && 0 <= j < |order| && i != j ==> Ahead(env, inp, order[i], order[j]).Ok?
  }

  datatype Planned = Planned(key: Key, start: nat)

  function HostOf(env: Env, k: Key): Host {
    env.host(k.slice.t, k.url)
  }

  /** The requests planned for a host, in the order planned. */
  function For(env: Env, picked: seq<Planned>, h: Host): seq<Planned> {
    if picked == [] then []
    else (if HostOf(env, picked[0].key) == h then [picked[0]] else []) + For(env, picked[1..], h)
  }

  datatype Plan = Plan(picked: seq<Planned>, taken: set<Slice>, unwanted: set<Key>)

  /** The planning loop; an element of a barred torrent is a panic, and so is a new one of no
      priority. */
  function MakePlan(env: Env, order: seq<Elem>, barred: set<Torrent>, plan: Plan): Outcome<Plan>
    decreases |order|
  {
    if order == [] then Ok(plan)
    else
      var e := order[0];
      if e.key.slice.t in barred || (!e.existing && e.priority == 0) then Panic
      else if |For(env, plan.picked, HostOf(env, e.key))| >= env.limit then MakePlan(env, order[1..], barred, plan)
      else if !e.existing && e.key.slice in plan.taken then MakePlan(env, order[1..], barred, plan)
      else
        MakePlan(env, order[1..], barred,
                 Plan(plan.picked + [Planned(e.key, e.start)], plan.taken + {e.key.slice}, plan.unwanted - {e.key}))
  }

  /** wantReceiveChunk; an index that is no request is a panic. */
  function Wants(env: Env, inp: Input, t: Torrent, ri: nat): Outcome<bool> {
    if !env.geo(t).Valid() then Panic
    else
      var r :- env.geo(t).ToRequest(ri);
      Ok(env.geo(t).ValidChunk(r) && !Ignored(inp, t, r.index) && (t, ri) !in inp.dirty)
  }

  /** getWebseedRequestEnd; a start that is not wanted, or not before the slice's end, is a
      panic. */
  function RequestEnd(env: Env, inp: Input, begin: nat, slice: Slice): Outcome<nat> {
    var chunkEnd := SliceEnd(env, slice);
    if !inp.shorten then if chunkEnd <= begin then Panic else Ok(chunkEnd)
    else
      var wants :- Wants(env, inp, slice.t, begin);
      if !wants || begin + 1 > chunkEnd then Panic else WantedTo(env, inp, slice.t, begin + 1, chunkEnd)
  }

  /** The end of the run of wanted requests. */
  function WantedTo(env: Env, inp: Input, t: Torrent, end: nat, chunkEnd: nat): Outcome<nat>
    decreases chunkEnd - end
  {
    if end >= chunkEnd then Ok(end)
    else
      var wants :- Wants(env, inp, t, end);
      if wants then WantedTo(env, inp, t, end + 1, chunkEnd) else Ok(end)
  }

  /** Starts a host's planned requests, up to the limit. */
  function SpawnHost(env: Env, s: State, inp: Input, existing: set<Key>, unwanted: set<Key>, ps: seq<Planned>): Outcome<State>
    decreases |ps|
  {
    if ps == [] then Ok(s)
    else
      var p := ps[0];
      if CountOf(s.count, HostOf(env, p.key)) >= env.limit then Ok(s)
      else if p.key in existing then
        if p.key in unwanted then Panic else SpawnHost(env, s, inp, existing, unwanted, ps[1..])
      else
        var end :- RequestEnd(env, inp, p.start, p.key.slice);
        var s' :- Spawn(env, s, Seed(p.key.slice.t, p.key.url), p.start, end);
        SpawnHost(env, s', inp, existing, unwanted, ps[1..])
  }

  function SpawnHosts(
    env: Env, s: State, inp: Input, existing: set<Key>, plan: Plan, hosts: seq<Host>): Outcome<State>
    decreases |hosts|
  {
    if hosts == [] then Ok(s)
    else
      var s' :- SpawnHost(env, s, inp, existing, plan.unwanted, For(env, plan.picked, hosts[0]));
      SpawnHosts(env, s', inp, existing, plan, hosts[1..])
  }

  /** Marks the requests of these keys cancelled. */
  function CancelKeys(s: State, keys: set<Key>): State {
    s.(reqs := map id | id in s.reqs ::
         if exists k :: k in keys && k in s.byKey && s.byKey[k] == id then s.reqs[id].(cancelled := true) else s.reqs[id])
  }

  function Slices(keys: set<Key>): set<Slice> {
    set k | k in keys :: k.slice
  }

  /** updateWebseedRequests: the two views of the current requests must agree, and no
      existing request may be among the possible ones. */
  ghost function Update(env: Env, s: State, inp: Input): Outcome<State> {
    var existing := Current(s);
    var taken := Slices(existing.Keys);
    if !IsCurrent(env, s, existing) then Panic
    else
      var cs :- Possible(env, inp, inp.items);
      var apriori := Collect(cs, taken, inp.held);
      if exists k :: k in apriori && k in existing then Panic
      else Schedule(env, s, inp, existing, taken)
  }

  /** Orders, plans, cancels what is no longer wanted, and starts what is planned. */
  ghost function Schedule(env: Env, s: State, inp: Input, existing: map<Key, Id>, taken: set<Slice>): Outcome<State> {
    if !Comparable(env, inp, inp.order) then Panic
    else
      var plan :- MakePlan(env, inp.order, inp.barred, Plan([], taken, existing.Keys));
      SpawnHosts(env, CancelKeys(s, plan.unwanted), inp, existing.Keys, plan, inp.hosts)
  }

  /** The order lists each possible request chosen and each existing request of a torrent
      not barred, once. */
  ghost predicate Listing(order: seq<Elem>, apriori: map<Key, Candidate>, existing: map<Key, Id>, barred: set<Torrent>) {
    && (forall i :: 0 <= i < |order| && !order[i].existing ==>
          && order[i].key in apriori && order[i].start == apriori[order[i].key].start
          && order[i].priority == apriori[order[i].key].priority)
    && (forall i :: 0 <= i < |order| && order[i].existing ==>
          order[i].key in existing && order[i].key.slice.t !in barred)
    && (forall k :: k in apriori ==> Elem(k, apriori[k].start, apriori[k].priority, false) in order)
    && (forall k :: k in existing && k.slice.t !in barred ==> exists n: nat, p: nat :: Elem(k, n, p, true) in order)
    && (forall i, j :: 0 <= i < j < |order| ==> order[i].key != order[j].key)
  }

  predicate ItemsOk(env: Env, s: State, items: seq<Item>) {
    forall i :: 0 <= i < |items| ==> ItemOk(env, s, items[i])
  }

  predicate ItemOk(env: Env, s: State, item: Item) {
    item.t in s.live && env.geo(item.t).Valid() && item.piece < env.geo(item.t).NumPieces()
  }

  /** The pieces in request order are pieces of live torrents; the planning heap lists what was
      collected; no host comes twice. */
  ghost predicate InputOk(env: Env, s: State, inp: Input) {
    && ItemsOk(env, s, inp.items)
    && (var cs := Possible(env, inp, inp.items);
        cs.Ok? ==> Listing(inp.order, Collect(cs.value, Slices(Current(s).Keys), inp.held), Current(s), inp.barred))
    && (forall i, j :: 0 <= i < j < |inp.hosts| ==> inp.hosts[i] != inp.hosts[j])
  }
}
