/**
 * The methods of the character device and the device list, one for each section under a lock, take the
 * steps of the protocol. As they hold in any state of the protocol, they hold for sections of different
 * calls interleaved at will.
 */
module Refinement {
  import opened Memory
  import opened Wrappers
  import opened CopyPath
  import opened Protocol
  import opened ProtocolInvariant
  import opened ProtocolClaims
  import C = CharDev

  /** What the calls on a connection have in hand between two sections. */
  datatype Grip = Grip(reading: C.Request?, replying: C.Request?, device: C.Device?)

  const Nothing := Grip(null, null, null)

  /** The objects behind a system: every device and connection there ever was, every request accepted. */
  datatype World = World(devs: seq<C.Device>, conns: seq<C.Connection>, grips: seq<Grip>, disks: C.Registry, reqs: set<C.Request>)

  function Ids(list: seq<C.Request>): (ids: seq<nat>)
    ensures |ids| == |list| && forall i :: 0 <= i < |list| ==> ids[i] == list[i].id
  {
    seq(|list|, i requires 0 <= i < |list| => list[i].id)
  }

  function IdOf(r: C.Request?): Option<nat> {
    if r == null then None else Some(r.id)
  }

  predicate Among(list: seq<C.Request>, reqs: set<C.Request>) {
    forall i :: 0 <= i < |list| ==> list[i] in reqs
  }

  predicate OneOf(r: C.Request?, reqs: set<C.Request>) {
    r != null ==> r in reqs
  }

  predicate DevRep(name: string, pending: seq<C.Request>, numConnection: nat, dev: Device) {
    name == dev.name && Ids(pending) == dev.pending && numConnection == dev.numConnection
  }

  predicate DevIs(d: C.Device, reqs: set<C.Request>, dev: Device)
    reads d
  {
    DevRep(d.name, d.pending, d.numConnection, dev) && Among(d.pending, reqs)
  }

  predicate DevsRep(devs: seq<C.Device>, reqs: set<C.Request>, states: seq<Device>)
    reads devs
  {
    |devs| == |states| && forall d :: 0 <= d < |states| ==> DevIs(devs[d], reqs, states[d])
  }

  /** The fields of a connection that is open. */
  predicate ConnRep(devs: seq<C.Device>, blockDev: C.Device?, waiting: seq<C.Request>, sending: C.Request?, conn: Connection) {
    && conn.waiting == Ids(waiting) && conn.sending == IdOf(sending)
    && (if conn.dev.None? then blockDev == null else conn.dev.value < |devs| && blockDev == devs[conn.dev.value])
  }

  predicate GripRep(devs: seq<C.Device>, reqs: set<C.Request>, g: Grip, conn: Connection) {
    && conn.reading == IdOf(g.reading) && conn.replying == IdOf(g.replying)
    && OneOf(g.reading, reqs) && OneOf(g.replying, reqs)
    && (!conn.hand.Empty? ==> conn.hand.d < |devs| && g.device == devs[conn.hand.d])
  }

  predicate ConnIs(devs: seq<C.Device>, reqs: set<C.Request>, g: Grip, c: C.Connection, conn: Connection)
    reads c
  {
    && GripRep(devs, reqs, g, conn)
    && (conn.live ==> ConnRep(devs, c.blockDev, c.waiting, c.sending, conn) && Among(c.waiting, reqs) && OneOf(c.sending, reqs))
  }

  predicate ConnsRep(devs: seq<C.Device>, reqs: set<C.Request>, grips: seq<Grip>, conns: seq<C.Connection>, states: seq<Connection>)
    reads conns
  {
    && |conns| == |states| == |grips|
    && forall c :: 0 <= c < |states| ==> ConnIs(devs, reqs, grips[c], conns[c], states[c])
  }

  /** The devices that are listed, oldest first. */
  function OnList(devs: seq<C.Device>, states: seq<Device>): seq<C.Device>
    requires |devs| == |states|
  {
    if devs == [] then []
    else
      var n := |devs| - 1;
      OnList(devs[..n], states[..n]) + if states[n].listed then [devs[n]] else []
  }

  /** While the list is intact. */
  predicate ListRep(disks: C.Registry, devs: seq<C.Device>, s: System)
    reads disks
  {
    |devs| == |s.devs| && (s.intact ==> disks.list == OnList(devs, s.devs))
  }

  predicate EndsRep(reqs: set<C.Request>, ended: seq<nat>)
    reads reqs
  {
    forall r :: r in reqs ==> r.ends == Times(ended, r.id)
  }

  /** Objects are told apart, requests by their ids. */
  predicate Distinct(w: World, nextId: nat) {
    && (forall i, j :: 0 <= i < j < |w.devs| ==> w.devs[i] != w.devs[j])
    && (forall i, j :: 0 <= i < j < |w.conns| ==> w.conns[i] != w.conns[j])
    && (forall r, q :: r in w.reqs && q in w.reqs && r != q ==> r.id != q.id)
    && (forall r :: r in w.reqs ==> 1 <= r.id <= nextId)
  }

  /** The objects are in state s. */
  predicate Rep(w: World, s: System)
    reads w.devs, w.conns, w.disks, w.reqs
  {
    && Distinct(w, s.nextId) && DevsRep(w.devs, w.reqs, s.devs) && ConnsRep(w.devs, w.reqs, w.grips, w.conns, s.conns)
    && EndsRep(w.reqs, s.ended) && ListRep(w.disks, w.devs, s)
  }

  // ---------------------------------------------------------------------------------------------
  // Lists and their ids

  lemma IdsTail(list: seq<C.Request>)
    requires list != []
    ensures Ids(list)[0] == list[0].id && Ids(list[1..]) == Ids(list)[1..]
  {
  }

  lemma IdsSnoc(list: seq<C.Request>, r: C.Request)
    ensures Ids(list + [r]) == Ids(list) + [r.id]
  {
  }

  lemma IdsWithout(list: seq<C.Request>, k: nat)
    requires k < |list|
    ensures Ids(C.Without(list, k)) == Ids(list)[..k] + Ids(list)[k + 1..]
  {
  }

  /** get_request_by_id finds what the protocol finds. */
  lemma {:induction false} SameIndex(list: seq<C.Request>, id: nat)
    ensures C.FirstWithId(list, id) == Index(Ids(list), id)
  {
    if list != [] {
      IdsTail(list);
      SameIndex(list[1..], id);
    }
  }

  lemma {:induction false} OnListSame(devs: seq<C.Device>, a: seq<Device>, b: seq<Device>)
    requires |devs| == |a| == |b| && forall i :: 0 <= i < |devs| ==> a[i].listed == b[i].listed
    ensures OnList(devs, a) == OnList(devs, b)
  {
    if devs != [] {
      var n := |devs| - 1;
      OnListSame(devs[..n], a[..n], b[..n]);
    }
  }

  predicate SameNames(devs: seq<C.Device>, states: seq<Device>) {
    |devs| == |states| && forall i :: 0 <= i < |devs| ==> devs[i].name == states[i].name
  }

  /** The two searches, from the newest device back. */
  lemma LastFirst(devs: seq<C.Device>, states: seq<Device>, name: string)
    requires SameNames(devs, states) && devs != []
    ensures var n := |devs| - 1; var last, front, rest := states[n], Newest(states[..n], name), OnList(devs[..n], states[..n]);
      && SameNames(devs[..n], states[..n]) && devs[n].name == last.name
      && OnList(devs, states) == (if last.listed then rest + [devs[n]] else rest)
      && Newest(states, name) == if last.listed && last.name == name then n else if front == n then n + 1 else front
  {
  }

  lemma LongerList(list: seq<C.Device>, x: C.Device, name: string)
    ensures var k := C.NewestNamed(list, name);
      C.NewestNamed(list + [x], name) == if x.name == name then |list| else if k == |list| then |list| + 1 else k
  {
    assert (list + [x])[..|list|] == list;
  }

  /** get_block_device finds what the protocol finds. */
  lemma {:induction false} SameNewest(devs: seq<C.Device>, states: seq<Device>, name: string)
    requires SameNames(devs, states)
    ensures var list := OnList(devs, states); var k, d := C.NewestNamed(list, name), Newest(states, name);
      (k == |list| <==> d == |states|) && (k < |list| ==> d < |devs| && list[k] == devs[d])
  {
    if devs != [] {
      hide OnList, Newest, C.NewestNamed, SameNames;
      var n := |devs| - 1;
      LastFirst(devs, states, name);
      SameNewest(devs[..n], states[..n], name);
      LongerList(OnList(devs[..n], states[..n]), devs[n], name);
    }
  }

  /** Taking a listed device off the list is marking it as not listed. */
  lemma {:induction false} UnlistAt(devs: seq<C.Device>, states: seq<Device>, k: nat)
    requires |devs| == |states| && k < |devs| && forall i, j :: 0 <= i < j < |devs| ==> devs[i] != devs[j]
    ensures var list, p := OnList(devs, states), C.PlaceOf(OnList(devs, states), devs[k]);
      && (states[k].listed <==> p < |list|)
      && OnList(devs, states[k := states[k].(listed := false)]) == if p == |list| then list else C.Without(list, p)
  {
    hide OnList, C.PlaceOf, C.Without;
    var n := |devs| - 1;
    var states' := states[k := states[k].(listed := false)];
    var front := OnList(devs[..n], states[..n]);
    OnListLast(devs, states);
    OnListLast(devs, states');
    OnlyListed(devs[..n], states[..n]);
    PlaceLonger(front, devs[n], devs[k]);
    assert front + [] == front && devs[k] == if k < n then devs[..n][k] else devs[n];
    if k < n {
      UnlistAt(devs[..n], states[..n], k);
      assert states'[..n] == states[..n][k := states[k].(listed := false)] && states'[n] == states[n];
      if C.PlaceOf(front, devs[k]) < |front| {
        WithoutFront(front, C.PlaceOf(front, devs[k]), devs[n]);
        assert C.Without(front, C.PlaceOf(front, devs[k])) + [] == C.Without(front, C.PlaceOf(front, devs[k]));
      }
    } else {
      assert states'[..n] == states[..n];
      assert devs[n] !in front;
      WithoutLast(front, devs[n]);
    }
  }

  lemma {:induction false} PlaceLonger(list: seq<C.Device>, x: C.Device, device: C.Device)
    ensures var k := C.PlaceOf(list, device);
      C.PlaceOf(list + [x], device) == if k < |list| then k else if x == device then |list| else |list| + 1
  {
    if list != [] {
      PlaceLonger(list[1..], x, device);
      assert (list + [x])[1..] == list[1..] + [x];
    }
  }

  lemma {:induction false} OnlyListed(devs: seq<C.Device>, states: seq<Device>)
    requires |devs| == |states|
    ensures forall x :: x in OnList(devs, states) ==> x in devs
  {
    if devs != [] {
      OnlyListed(devs[..|devs| - 1], states[..|devs| - 1]);
    }
  }

  lemma OnListLast(devs: seq<C.Device>, states: seq<Device>)
    requires |devs| == |states| != 0
    ensures var n := |devs| - 1;
      OnList(devs, states) == OnList(devs[..n], states[..n]) + if states[n].listed then [devs[n]] else []
  {
  }

  lemma WithoutLast<T>(list: seq<T>, x: T)
    ensures C.Without(list + [x], |list|) == list
  {
  }

  lemma WithoutFront<T>(list: seq<T>, k: nat, x: T)
    requires k < |list|
    ensures C.Without(list + [x], k) == C.Without(list, k) + [x]
  {
  }

  lemma {:induction false} TimesIds(list: seq<C.Request>, r: C.Request)
    requires C.Distinct(list) && forall q :: q in list && q != r ==> q.id != r.id
    ensures Times(Ids(list), r.id) == if r in list then 1 else 0
  {
    if list != [] {
      IdsTail(list);
      HeadOff(Ids(list), r.id);
      TimesIds(list[1..], r);
    }
  }

  /** A list whose ids are each in it once. */
  lemma OnceDistinct(list: seq<C.Request>)
    requires forall r :: r in list ==> Times(Ids(list), r.id) <= 1
    ensures C.Distinct(list)
  {
    hide Times;
    forall i, j | 0 <= i < j < |list| ensures list[i] != list[j] {
      if list[i] == list[j] {
        assert list[i] in list;
        Twice(Ids(list), i, j);
      }
    }
  }

  lemma Twice(list: seq<nat>, i: nat, j: nat)
    requires i < j < |list| && list[i] == list[j]
    ensures 2 <= Times(list, list[i])
  {
    var r := list[i];
    TimesConcat(list[..j], list[j..], r);
    assert list[..j] + list[j..] == list && list[..j][i] == r && list[j..][0] == r;
    TimesIn(list[..j], r);
    TimesIn(list[j..], r);
  }

  // ---------------------------------------------------------------------------------------------
  // A section changes one connection and one device, the rest stays

  function Gripped(w: World, c: nat, g: Grip): World
    requires c < |w.grips|
  {
    w.(grips := w.grips[c := g])
  }

  twostate predicate OthersStay(w: World, new c: nat, new d: nat)
    reads w.conns, w.devs
  {
    && (forall b :: 0 <= b < |w.conns| && b != c ==> unchanged(w.conns[b]))
    && (forall e :: 0 <= e < |w.devs| && e != d ==> unchanged(w.devs[e]))
  }

  twostate predicate Ended(w: World, new more: seq<nat>)
    reads w.reqs
  {
    forall r :: r in w.reqs ==> r.ends == old(r.ends) + Times(more, r.id)
  }

  twostate lemma DevsStay(w: World, new states: seq<Device>, new c: nat, new d: nat, new dev: Device)
    requires old(DevsRep(w.devs, w.reqs, states)) && OthersStay(w, c, d)
    requires d < |states| ==> DevIs(w.devs[d], w.reqs, dev)
    ensures |w.devs| == |states| && DevsRep(w.devs, w.reqs, if d < |states| then states[d := dev] else states)
  {
    forall e | 0 <= e < |states| && e != d ensures DevIs(w.devs[e], w.reqs, states[e]) {
      assert unchanged(w.devs[e]) && old(DevIs(w.devs[e], w.reqs, states[e]));
    }
  }

  twostate lemma ConnsStay(w: World, new states: seq<Connection>, new c: nat, new d: nat, new conn: Connection, new g: Grip)
    requires old(ConnsRep(w.devs, w.reqs, w.grips, w.conns, states)) && OthersStay(w, c, d) && c < |states|
    requires c < |w.conns| && ConnIs(w.devs, w.reqs, g, w.conns[c], conn)
    ensures |w.grips| == |states| && ConnsRep(w.devs, w.reqs, w.grips[c := g], w.conns, states[c := conn])
  {
    forall b | 0 <= b < |states| && b != c ensures ConnIs(w.devs, w.reqs, w.grips[b], w.conns[b], states[b]) {
      assert unchanged(w.conns[b]) && old(ConnIs(w.devs, w.reqs, w.grips[b], w.conns[b], states[b]));
    }
  }

  twostate lemma EndsRight(w: World, new ended: seq<nat>, new more: seq<nat>)
    requires old(EndsRep(w.reqs, ended)) && Ended(w, more)
    ensures EndsRep(w.reqs, ended + more)
  {
    hide Times;
    forall r | r in w.reqs ensures r.ends == Times(ended + more, r.id) {
      TimesConcat(ended, more, r.id);
    }
  }

  /** The objects follow a change of the protocol. */
  twostate lemma ChangedRep(w: World, new s: System, new c: nat, new conn: Connection, new g: Grip, new d: nat, new dev: Device,
                            new more: seq<nat>, new intact: bool)
    requires old(Rep(w, s)) && c < |s.conns| == |w.conns| == |w.grips| && d < |s.devs| == |w.devs|
    requires OthersStay(w, c, d) && Ended(w, more)
    requires ConnIs(w.devs, w.reqs, g, w.conns[c], conn) && DevIs(w.devs[d], w.reqs, dev)
    requires ListRep(w.disks, w.devs, Changed(s, c, conn, d, dev, more, intact))
    ensures Rep(Gripped(w, c, g), Changed(s, c, conn, d, dev, more, intact))
  {
    hide DevsRep, ConnsRep, EndsRep, ListRep, ConnIs, DevIs, OthersStay, Ended;
    DevsStay(w, s.devs, c, d, dev);
    ConnsStay(w, s.conns, c, d, conn, g);
    EndsRight(w, s.ended, more);
  }

  /** A change of one connection. */
  twostate lemma CallRep(w: World, new s: System, new c: nat, new conn: Connection, new g: Grip, new more: seq<nat>)
    requires old(Rep(w, s)) && c < |s.conns| == |w.conns| == |w.grips| && OthersStay(w, c, |w.devs|) && Ended(w, more)
    requires ConnIs(w.devs, w.reqs, g, w.conns[c], conn) && unchanged(w.disks)
    ensures Rep(Gripped(w, c, g), SetConn(s, c, conn).(ended := s.ended + more))
  {
    hide DevsRep, ConnsRep, EndsRep, ConnIs, DevIs, OthersStay, Ended;
    DevsStay(w, s.devs, c, |w.devs|, Created(""));
    ConnsStay(w, s.conns, c, |w.devs|, conn, g);
    EndsRight(w, s.ended, more);
  }

  /** What the objects say about one connection, and about its device. */
  lemma Here(w: World, s: System, c: nat)
    requires Rep(w, s) && c < |s.conns|
    ensures |w.conns| == |w.grips| == |s.conns| && |w.devs| == |s.devs|
    ensures ConnIs(w.devs, w.reqs, w.grips[c], w.conns[c], s.conns[c])
    ensures Ready(s, c) ==> var d := s.conns[c].dev.value;
      w.conns[c].blockDev == w.devs[d] && DevIs(w.devs[d], w.reqs, s.devs[d])
    ensures !s.conns[c].hand.Empty? ==> var d := s.conns[c].hand.d;
      d < |s.devs| && w.grips[c].device == w.devs[d] && DevIs(w.devs[d], w.reqs, s.devs[d])
  {
  }

  lemma Apart(w: World, nextId: nat)
    requires Distinct(w, nextId)
    ensures forall d, e :: 0 <= d < |w.devs| && 0 <= e < |w.devs| && d != e ==> w.devs[d] != w.devs[e]
    ensures forall c, b :: 0 <= c < |w.conns| && 0 <= b < |w.conns| && c != b ==> w.conns[c] != w.conns[b]
  {
  }

  /** The list is the same while no device comes or goes. */
  twostate lemma SameList(w: World, new s: System, new s': System)
    requires old(ListRep(w.disks, w.devs, s)) && unchanged(w.disks) && |s'.devs| == |s.devs| && s'.intact == s.intact
    requires forall d :: 0 <= d < |s.devs| ==> s'.devs[d].listed == s.devs[d].listed
    ensures ListRep(w.disks, w.devs, s')
  {
    hide OnList;
    OnListSame(w.devs, s.devs, s'.devs);
  }

  // ---------------------------------------------------------------------------------------------
  // Read calls

  lemma TakenDevice(name: string, was: seq<C.Request>, numConnection: nat, dev: Device, reqs: set<C.Request>)
    requires DevRep(name, was, numConnection, dev) && Among(was, reqs) && was != []
    ensures dev.pending != [] && dev.pending[0] == was[0].id && was[0] in reqs
    ensures DevRep(name, was[1..], numConnection, Taken(dev)) && Among(was[1..], reqs)
  {
    IdsTail(was);
  }

  lemma TakingConnection(devs: seq<C.Device>, reqs: set<C.Request>, g: Grip, blockDev: C.Device?, waiting: seq<C.Request>,
                         conn: Connection, r: C.Request, streams: bool)
    requires ConnRep(devs, blockDev, waiting, null, conn) && GripRep(devs, reqs, g, conn) && r in reqs
    ensures ConnRep(devs, blockDev, waiting, if streams then r else null, Taking(conn, r.id, streams))
    ensures GripRep(devs, reqs, g.(reading := r), Taking(conn, r.id, streams))
  {
  }

  /** The section under the pending lock. */
  method TakeFirst(ghost w: World, ghost s: System, ghost c: nat, k: C.Connection, ghost payload: seq<byte>)
    returns (request: C.Request, ghost streams: bool, ghost w': World)
    requires Rep(w, s) && CanTake(s, c) && c < |w.conns| && k == w.conns[c]
    requires k.blockDev != null && k.blockDev.pending != [] && k.blockDev.pending[0].Carries(k.mem[..], payload)
    modifies k`sending, k.blockDev`pending, k.Current()
    ensures request == old(k.blockDev.pending[0]) && (streams <==> (request.op == C.Write || request.op == C.Append) && request.length > 0)
    ensures |w.grips| == |w.conns| && w' == Gripped(w, c, w.grips[c].(reading := request))
    ensures Rep(w', Step(s, Protocol.Take(c, streams)))
  {
    hide Ids, OnList, Times, DevsRep, ConnsRep, EndsRep, ListRep, Distinct, ConnRep, DevRep, GripRep, Among;
    Here(w, s, c);
    Apart(w, s.nextId);
    ghost var d, conn := s.conns[c].dev.value, s.conns[c];
    ghost var was, num := k.blockDev.pending, k.blockDev.numConnection;
    Free(w, s, c);
    request := k.TakeFirst(payload);
    streams := (request.op == C.Write || request.op == C.Append) && request.length > 0;
    w' := Gripped(w, c, w.grips[c].(reading := request));
    TakeForm(s, c, streams);
    TakenDevice(k.blockDev.name, was, num, s.devs[d], w.reqs);
    TakingConnection(w.devs, w.reqs, w.grips[c], k.blockDev, k.waiting, conn, request, streams);
    NoEnds(w);
    SameList(w, s, Changed(s, c, Taking(conn, request.id, streams), d, Taken(s.devs[d]), [], s.intact));
    ChangedRep(w, s, c, Taking(conn, request.id, streams), w.grips[c].(reading := request), d, Taken(s.devs[d]), [], s.intact);
  }

  lemma TakeForm(s: System, c: nat, streams: bool)
    requires CanTake(s, c)
    ensures var d := s.conns[c].dev.value;
      Step(s, Protocol.Take(c, streams))
      == Changed(s, c, Taking(s.conns[c], s.devs[d].pending[0], streams), d, Taken(s.devs[d]), [], s.intact)
  {
    assert s.ended + [] == s.ended;
  }

  /** A connection that can take a request is not sending one. */
  lemma Free(w: World, s: System, c: nat)
    requires Rep(w, s) && CanTake(s, c) && c < |w.conns|
    ensures w.conns[c].sending == null
  {
    Here(w, s, c);
  }

  twostate lemma NoEnds(w: World)
    requires forall r :: r in w.reqs ==> r.ends == old(r.ends)
    ensures Ended(w, [])
  {
    NoTimes();
  }

  lemma SentConnection(devs: seq<C.Device>, reqs: set<C.Request>, g: Grip, blockDev: C.Device?, was: seq<C.Request>,
                       sending: C.Request?, conn: Connection, r: C.Request, ok: bool)
    requires ConnRep(devs, blockDev, was, sending, conn) && GripRep(devs, reqs, g, conn) && g.reading == r && Among(was, reqs)
    ensures conn.reading == Some(r.id) && r in reqs && Among(was + [r], reqs)
    ensures GripRep(devs, reqs, g.(reading := null), SentConn(conn, r.id, ok))
    ensures ConnRep(devs, blockDev, if ok then was + [r] else was, if ok then sending else null, SentConn(conn, r.id, ok))
  {
    IdsSnoc(was, r);
  }

  function SentConn(conn: Connection, id: nat, ok: bool): Connection {
    if ok then conn.(reading := None, waiting := conn.waiting + [id]) else conn.(reading := None, sending := None)
  }

  lemma SentForm(s: System, c: nat, ok: bool)
    requires Ready(s, c) && s.conns[c].reading.Some?
    ensures var id := s.conns[c].reading.value;
      Step(s, Sent(c, ok)) == SetConn(s, c, SentConn(s.conns[c], id, ok)).(ended := s.ended + if ok then [] else [id])
  {
    assert s.ended + [] == s.ended;
  }

  /** Sending the header, and the section under the waiting lock. */
  method SendHeader(ghost w: World, ghost s: System, ghost c: nat, k: C.Connection, request: C.Request, to: C.UserBuffer)
    returns (ret: int, ghost w': World)
    requires Rep(w, s) && Ready(s, c) && c < |w.conns| == |w.grips| && k == w.conns[c] && request == w.grips[c].reading
    modifies k`sending, k`waiting, request`ends, request`result, to`header
    ensures w' == Gripped(w, c, w.grips[c].(reading := null)) && Rep(w', Step(s, Sent(c, 0 < ret)))
  {
    hide Ids, OnList, Times, DevsRep, ConnsRep, EndsRep, ListRep, Distinct, ConnRep, DevRep, GripRep, Among;
    Here(w, s, c);
    Apart(w, s.nextId);
    ghost var conn, was, sending := s.conns[c], k.waiting, k.sending;
    ret := k.SendHeader(request, to);
    w' := Gripped(w, c, w.grips[c].(reading := null));
    SentConnection(w.devs, w.reqs, w.grips[c], k.blockDev, was, sending, conn, request, 0 < ret);
    SentForm(s, c, 0 < ret);
    if 0 < ret {
      NoEnds(w);
    } else {
      OneEnd(w, s.nextId, request);
    }
    CallRep(w, s, c, SentConn(conn, request.id, 0 < ret), w.grips[c].(reading := null), if 0 < ret then [] else [request.id]);
  }

  twostate lemma OneEnd(w: World, new nextId: nat, new r: C.Request)
    requires Distinct(w, nextId) && r in w.reqs && r.ends == old(r.ends) + 1
    requires forall q :: q in w.reqs && q != r ==> q.ends == old(q.ends)
    ensures Ended(w, [r.id])
  {
    forall q | q in w.reqs ensures q.ends == old(q.ends) + Times([r.id], q.id) {
      TimesOne(r.id, q.id);
    }
  }

  lemma SentAll(devs: seq<C.Device>, reqs: set<C.Request>, g: Grip, blockDev: C.Device?, waiting: seq<C.Request>,
                sending: C.Request?, conn: Connection)
    requires ConnRep(devs, blockDev, waiting, sending, conn) && GripRep(devs, reqs, g, conn)
    ensures ConnRep(devs, blockDev, waiting, null, conn.(sending := None)) && GripRep(devs, reqs, g, conn.(sending := None))
  {
  }

  /** A read in the middle of a payload: the last byte makes a Streamed step. */
  method ReadData(ghost w: World, ghost s: System, ghost c: nat, k: C.Connection, to: C.UserBuffer, size: nat,
                  ghost payload: seq<byte>)
    returns (ret: nat)
    requires Rep(w, s) && Ready(s, c) && c < |w.conns| && k == w.conns[c] && k.sending != null && k.sending.Streams(k.mem[..], payload)
    modifies k`sending, k.sending`bio, k.sending`mapData, to`got
    ensures ret <= |payload| && Rep(w, if ret == |payload| then Step(s, Streamed(c)) else s)
  {
    hide Ids, OnList, Times, DevsRep, ConnsRep, EndsRep, ListRep, Distinct, ConnRep, DevRep, GripRep, Among, Holds;
    Here(w, s, c);
    Apart(w, s.nextId);
    ghost var conn, sending := s.conns[c], k.sending;
    ret := k.ReadData(to, size, payload);
    ghost var conn' := if ret == |payload| then conn.(sending := None) else conn;
    SentAll(w.devs, w.reqs, w.grips[c], k.blockDev, k.waiting, sending, conn);
    NoEnds(w);
    CallRep(w, s, c, conn', w.grips[c], []);
    StreamedForm(s, c);
    assert Gripped(w, c, w.grips[c]) == w;
  }

  lemma StreamedForm(s: System, c: nat)
    requires Ready(s, c)
    ensures Step(s, Streamed(c)) == SetConn(s, c, s.conns[c].(sending := None)).(ended := s.ended + [])
    ensures s == SetConn(s, c, s.conns[c]).(ended := s.ended + [])
  {
    assert s.ended + [] == s.ended && s.conns[c := s.conns[c]] == s.conns;
  }

  // ---------------------------------------------------------------------------------------------
  // Write calls

  function FoundConn(conn: Connection, id: nat): Connection {
    var k := Index(conn.waiting, id);
    if k == |conn.waiting| then conn
    else conn.(waiting := conn.waiting[..k] + conn.waiting[k + 1..], replying := Some(id),
               sending := if conn.sending == Some(id) then None else conn.sending)
  }

  lemma FindForm(s: System, c: nat, id: nat)
    requires Ready(s, c) && s.conns[c].replying.None?
    ensures Step(s, TakeReply(c, id)) == SetConn(s, c, FoundConn(s.conns[c], id)).(ended := s.ended + [])
  {
    assert s.ended + [] == s.ended && s.conns[c := s.conns[c]] == s.conns;
  }

  /** On values: the request found leaves the waiting list, and is no longer being sent. */
  lemma WaitsNoMore(w: World, g: Grip, blockDev: C.Device?, was: seq<C.Request>, sending: C.Request?, conn: Connection,
                    id: nat, nextId: nat)
    requires ConnRep(w.devs, blockDev, was, sending, conn) && GripRep(w.devs, w.reqs, g, conn) && Among(was, w.reqs)
    requires OneOf(sending, w.reqs) && Distinct(w, nextId) && C.FirstWithId(was, id) < |was|
    ensures var k := C.FirstWithId(was, id); var r := was[k];
      && r in w.reqs && Among(C.Without(was, k), w.reqs)
      && ConnRep(w.devs, blockDev, C.Without(was, k), if sending == r then null else sending, FoundConn(conn, id))
      && GripRep(w.devs, w.reqs, g.(replying := r), FoundConn(conn, id))
  {
    SameIndex(was, id);
    IdsWithout(was, C.FirstWithId(was, id));
  }

  lemma WaitsNot(devs: seq<C.Device>, blockDev: C.Device?, was: seq<C.Request>, sending: C.Request?, conn: Connection, id: nat)
    requires ConnRep(devs, blockDev, was, sending, conn) && C.FirstWithId(was, id) == |was|
    ensures FoundConn(conn, id) == conn
  {
    SameIndex(was, id);
  }

  /** The section under the waiting lock. */
  method FindReply(ghost w: World, ghost s: System, ghost c: nat, k: C.Connection, id: nat)
    returns (request: C.Request?, ghost w': World)
    requires Rep(w, s) && Ready(s, c) && s.conns[c].replying.None? && c < |w.conns| == |w.grips| && k == w.conns[c]
    modifies k`waiting, k`sending
    ensures w' == Gripped(w, c, w.grips[c].(replying := request)) && Rep(w', Step(s, TakeReply(c, id)))
  {
    hide Ids, OnList, Times, DevsRep, ConnsRep, EndsRep, ListRep, Distinct, ConnRep, DevRep, GripRep, Among;
    Here(w, s, c);
    Apart(w, s.nextId);
    NotReplying(w, s, c);
    ghost var conn, was, sending := s.conns[c], k.waiting, k.sending;
    request := k.FindReply(id);
    w' := Gripped(w, c, w.grips[c].(replying := request));
    if C.FirstWithId(was, id) < |was| {
      WaitsNoMore(w, w.grips[c], k.blockDev, was, sending, conn, id, s.nextId);
    } else {
      WaitsNot(w.devs, k.blockDev, was, sending, conn, id);
    }
    NoEnds(w);
    CallRep(w, s, c, FoundConn(conn, id), w.grips[c].(replying := request), []);
    FindForm(s, c, id);
  }

  lemma NotReplying(w: World, s: System, c: nat)
    requires Rep(w, s) && c < |s.conns| && s.conns[c].replying.None?
    ensures c < |w.grips| && w.grips[c].replying == null
  {
    Here(w, s, c);
  }

  lemma RepliedConnection(devs: seq<C.Device>, reqs: set<C.Request>, g: Grip, blockDev: C.Device?, waiting: seq<C.Request>,
                          sending: C.Request?, conn: Connection, r: C.Request)
    requires ConnRep(devs, blockDev, waiting, sending, conn) && GripRep(devs, reqs, g, conn) && g.replying == r
    ensures conn.replying == Some(r.id) && r in reqs && GripRep(devs, reqs, g.(replying := null), conn.(replying := None))
    ensures ConnRep(devs, blockDev, waiting, sending, conn.(replying := None))
  {
  }

  /** Delivering the data and ending the request. */
  method EndReply(ghost w: World, ghost s: System, ghost c: nat, k: C.Connection, request: C.Request, reply: C.BlkStatus,
                  userPos: nat, data: seq<byte>)
    returns (ret: int, ghost w': World)
    requires Rep(w, s) && Ready(s, c) && c < |w.conns| == |w.grips| && k == w.conns[c] && request == w.grips[c].replying
    requires InBounds(request.vecs, k.mem.Length)
    modifies k.mem, request
    ensures w' == Gripped(w, c, w.grips[c].(replying := null)) && Rep(w', Step(s, Protocol.EndReply(c)))
  {
    hide Ids, OnList, Times, DevsRep, ConnsRep, EndsRep, ListRep, Distinct, ConnRep, DevRep, GripRep, Among;
    Here(w, s, c);
    Apart(w, s.nextId);
    ghost var conn := s.conns[c];
    ret := k.EndReply(request, reply, userPos, data);
    w' := Gripped(w, c, w.grips[c].(replying := null));
    RepliedConnection(w.devs, w.reqs, w.grips[c], k.blockDev, k.waiting, k.sending, conn, request);
    OneEnd(w, s.nextId, request);
    CallRep(w, s, c, conn.(replying := None), w.grips[c].(replying := null), [request.id]);
  }

  // ---------------------------------------------------------------------------------------------
  // Requests, connections and devices come

  lemma NeverEnded(s: System, id: nat)
    requires Inv(s) && s.nextId < id
    ensures Times(s.ended, id) == 0
  {
    assert OnePlace(s, id);
  }

  lemma MoreReqs(w: World, s: System, r: C.Request)
    requires Rep(w, s) && Inv(s) && r !in w.reqs && r.id == s.nextId + 1 && r.ends == 0
    ensures var reqs := w.reqs + {r};
      && Distinct(w.(reqs := reqs), s.nextId + 1) && EndsRep(reqs, s.ended)
      && DevsRep(w.devs, reqs, s.devs) && ConnsRep(w.devs, reqs, w.grips, w.conns, s.conns)
  {
    NeverEnded(s, r.id);
    hide Inv, Ids, Times, DevRep, ConnRep;
    forall d | 0 <= d < |s.devs| ensures DevIs(w.devs[d], w.reqs + {r}, s.devs[d]) {
      assert DevIs(w.devs[d], w.reqs, s.devs[d]);
    }
    forall c | 0 <= c < |s.conns| ensures ConnIs(w.devs, w.reqs + {r}, w.grips[c], w.conns[c], s.conns[c]) {
      assert ConnIs(w.devs, w.reqs, w.grips[c], w.conns[c], s.conns[c]);
    }
  }

  function Accepted(dev: Device, id: nat): Device {
    dev.(pending := dev.pending + [id], accepted := dev.accepted + [id])
  }

  lemma PendingToo(name: string, was: seq<C.Request>, numConnection: nat, dev: Device, r: C.Request, reqs: set<C.Request>)
    requires DevRep(name, was, numConnection, dev) && Among(was, reqs) && r in reqs
    ensures DevRep(name, was + [r], numConnection, Accepted(dev, r.id)) && Among(was + [r], reqs)
  {
    IdsSnoc(was, r);
  }

  /** bius_queue_rq: accepting a request. */
  method QueueRq(ghost w: World, ghost s: System, ghost d: nat, device: C.Device, r: C.Request) returns (ghost w': World)
    requires Rep(w, s) && Inv(s) && d < |w.devs| == |s.devs| && device == w.devs[d] && !s.devs[d].gone
    requires r !in w.reqs && r.id == s.nextId + 1 && r.ends == 0
    modifies device`pending
    ensures w' == w.(reqs := w.reqs + {r}) && Rep(w', Step(s, Queue(d)))
  {
    hide Ids, OnList, Times, DevsRep, ConnsRep, EndsRep, ListRep, Distinct, ConnRep, DevRep, GripRep, Among, Inv;
    Apart(w, s.nextId);
    MoreReqs(w, s, r);
    w' := w.(reqs := w.reqs + {r});
    ghost var was := device.pending;
    ThisDevice(w', s.devs, d);
    device.QueueRq(r);
    PendingToo(device.name, was, device.numConnection, s.devs[d], r, w'.reqs);
    DevsStay(w', s.devs, |w.conns|, d, Accepted(s.devs[d], r.id));
    SameList(w, s, Step(s, Queue(d)));
  }

  lemma ThisDevice(w: World, devs: seq<Device>, d: nat)
    requires DevsRep(w.devs, w.reqs, devs) && d < |devs|
    ensures d < |w.devs| && DevIs(w.devs[d], w.reqs, devs[d])
  {
  }

  /** Before the first call: no devices, no connections, no requests. */
  method Start() returns (disks: C.Registry, ghost w: World)
    ensures w == World([], [], [], disks, {}) && Rep(w, Run([]))
  {
    disks := new C.Registry();
    w := World([], [], [], disks, {});
  }

  /** bius_dev_open. */
  method OpenConnection(ghost w: World, ghost s: System, mem: array<byte>) returns (k: C.Connection, ghost w': World)
    requires Rep(w, s)
    ensures fresh(k) && k.mem == mem && w' == w.(conns := w.conns + [k], grips := w.grips + [Nothing])
    ensures Rep(w', Step(s, Open))
  {
    k := new C.Connection(mem);
    w' := w.(conns := w.conns + [k], grips := w.grips + [Nothing]);
    Opened(w, s, k);
  }

  twostate lemma Opened(w: World, new s: System, new k: C.Connection)
    requires old(Rep(w, s)) && fresh(k) && k.blockDev == null && k.waiting == [] && k.sending == null
    requires (forall c :: 0 <= c < |w.conns| ==> unchanged(w.conns[c])) && (forall d :: 0 <= d < |w.devs| ==> unchanged(w.devs[d]))
    requires (forall r :: r in w.reqs ==> unchanged(r)) && unchanged(w.disks)
    ensures Rep(w.(conns := w.conns + [k], grips := w.grips + [Nothing]), Step(s, Open))
  {
    hide OnList, Times, DevsRep, EndsRep, ListRep, DevRep;
    var w', s' := w.(conns := w.conns + [k], grips := w.grips + [Nothing]), Step(s, Open);
    forall c | 0 <= c < |s'.conns| ensures ConnIs(w.devs, w.reqs, w'.grips[c], w'.conns[c], s'.conns[c]) {
      if c < |s.conns| {
        assert old(ConnIs(w.devs, w.reqs, w.grips[c], w.conns[c], s.conns[c]));
      }
    }
    DevsSame(w, s);
    SameListing(w, s, s');
  }

  twostate lemma DevsSame(w: World, new s: System)
    requires old(DevsRep(w.devs, w.reqs, s.devs)) && old(EndsRep(w.reqs, s.ended))
    requires (forall d :: 0 <= d < |w.devs| ==> unchanged(w.devs[d])) && (forall r :: r in w.reqs ==> unchanged(r))
    ensures DevsRep(w.devs, w.reqs, s.devs) && EndsRep(w.reqs, s.ended)
  {
    hide Times;
    forall d | 0 <= d < |s.devs| ensures DevIs(w.devs[d], w.reqs, s.devs[d]) {
      assert old(DevIs(w.devs[d], w.reqs, s.devs[d]));
    }
  }

  twostate lemma SameListing(w: World, new s: System, new s': System)
    requires old(ListRep(w.disks, w.devs, s)) && unchanged(w.disks) && s'.devs == s.devs && s'.intact == s.intact
    ensures ListRep(w.disks, w.devs, s')
  {
  }

  /** The section of create_block_device under the list lock. */
  method AddDevice(ghost w: World, ghost s: System, ghost c: nat, disks: C.Registry, name: string)
    returns (device: C.Device, ghost w': World)
    requires Rep(w, s) && Unbound(s, c) && disks == w.disks && c < |w.grips|
    modifies disks
    ensures fresh(device) && w' == Gripped(w.(devs := w.devs + [device]), c, w.grips[c].(device := device))
    ensures Rep(w', Step(s, Protocol.List(c, name)))
  {
    device := new C.Device(name);
    disks.Add(device);
    w' := Gripped(w.(devs := w.devs + [device]), c, w.grips[c].(device := device));
    Added(w, s, c, name, device);
  }

  twostate lemma Added(w: World, new s: System, new c: nat, new name: string, new device: C.Device)
    requires old(Rep(w, s)) && Unbound(s, c) && c < |w.grips|
    requires fresh(device) && device.name == name && device.pending == [] && device.numConnection == 0
    requires w.disks.list == old(w.disks.list) + [device]
    requires (forall c :: 0 <= c < |w.conns| ==> unchanged(w.conns[c])) && (forall d :: 0 <= d < |w.devs| ==> unchanged(w.devs[d]))
    requires forall r :: r in w.reqs ==> unchanged(r)
    ensures Rep(Gripped(w.(devs := w.devs + [device]), c, w.grips[c].(device := device)), Step(s, Protocol.List(c, name)))
  {
    hide OnList, Times, EndsRep;
    var w', s' := Gripped(w.(devs := w.devs + [device]), c, w.grips[c].(device := device)), Step(s, Protocol.List(c, name));
    DevsSame(w, s);
    assert DevIs(device, w.reqs, s'.devs[|s.devs|]);
    AddedConns(w, s.conns, c, device);
    OnListSnoc(w.devs, s.devs, device, s'.devs[|s.devs|]);
  }

  twostate lemma AddedConns(w: World, new states: seq<Connection>, new c: nat, new device: C.Device)
    requires old(ConnsRep(w.devs, w.reqs, w.grips, w.conns, states)) && c < |states| && states[c].hand.Empty?
    requires forall b :: 0 <= b < |w.conns| ==> unchanged(w.conns[b])
    ensures |w.grips| == |states|
    ensures ConnsRep(w.devs + [device], w.reqs, w.grips[c := w.grips[c].(device := device)], w.conns,
                     states[c := states[c].(hand := Made(|w.devs|))])
  {
    hide Ids, Among;
    var grips, states' := w.grips[c := w.grips[c].(device := device)], states[c := states[c].(hand := Made(|w.devs|))];
    forall b | 0 <= b < |states| ensures ConnIs(w.devs + [device], w.reqs, grips[b], w.conns[b], states'[b]) {
      assert old(ConnIs(w.devs, w.reqs, w.grips[b], w.conns[b], states[b]));
    }
  }

  lemma OnListSnoc(devs: seq<C.Device>, states: seq<Device>, device: C.Device, dev: Device)
    requires |devs| == |states|
    ensures OnList(devs + [device], states + [dev]) == OnList(devs, states) + if dev.listed then [device] else []
  {
    assert (devs + [device])[..|devs|] == devs && (states + [dev])[..|devs|] == states;
  }

  lemma NamesMatch(w: World, s: System)
    requires Rep(w, s)
    ensures SameNames(w.devs, s.devs)
  {
    forall i | 0 <= i < |s.devs| ensures w.devs[i].name == s.devs[i].name {
      assert DevIs(w.devs[i], w.reqs, s.devs[i]);
    }
  }

  /** What the search of an intact list finds. */
  lemma Searched(w: World, s: System, name: string)
    requires Rep(w, s) && s.intact
    ensures var list, d := w.disks.list, Newest(s.devs, name); var k := C.NewestNamed(list, name);
      (k == |list| <==> d == |s.devs|) && (k < |list| ==> d < |w.devs| && list[k] == w.devs[d])
  {
    NamesMatch(w, s);
    SameNewest(w.devs, s.devs, name);
  }

  /** get_block_device of a call that connects. */
  method FindDevice(ghost w: World, ghost s: System, ghost c: nat, disks: C.Registry, name: string)
    returns (device: C.Device?, ghost w': World)
    requires Rep(w, s) && Unbound(s, c) && s.intact && disks == w.disks && c < |w.grips|
    ensures w' == Gripped(w, c, w.grips[c].(device := device)) && Rep(w', Step(s, Find(c, name)))
    ensures device == null <==> Newest(s.devs, name) == |s.devs|
  {
    Searched(w, s, name);
    device := disks.GetBlockDevice(name);
    w' := Gripped(w, c, w.grips[c].(device := device));
    GraspRep(w, s, c, if device == null then Empty else Found(Newest(s.devs, name)), device);
  }

  /** A call takes a device in hand, or lets go. */
  lemma GraspRep(w: World, s: System, c: nat, hand: Hand, device: C.Device?)
    requires Rep(w, s) && c < |s.conns| && c < |w.grips| && (!hand.Empty? ==> hand.d < |w.devs| && device == w.devs[hand.d])
    ensures Rep(Gripped(w, c, w.grips[c].(device := device)), Grasp(s, c, hand))
  {
    hide OnList, Times, DevsRep, EndsRep, Ids;
    var grips, states := w.grips[c := w.grips[c].(device := device)], s.conns[c := s.conns[c].(hand := hand)];
    forall b | 0 <= b < |states| ensures ConnIs(w.devs, w.reqs, grips[b], w.conns[b], states[b]) {
      assert ConnIs(w.devs, w.reqs, w.grips[b], w.conns[b], s.conns[b]);
    }
  }

  lemma CountedConnection(devs: seq<C.Device>, reqs: set<C.Request>, g: Grip, waiting: seq<C.Request>, sending: C.Request?,
                          conn: Connection, d: nat)
    requires ConnRep(devs, null, waiting, sending, conn) && GripRep(devs, reqs, g, conn) && d < |devs|
    ensures ConnRep(devs, devs[d], waiting, sending, conn.(dev := Some(d), hand := Empty))
    ensures GripRep(devs, reqs, g, conn.(dev := Some(d), hand := Empty))
  {
  }

  lemma CountedDevice(name: string, pending: seq<C.Request>, numConnection: nat, dev: Device)
    requires DevRep(name, pending, numConnection, dev)
    ensures DevRep(name, pending, numConnection + 1, dev.(numConnection := dev.numConnection + 1))
  {
  }

  lemma CountForm(s: System, c: nat)
    requires CanCount(s, c)
    ensures var d := s.conns[c].hand.d;
      Step(s, Count(c)) == Changed(s, c, s.conns[c].(dev := Some(d), hand := Empty), d,
                                   s.devs[d].(numConnection := s.devs[d].numConnection + 1), [], s.intact)
  {
    assert s.ended + [] == s.ended;
  }

  /** A connection about to count itself has no device yet. */
  lemma NotBound(w: World, s: System, c: nat)
    requires Rep(w, s) && Inv(s) && CanCount(s, c)
    ensures s.conns[c].live && c < |w.conns| && w.conns[c].blockDev == null
  {
    Here(w, s, c);
    assert ConnectionOk(s, c);
  }

  /** The section under the connection lock of a call that creates or connects. */
  method CountConnection(ghost w: World, ghost s: System, ghost c: nat, k: C.Connection, device: C.Device) returns (ret: int)
    requires Rep(w, s) && Inv(s) && CanCount(s, c) && c < |w.conns| == |w.grips| && k == w.conns[c] && device == w.grips[c].device
    modifies k`blockDev, device
    ensures Rep(w, Step(s, Count(c)))
  {
    hide Ids, OnList, Times, DevsRep, ConnsRep, EndsRep, ListRep, Distinct, ConnRep, DevRep, GripRep, Among, Inv;
    Here(w, s, c);
    Apart(w, s.nextId);
    NotBound(w, s, c);
    ghost var d, conn, num := s.conns[c].hand.d, s.conns[c], device.numConnection;
    ret := k.Connect(device);
    CountedConnection(w.devs, w.reqs, w.grips[c], k.waiting, k.sending, conn, d);
    CountedDevice(device.name, device.pending, num, s.devs[d]);
    NoEnds(w);
    CountForm(s, c);
    SameList(w, s, Step(s, Count(c)));
    ChangedRep(w, s, c, conn.(dev := Some(d), hand := Empty), w.grips[c], d,
               s.devs[d].(numConnection := s.devs[d].numConnection + 1), [], s.intact);
    assert Gripped(w, c, w.grips[c]) == w;
  }

  // ---------------------------------------------------------------------------------------------
  // And go

  lemma WaitingDistinct(w: World, s: System, c: nat)
    requires Rep(w, s) && Inv(s) && c < |s.conns| && s.conns[c].live
    ensures c < |w.conns| && C.Distinct(w.conns[c].waiting) && s.conns[c].waiting == Ids(w.conns[c].waiting)
  {
    Here(w, s, c);
    hide Inv, Times;
    forall r | r in w.conns[c].waiting ensures Times(Ids(w.conns[c].waiting), r.id) <= 1 {
      assert r.id in s.conns[c].waiting;
      WaitsOnce(s, c, r.id);
    }
    OnceDistinct(w.conns[c].waiting);
  }

  /** What release asks for. */
  lemma MayDrop(w: World, s: System, c: nat)
    requires Rep(w, s) && Inv(s) && CanDrop(s, c)
    ensures |w.conns| == |w.grips| == |s.conns|
    ensures Ready(s, c) <==> w.conns[c].blockDev != null
    ensures w.conns[c].blockDev != null ==> 0 < w.conns[c].blockDev.numConnection
  {
    Here(w, s, c);
    if s.conns[c].dev.Some? {
      assert DeviceOk(s, s.conns[c].dev.value) by { assert ConnectionOk(s, c); }
      ConnectedSome(s.conns, c, s.conns[c].dev.value);
    }
  }

  lemma GoneConnection(devs: seq<C.Device>, reqs: set<C.Request>, g: Grip, conn: Connection, hand: Hand)
    requires GripRep(devs, reqs, g, conn) && (!hand.Empty? ==> hand.d < |devs|)
    ensures GripRep(devs, reqs, g.(device := if hand.Empty? then null else devs[hand.d]), Gone(conn, hand))
  {
  }

  lemma FewerDevice(name: string, pending: seq<C.Request>, numConnection: nat, dev: Device)
    requires DevRep(name, pending, numConnection, dev) && 0 < numConnection
    ensures DevRep(name, pending, numConnection - 1, Fewer(dev)) && (numConnection == 1 <==> dev.numConnection == 1)
  {
  }

  lemma DropForm(s: System, c: nat)
    requires CanDrop(s, c)
    ensures Ready(s, c) ==>
              var d := s.conns[c].dev.value; var hand := if s.devs[d].numConnection == 1 then Left(d) else Empty;
              Step(s, Protocol.Drop(c)) == Changed(s, c, Gone(s.conns[c], hand), d, Fewer(s.devs[d]), s.conns[c].waiting, s.intact)
    ensures !Ready(s, c) ==>
              Step(s, Protocol.Drop(c)) == SetConn(s, c, Gone(s.conns[c], Empty)).(ended := s.ended + s.conns[c].waiting)
  {
  }

  /** A list of requests ends. */
  twostate lemma ManyEnd(w: World, new nextId: nat, new list: seq<C.Request>)
    requires Distinct(w, nextId) && C.Distinct(list) && Among(list, w.reqs)
    requires forall r :: r in w.reqs ==> r.ends == old(r.ends) + if r in list then 1 else 0
    ensures Ended(w, Ids(list))
  {
    forall r | r in w.reqs ensures r.ends == old(r.ends) + Times(Ids(list), r.id) {
      TimesIds(list, r);
    }
  }

  /** bius_dev_release up to the end of its section under the connection lock. */
  method DropConnection(ghost w: World, ghost s: System, ghost c: nat, k: C.Connection) returns (last: bool, ghost w': World)
    requires Rep(w, s) && Inv(s) && CanDrop(s, c) && c < |w.conns| == |w.grips| && k == w.conns[c]
    modifies k.waiting, k.blockDev
    ensures w' == Gripped(w, c, w.grips[c].(device := if last then old(k.blockDev) else null))
    ensures Rep(w', Step(s, Protocol.Drop(c))) && (last <==> Step(s, Protocol.Drop(c)).conns[c].hand.Left?)
  {
    hide Ids, OnList, Times, DevsRep, ConnsRep, EndsRep, ListRep, Distinct, ConnRep, DevRep, GripRep, Among, Inv, C.Distinct;
    Here(w, s, c);
    Apart(w, s.nextId);
    MayDrop(w, s, c);
    WaitingDistinct(w, s, c);
    ghost var conn, device := s.conns[c], k.blockDev;
    ghost var num := if device == null then 0 else device.numConnection;
    last := k.Drop();
    DropForm(s, c);
    ManyEnd(w, s.nextId, k.waiting);
    w' := Gripped(w, c, w.grips[c].(device := if last then k.blockDev else null));
    if device == null {
      GoneConnection(w.devs, w.reqs, w.grips[c], conn, Empty);
      CallRep(w, s, c, Gone(conn, Empty), w.grips[c].(device := null), conn.waiting);
    } else {
      ghost var d := conn.dev.value;
      ghost var hand := if s.devs[d].numConnection == 1 then Left(d) else Empty;
      FewerDevice(device.name, device.pending, num, s.devs[d]);
      GoneConnection(w.devs, w.reqs, w.grips[c], conn, hand);
      SameList(w, s, Step(s, Protocol.Drop(c)));
      ChangedRep(w, s, c, Gone(conn, hand), w.grips[c].(device := if last then device else null), d, Fewer(s.devs[d]),
                 conn.waiting, s.intact);
    }
  }

  /** get_block_device of a removal. */
  method SearchDevice(ghost w: World, ghost s: System, ghost c: nat, disks: C.Registry, left: C.Device)
    returns (device: C.Device?, ghost w': World)
    requires Rep(w, s) && CanSearch(s, c) && s.intact && disks == w.disks && c < |w.grips| && left == w.grips[c].device
    ensures w' == Gripped(w, c, w.grips[c].(device := device)) && Rep(w', Step(s, Protocol.Search(c)))
    ensures device == null <==> Newest(s.devs, left.name) == |s.devs|
  {
    Here(w, s, c);
    NamesMatch(w, s);
    Searched(w, s, left.name);
    device := disks.GetBlockDevice(left.name);
    w' := Gripped(w, c, w.grips[c].(device := device));
    GraspRep(w, s, c, if device == null then Empty else Marked(Newest(s.devs, left.name)), device);
  }

  lemma UnlinkForm(s: System, c: nat)
    requires CanUnlink(s, c)
    ensures var k := s.conns[c].hand.d;
      Step(s, Protocol.Unlink(c))
      == Changed(s, c, s.conns[c].(hand := Unlinked(k)), k, s.devs[k].(listed := false), [], s.intact && s.devs[k].listed)
  {
    assert s.ended + [] == s.ended;
  }

  lemma SameGrip(devs: seq<C.Device>, reqs: set<C.Request>, g: Grip, c: C.Connection, conn: Connection, hand: Hand)
    requires ConnIs(devs, reqs, g, c, conn) && (!hand.Empty? ==> !conn.hand.Empty? && hand.d == conn.hand.d)
    ensures ConnIs(devs, reqs, g, c, conn.(hand := hand))
  {
  }

  lemma DeviceSame(d: C.Device, reqs: set<C.Request>, dev: Device, listed: bool, gone: bool)
    requires DevIs(d, reqs, dev)
    ensures DevIs(d, reqs, dev.(listed := listed, gone := gone))
  {
  }

  /** The list once device k is off it. */
  lemma UnlistedAt(w: World, s: System, k: nat)
    requires Rep(w, s) && s.intact && k < |s.devs|
    ensures var list := w.disks.list; var p := C.PlaceOf(list, w.devs[k]);
      |w.devs| == |s.devs| && OnList(w.devs, s.devs[k := s.devs[k].(listed := false)]) == if p == |list| then list else C.Without(list, p)
  {
    UnlistAt(w.devs, s.devs, k);
  }

  /** list_del. */
  method UnlinkDevice(ghost w: World, ghost s: System, ghost c: nat, disks: C.Registry, device: C.Device)
    requires Rep(w, s) && CanUnlink(s, c) && disks == w.disks && c < |w.grips| && device == w.grips[c].device
    modifies disks
    ensures Rep(w, Step(s, Protocol.Unlink(c)))
  {
    hide Ids, OnList, Times, DevsRep, ConnsRep, EndsRep, ListRep, Distinct, ConnRep, DevRep, GripRep, Among,
         ConnIs, DevIs, C.PlaceOf, C.Without;
    Here(w, s, c);
    ghost var k, conn := s.conns[c].hand.d, s.conns[c];
    if s.intact {
      UnlistedAt(w, s, k);
    }
    disks.Unlink(device);
    UnlinkForm(s, c);
    SameGrip(w.devs, w.reqs, w.grips[c], w.conns[c], conn, Unlinked(k));
    DeviceSame(device, w.reqs, s.devs[k], false, s.devs[k].gone);
    NoEnds(w);
    ListNow(w, Step(s, Protocol.Unlink(c)));
    ChangedRep(w, s, c, conn.(hand := Unlinked(k)), w.grips[c], k, s.devs[k].(listed := false), [], s.intact && s.devs[k].listed);
    assert Gripped(w, c, w.grips[c]) == w;
  }

  lemma ListNow(w: World, s: System)
    requires |w.devs| == |s.devs| && (s.intact ==> w.disks.list == OnList(w.devs, s.devs))
    ensures ListRep(w.disks, w.devs, s)
  {
  }

  lemma EndForm(s: System, c: nat)
    requires CanEnd(s, c)
    ensures var k := s.conns[c].hand.d;
      Step(s, Protocol.EndPending(c))
      == Changed(s, c, s.conns[c].(hand := Empty), k, s.devs[k].(gone := true), s.devs[k].pending, s.intact)
  {
  }

  /** Ids increase along the pending list. */
  lemma PendingDistinct(s: System, d: nat, list: seq<C.Request>)
    requires Inv(s) && d < |s.devs| && s.devs[d].pending == Ids(list)
    ensures C.Distinct(list)
  {
    assert DeviceOk(s, d);
    var dev := s.devs[d];
    forall i, j | 0 <= i < j < |list| ensures list[i] != list[j] {
      assert dev.accepted[|dev.taken| + i] == list[i].id && dev.accepted[|dev.taken| + j] == list[j].id;
    }
  }

  lemma PendingIds(d: C.Device, reqs: set<C.Request>, dev: Device)
    requires DevIs(d, reqs, dev)
    ensures dev.pending == Ids(d.pending) && Among(d.pending, reqs)
  {
  }

  /** What is pending on a device taken off the list ends. */
  method EndPendingRequests(ghost w: World, ghost s: System, ghost c: nat, device: C.Device) returns (ghost w': World)
    requires Rep(w, s) && Inv(s) && CanEnd(s, c) && c < |w.grips| && device == w.grips[c].device
    modifies device.pending
    ensures w' == Gripped(w, c, w.grips[c].(device := null)) && Rep(w', Step(s, Protocol.EndPending(c)))
  {
    hide Ids, OnList, Times, DevsRep, ConnsRep, EndsRep, ListRep, Distinct, ConnRep, DevRep, GripRep, Among, ConnIs, DevIs, Inv, C.Distinct;
    Here(w, s, c);
    ghost var k, conn := s.conns[c].hand.d, s.conns[c];
    PendingIds(device, w.reqs, s.devs[k]);
    PendingDistinct(s, k, device.pending);
    C.EndAll(device.pending);
    EndForm(s, c);
    w' := Gripped(w, c, w.grips[c].(device := null));
    LetGo(w.devs, w.reqs, w.grips[c], w.conns[c], conn);
    DeviceSame(device, w.reqs, s.devs[k], s.devs[k].listed, true);
    ManyEnd(w, s.nextId, device.pending);
    SameList(w, s, Step(s, Protocol.EndPending(c)));
    ChangedRep(w, s, c, conn.(hand := Empty), w.grips[c].(device := null), k, s.devs[k].(gone := true), s.devs[k].pending, s.intact);
  }

  lemma LetGo(devs: seq<C.Device>, reqs: set<C.Request>, g: Grip, c: C.Connection, conn: Connection)
    requires ConnIs(devs, reqs, g, c, conn)
    ensures ConnIs(devs, reqs, g.(device := null), c, conn.(hand := Empty))
  {
  }

  // ---------------------------------------------------------------------------------------------
  // What the claims say of the objects

  lemma IdsHas(w: World, nextId: nat, list: seq<C.Request>, r: C.Request)
    requires Distinct(w, nextId) && Among(list, w.reqs) && r in w.reqs
    ensures r.id in Ids(list) <==> r in list
  {
    if r.id in Ids(list) {
      var i :| 0 <= i < |list| && Ids(list)[i] == r.id;
      assert list[i] == r;
    }
    if r in list {
      var i :| 0 <= i < |list| && list[i] == r;
      assert Ids(list)[i] == r.id;
    }
  }

  /** The connection has the request: it waits there, or a call has it in hand. */
  predicate Has(w: World, s: System, c: nat, r: C.Request)
    requires c < |w.conns| == |w.grips| == |s.conns|
    reads w.conns
  {
    w.grips[c].reading == r || w.grips[c].replying == r || (s.conns[c].live && r in w.conns[c].waiting)
  }

  /** A device that is not deleted has the request pending, or a connection has it. */
  predicate Outstanding(w: World, s: System, r: C.Request)
    requires |w.conns| == |w.grips| == |s.conns| && |w.devs| == |s.devs|
    reads w.devs, w.conns
  {
    || (exists d :: 0 <= d < |w.devs| && !s.devs[d].gone && r in w.devs[d].pending)
    || (exists c :: 0 <= c < |w.conns| && Has(w, s, c, r))
  }

  lemma PendingThere(w: World, s: System, d: nat, r: C.Request)
    requires Rep(w, s) && r in w.reqs && d < |s.devs|
    ensures |w.devs| == |s.devs|
    ensures 0 < PendingOn(s.devs[d], r.id) <==> !s.devs[d].gone && r in w.devs[d].pending
  {
    hide Ids, Times, OnList, Distinct, EndsRep, ConnsRep;
    assert DevIs(w.devs[d], w.reqs, s.devs[d]);
    IdsHas(w, s.nextId, w.devs[d].pending, r);
    TimesIn(s.devs[d].pending, r.id);
  }

  lemma SameRequest(w: World, nextId: nat, q: C.Request?, r: C.Request)
    requires Distinct(w, nextId) && OneOf(q, w.reqs) && r in w.reqs
    ensures 0 < One(IdOf(q), r.id) <==> q == r
  {
  }

  lemma HasIt(w: World, s: System, c: nat, r: C.Request)
    requires Rep(w, s) && Inv(s) && r in w.reqs && c < |s.conns|
    ensures |w.conns| == |w.grips| == |s.conns|
    ensures 0 < Held(s.conns[c], r.id) <==> Has(w, s, c, r)
  {
    Here(w, s, c);
    assert ConnectionOk(s, c);
    hide Inv, Ids, Times, OnList, Distinct, EndsRep, DevsRep, ConnsRep;
    SameRequest(w, s.nextId, w.grips[c].reading, r);
    SameRequest(w, s.nextId, w.grips[c].replying, r);
    TimesIn(s.conns[c].waiting, r.id);
    if s.conns[c].live {
      IdsHas(w, s.nextId, w.conns[c].waiting, r);
    } else {
      assert Held(s.conns[c], r.id) == 0;
    }
  }

  /** Where the protocol has the request, the objects have it. */
  lemma Located(w: World, s: System, r: C.Request)
    requires Rep(w, s) && Inv(s) && r in w.reqs && Times(s.ended, r.id) == 0
    ensures |w.conns| == |w.grips| == |s.conns| && |w.devs| == |s.devs| && Outstanding(w, s, r)
  {
    assert OnePlace(s, r.id);
    hide Inv, Ids, Times, EndsRep, OnList, DevsRep, ConnsRep, Held, PendingOn, Has;
    if 0 < AllPending(s.devs, r.id) {
      var d := InSomePending(s.devs, r.id);
      PendingThere(w, s, d, r);
    } else {
      var c := HeldBySome(s.conns, r.id);
      Sizes(w, s);
      HasIt(w, s, c, r);
    }
  }

  lemma Sizes(w: World, s: System)
    requires Rep(w, s)
    ensures |w.conns| == |w.grips| == |s.conns| && |w.devs| == |s.devs|
  {
  }

  /** And where it is in the objects, it has not ended. */
  lemma NotEnded(w: World, s: System, r: C.Request)
    requires Rep(w, s) && Inv(s) && r in w.reqs && |w.conns| == |w.grips| == |s.conns| && |w.devs| == |s.devs|
    requires Outstanding(w, s, r)
    ensures Times(s.ended, r.id) == 0
  {
    assert OnePlace(s, r.id);
    hide Inv, Ids, Times, EndsRep, OnList, DevsRep, ConnsRep, Held, PendingOn, Has;
    if c :| 0 <= c < |w.conns| && Has(w, s, c, r) {
      HasIt(w, s, c, r);
      HeldUpdate(s.conns, c, Connection(false, None, Empty, [], None, None, None), r.id);
    } else {
      var d :| 0 <= d < |w.devs| && !s.devs[d].gone && r in w.devs[d].pending;
      PendingThere(w, s, d, r);
      PendingUpdate(s.devs, d, Created(""), r.id);
    }
  }

  /** Every request ends at most once, and has ended exactly if nothing has it any more. */
  lemma EndsOnce(w: World, s: System, r: C.Request)
    requires Rep(w, s) && Inv(s) && r in w.reqs
    ensures |w.conns| == |w.grips| == |s.conns| && |w.devs| == |s.devs|
    ensures r.ends <= 1 && (r.ends == 0 <==> Outstanding(w, s, r))
  {
    assert OnePlace(s, r.id);
    Sizes(w, s);
    hide Inv, Times, OnList, DevsRep, ConnsRep, Outstanding;
    if r.ends == 0 {
      Located(w, s, r);
    }
    if Outstanding(w, s, r) {
      NotEnded(w, s, r);
    }
  }
}
