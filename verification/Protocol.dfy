/**
 * Requests between the block layer and the user, over all runs: pending on a device, in a read call,
 * waiting on a connection, in a write call, ended. Every section under a lock in kernel/block_dev.c
 * and kernel/char_dev.c is a step of its own, with what the call does outside locks before or after it.
 */
module Protocol {
  import opened Wrappers

  /**
   * accepted and taken record what went into and out of pending; listed: on all_disk_list; gone: what
   * was pending has been ended and the disk is deleted.
   */
  datatype Device = Device(name: string, pending: seq<nat>, numConnection: int, listed: bool, gone: bool,
                           accepted: seq<nat>, taken: seq<nat>)

  /** The device a call has in hand between two of its sections, and how far it is. */
  datatype Hand =
    | Empty
    | Made(d: nat)       // BIUS_CREATE has put it on the list
    | Found(d: nat)      // BIUS_CONNECT has found it
    | Left(d: nat)       // bius_dev_release has counted its last connection down
    | Marked(d: nat)     // remove_block_device has found it under the name of the device left
    | Unlinked(d: nat)   // and has taken it off the list

  /** reading, replying: the request a read or write call has in hand. */
  datatype Connection = Connection(live: bool, dev: Option<nat>, hand: Hand, waiting: seq<nat>,
                                   reading: Option<nat>, replying: Option<nat>, sending: Option<nat>)

  /** intact: list_del was never called for a device that was off the list. */
  datatype System = System(devs: seq<Device>, conns: seq<Connection>, nextId: nat, ended: seq<nat>, intact: bool)

  datatype Action =
    | Open                                  // bius_dev_open
    | List(c: nat, name: string)            // BIUS_CREATE on connection c: the new device goes on the list
    | Find(c: nat, name: string)            // BIUS_CONNECT: get_block_device
    | Count(c: nat)                         // either: num_connection++
    | Queue(d: nat)                         // bius_queue_rq of a supported operation
    | Take(c: nat, streams: bool)           // bius_dev_read takes the first pending request
    | Sent(c: nat, ok: bool)                // its header was copied out, or not
    | Streamed(c: nat)                      // the last byte of its payload was read
    | TakeReply(c: nat, id: nat)            // bius_dev_write finds the request
    | EndReply(c: nat)                      // and ends it
    | Drop(c: nat)                          // bius_dev_release ends what waits: num_connection--
    | Search(c: nat)                        // remove_block_device: get_block_device
    | Unlink(c: nat)                        // list_del
    | EndPending(c: nat)                    // what is still pending ends

  // ---------------------------------------------------------------------------------------------
  // Steps; an action that is not possible changes nothing

  /** get_block_device: the newest listed device of that name; |devs| for NULL. */
  function Newest(devs: seq<Device>, name: string): (k: nat)
    ensures k <= |devs| && (k < |devs| ==> devs[k].listed && devs[k].name == name)
    ensures forall i :: (if k < |devs| then k < i else 0 <= i) && i < |devs| ==> !(devs[i].listed && devs[i].name == name)
  {
    if devs == [] then 0
    else
      var n := |devs| - 1;
      if devs[n].listed && devs[n].name == name then n
      else
        var k := Newest(devs[..n], name);
        if k == n then |devs| else k
  }

  predicate Ready(s: System, c: nat) {
    c < |s.conns| && s.conns[c].live && s.conns[c].dev.Some? && s.conns[c].dev.value < |s.devs|
  }

  function SetConn(s: System, c: nat, conn: Connection): System
    requires c < |s.conns|
  {
    s.(conns := s.conns[c := conn])
  }

  function SetDev(s: System, d: nat, dev: Device): System
    requires d < |s.devs|
  {
    s.(devs := s.devs[d := dev])
  }

  function Index(list: seq<nat>, id: nat): (k: nat)
    ensures k <= |list| && (k < |list| ==> list[k] == id) && (k == |list| ==> id !in list)
  {
    if list == [] then 0 else if list[0] == id then 0 else 1 + Index(list[1..], id)
  }

  function DoTake(s: System, c: nat, streams: bool): System
    requires Ready(s, c)
  {
    var conn, d := s.conns[c], s.conns[c].dev.value;
    var dev := s.devs[d];
    if conn.reading.Some? || conn.sending.Some? || dev.pending == [] then s
    else
      var r := dev.pending[0];
      SetConn(SetDev(s, d, dev.(pending := dev.pending[1..], taken := dev.taken + [r])), c,
              conn.(reading := Some(r), sending := if streams then Some(r) else None))
  }

  function DoSent(s: System, c: nat, ok: bool): System
    requires Ready(s, c) && s.conns[c].reading.Some?
  {
    var conn := s.conns[c];
    var r := conn.reading.value;
    if ok then SetConn(s, c, conn.(reading := None, waiting := conn.waiting + [r]))
    else SetConn(s, c, conn.(reading := None, sending := None)).(ended := s.ended + [r])
  }

  function DoTakeReply(s: System, c: nat, id: nat): System
    requires Ready(s, c)
  {
    var conn := s.conns[c];
    var k := Index(conn.waiting, id);
    if conn.replying.Some? || k == |conn.waiting| then s
    else
      SetConn(s, c, conn.(waiting := conn.waiting[..k] + conn.waiting[k + 1..], replying := Some(id),
                          sending := if conn.sending == Some(id) then None else conn.sending))
  }

  /** A new connection can start an initialisation. */
  predicate Unbound(s: System, c: nat) {
    c < |s.conns| && s.conns[c].live && s.conns[c].dev.None? && s.conns[c].hand.Empty?
  }

  predicate CanCount(s: System, c: nat) {
    c < |s.conns| && (s.conns[c].hand.Made? || s.conns[c].hand.Found?) && s.conns[c].hand.d < |s.devs|
  }

  function DoCount(s: System, c: nat): System
    requires CanCount(s, c)
  {
    var d := s.conns[c].hand.d;
    SetDev(SetConn(s, c, s.conns[c].(dev := Some(d), hand := Empty)), d,
           s.devs[d].(numConnection := s.devs[d].numConnection + 1))
  }

  /** Release runs when no call is in flight on its connection. */
  predicate CanDrop(s: System, c: nat) {
    c < |s.conns| && s.conns[c].live && s.conns[c].hand.Empty? && s.conns[c].reading.None? && s.conns[c].replying.None?
  }

  /** The connection once it is released; hand: what is left to do. */
  function Gone(conn: Connection, hand: Hand): Connection {
    conn.(live := false, dev := None, waiting := [], sending := None, hand := hand)
  }

  function Fewer(dev: Device): Device {
    dev.(numConnection := dev.numConnection - 1)
  }

  function DoDrop(s: System, c: nat): System
    requires CanDrop(s, c)
  {
    var s1 := s.(ended := s.ended + s.conns[c].waiting);
    if !Ready(s, c) then SetConn(s1, c, Gone(s.conns[c], Empty))
    else
      var d := s.conns[c].dev.value;
      SetDev(SetConn(s1, c, Gone(s.conns[c], if s.devs[d].numConnection == 1 then Left(d) else Empty)), d, Fewer(s.devs[d]))
  }

  predicate CanSearch(s: System, c: nat) {
    c < |s.conns| && s.conns[c].hand.Left? && s.conns[c].hand.d < |s.devs|
  }

  function Grasp(s: System, c: nat, hand: Hand): System
    requires c < |s.conns|
  {
    SetConn(s, c, s.conns[c].(hand := hand))
  }

  function DoSearch(s: System, c: nat): System
    requires CanSearch(s, c)
  {
    var k := Newest(s.devs, s.devs[s.conns[c].hand.d].name);
    Grasp(s, c, if k == |s.devs| then Empty else Marked(k))
  }

  predicate CanUnlink(s: System, c: nat) {
    c < |s.conns| && s.conns[c].hand.Marked? && s.conns[c].hand.d < |s.devs|
  }

  function DoUnlink(s: System, c: nat): System
    requires CanUnlink(s, c)
  {
    var k := s.conns[c].hand.d;
    SetDev(Grasp(s, c, Unlinked(k)), k, s.devs[k].(listed := false)).(intact := s.intact && s.devs[k].listed)
  }

  predicate CanEnd(s: System, c: nat) {
    c < |s.conns| && s.conns[c].hand.Unlinked? && s.conns[c].hand.d < |s.devs|
  }

  function DoEnd(s: System, c: nat): System
    requires CanEnd(s, c)
  {
    var k := s.conns[c].hand.d;
    SetDev(Grasp(s, c, Empty), k, s.devs[k].(gone := true)).(ended := s.ended + s.devs[k].pending)
  }

  function Step(s: System, a: Action): System {
    match a
    case Open => s.(conns := s.conns + [Connection(true, None, Empty, [], None, None, None)])
    case List(c, name) =>
      if Unbound(s, c) then Grasp(s, c, Made(|s.devs|)).(devs := s.devs + [Device(name, [], 0, true, false, [], [])]) else s
    case Find(c, name) =>
      if Unbound(s, c) && Newest(s.devs, name) < |s.devs| then Grasp(s, c, Found(Newest(s.devs, name))) else s
    case Count(c) => if CanCount(s, c) then DoCount(s, c) else s
    case Queue(d) =>
      if d < |s.devs| && !s.devs[d].gone then
        var id := s.nextId + 1;
        SetDev(s, d, s.devs[d].(pending := s.devs[d].pending + [id], accepted := s.devs[d].accepted + [id])).(nextId := id)
      else s
    case Take(c, streams) => if Ready(s, c) then DoTake(s, c, streams) else s
    case Sent(c, ok) => if Ready(s, c) && s.conns[c].reading.Some? then DoSent(s, c, ok) else s
    case Streamed(c) => if Ready(s, c) then SetConn(s, c, s.conns[c].(sending := None)) else s
    case TakeReply(c, id) => if Ready(s, c) then DoTakeReply(s, c, id) else s
    case EndReply(c) =>
      if Ready(s, c) && s.conns[c].replying.Some? then
        SetConn(s, c, s.conns[c].(replying := None)).(ended := s.ended + [s.conns[c].replying.value])
      else s
    case Drop(c) => if CanDrop(s, c) then DoDrop(s, c) else s
    case Search(c) => if CanSearch(s, c) then DoSearch(s, c) else s
    case Unlink(c) => if CanUnlink(s, c) then DoUnlink(s, c) else s
    case EndPending(c) => if CanEnd(s, c) then DoEnd(s, c) else s
  }

  function Run(actions: seq<Action>): System {
    if actions == [] then System([], [], 0, [], true)
    else Step(Run(actions[..|actions| - 1]), actions[|actions| - 1])
  }

  // ---------------------------------------------------------------------------------------------
  // Where the requests are

  function Times(list: seq<nat>, r: nat): nat {
    multiset(list)[r]
  }

  function One(o: Option<nat>, r: nat): nat {
    if o == Some(r) then 1 else 0
  }

  /** How often a connection has request r. */
  function Held(conn: Connection, r: nat): nat {
    Times(conn.waiting, r) + One(conn.reading, r) + One(conn.replying, r)
  }

  /** How often r is pending on a device; what a deleted device had is history. */
  function PendingOn(dev: Device, r: nat): nat {
    if dev.gone then 0 else Times(dev.pending, r)
  }

  function AllPending(devs: seq<Device>, r: nat): nat {
    if devs == [] then 0 else AllPending(devs[..|devs| - 1], r) + PendingOn(devs[|devs| - 1], r)
  }

  function AllHeld(conns: seq<Connection>, r: nat): nat {
    if conns == [] then 0 else AllHeld(conns[..|conns| - 1], r) + Held(conns[|conns| - 1], r)
  }

  /** In how many places request r is: pending, in a call, waiting, ended. */
  function Places(s: System, r: nat): nat {
    AllPending(s.devs, r) + AllHeld(s.conns, r) + Times(s.ended, r)
  }

  /** Every accepted request is in exactly one place, and nothing else is anywhere. */
  predicate OnePlace(s: System, r: nat) {
    Places(s, r) == if 1 <= r <= s.nextId then 1 else 0
  }

  function On(conn: Connection, d: nat): nat {
    if conn.live && conn.dev == Some(d) then 1 else 0
  }

  /** The live initialised connections of device d. */
  function Connected(conns: seq<Connection>, d: nat): nat {
    if conns == [] then 0 else Connected(conns[..|conns| - 1], d) + On(conns[|conns| - 1], d)
  }

  /** How many calls have a device in hand like this. */
  function Holders(conns: seq<Connection>, hand: Hand): nat {
    if conns == [] then 0 else Holders(conns[..|conns| - 1], hand) + if conns[|conns| - 1].hand == hand then 1 else 0
  }

  predicate Increasing(list: seq<nat>) {
    forall i, j :: 0 <= i < j < |list| ==> list[i] < list[j]
  }

  predicate DeviceOk(s: System, d: nat)
    requires d < |s.devs|
  {
    var dev := s.devs[d];
    && dev.numConnection == Connected(s.conns, d) && dev.accepted == dev.taken + dev.pending
    && Increasing(dev.accepted) && (forall r :: r in dev.accepted ==> 1 <= r <= s.nextId)
    && (dev.gone ==> !dev.listed)
    && (s.intact ==> Holders(s.conns, Unlinked(d)) == if dev.listed || dev.gone then 0 else 1)
  }

  ghost predicate HoldsOf(conn: Connection, accepted: seq<nat>) {
    forall r: nat :: 0 < Held(conn, r) ==> r in accepted
  }

  ghost predicate HoldsNothing(conn: Connection) {
    forall r: nat :: Held(conn, r) == 0
  }

  /** A device in hand exists, and the connection is not initialised yet or released already. */
  predicate HandOk(s: System, conn: Connection) {
    !conn.hand.Empty? ==>
      && conn.hand.d < |s.devs| && conn.dev.None? && (conn.live <==> conn.hand.Made? || conn.hand.Found?)
      && (conn.hand.Unlinked? ==> !s.devs[conn.hand.d].listed)
  }

  ghost predicate ConnectionOk(s: System, c: nat)
    requires c < |s.conns|
  {
    var conn := s.conns[c];
    && HandOk(s, conn)
    && (conn.dev.Some? ==> conn.live && conn.dev.value < |s.devs| && HoldsOf(conn, s.devs[conn.dev.value].accepted))
    && (conn.dev.None? ==> HoldsNothing(conn))
    && (conn.sending.Some? ==> conn.sending == conn.reading || conn.sending.value in conn.waiting)
  }

  /** No request is accepted by two devices. */
  predicate AllApart(devs: seq<Device>) {
    forall i, j :: 0 <= i < j < |devs| ==> TwoApart(devs[i], devs[j])
  }

  predicate TwoApart(a: Device, b: Device) {
    forall r :: r in a.accepted ==> r !in b.accepted
  }

  ghost predicate Inv(s: System) {
    && (forall r: nat :: OnePlace(s, r)) && AllApart(s.devs)
    && (forall d :: 0 <= d < |s.devs| ==> DeviceOk(s, d))
    && (forall c :: 0 <= c < |s.conns| ==> ConnectionOk(s, c))
  }

  // ---------------------------------------------------------------------------------------------
  // The list of devices

  /** Somebody is connected, or the call that made the device is about to count itself. */
  predicate InUse(s: System, d: nat)
    requires d < |s.devs|
  {
    s.devs[d].numConnection != 0 || 0 < Holders(s.conns, Made(d))
  }

  /** How many removals are on their way to device d: by its own last connection, or having found it. */
  function Leavers(conns: seq<Connection>, d: nat): nat {
    Holders(conns, Left(d)) + Holders(conns, Marked(d))
  }

  /** A device in use is on the list, and one that is not is there only while a removal is on its way. */
  predicate ListedRight(s: System, d: nat)
    requires d < |s.devs|
  {
    (InUse(s, d) ==> s.devs[d].listed) && (s.devs[d].listed ==> InUse(s, d) || 0 < Leavers(s.conns, d))
  }

  predicate Listing(s: System) {
    s.intact && forall d :: 0 <= d < |s.devs| ==> ListedRight(s, d)
  }

  // ---------------------------------------------------------------------------------------------
  // Guards a run may or may not keep

  predicate CanTake(s: System, c: nat) {
    && Ready(s, c) && s.conns[c].reading.None? && s.conns[c].sending.None?
    && s.devs[s.conns[c].dev.value].pending != []
  }

  /** Requests are taken or ended only on a device whose requests have not been ended. */
  predicate StillThere(s: System, a: Action) {
    && (a.Take? && CanTake(s, a.c) ==> !s.devs[s.conns[a.c].dev.value].gone)
    && (a.EndPending? && CanEnd(s, a.c) && s.devs[s.conns[a.c].hand.d].pending != [] ==> !s.devs[s.conns[a.c].hand.d].gone)
  }

  /** A call counts itself on a device that is still on the list. */
  predicate CountListed(s: System, a: Action) {
    a.Count? && CanCount(s, a.c) ==> s.devs[s.conns[a.c].hand.d].listed
  }

  /** The only removal on its way to a device nobody uses finds that device, not a newer namesake. */
  predicate OwnSearch(s: System, a: Action) {
    a.Search? && CanSearch(s, a.c) ==>
      var d := s.conns[a.c].hand.d;
      s.devs[d].listed && !InUse(s, d) && Leavers(s.conns, d) == 1 ==> Newest(s.devs, s.devs[d].name) == d
  }

  /** What is taken off the list is on it, and nobody uses it. */
  predicate IdleUnlink(s: System, a: Action) {
    a.Unlink? && CanUnlink(s, a.c) ==> s.devs[s.conns[a.c].hand.d].listed && !InUse(s, s.conns[a.c].hand.d)
  }

  predicate Orderly(s: System, a: Action) {
    CountListed(s, a) && OwnSearch(s, a) && IdleUnlink(s, a)
  }

  /** Nobody creates a device under a name that is in use. */
  predicate FreshName(s: System, a: Action) {
    a.List? ==> Newest(s.devs, a.name) == |s.devs|
  }

  /** No last release while another call has the device in hand, and no search finds one being removed. */
  predicate Undisturbed(s: System, a: Action) {
    && (a.Drop? && CanDrop(s, a.c) && Ready(s, a.c) && s.devs[s.conns[a.c].dev.value].numConnection == 1 ==>
          var d := s.conns[a.c].dev.value; Holders(s.conns, Made(d)) == Holders(s.conns, Found(d)) == 0)
    && (a.Find? && Newest(s.devs, a.name) < |s.devs| ==> Leavers(s.conns, Newest(s.devs, a.name)) == 0)
  }

  /** Every step of the run keeps the guard. */
  ghost predicate AllSteps(actions: seq<Action>, guard: (System, Action) -> bool) {
    forall i :: 0 <= i < |actions| ==> guard(Run(actions[..i]), actions[i])
  }

  /** Every state of the run, the last included, has the property. */
  ghost predicate Always(actions: seq<Action>, holds: System -> bool) {
    forall i :: 0 <= i <= |actions| ==> holds(Run(actions[..i]))
  }
}
