/** Every step of the protocol keeps every accepted request in exactly one place. */
module ProtocolInvariant {
  import opened Memory
  import opened Wrappers
  import opened Protocol

  // ---------------------------------------------------------------------------------------------
  // Replacing one device or one connection

  lemma {:induction false} PendingUpdate(devs: seq<Device>, d: nat, dev: Device, r: nat)
    requires d < |devs|
    ensures AllPending(devs[d := dev], r) + PendingOn(devs[d], r) == AllPending(devs, r) + PendingOn(dev, r)
  {
    hide PendingOn;
    var n := |devs| - 1;
    if d == n {
      assert devs[d := dev][..n] == devs[..n];
    } else {
      PendingUpdate(devs[..n], d, dev, r);
      assert devs[d := dev][..n] == devs[..n][d := dev];
    }
  }

  lemma {:induction false} HeldUpdate(conns: seq<Connection>, c: nat, conn: Connection, r: nat)
    requires c < |conns|
    ensures AllHeld(conns[c := conn], r) + Held(conns[c], r) == AllHeld(conns, r) + Held(conn, r)
  {
    hide Held;
    var n := |conns| - 1;
    if c == n {
      assert conns[c := conn][..n] == conns[..n];
    } else {
      HeldUpdate(conns[..n], c, conn, r);
      assert conns[c := conn][..n] == conns[..n][c := conn];
    }
  }

  lemma {:induction false} ConnectedUpdate(conns: seq<Connection>, c: nat, conn: Connection, d: nat)
    requires c < |conns|
    ensures Connected(conns[c := conn], d) + On(conns[c], d) == Connected(conns, d) + On(conn, d)
  {
    hide On;
    var n := |conns| - 1;
    if c == n {
      assert conns[c := conn][..n] == conns[..n];
    } else {
      ConnectedUpdate(conns[..n], c, conn, d);
      assert conns[c := conn][..n] == conns[..n][c := conn];
    }
  }

  lemma {:induction false} HoldersUpdate(conns: seq<Connection>, c: nat, conn: Connection, hand: Hand)
    requires c < |conns|
    ensures Holders(conns[c := conn], hand) + (if conns[c].hand == hand then 1 else 0)
         == Holders(conns, hand) + if conn.hand == hand then 1 else 0
  {
    var n := |conns| - 1;
    if c == n {
      assert conns[c := conn][..n] == conns[..n];
    } else {
      HoldersUpdate(conns[..n], c, conn, hand);
      assert conns[c := conn][..n] == conns[..n][c := conn];
    }
  }

  lemma {:induction false} HoldersNone(conns: seq<Connection>, hand: Hand)
    requires forall c :: 0 <= c < |conns| ==> conns[c].hand != hand
    ensures Holders(conns, hand) == 0
  {
    if conns != [] {
      HoldersNone(conns[..|conns| - 1], hand);
    }
  }

  lemma {:induction false} HoldersSome(conns: seq<Connection>, c: nat)
    requires c < |conns|
    ensures 0 < Holders(conns, conns[c].hand)
  {
    var n := |conns| - 1;
    if c < n {
      HoldersSome(conns[..n], c);
    }
  }

  lemma {:induction false} ConnectedNone(conns: seq<Connection>, d: nat)
    requires forall c :: 0 <= c < |conns| ==> conns[c].dev != Some(d)
    ensures Connected(conns, d) == 0
  {
    if conns != [] {
      ConnectedNone(conns[..|conns| - 1], d);
    }
  }

  lemma {:induction false} ConnectedSome(conns: seq<Connection>, c: nat, d: nat)
    requires c < |conns| && conns[c].live && conns[c].dev == Some(d)
    ensures 0 < Connected(conns, d)
  {
    var n := |conns| - 1;
    if c < n {
      ConnectedSome(conns[..n], c, d);
    }
  }

  lemma TimesConcat(a: seq<nat>, b: seq<nat>, r: nat)
    ensures Times(a + b, r) == Times(a, r) + Times(b, r)
  {
    assert multiset(a + b) == multiset(a) + multiset(b);
  }

  /** A connection keeps its word while its device accepts more. */
  lemma ConnectionStays(s: System, s': System, c: nat)
    requires c < |s.conns| && c < |s'.conns| && ConnectionOk(s, c) && s'.conns[c] == s.conns[c] && |s.devs| <= |s'.devs|
    requires forall d :: 0 <= d < |s.devs| ==> Grows(s.devs[d], s'.devs[d])
    ensures ConnectionOk(s', c)
  {
    hide Held;
    var conn := s.conns[c];
    if conn.dev.Some? {
      assert Grows(s.devs[conn.dev.value], s'.devs[conn.dev.value]);
    }
    if conn.hand.Unlinked? {
      assert Grows(s.devs[conn.hand.d], s'.devs[conn.hand.d]);
    }
  }

  /** A device accepts more and does not return to the list. */
  predicate Grows(was: Device, dev: Device) {
    was.accepted <= dev.accepted && (dev.listed ==> was.listed)
  }

  /** conn hands over the requests `more`, and keeps the rest. */
  ghost predicate HandsOver(was: Connection, conn: Connection, more: seq<nat>) {
    && conn.live == was.live && conn.dev == was.dev && conn.hand == was.hand
    && (conn.sending.Some? ==> conn.sending == conn.reading || conn.sending.value in conn.waiting)
    && forall r: nat :: Held(was, r) == Held(conn, r) + Times(more, r)
  }

  /** One connection's requests move about, and some of them end. */
  lemma Rehold(s: System, c: nat, conn: Connection, more: seq<nat>)
    requires Inv(s) && c < |s.conns| && HandsOver(s.conns[c], conn, more)
    ensures Inv(SetConn(s, c, conn).(ended := s.ended + more))
  {
    hide AllApart, Held, Times;
    var s' := SetConn(s, c, conn).(ended := s.ended + more);
    forall r: nat ensures OnePlace(s', r) {
      HeldUpdate(s.conns, c, conn, r);
      TimesConcat(s.ended, more, r);
      assert OnePlace(s, r) && Held(s.conns[c], r) == Held(conn, r) + Times(more, r);
    }
    forall d | 0 <= d < |s'.devs| ensures DeviceOk(s', d) {
      ConnectedUpdate(s.conns, c, conn, d);
      HoldersUpdate(s.conns, c, conn, Unlinked(d));
      assert DeviceOk(s, d);
    }
    forall b | 0 <= b < |s'.conns| ensures ConnectionOk(s', b) {
      assert ConnectionOk(s, b);
      if b == c {
        ReholdOne(s, c, conn, more);
      } else {
        ConnectionStays(s, s', b);
      }
    }
  }

  lemma ReholdOne(s: System, c: nat, conn: Connection, more: seq<nat>)
    requires c < |s.conns| && ConnectionOk(s, c) && HandsOver(s.conns[c], conn, more)
    ensures ConnectionOk(SetConn(s, c, conn).(ended := s.ended + more), c)
  {
    var was := s.conns[c];
    forall r: nat | 0 < Held(conn, r) ensures 0 < Held(was, r) {
      assert Held(was, r) == Held(conn, r) + Times(more, r);
    }
    if conn.dev.None? {
      NothingIsHeld(was, conn, more);
    }
  }

  lemma NothingIsHeld(was: Connection, conn: Connection, more: seq<nat>)
    requires HoldsNothing(was) && HandsOver(was, conn, more)
    ensures HoldsNothing(conn)
  {
    forall r: nat ensures Held(conn, r) == 0 {
      assert Held(was, r) == 0;
    }
  }

  // ---------------------------------------------------------------------------------------------
  // Every step keeps the invariant

  lemma SentInv(s: System, c: nat, ok: bool)
    requires Inv(s) && Ready(s, c) && s.conns[c].reading.Some?
    ensures Inv(DoSent(s, c, ok))
  {
    hide Inv, AllApart;
    var conn := s.conns[c];
    var r := conn.reading.value;
    SendingAt(s, c);
    forall q: nat ensures Times(conn.waiting + [r], q) == Times(conn.waiting, q) + One(conn.reading, q) {
      TimesConcat(conn.waiting, [r], q);
    }
    if ok {
      Rehold(s, c, conn.(reading := None, waiting := conn.waiting + [r]), []);
      assert s.ended + [] == s.ended;
    } else {
      Rehold(s, c, conn.(reading := None, sending := None), [r]);
    }
  }

  lemma SendingAt(s: System, c: nat)
    requires Inv(s) && c < |s.conns|
    ensures var conn := s.conns[c]; conn.sending.Some? ==> conn.sending == conn.reading || conn.sending.value in conn.waiting
  {
    assert ConnectionOk(s, c);
  }

  lemma WithoutOne(list: seq<nat>, k: nat)
    requires k < |list|
    ensures forall q: nat :: Times(list, q) == Times(list[..k] + list[k + 1..], q) + One(Some(list[k]), q)
    ensures forall r :: r in list && r != list[k] ==> r in list[..k] + list[k + 1..]
  {
    assert list == list[..k] + [list[k]] + list[k + 1..];
  }

  lemma TakeReplyInv(s: System, c: nat, id: nat)
    requires Inv(s) && Ready(s, c)
    ensures Inv(DoTakeReply(s, c, id))
  {
    hide Inv, AllApart, Times;
    var conn := s.conns[c];
    var k := Index(conn.waiting, id);
    SendingAt(s, c);
    if conn.replying.None? && k < |conn.waiting| {
      WithoutOne(conn.waiting, k);
      NoTimes();
      var conn' := conn.(waiting := conn.waiting[..k] + conn.waiting[k + 1..], replying := Some(id),
                         sending := if conn.sending == Some(id) then None else conn.sending);
      Rehold(s, c, conn', []);
      assert s.ended + [] == s.ended;
    }
  }

  lemma NoTimes()
    ensures forall r: nat :: Times([], r) == 0
  {
  }

  lemma EndReplyInv(s: System, c: nat)
    requires Inv(s) && Ready(s, c) && s.conns[c].replying.Some?
    ensures Inv(Step(s, EndReply(c)))
  {
    hide Inv, AllApart;
    SendingAt(s, c);
    Rehold(s, c, s.conns[c].(replying := None), [s.conns[c].replying.value]);
  }

  lemma StreamedInv(s: System, c: nat)
    requires Inv(s) && Ready(s, c)
    ensures Inv(Step(s, Streamed(c)))
  {
    hide Inv, AllApart;
    Rehold(s, c, s.conns[c].(sending := None), []);
    assert s.ended + [] == s.ended;
  }

  /** A device that accepted nothing another one accepted stays apart from the others. */
  lemma ApartUpdate(devs: seq<Device>, d: nat, dev: Device)
    requires AllApart(devs) && d < |devs|
    requires forall r :: r in dev.accepted && r !in devs[d].accepted ==> forall i :: 0 <= i < |devs| ==> r !in devs[i].accepted
    ensures AllApart(devs[d := dev])
  {
    var devs' := devs[d := dev];
    forall i, j | 0 <= i < j < |devs'| ensures TwoApart(devs'[i], devs'[j]) {
      assert TwoApart(devs[i], devs[j]);
    }
  }

  /** A request in no place at all is not counted anywhere, nor accepted. */
  lemma Unknown(s: System, r: nat, d: nat)
    requires Inv(s) && s.nextId < r && d < |s.devs|
    ensures r !in s.devs[d].accepted
  {
    assert DeviceOk(s, d);
  }

  lemma QueueInv(s: System, d: nat)
    requires Inv(s) && d < |s.devs| && !s.devs[d].gone
    ensures Inv(Step(s, Queue(d)))
  {
    hide AllApart, Times;
    var id, dev := s.nextId + 1, s.devs[d];
    var dev' := dev.(pending := dev.pending + [id], accepted := dev.accepted + [id]);
    var s' := Step(s, Queue(d));
    forall r: nat ensures OnePlace(s', r) {
      PendingUpdate(s.devs, d, dev', r);
      TimesConcat(dev.pending, [id], r);
      TimesOne(id, r);
      assert OnePlace(s, r);
    }
    forall i | 0 <= i < |s.devs| ensures id !in s.devs[i].accepted {
      Unknown(s, id, i);
    }
    ApartUpdate(s.devs, d, dev');
    forall e | 0 <= e < |s'.devs| ensures DeviceOk(s', e) {
      assert DeviceOk(s, e);
      if e == d {
        SeqAssoc(dev.taken, dev.pending, [id]);
        IncreasingSnoc(dev.accepted, id, s.nextId);
      }
    }
    forall c | 0 <= c < |s'.conns| ensures ConnectionOk(s', c) {
      ConnectionStays(s, s', c);
    }
  }

  lemma IncreasingSnoc(list: seq<nat>, id: nat, nextId: nat)
    requires (forall r :: r in list ==> 1 <= r <= nextId) && nextId < id
    ensures Increasing(list) ==> Increasing(list + [id])
  {
    forall i, j | 0 <= i < j < |list + [id]| && Increasing(list) ensures (list + [id])[i] < (list + [id])[j] {
      if j == |list| {
        assert list[i] in list;
      }
    }
  }

  lemma TimesOne(id: nat, r: nat)
    ensures Times([id], r) == if id == r then 1 else 0
  {
  }

  lemma HeadOff(list: seq<nat>, r: nat)
    requires list != []
    ensures list == [list[0]] + list[1..] && Times(list, r) == Times(list[1..], r) + if list[0] == r then 1 else 0
  {
    assert list == [list[0]] + list[1..];
    TimesConcat([list[0]], list[1..], r);
  }

  /** The device and the connection after a read call took the first pending request. */
  function Taken(dev: Device): Device
    requires dev.pending != []
  {
    dev.(pending := dev.pending[1..], taken := dev.taken + [dev.pending[0]])
  }

  function Taking(conn: Connection, id: nat, streams: bool): Connection {
    conn.(reading := Some(id), sending := if streams then Some(id) else None)
  }

  lemma TakePlaces(s: System, c: nat, streams: bool, r: nat)
    requires Inv(s) && CanTake(s, c) && !s.devs[s.conns[c].dev.value].gone
    ensures OnePlace(DoTake(s, c, streams), r)
  {
    var d := s.conns[c].dev.value;
    var dev := s.devs[d];
    assert OnePlace(s, r);
    hide Inv, Times, AllHeld, AllPending;
    PendingUpdate(s.devs, d, Taken(dev), r);
    HeldUpdate(s.conns, c, Taking(s.conns[c], dev.pending[0], streams), r);
    HeadOff(dev.pending, r);
  }

  lemma TakeDevice(s: System, c: nat, streams: bool, e: nat)
    requires Inv(s) && CanTake(s, c) && e < |s.devs|
    ensures DeviceOk(DoTake(s, c, streams), e)
  {
    var d := s.conns[c].dev.value;
    var dev := s.devs[d];
    assert DeviceOk(s, e);
    hide Inv, Connected;
    ConnectedUpdate(s.conns, c, Taking(s.conns[c], dev.pending[0], streams), e);
    HoldersUpdate(s.conns, c, Taking(s.conns[c], dev.pending[0], streams), Unlinked(e));
    HeadOff(dev.pending, 0);
    SeqAssoc(dev.taken, [dev.pending[0]], dev.pending[1..]);
  }

  lemma TakeConnection(s: System, c: nat, streams: bool)
    requires Inv(s) && CanTake(s, c)
    ensures ConnectionOk(DoTake(s, c, streams), c)
  {
    var d := s.conns[c].dev.value;
    assert ConnectionOk(s, c) && DeviceOk(s, d);
    hide Inv, Times;
    var dev, conn' := s.devs[d], Taking(s.conns[c], s.devs[d].pending[0], streams);
    forall r: nat | 0 < Held(conn', r) ensures r in dev.accepted {
      assert Held(conn', r) == Held(s.conns[c], r) + One(Some(dev.pending[0]), r);
      assert dev.pending[0] in dev.pending;
    }
  }

  /** The first pending request moves into a read call. */
  lemma TakeInv(s: System, c: nat, streams: bool)
    requires Inv(s) && Ready(s, c) && StillThere(s, Take(c, streams))
    ensures Inv(DoTake(s, c, streams))
  {
    if CanTake(s, c) {
      hide AllApart, OnePlace, DeviceOk;
      var d, s' := s.conns[c].dev.value, DoTake(s, c, streams);
      ApartUpdate(s.devs, d, Taken(s.devs[d]));
      forall r: nat ensures OnePlace(s', r) {
        TakePlaces(s, c, streams, r);
      }
      forall e | 0 <= e < |s'.devs| ensures DeviceOk(s', e) {
        TakeDevice(s, c, streams, e);
      }
      forall b | 0 <= b < |s'.conns| ensures ConnectionOk(s', b) {
        if b == c {
          TakeConnection(s, c, streams);
        } else {
          ConnectionStays(s, s', b);
        }
      }
    }
  }

  lemma OpenInv(s: System)
    requires Inv(s)
    ensures Inv(Step(s, Open))
  {
    hide AllApart;
    var s', conn := Step(s, Open), Connection(true, None, Empty, [], None, None, None);
    assert s'.conns[..|s.conns|] == s.conns;
    forall r: nat ensures OnePlace(s', r) {
      assert OnePlace(s, r);
    }
    forall d | 0 <= d < |s'.devs| ensures DeviceOk(s', d) {
      assert DeviceOk(s, d);
    }
    forall c | 0 <= c < |s'.conns| ensures ConnectionOk(s', c) {
      if c < |s.conns| {
        ConnectionStays(s, s', c);
      }
    }
  }

  // ---------------------------------------------------------------------------------------------
  // Devices come, are found, and go

  /** A new device is on the list before anybody counts. */
  function Created(name: string): Device {
    Device(name, [], 0, true, false, [], [])
  }

  lemma ListPlaces(s: System, c: nat, name: string, r: nat)
    requires Inv(s) && Unbound(s, c)
    ensures OnePlace(Step(s, List(c, name)), r)
  {
    assert OnePlace(s, r);
    hide Inv, Held, PendingOn, Newest;
    var conn := s.conns[c].(hand := Made(|s.devs|));
    assert (s.devs + [Created(name)])[..|s.devs|] == s.devs;
    HeldUpdate(s.conns, c, conn, r);
    SameHeld(s.conns[c], conn, Created(name), r);
  }

  lemma SameHeld(was: Connection, conn: Connection, dev: Device, r: nat)
    requires conn == was.(hand := conn.hand) && dev.pending == []
    ensures Held(was, r) == Held(conn, r) && PendingOn(dev, r) == 0
  {
  }

  lemma ListDevice(s: System, c: nat, name: string, d: nat)
    requires Inv(s) && Unbound(s, c) && d <= |s.devs|
    ensures DeviceOk(Step(s, List(c, name)), d)
  {
    assert d < |s.devs| ==> DeviceOk(s, d);
    NobodyBeyond(s);
    hide Inv, Newest;
    ConnectedUpdate(s.conns, c, s.conns[c].(hand := Made(|s.devs|)), d);
    HoldersUpdate(s.conns, c, s.conns[c].(hand := Made(|s.devs|)), Unlinked(d));
  }

  lemma ListApart(devs: seq<Device>, name: string)
    requires AllApart(devs)
    ensures AllApart(devs + [Created(name)])
  {
    var devs' := devs + [Created(name)];
    forall i, j | 0 <= i < j < |devs'| ensures TwoApart(devs'[i], devs'[j]) {
      if j < |devs| {
        ApartAt(devs, i, j);
      }
    }
  }

  lemma ApartAt(devs: seq<Device>, i: nat, j: nat)
    requires AllApart(devs) && i < j < |devs|
    ensures TwoApart(devs[i], devs[j])
  {
  }

  /** Nobody is connected to a device that does not exist yet, or has it in hand. */
  lemma NobodyBeyond(s: System)
    requires Inv(s)
    ensures Connected(s.conns, |s.devs|) == 0
    ensures forall hand: Hand :: !hand.Empty? && hand.d == |s.devs| ==> Holders(s.conns, hand) == 0
  {
    forall c | 0 <= c < |s.conns| ensures s.conns[c].dev != Some(|s.devs|) {
      assert ConnectionOk(s, c);
    }
    ConnectedNone(s.conns, |s.devs|);
    forall hand: Hand | !hand.Empty? && hand.d == |s.devs| ensures Holders(s.conns, hand) == 0 {
      forall c | 0 <= c < |s.conns| ensures s.conns[c].hand != hand {
        assert ConnectionOk(s, c);
      }
      HoldersNone(s.conns, hand);
    }
  }

  lemma ListInv(s: System, c: nat, name: string)
    requires Inv(s) && Unbound(s, c)
    ensures Inv(Step(s, List(c, name)))
  {
    hide AllApart, OnePlace, DeviceOk, Newest;
    var s' := Step(s, List(c, name));
    ListApart(s.devs, name);
    forall r: nat ensures OnePlace(s', r) {
      ListPlaces(s, c, name, r);
    }
    forall d | 0 <= d < |s'.devs| ensures DeviceOk(s', d) {
      ListDevice(s, c, name, d);
    }
    forall b | 0 <= b < |s'.conns| ensures ConnectionOk(s', b) {
      assert ConnectionOk(s, b);
      if b == c {
        assert ConnectionOk(s', c) by { StillHoldsNothing(s.conns[c], s'.conns[c]); }
      } else {
        ConnectionStays(s, s', b);
      }
    }
  }

  lemma StillHoldsNothing(was: Connection, conn: Connection)
    requires HoldsNothing(was) && conn == was.(hand := conn.hand, dev := conn.dev)
    ensures HoldsNothing(conn)
    ensures forall accepted: seq<nat> :: HoldsOf(conn, accepted)
  {
    forall r: nat ensures Held(conn, r) == 0 {
      assert Held(was, r) == Held(conn, r);
    }
  }

  /** One connection and one device change, and some requests end. */
  function Changed(s: System, c: nat, conn: Connection, d: nat, dev: Device, more: seq<nat>, intact: bool): System
    requires c < |s.conns| && d < |s.devs|
  {
    s.(conns := s.conns[c := conn], devs := s.devs[d := dev], ended := s.ended + more, intact := intact)
  }

  /** No request is lost or doubled by the change. */
  ghost predicate Moves(was: Connection, conn: Connection, before: Device, dev: Device, more: seq<nat>) {
    forall r: nat :: Held(was, r) + PendingOn(before, r) == Held(conn, r) + PendingOn(dev, r) + Times(more, r)
  }

  /** The change is no business of other devices. */
  ghost predicate OnlyOf(was: Connection, conn: Connection, d: nat) {
    && (forall e: nat :: e != d ==> On(was, e) == On(conn, e))
    && (was.hand.Unlinked? && was.hand.d != d ==> conn.hand == was.hand)
    && (conn.hand.Unlinked? && conn.hand.d != d ==> conn.hand == was.hand)
  }

  lemma ChangedPlaces(s: System, c: nat, conn: Connection, d: nat, dev: Device, more: seq<nat>, intact: bool, r: nat)
    requires OnePlace(s, r) && c < |s.conns| && d < |s.devs| && Moves(s.conns[c], conn, s.devs[d], dev, more)
    ensures OnePlace(Changed(s, c, conn, d, dev, more, intact), r)
  {
    hide Held, PendingOn, Times, AllHeld, AllPending;
    assert Held(s.conns[c], r) + PendingOn(s.devs[d], r) == Held(conn, r) + PendingOn(dev, r) + Times(more, r);
    HeldUpdate(s.conns, c, conn, r);
    PendingUpdate(s.devs, d, dev, r);
    TimesConcat(s.ended, more, r);
  }

  lemma ChangedDevice(s: System, c: nat, conn: Connection, d: nat, dev: Device, more: seq<nat>, intact: bool, e: nat)
    requires c < |s.conns| && d < |s.devs| && e < |s.devs| && e != d && DeviceOk(s, e)
    requires OnlyOf(s.conns[c], conn, d) && (intact ==> s.intact)
    ensures DeviceOk(Changed(s, c, conn, d, dev, more, intact), e)
  {
    hide On, Connected, Holders, Increasing;
    ConnectedUpdate(s.conns, c, conn, e);
    HoldersUpdate(s.conns, c, conn, Unlinked(e));
  }

  lemma ChangedInv(s: System, c: nat, conn: Connection, d: nat, dev: Device, more: seq<nat>, intact: bool)
    requires Inv(s) && c < |s.conns| && d < |s.devs|
    requires Moves(s.conns[c], conn, s.devs[d], dev, more) && OnlyOf(s.conns[c], conn, d) && (intact ==> s.intact)
    requires dev.accepted == s.devs[d].accepted && Grows(s.devs[d], dev)
    requires var s' := Changed(s, c, conn, d, dev, more, intact); DeviceOk(s', d) && ConnectionOk(s', c)
    ensures Inv(Changed(s, c, conn, d, dev, more, intact))
  {
    hide AllApart, OnePlace, DeviceOk, Moves, OnlyOf;
    var s' := Changed(s, c, conn, d, dev, more, intact);
    ApartUpdate(s.devs, d, dev);
    forall r: nat ensures OnePlace(s', r) {
      ChangedPlaces(s, c, conn, d, dev, more, intact, r);
    }
    forall e | 0 <= e < |s'.devs| ensures DeviceOk(s', e) {
      if e != d {
        ChangedDevice(s, c, conn, d, dev, more, intact, e);
      }
    }
    forall b | 0 <= b < |s'.conns| ensures ConnectionOk(s', b) {
      if b != c {
        ConnectionStays(s, s', b);
      }
    }
  }

  /** Only the hand of a connection changes, and not from or to Unlinked. */
  lemma GraspInv(s: System, c: nat, hand: Hand, d: nat)
    requires Inv(s) && c < |s.conns| && !s.conns[c].hand.Unlinked? && !hand.Unlinked? && d < |s.devs|
    requires HandOk(s, s.conns[c].(hand := hand)) && s.conns[c].dev.None?
    ensures Inv(Grasp(s, c, hand))
  {
    var conn := s.conns[c].(hand := hand);
    assert ConnectionOk(s, c) && DeviceOk(s, d);
    StillHoldsNothing(s.conns[c], conn);
    HoldersUpdate(s.conns, c, conn, Unlinked(d));
    ConnectedUpdate(s.conns, c, conn, d);
    SameMoves(s.conns[c], conn, s.devs[d], s.devs[d]);
    hide Inv, Increasing, Connected, Holders;
    ChangedInv(s, c, conn, d, s.devs[d], [], s.intact);
    assert s.devs[d := s.devs[d]] == s.devs && s.ended + [] == s.ended;
  }

  lemma SameMoves(was: Connection, conn: Connection, before: Device, dev: Device)
    requires conn == was.(hand := conn.hand, dev := conn.dev)
    requires dev == before.(listed := dev.listed, numConnection := dev.numConnection)
    ensures Moves(was, conn, before, dev, [])
  {
    NoTimes();
  }

  lemma CountInv(s: System, c: nat)
    requires Inv(s) && CanCount(s, c)
    ensures Inv(DoCount(s, c))
  {
    var d := s.conns[c].hand.d;
    var conn, dev := s.conns[c].(dev := Some(d), hand := Empty), s.devs[d].(numConnection := s.devs[d].numConnection + 1);
    assert ConnectionOk(s, c) && DeviceOk(s, d);
    StillHoldsNothing(s.conns[c], conn);
    HoldersUpdate(s.conns, c, conn, Unlinked(d));
    ConnectedUpdate(s.conns, c, conn, d);
    SameMoves(s.conns[c], conn, s.devs[d], dev);
    hide Inv, Increasing, Connected, Holders;
    ChangedInv(s, c, conn, d, dev, [], s.intact);
    assert s.ended + [] == s.ended;
  }

  lemma FindInv(s: System, c: nat, name: string)
    requires Inv(s) && Unbound(s, c) && Newest(s.devs, name) < |s.devs|
    ensures Inv(Step(s, Find(c, name)))
  {
    hide Inv, Newest;
    GraspInv(s, c, Found(Newest(s.devs, name)), Newest(s.devs, name));
  }

  lemma SearchInv(s: System, c: nat)
    requires Inv(s) && CanSearch(s, c)
    ensures Inv(DoSearch(s, c))
  {
    assert ConnectionOk(s, c);
    hide Inv, Newest;
    var d := s.conns[c].hand.d;
    var k := Newest(s.devs, s.devs[d].name);
    GraspInv(s, c, if k == |s.devs| then Empty else Marked(k), d);
  }

  lemma UnlinkInv(s: System, c: nat)
    requires Inv(s) && CanUnlink(s, c)
    ensures Inv(DoUnlink(s, c))
  {
    var k := s.conns[c].hand.d;
    var conn, dev := s.conns[c].(hand := Unlinked(k)), s.devs[k].(listed := false);
    assert ConnectionOk(s, c) && DeviceOk(s, k);
    StillHoldsNothing(s.conns[c], conn);
    HoldersUpdate(s.conns, c, conn, Unlinked(k));
    ConnectedUpdate(s.conns, c, conn, k);
    SameMoves(s.conns[c], conn, s.devs[k], dev);
    hide Inv, Increasing, Connected, Holders;
    ChangedInv(s, c, conn, k, dev, [], s.intact && s.devs[k].listed);
    assert s.ended + [] == s.ended;
  }

  /** What was still pending ends. */
  lemma EndPendingInv(s: System, c: nat)
    requires Inv(s) && CanEnd(s, c) && StillThere(s, EndPending(c))
    ensures Inv(DoEnd(s, c))
  {
    var k := s.conns[c].hand.d;
    var conn, dev := s.conns[c].(hand := Empty), s.devs[k].(gone := true);
    assert ConnectionOk(s, c) && DeviceOk(s, k);
    StillHoldsNothing(s.conns[c], conn);
    HoldersUpdate(s.conns, c, conn, Unlinked(k));
    ConnectedUpdate(s.conns, c, conn, k);
    EndMoves(s.conns[c], conn, s.devs[k], dev);
    hide Inv, Increasing, Connected, Holders;
    ChangedInv(s, c, conn, k, dev, s.devs[k].pending, s.intact);
  }

  lemma EndMoves(was: Connection, conn: Connection, before: Device, dev: Device)
    requires conn == was.(hand := conn.hand) && dev == before.(gone := true) && (before.gone ==> before.pending == [])
    ensures Moves(was, conn, before, dev, before.pending)
  {
    NoTimes();
  }

  // ---------------------------------------------------------------------------------------------
  // Release

  lemma GoneHeld(conn: Connection, hand: Hand, r: nat)
    requires conn.reading.None? && conn.replying.None?
    ensures Held(conn, r) == Times(conn.waiting, r) && Held(Gone(conn, hand), r) == 0
  {
    NoTimes();
  }

  /** A connection that never got a device goes. */
  lemma DropUnboundInv(s: System, c: nat)
    requires Inv(s) && CanDrop(s, c) && s.conns[c].dev.None?
    ensures Inv(DoDrop(s, c))
  {
    var conn := Gone(s.conns[c], Empty);
    var s' := DoDrop(s, c);
    assert ConnectionOk(s, c);
    hide AllApart;
    forall r: nat ensures OnePlace(s', r) {
      assert OnePlace(s, r) && Held(s.conns[c], r) == 0;
      GoneHeld(s.conns[c], Empty, r);
      HeldUpdate(s.conns, c, conn, r);
      TimesConcat(s.ended, s.conns[c].waiting, r);
    }
    forall d | 0 <= d < |s'.devs| ensures DeviceOk(s', d) {
      assert DeviceOk(s, d);
      ConnectedUpdate(s.conns, c, conn, d);
      HoldersUpdate(s.conns, c, conn, Unlinked(d));
    }
    forall b | 0 <= b < |s'.conns| ensures ConnectionOk(s', b) {
      if b == c {
        NoTimes();
      } else {
        ConnectionStays(s, s', b);
      }
    }
  }

  lemma DropMoves(conn: Connection, hand: Hand, dev: Device)
    requires conn.reading.None? && conn.replying.None?
    ensures Moves(conn, Gone(conn, hand), dev, Fewer(dev), conn.waiting)
  {
    forall r: nat ensures Held(conn, r) + PendingOn(dev, r)
                       == Held(Gone(conn, hand), r) + PendingOn(Fewer(dev), r) + Times(conn.waiting, r) {
      GoneHeld(conn, hand, r);
    }
  }

  /** What waits on the connection ends, and its device counts it no more. */
  lemma DropInv(s: System, c: nat)
    requires Inv(s) && CanDrop(s, c)
    ensures Inv(DoDrop(s, c))
  {
    assert ConnectionOk(s, c);
    if s.conns[c].dev.None? {
      DropUnboundInv(s, c);
    } else {
      var d := s.conns[c].dev.value;
      var hand := if s.devs[d].numConnection == 1 then Left(d) else Empty;
      var conn := Gone(s.conns[c], hand);
      assert DeviceOk(s, d);
      NoTimes();
      HoldersUpdate(s.conns, c, conn, Unlinked(d));
      ConnectedUpdate(s.conns, c, conn, d);
      DropMoves(s.conns[c], hand, s.devs[d]);
      hide Inv, Increasing, Connected, Holders, Moves;
      ChangedInv(s, c, conn, d, Fewer(s.devs[d]), s.conns[c].waiting, s.intact);
    }
  }

  // ---------------------------------------------------------------------------------------------
  // Whole runs

  lemma StepInv(s: System, a: Action)
    requires Inv(s) && StillThere(s, a)
    ensures Inv(Step(s, a))
  {
    hide Inv, DoTake, DoSent, DoTakeReply, DoCount, DoDrop, DoSearch, DoUnlink, DoEnd, Newest;
    match a {
      case Open => OpenInv(s);
      case List(c, name) =>
        if Unbound(s, c) {
          ListInv(s, c, name);
        }
      case Find(c, name) =>
        if Unbound(s, c) && Newest(s.devs, name) < |s.devs| {
          FindInv(s, c, name);
        }
      case Count(c) =>
        if CanCount(s, c) {
          CountInv(s, c);
        }
      case Queue(d) =>
        if d < |s.devs| && !s.devs[d].gone {
          QueueInv(s, d);
        }
      case Take(c, streams) =>
        if Ready(s, c) {
          TakeInv(s, c, streams);
        }
      case Sent(c, ok) =>
        if Ready(s, c) && s.conns[c].reading.Some? {
          SentInv(s, c, ok);
        }
      case Streamed(c) =>
        if Ready(s, c) {
          StreamedInv(s, c);
        }
      case TakeReply(c, id) =>
        if Ready(s, c) {
          TakeReplyInv(s, c, id);
        }
      case EndReply(c) =>
        if Ready(s, c) && s.conns[c].replying.Some? {
          EndReplyInv(s, c);
        }
      case Drop(c) =>
        if CanDrop(s, c) {
          DropInv(s, c);
        }
      case Search(c) =>
        if CanSearch(s, c) {
          SearchInv(s, c);
        }
      case Unlink(c) =>
        if CanUnlink(s, c) {
          UnlinkInv(s, c);
        }
      case EndPending(c) =>
        if CanEnd(s, c) {
          EndPendingInv(s, c);
        }
    }
  }

  /** A run keeps a guard exactly if the run without its last step does, and that step. */
  lemma AllStepsSnoc(actions: seq<Action>, guard: (System, Action) -> bool)
    requires actions != []
    ensures AllSteps(actions, guard)
       <==> AllSteps(actions[..|actions| - 1], guard) && guard(Run(actions[..|actions| - 1]), actions[|actions| - 1])
  {
    hide Run;
    var front := actions[..|actions| - 1];
    if AllSteps(actions, guard) {
      forall i | 0 <= i < |front| ensures guard(Run(front[..i]), front[i]) {
        assert front[..i] == actions[..i];
      }
    } else if AllSteps(front, guard) && guard(Run(front), actions[|front|]) {
      forall i | 0 <= i < |actions| ensures guard(Run(actions[..i]), actions[i]) {
        if i < |front| {
          assert front[..i] == actions[..i] && guard(Run(front[..i]), front[i]);
        }
      }
    }
  }

  lemma AlwaysSnoc(actions: seq<Action>, holds: System -> bool)
    requires actions != []
    ensures Always(actions, holds) <==> Always(actions[..|actions| - 1], holds) && holds(Run(actions))
  {
    hide Run;
    var front := actions[..|actions| - 1];
    assert actions[..|actions|] == actions;
    if Always(actions, holds) {
      forall i | 0 <= i <= |front| ensures holds(Run(front[..i])) {
        assert front[..i] == actions[..i];
      }
    } else if Always(front, holds) && holds(Run(actions)) {
      forall i | 0 <= i <= |actions| ensures holds(Run(actions[..i])) {
        if i < |actions| {
          assert front[..i] == actions[..i];
        }
      }
    }
  }

  lemma StartInv()
    ensures Inv(Run([]))
  {
  }

  lemma {:induction false} RunInv(actions: seq<Action>)
    requires AllSteps(actions, StillThere)
    ensures Inv(Run(actions))
    decreases |actions|
  {
    hide Inv, AllSteps;
    if actions == [] {
      StartInv();
    } else {
      var n := |actions| - 1;
      AllStepsSnoc(actions, StillThere);
      RunInv(actions[..n]);
      StepInv(Run(actions[..n]), actions[n]);
    }
  }
}
