/** Exactly when requests complete exactly once and teardown is clean, over all runs. */
module ProtocolClaims {
  import opened Wrappers
  import opened Protocol
  import opened ProtocolInvariant
  import opened ProtocolListing

  ghost predicate AllOnePlace(s: System) {
    forall r: nat :: OnePlace(s, r)
  }

  // ---------------------------------------------------------------------------------------------
  // Exactly one place

  /** A request taken from a deleted device is in two places: it had ended when the device went. */
  lemma LateTake(s: System, c: nat, streams: bool)
    requires CanTake(s, c) && s.devs[s.conns[c].dev.value].gone
    ensures AllOnePlace(s) ==> !AllOnePlace(DoTake(s, c, streams))
  {
    hide Times, AllHeld, AllPending;
    var d := s.conns[c].dev.value;
    var dev := s.devs[d];
    var r := dev.pending[0];
    PendingUpdate(s.devs, d, Taken(dev), r);
    HeldUpdate(s.conns, c, Taking(s.conns[c], r, streams), r);
    assert Places(DoTake(s, c, streams), r) == Places(s, r) + 1;
    assert OnePlace(s, r) ==> !OnePlace(DoTake(s, c, streams), r);
  }

  /** So is one that a second removal ends again. */
  lemma EndedAgain(s: System, c: nat)
    requires CanEnd(s, c) && s.devs[s.conns[c].hand.d].gone && s.devs[s.conns[c].hand.d].pending != []
    ensures AllOnePlace(s) ==> !AllOnePlace(DoEnd(s, c))
  {
    hide Times, AllHeld, AllPending;
    var k := s.conns[c].hand.d;
    var r := s.devs[k].pending[0];
    PendingUpdate(s.devs, k, s.devs[k].(gone := true), r);
    HeldUpdate(s.conns, c, s.conns[c].(hand := Empty), r);
    TimesConcat(s.ended, s.devs[k].pending, r);
    HeadOff(s.devs[k].pending, r);
    assert Places(DoEnd(s, c), r) > Places(s, r);
    assert OnePlace(s, r) ==> !OnePlace(DoEnd(s, c), r);
  }

  lemma StepPlaces(s: System, a: Action)
    requires Inv(s)
    ensures AllOnePlace(Step(s, a)) <==> StillThere(s, a)
  {
    hide OnePlace, DeviceOk, ConnectionOk, AllApart;
    if StillThere(s, a) {
      StepInv(s, a);
    } else if a.Take? {
      LateTake(s, a.c, a.streams);
    } else {
      EndedAgain(s, a.c);
    }
  }

  /**
   * No request is ever lost or in two places exactly if no read call takes a request, and no removal
   * ends one, that an earlier removal has ended.
   */
  lemma {:induction false} OnePlaceIff(actions: seq<Action>)
    ensures Always(actions, AllOnePlace) <==> AllSteps(actions, StillThere)
    decreases |actions|
  {
    hide Inv, AllOnePlace, Always, AllSteps, StillThere;
    if actions == [] {
      StartPlaces();
    } else {
      var front, a := actions[..|actions| - 1], actions[|actions| - 1];
      OnePlaceIff(front);
      AlwaysSnoc(actions, AllOnePlace);
      AllStepsSnoc(actions, StillThere);
      if AllSteps(front, StillThere) {
        RunInv(front);
        StepPlaces(Run(front), a);
      }
    }
  }

  lemma StartPlaces()
    ensures Always([], AllOnePlace) && AllSteps([], StillThere)
  {
    StartInv();
  }

  // ---------------------------------------------------------------------------------------------
  // The list of devices

  /**
   * The list of devices is right throughout exactly if every call counts itself on a device that is
   * still listed, every search leaves no device behind, and only listed devices nobody uses are taken
   * off the list.
   */
  lemma {:induction false} ListingIff(actions: seq<Action>)
    ensures Always(actions, Listing) <==> AllSteps(actions, Orderly)
    decreases |actions|
  {
    hide Inv, Listing, Always, AllSteps, Orderly;
    if actions == [] {
      StartListed();
    } else {
      var front, a := actions[..|actions| - 1], actions[|actions| - 1];
      ListingIff(front);
      AlwaysSnoc(actions, Listing);
      AllStepsSnoc(actions, Orderly);
      if AllSteps(front, Orderly) {
        OrderlyRun(front);
        StepListing(Run(front), a);
      }
    }
  }

  lemma StartListed()
    ensures Always([], Listing) && AllSteps([], Orderly)
  {
    StartListing();
  }

  // ---------------------------------------------------------------------------------------------
  // Unique names, and nobody in the way, are enough

  predicate NamesApart(devs: seq<Device>) {
    forall i, j :: 0 <= i < j < |devs| ==> !ShareName(devs[i], devs[j])
  }

  predicate ShareName(a: Device, b: Device) {
    a.listed && b.listed && a.name == b.name
  }

  lemma NewestIs(devs: seq<Device>, d: nat)
    requires NamesApart(devs) && d < |devs| && devs[d].listed
    ensures Newest(devs, devs[d].name) == d
  {
    assert forall k :: d < k < |devs| ==> !ShareName(devs[d], devs[k]);
  }

  lemma NamesStay(devs: seq<Device>, devs': seq<Device>)
    requires NamesApart(devs) && |devs'| == |devs|
    requires forall i :: 0 <= i < |devs| ==> devs'[i].name == devs[i].name && (devs'[i].listed ==> devs[i].listed)
    ensures NamesApart(devs')
  {
    forall i, j | 0 <= i < j < |devs'| ensures !ShareName(devs'[i], devs'[j]) {
      assert !ShareName(devs[i], devs[j]);
    }
  }

  lemma CreatedApart(devs: seq<Device>, dev: Device)
    requires NamesApart(devs) && Newest(devs, dev.name) == |devs|
    ensures NamesApart(devs + [dev])
  {
    var devs' := devs + [dev];
    forall i, j | 0 <= i < j < |devs'| ensures !ShareName(devs'[i], devs'[j]) {
      if j < |devs| {
        assert !ShareName(devs[i], devs[j]);
      }
    }
  }

  /** At most one removal is on its way to a device, and then nobody uses it or has found it. */
  predicate Tidy(s: System, d: nat)
    requires d < |s.devs|
  {
    && Leavers(s.conns, d) <= 1
    && (0 < Leavers(s.conns, d) ==> !InUse(s, d) && Holders(s.conns, Found(d)) == 0)
    && (InUse(s, d) || 0 < Holders(s.conns, Found(d)) || 0 < Leavers(s.conns, d) ==> s.devs[d].listed)
  }

  predicate AllTidy(s: System) {
    NamesApart(s.devs) && forall d :: 0 <= d < |s.devs| ==> Tidy(s, d)
  }

  lemma TidyOrderly(s: System, a: Action)
    requires Inv(s) && AllTidy(s)
    ensures Orderly(s, a)
  {
    hide Inv, NamesApart, Holders, Newest;
    if (a.Count? && CanCount(s, a.c)) || (a.Search? && CanSearch(s, a.c)) || (a.Unlink? && CanUnlink(s, a.c)) {
      var d := s.conns[a.c].hand.d;
      HoldersSome(s.conns, a.c);
      assert Tidy(s, d);
      if a.Search? {
        NewestIs(s.devs, d);
      }
    }
  }

  /** A step that keeps names, counts and who has what in hand. */
  lemma QuietTidy(s: System, s': System)
    requires AllTidy(s) && |s'.devs| == |s.devs|
    requires forall d :: 0 <= d < |s.devs| ==> SameForList(s, s', d)
    ensures AllTidy(s')
  {
    hide Holders;
    NamesStay(s.devs, s'.devs) by {
      forall d | 0 <= d < |s.devs| ensures s'.devs[d].name == s.devs[d].name && s'.devs[d].listed == s.devs[d].listed {
        assert SameForList(s, s', d);
      }
    }
    forall d | 0 <= d < |s.devs| ensures Tidy(s', d) {
      assert SameForList(s, s', d) && Tidy(s, d);
    }
  }

  predicate SameForList(s: System, s': System, d: nat)
    requires d < |s.devs| == |s'.devs|
  {
    && s'.devs[d].name == s.devs[d].name && s'.devs[d].listed == s.devs[d].listed
    && s'.devs[d].numConnection == s.devs[d].numConnection
    && SameTallies(s.conns, s'.conns, d) && Holders(s'.conns, Found(d)) == Holders(s.conns, Found(d))
  }

  lemma SameHand(s: System, s': System, c: nat, conn: Connection)
    requires AllTidy(s) && |s'.devs| == |s.devs| && c < |s.conns| && s'.conns == s.conns[c := conn]
    requires forall d :: 0 <= d < |s.devs| ==> SameFields(s.devs[d], s'.devs[d])
    requires conn.hand == s.conns[c].hand || (s.conns[c].hand.Unlinked? && conn.hand.Empty?)
    ensures AllTidy(s')
  {
    hide Holders, AllTidy, SameTallies;
    forall d | 0 <= d < |s.devs| ensures SameForList(s, s', d) {
      assert SameFields(s.devs[d], s'.devs[d]);
      Tallies(s.conns, c, conn, d);
      HoldersUpdate(s.conns, c, conn, Found(d));
    }
    QuietTidy(s, s');
  }

  predicate SameFields(was: Device, now: Device) {
    now.name == was.name && now.listed == was.listed && now.numConnection == was.numConnection
  }

  lemma CallTidy(s: System, a: Action)
    requires AllTidy(s) && (a.Take? || a.Sent? || a.Streamed? || a.TakeReply? || a.EndReply?)
    ensures AllTidy(Step(s, a))
  {
    hide AllTidy, Newest;
    if Ready(s, a.c) {
      SameHand(s, Step(s, a), a.c, Step(s, a).conns[a.c]);
    }
  }

  lemma OpenTidy(s: System)
    requires AllTidy(s)
    ensures AllTidy(Step(s, Open))
  {
    var s' := Step(s, Open);
    assert s'.conns[..|s.conns|] == s.conns;
    QuietTidy(s, s');
  }

  lemma QueueTidy(s: System, d: nat)
    requires AllTidy(s)
    ensures AllTidy(Step(s, Queue(d)))
  {
    hide AllTidy;
    QuietTidy(s, Step(s, Queue(d)));
  }

  lemma ListTidy(s: System, c: nat, name: string)
    requires Inv(s) && AllTidy(s) && Unbound(s, c) && Newest(s.devs, name) == |s.devs|
    ensures AllTidy(Step(s, List(c, name)))
  {
    NobodyBeyond(s);
    hide Inv, Holders, NamesApart, Newest;
    var s' := Step(s, List(c, name));
    CreatedApart(s.devs, Created(name));
    forall d | 0 <= d < |s'.devs| ensures Tidy(s', d) {
      Tallies(s.conns, c, s'.conns[c], d);
      HoldersUpdate(s.conns, c, s'.conns[c], Found(d));
      assert d < |s.devs| ==> Tidy(s, d);
    }
  }

  /** One call has a device in hand, and counts, lists or names change with it. */
  lemma HandTidy(s: System, s': System, c: nat, conn: Connection, k: nat)
    requires AllTidy(s) && |s'.devs| == |s.devs| && c < |s.conns| && s'.conns == s.conns[c := conn] && k < |s.devs|
    requires forall d :: 0 <= d < |s.devs| && d != k ==> SameFields(s.devs[d], s'.devs[d])
    requires s'.devs[k].name == s.devs[k].name && (s'.devs[k].listed ==> s.devs[k].listed) && Tidy(s', k)
    requires (s.conns[c].hand.Empty? || s.conns[c].hand.d == k) && (conn.hand.Empty? || conn.hand.d == k)
    ensures AllTidy(s')
  {
    hide Holders, NamesApart, SameTallies;
    forall d | 0 <= d < |s.devs| ensures s'.devs[d].name == s.devs[d].name && (s'.devs[d].listed ==> s.devs[d].listed) {
      assert d != k ==> SameFields(s.devs[d], s'.devs[d]);
    }
    NamesStay(s.devs, s'.devs);
    forall d | 0 <= d < |s.devs| && d != k ensures Tidy(s', d) {
      assert SameFields(s.devs[d], s'.devs[d]);
      Tallies(s.conns, c, conn, d);
      HoldersUpdate(s.conns, c, conn, Found(d));
      assert Tidy(s, d);
    }
  }

  lemma FindTidy(s: System, c: nat, name: string)
    requires AllTidy(s) && Unbound(s, c) && Newest(s.devs, name) < |s.devs| && Undisturbed(s, Find(c, name))
    ensures AllTidy(Step(s, Find(c, name)))
  {
    hide Holders, NamesApart, Newest;
    var s', k := Step(s, Find(c, name)), Newest(s.devs, name);
    Tallies(s.conns, c, s'.conns[c], k);
    HoldersUpdate(s.conns, c, s'.conns[c], Found(k));
    assert Tidy(s, k);
    HandTidy(s, s', c, s'.conns[c], k);
  }

  lemma CountTidy(s: System, c: nat)
    requires Inv(s) && AllTidy(s) && CanCount(s, c)
    ensures AllTidy(DoCount(s, c))
  {
    var s', k := DoCount(s, c), s.conns[c].hand.d;
    HoldersSome(s.conns, c);
    hide Inv, Holders, NamesApart;
    Tallies(s.conns, c, s'.conns[c], k);
    HoldersUpdate(s.conns, c, s'.conns[c], Found(k));
    assert Tidy(s, k);
    HandTidy(s, s', c, s'.conns[c], k);
  }

  lemma DropTidy(s: System, c: nat)
    requires Inv(s) && AllTidy(s) && CanDrop(s, c) && Undisturbed(s, Drop(c))
    ensures AllTidy(DoDrop(s, c))
  {
    var s' := DoDrop(s, c);
    if Ready(s, c) {
      var k := s.conns[c].dev.value;
      Counted(s, c);
      hide Inv, Holders, NamesApart;
      Tallies(s.conns, c, s'.conns[c], k);
      HoldersUpdate(s.conns, c, s'.conns[c], Found(k));
      assert Tidy(s, k);
      HandTidy(s, s', c, s'.conns[c], k);
    } else {
      hide AllTidy;
      SameHand(s, s', c, s'.conns[c]);
    }
  }

  lemma SearchTidy(s: System, c: nat)
    requires Inv(s) && AllTidy(s) && CanSearch(s, c)
    ensures AllTidy(DoSearch(s, c))
  {
    var s', k := DoSearch(s, c), s.conns[c].hand.d;
    HoldersSome(s.conns, c);
    hide Inv, Holders, NamesApart, Newest;
    assert Tidy(s, k);
    NewestIs(s.devs, k);
    Tallies(s.conns, c, s'.conns[c], k);
    HoldersUpdate(s.conns, c, s'.conns[c], Found(k));
    HandTidy(s, s', c, s'.conns[c], k);
  }

  lemma UnlinkTidy(s: System, c: nat)
    requires Inv(s) && AllTidy(s) && CanUnlink(s, c)
    ensures AllTidy(DoUnlink(s, c))
  {
    var s', k := DoUnlink(s, c), s.conns[c].hand.d;
    HoldersSome(s.conns, c);
    hide Inv, Holders, NamesApart;
    assert Tidy(s, k);
    Tallies(s.conns, c, s'.conns[c], k);
    HoldersUpdate(s.conns, c, s'.conns[c], Found(k));
    HandTidy(s, s', c, s'.conns[c], k);
  }

  lemma EndPendingTidy(s: System, c: nat)
    requires AllTidy(s) && CanEnd(s, c)
    ensures AllTidy(DoEnd(s, c))
  {
    hide AllTidy;
    SameHand(s, DoEnd(s, c), c, DoEnd(s, c).conns[c]);
  }

  lemma StepTidy(s: System, a: Action)
    requires Inv(s) && AllTidy(s) && FreshName(s, a) && Undisturbed(s, a)
    ensures AllTidy(Step(s, a))
  {
    hide Inv, AllTidy, Newest, Undisturbed, DoCount, DoDrop, DoSearch, DoUnlink, DoEnd, DoTake, DoSent, DoTakeReply;
    match a {
      case Open => OpenTidy(s);
      case List(c, name) =>
        if Unbound(s, c) {
          ListTidy(s, c, name);
        }
      case Find(c, name) =>
        if Unbound(s, c) && Newest(s.devs, name) < |s.devs| {
          FindTidy(s, c, name);
        }
      case Count(c) =>
        if CanCount(s, c) {
          CountTidy(s, c);
        }
      case Drop(c) =>
        if CanDrop(s, c) {
          DropTidy(s, c);
        }
      case Search(c) =>
        if CanSearch(s, c) {
          SearchTidy(s, c);
        }
      case Unlink(c) =>
        if CanUnlink(s, c) {
          UnlinkTidy(s, c);
        }
      case EndPending(c) =>
        if CanEnd(s, c) {
          EndPendingTidy(s, c);
        }
      case Queue(d) => QueueTidy(s, d);
      case _ => CallTidy(s, a);
    }
  }

  lemma StartTidy()
    ensures AllTidy(Run([])) && AllSteps([], Orderly)
  {
  }

  /**
   * If nobody creates a device under a name in use, and no last release happens while another call has
   * the device in hand nor is a device found that is being removed, the list of devices is right.
   */
  lemma {:induction false} UniqueNamesSuffice(actions: seq<Action>)
    requires AllSteps(actions, FreshName) && AllSteps(actions, Undisturbed)
    ensures AllSteps(actions, Orderly) && AllTidy(Run(actions))
    decreases |actions|
  {
    hide Inv, AllTidy, AllSteps, Orderly, FreshName, Undisturbed, Listing;
    if actions == [] {
      StartTidy();
    } else {
      var front, a := actions[..|actions| - 1], actions[|actions| - 1];
      AllStepsSnoc(actions, FreshName);
      AllStepsSnoc(actions, Undisturbed);
      AllStepsSnoc(actions, Orderly);
      UniqueNamesSuffice(front);
      OrderlyRun(front);
      TidyOrderly(Run(front), a);
      StepTidy(Run(front), a);
    }
  }

  // ---------------------------------------------------------------------------------------------
  // What holds of the runs that keep the guards

  /**
   * Exactly once: as long as requests are taken and ended only where they still are, every accepted
   * request is in exactly one place, so it is ended at most once; each device's requests leave the
   * pending list in the order they were accepted; and whatever a connection has in hand was accepted
   * by the device it serves.
   */
  lemma ExactlyOnce(actions: seq<Action>)
    requires AllSteps(actions, StillThere)
    ensures var s := Run(actions);
      && (forall r: nat :: 1 <= r <= s.nextId ==> Places(s, r) == 1 && Times(s.ended, r) <= 1)
      && (forall r: nat :: r == 0 || s.nextId < r ==> Places(s, r) == 0)
      && (forall d :: 0 <= d < |s.devs| ==>
            s.devs[d].accepted == s.devs[d].taken + s.devs[d].pending && Increasing(s.devs[d].accepted))
      && (forall c :: 0 <= c < |s.conns| && s.conns[c].dev.Some? ==>
            s.conns[c].dev.value < |s.devs| && HoldsOf(s.conns[c], s.devs[s.conns[c].dev.value].accepted))
  {
    RunInv(actions);
    hide Times, AllPending, AllHeld, AllApart, Held, Run;
    var s := Run(actions);
    forall r: nat ensures 1 <= r <= s.nextId ==> Places(s, r) == 1 && Times(s.ended, r) <= 1 {
      assert OnePlace(s, r);
    }
    forall r: nat ensures r == 0 || s.nextId < r ==> Places(s, r) == 0 {
      assert OnePlace(s, r);
    }
    forall d | 0 <= d < |s.devs|
      ensures s.devs[d].accepted == s.devs[d].taken + s.devs[d].pending && Increasing(s.devs[d].accepted)
    {
      assert DeviceOk(s, d);
    }
    forall c | 0 <= c < |s.conns| && s.conns[c].dev.Some?
      ensures s.conns[c].dev.value < |s.devs| && HoldsOf(s.conns[c], s.devs[s.conns[c].dev.value].accepted)
    {
      assert ConnectionOk(s, c);
    }
  }

  /** A request waits at most once on a connection. */
  lemma WaitsOnce(s: System, c: nat, id: nat)
    requires Inv(s) && c < |s.conns| && id in s.conns[c].waiting
    ensures Times(s.conns[c].waiting, id) == 1
  {
    assert OnePlace(s, id);
    hide Inv, Times;
    HeldUpdate(s.conns, c, Gone(s.conns[c], Empty).(reading := None, replying := None), id);
    NoTimes();
    assert 0 < Times(s.conns[c].waiting, id) by { TimesIn(s.conns[c].waiting, id); }
  }

  lemma TimesIn(list: seq<nat>, r: nat)
    ensures r in list <==> 0 < Times(list, r)
  {
  }

  /** A reply ends the request it names, once, and only if that request waits on its own connection. */
  lemma ReplyEndsItsOwn(s: System, c: nat, id: nat)
    requires Inv(s) && Ready(s, c) && s.conns[c].replying.None?
    ensures var s1 := Step(s, TakeReply(c, id)); var s2 := Step(s1, EndReply(c));
      if id in s.conns[c].waiting then
        && s2.ended == s.ended + [id] && s2.devs == s.devs && |s2.conns| == |s.conns|
        && id !in s2.conns[c].waiting && s2.conns[c].replying.None?
        && forall b :: 0 <= b < |s.conns| && b != c ==> s2.conns[b] == s.conns[b]
      else s1 == s && s2 == s
  {
    var conn := s.conns[c];
    if id in conn.waiting {
      WaitsOnce(s, c, id);
      hide Inv, Times;
      var k := Index(conn.waiting, id);
      WithoutOne(conn.waiting, k);
      TimesIn(conn.waiting[..k] + conn.waiting[k + 1..], id);
    }
  }

  lemma {:induction false} InSomePending(devs: seq<Device>, r: nat) returns (d: nat)
    requires 0 < AllPending(devs, r)
    ensures d < |devs| && 0 < PendingOn(devs[d], r)
  {
    var n := |devs| - 1;
    if 0 < PendingOn(devs[n], r) {
      d := n;
    } else {
      d := InSomePending(devs[..n], r);
    }
  }

  lemma {:induction false} HeldBySome(conns: seq<Connection>, r: nat) returns (c: nat)
    requires 0 < AllHeld(conns, r)
    ensures c < |conns| && 0 < Held(conns[c], r)
  {
    var n := |conns| - 1;
    if 0 < Held(conns[n], r) {
      c := n;
    } else {
      c := HeldBySome(conns[..n], r);
    }
  }

  lemma SameDevice(devs: seq<Device>, d: nat, e: nat, r: nat)
    requires AllApart(devs) && d < |devs| && e < |devs| && r in devs[d].accepted && r in devs[e].accepted
    ensures d == e
  {
    if d < e {
      ApartAt(devs, d, e);
    } else if e < d {
      ApartAt(devs, e, d);
    }
  }

  /** How many calls have a device in hand, at whatever stage. */
  function InHand(conns: seq<Connection>, d: nat): nat {
    Holders(conns, Made(d)) + Holders(conns, Found(d)) + Leavers(conns, d) + Holders(conns, Unlinked(d))
  }

  /**
   * Teardown: in an orderly run the connection count of a device is the number of its live connections;
   * a device in use is listed, and a listed one is in use or about to be removed; once a device is
   * deleted every request it accepted has been ended, once; and a device nobody is connected to or has
   * in hand is deleted.
   */
  lemma NothingOutstanding(actions: seq<Action>, d: nat)
    requires AllSteps(actions, Orderly) && d < |Run(actions).devs|
    ensures var s := Run(actions); var dev := s.devs[d];
      && dev.numConnection == Connected(s.conns, d)
      && (InUse(s, d) ==> dev.listed) && (dev.listed ==> InUse(s, d) || 0 < Leavers(s.conns, d))
      && (dev.gone ==> !dev.listed && dev.numConnection == 0 && forall r :: r in dev.accepted ==> Times(s.ended, r) == 1)
      && (dev.numConnection == 0 && InHand(s.conns, d) == 0 ==> dev.gone)
  {
    OrderlyRun(actions);
    var s := Run(actions);
    assert DeviceOk(s, d) && ListedRight(s, d);
    if s.devs[d].gone {
      forall r | r in s.devs[d].accepted ensures Times(s.ended, r) == 1 {
        EndedWhenGone(s, d, r);
      }
    }
  }

  lemma EndedWhenGone(s: System, d: nat, r: nat)
    requires Inv(s) && Listing(s) && d < |s.devs| && s.devs[d].gone && r in s.devs[d].accepted
    ensures Times(s.ended, r) == 1
  {
    assert DeviceOk(s, d) && OnePlace(s, r) && ListedRight(s, d);
    if 0 < AllPending(s.devs, r) {
      var e := InSomePending(s.devs, r);
      NotPending(s, d, e, r);
    }
    if 0 < AllHeld(s.conns, r) {
      var c := HeldBySome(s.conns, r);
      NotHeld(s, d, c, r);
    }
  }

  lemma NotPending(s: System, d: nat, e: nat, r: nat)
    requires Inv(s) && d < |s.devs| && e < |s.devs| && r in s.devs[d].accepted && 0 < PendingOn(s.devs[e], r)
    ensures !s.devs[d].gone
  {
    assert DeviceOk(s, e);
    assert r in s.devs[e].pending;
    SameDevice(s.devs, d, e, r);
  }

  lemma NotHeld(s: System, d: nat, c: nat, r: nat)
    requires Inv(s) && d < |s.devs| && c < |s.conns| && r in s.devs[d].accepted && 0 < Held(s.conns[c], r)
    ensures 0 < s.devs[d].numConnection
  {
    assert ConnectionOk(s, c) && DeviceOk(s, d);
    var conn := s.conns[c];
    assert conn.dev.Some?;
    SameDevice(s.devs, d, conn.dev.value, r);
    ConnectedSome(s.conns, c, d);
  }
}
