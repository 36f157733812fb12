/** Exactly when a step keeps the list of devices right. */
module ProtocolListing {
  import opened Protocol
  import opened ProtocolInvariant

  /** Who is on the way to device d. */
  predicate SameTallies(was: seq<Connection>, now: seq<Connection>, d: nat) {
    && Holders(was, Made(d)) == Holders(now, Made(d))
    && Holders(was, Left(d)) == Holders(now, Left(d)) && Holders(was, Marked(d)) == Holders(now, Marked(d))
  }

  /** One call's hand changes. */
  lemma Tallies(conns: seq<Connection>, c: nat, conn: Connection, d: nat)
    requires c < |conns|
    ensures var was, now := conns[c].hand, conns[c := conn];
      && Holders(now, Made(d)) + (if was == Made(d) then 1 else 0) == Holders(conns, Made(d)) + (if conn.hand == Made(d) then 1 else 0)
      && Leavers(now, d) + (if was == Left(d) || was == Marked(d) then 1 else 0)
         == Leavers(conns, d) + (if conn.hand == Left(d) || conn.hand == Marked(d) then 1 else 0)
      && (was == conn.hand || {was, conn.hand} !! {Made(d), Left(d), Marked(d)} ==> SameTallies(conns, now, d))
  {
    hide Holders;
    HoldersUpdate(conns, c, conn, Made(d));
    HoldersUpdate(conns, c, conn, Left(d));
    HoldersUpdate(conns, c, conn, Marked(d));
  }

  /** Nothing that matters to the list changes. */
  lemma QuietListing(s: System, s': System)
    requires |s'.devs| == |s.devs| && s'.intact == s.intact
    requires forall d :: 0 <= d < |s.devs| ==> s'.devs[d].listed == s.devs[d].listed && s'.devs[d].numConnection == s.devs[d].numConnection
    requires forall d :: 0 <= d < |s.devs| ==> SameTallies(s.conns, s'.conns, d)
    ensures Listing(s') <==> Listing(s)
  {
    hide Holders;
    forall d | 0 <= d < |s.devs| ensures ListedRight(s', d) <==> ListedRight(s, d) {
      assert SameTallies(s.conns, s'.conns, d);
    }
  }

  /** A call moves requests about. */
  lemma RequestsListing(s: System, s': System, c: nat, conn: Connection)
    requires c < |s.conns| && s'.conns == s.conns[c := conn] && conn.hand == s.conns[c].hand
    requires |s'.devs| == |s.devs| && s'.intact == s.intact
    requires forall d :: 0 <= d < |s.devs| ==> s'.devs[d].listed == s.devs[d].listed && s'.devs[d].numConnection == s.devs[d].numConnection
    ensures Listing(s') <==> Listing(s)
  {
    hide Holders, SameTallies;
    forall d | 0 <= d < |s.devs| ensures SameTallies(s.conns, s'.conns, d) {
      Tallies(s.conns, c, conn, d);
    }
    QuietListing(s, s');
  }

  lemma OpenListing(s: System)
    ensures Listing(Step(s, Open)) <==> Listing(s)
  {
    var s' := Step(s, Open);
    assert s'.conns[..|s.conns|] == s.conns;
    QuietListing(s, s');
  }

  lemma ListListing(s: System, c: nat, name: string)
    requires Inv(s) && Listing(s) && Unbound(s, c)
    ensures Listing(Step(s, List(c, name)))
  {
    NobodyBeyond(s);
    hide Inv, Holders;
    var s' := Step(s, List(c, name));
    forall d | 0 <= d < |s'.devs| ensures ListedRight(s', d) {
      Tallies(s.conns, c, s'.conns[c], d);
      assert d < |s.devs| ==> ListedRight(s, d);
    }
  }

  lemma FindListing(s: System, c: nat, name: string)
    requires Unbound(s, c) && Newest(s.devs, name) < |s.devs|
    ensures Listing(Step(s, Find(c, name))) <==> Listing(s)
  {
    hide Holders, SameTallies, Newest;
    var s' := Step(s, Find(c, name));
    forall d | 0 <= d < |s.devs| ensures SameTallies(s.conns, s'.conns, d) {
      Tallies(s.conns, c, s'.conns[c], d);
    }
    QuietListing(s, s');
  }

  /** Counting keeps the list right exactly if the device is still on it. */
  lemma CountListing(s: System, c: nat)
    requires Inv(s) && Listing(s) && CanCount(s, c)
    ensures Listing(DoCount(s, c)) <==> s.devs[s.conns[c].hand.d].listed
  {
    var s', d := DoCount(s, c), s.conns[c].hand.d;
    CountIsNatural(s, d);
    hide Inv, Holders;
    forall e | 0 <= e < |s.devs| && (e == d ==> s.devs[d].listed) ensures ListedRight(s', e) {
      Tallies(s.conns, c, s'.conns[c], e);
      assert ListedRight(s, e);
    }
    if !s.devs[d].listed {
      assert !ListedRight(s', d);
    }
  }

  lemma CountIsNatural(s: System, d: nat)
    requires Inv(s) && d < |s.devs|
    ensures 0 <= s.devs[d].numConnection
  {
    assert DeviceOk(s, d);
  }

  /** A device somebody is connected to is counted. */
  lemma Counted(s: System, c: nat)
    requires Inv(s) && Ready(s, c)
    ensures 0 < s.devs[s.conns[c].dev.value].numConnection
  {
    assert DeviceOk(s, s.conns[c].dev.value);
    ConnectedSome(s.conns, c, s.conns[c].dev.value);
  }

  /** Whoever counts a device down to zero is on the way to remove it. */
  lemma DropListing(s: System, c: nat)
    requires Inv(s) && Listing(s) && CanDrop(s, c)
    ensures Listing(DoDrop(s, c))
  {
    var s' := DoDrop(s, c);
    if Ready(s, c) {
      Counted(s, c);
    }
    hide Inv, Holders;
    forall d | 0 <= d < |s.devs| ensures ListedRight(s', d) {
      Tallies(s.conns, c, s'.conns[c], d);
      assert ListedRight(s, d);
    }
  }

  /** The search keeps the list right exactly if it leaves no device behind. */
  lemma SearchListing(s: System, c: nat)
    requires Inv(s) && Listing(s) && CanSearch(s, c)
    ensures Listing(DoSearch(s, c)) <==> OwnSearch(s, Search(c))
  {
    hide Inv, Holders, Newest;
    var s', d := DoSearch(s, c), s.conns[c].hand.d;
    assert |s'.devs| == |s.devs|;
    forall e | 0 <= e < |s.devs| && (e == d ==> OwnSearch(s, Search(c))) ensures ListedRight(s', e) {
      Tallies(s.conns, c, s'.conns[c], e);
      assert ListedRight(s, e);
    }
    if !OwnSearch(s, Search(c)) {
      Tallies(s.conns, c, s'.conns[c], d);
      assert !ListedRight(s', d);
    }
  }

  /** Taking a device off the list keeps it right exactly if the device is on it and not in use. */
  lemma UnlinkListing(s: System, c: nat)
    requires Inv(s) && Listing(s) && CanUnlink(s, c)
    ensures Listing(DoUnlink(s, c)) <==> IdleUnlink(s, Unlink(c))
  {
    hide Inv, Holders;
    var s', k := DoUnlink(s, c), s.conns[c].hand.d;
    Tallies(s.conns, c, s'.conns[c], k);
    forall e | 0 <= e < |s.devs| && e != k ensures ListedRight(s', e) {
      Tallies(s.conns, c, s'.conns[c], e);
      assert ListedRight(s, e);
    }
    assert ListedRight(s', k) <==> !InUse(s, k);
  }

  lemma EndPendingListing(s: System, c: nat)
    requires CanEnd(s, c)
    ensures Listing(DoEnd(s, c)) <==> Listing(s)
  {
    hide Holders, SameTallies;
    var s' := DoEnd(s, c);
    forall d | 0 <= d < |s.devs| ensures SameTallies(s.conns, s'.conns, d) {
      Tallies(s.conns, c, s'.conns[c], d);
    }
    QuietListing(s, s');
  }

  /** The sections of read and write calls are no business of the list. */
  lemma CallListing(s: System, a: Action)
    requires a.Take? || a.Sent? || a.Streamed? || a.TakeReply? || a.EndReply?
    ensures Listing(Step(s, a)) <==> Listing(s)
  {
    hide Listing, Newest;
    if Ready(s, a.c) {
      RequestsListing(s, Step(s, a), a.c, Step(s, a).conns[a.c]);
    }
  }

  lemma QueueListing(s: System, d: nat)
    ensures Listing(Step(s, Queue(d))) <==> Listing(s)
  {
    QuietListing(s, Step(s, Queue(d)));
  }

  /** A step keeps the list of devices right exactly if it is orderly. */
  lemma StepListing(s: System, a: Action)
    requires Inv(s) && Listing(s)
    ensures Listing(Step(s, a)) <==> Orderly(s, a)
  {
    hide Inv, Listing, Newest, DoCount, DoDrop, DoSearch, DoUnlink, DoEnd, DoTake, DoSent, DoTakeReply;
    match a {
      case Open => OpenListing(s);
      case List(c, name) =>
        if Unbound(s, c) {
          ListListing(s, c, name);
        }
      case Find(c, name) =>
        if Unbound(s, c) && Newest(s.devs, name) < |s.devs| {
          FindListing(s, c, name);
        }
      case Count(c) =>
        if CanCount(s, c) {
          CountListing(s, c);
        }
      case Drop(c) =>
        if CanDrop(s, c) {
          DropListing(s, c);
        }
      case Search(c) =>
        if CanSearch(s, c) {
          SearchListing(s, c);
        }
      case Unlink(c) =>
        if CanUnlink(s, c) {
          UnlinkListing(s, c);
        }
      case EndPending(c) =>
        if CanEnd(s, c) {
          EndPendingListing(s, c);
        }
      case Queue(d) => QueueListing(s, d);
      case _ => CallListing(s, a);
    }
  }

  lemma StartListing()
    ensures Listing(Run([]))
  {
  }

  /** Where the list is right, requests are taken and ended only where they still are. */
  lemma ListedStillThere(s: System, a: Action)
    requires Inv(s) && Listing(s)
    ensures StillThere(s, a)
  {
    if a.Take? && CanTake(s, a.c) {
      Counted(s, a.c);
      var d := s.conns[a.c].dev.value;
      assert ListedRight(s, d) && DeviceOk(s, d);
    }
    if a.EndPending? && CanEnd(s, a.c) {
      HoldersSome(s.conns, a.c);
      assert DeviceOk(s, s.conns[a.c].hand.d);
    }
  }

  /** Orderly runs keep the list right, and every request in one place. */
  lemma {:induction false} OrderlyRun(actions: seq<Action>)
    requires AllSteps(actions, Orderly)
    ensures AllSteps(actions, StillThere) && Inv(Run(actions)) && Listing(Run(actions))
    decreases |actions|
  {
    hide Inv, Listing, AllSteps;
    if actions == [] {
      StartInv();
      StartListing();
      NoSteps(StillThere);
    } else {
      var n := |actions| - 1;
      var s := Run(actions[..n]);
      AllStepsSnoc(actions, Orderly);
      OrderlyRun(actions[..n]);
      ListedStillThere(s, actions[n]);
      StepInv(s, actions[n]);
      StepListing(s, actions[n]);
      AllStepsSnoc(actions, StillThere);
    }
  }

  lemma NoSteps(guard: (System, Action) -> bool)
    ensures AllSteps([], guard)
  {
  }
}
