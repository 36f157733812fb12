/** Runs that show what the guards of the protocol are for. */
module ProtocolRuns {
  import opened Wrappers
  import opened Protocol

  /** The states of a run, one by one. */
  predicate Traces(actions: seq<Action>, states: seq<System>) {
    && |states| == |actions| + 1 && states[0] == Run([])
    && forall i :: 0 <= i < |actions| ==> states[i + 1] == Step(states[i], actions[i])
  }

  lemma {:induction false} TraceRun(actions: seq<Action>, states: seq<System>, i: nat)
    requires Traces(actions, states) && i <= |actions|
    ensures Run(actions[..i]) == states[i]
  {
    if i > 0 {
      TraceRun(actions, states, i - 1);
      assert actions[..i][..i - 1] == actions[..i - 1];
    }
  }

  /** A guard is kept by a run if it is kept in each of these states. */
  lemma TraceSteps(actions: seq<Action>, states: seq<System>, guard: (System, Action) -> bool)
    requires Traces(actions, states)
    ensures AllSteps(actions, guard) <==> forall i :: 0 <= i < |actions| ==> guard(states[i], actions[i])
  {
    hide Run, Traces;
    assert |states| == |actions| + 1 by { TraceLength(actions, states); }
    forall i | 0 <= i < |actions| ensures Run(actions[..i]) == states[i] {
      TraceRun(actions, states, i);
    }
  }

  lemma TraceFails(actions: seq<Action>, states: seq<System>, guard: (System, Action) -> bool, i: nat)
    requires Traces(actions, states) && i < |actions| && !guard(states[i], actions[i])
    ensures !AllSteps(actions, guard)
  {
    TraceSteps(actions, states, guard);
  }

  lemma TraceLength(actions: seq<Action>, states: seq<System>)
    requires Traces(actions, states)
    ensures |states| == |actions| + 1
  {
  }

  lemma TraceEnd(actions: seq<Action>, states: seq<System>)
    requires Traces(actions, states)
    ensures Run(actions) == states[|actions|]
  {
    TraceRun(actions, states, |actions|);
    assert actions[..|actions|] == actions;
  }

  lemma TwoHolders(a: Connection, b: Connection, hand: Hand)
    ensures Holders([a, b], hand) == (if a.hand == hand then 1 else 0) + if b.hand == hand then 1 else 0
  {
    assert [a, b][..1] == [a] && [a][..0] == [];
    assert Holders([a], hand) == Holders([], hand) + if a.hand == hand then 1 else 0;
  }

  // ---------------------------------------------------------------------------------------------
  // Counted too late

  function Fresh(): Connection {
    Connection(true, None, Empty, [], None, None, None)
  }

  function Bound(d: nat): Connection {
    Fresh().(dev := Some(d))
  }

  function Dead(hand: Hand): Connection {
    Gone(Fresh(), hand)
  }

  function Plain(name: string, numConnection: nat, listed: bool, gone: bool): Device {
    Device(name, [], numConnection, listed, gone, [], [])
  }

  /** The second connection finds the device, the first one takes it down, and the second one counts itself. */
  function Late(name: string): seq<Action> {
    [Open, List(0, name), Count(0), Open, Find(1, name), Drop(0), Search(0), Unlink(0), EndPending(0), Count(1)]
  }

  function LateStates(name: string): seq<System> {
    [System([], [], 0, [], true),
     System([], [Fresh()], 0, [], true),
     System([Plain(name, 0, true, false)], [Fresh().(hand := Made(0))], 0, [], true),
     System([Plain(name, 1, true, false)], [Bound(0)], 0, [], true),
     System([Plain(name, 1, true, false)], [Bound(0), Fresh()], 0, [], true),
     System([Plain(name, 1, true, false)], [Bound(0), Fresh().(hand := Found(0))], 0, [], true),
     System([Plain(name, 0, true, false)], [Dead(Left(0)), Fresh().(hand := Found(0))], 0, [], true),
     System([Plain(name, 0, true, false)], [Dead(Marked(0)), Fresh().(hand := Found(0))], 0, [], true),
     System([Plain(name, 0, false, false)], [Dead(Unlinked(0)), Fresh().(hand := Found(0))], 0, [], true),
     System([Plain(name, 0, false, true)], [Dead(Empty), Fresh().(hand := Found(0))], 0, [], true),
     System([Plain(name, 1, false, true)], [Dead(Empty), Bound(0)], 0, [], true)]
  }

  lemma LateSetUp(name: string)
    ensures var ss, aa := LateStates(name), Late(name);
      forall i :: 0 <= i < 4 ==> ss[i + 1] == Step(ss[i], aa[i])
  {
    hide Newest;
    var ss, aa := LateStates(name), Late(name);
    assert ss[1] == Step(ss[0], aa[0]);
    assert ss[2] == Step(ss[1], aa[1]);
    assert ss[3] == Step(ss[2], aa[2]);
    assert ss[4] == Step(ss[3], aa[3]);
  }

  lemma LateFind(name: string)
    ensures var ss, aa := LateStates(name), Late(name);
      ss[5] == Step(ss[4], aa[4])
  {
  }

  lemma LateLeave(name: string)
    ensures var ss, aa := LateStates(name), Late(name);
      ss[6] == Step(ss[5], aa[5]) && ss[7] == Step(ss[6], aa[6])
  {
  }

  lemma LateRemove(name: string)
    ensures var ss, aa := LateStates(name), Late(name);
      ss[8] == Step(ss[7], aa[7]) && ss[9] == Step(ss[8], aa[8]) && ss[10] == Step(ss[9], aa[9])
  {
  }

  lemma LateTraces(name: string)
    ensures Traces(Late(name), LateStates(name))
  {
    LateSetUp(name);
    LateFind(name);
    LateLeave(name);
    LateRemove(name);
    hide Step;
    var ss, aa := LateStates(name), Late(name);
    forall i | 0 <= i < |aa| ensures ss[i + 1] == Step(ss[i], aa[i]) {
      if i < 4 {
        assert ss[i + 1] == Step(ss[i], aa[i]);
      }
    }
  }

  lemma LateGuards(name: string)
    ensures var ss, aa := LateStates(name), Late(name);
      forall i :: 0 <= i < |aa| ==> FreshName(ss[i], aa[i]) && OwnSearch(ss[i], aa[i]) && IdleUnlink(ss[i], aa[i])
  {
    var ss, aa := LateStates(name), Late(name);
    hide Leavers;
    TwoHolders(Dead(Marked(0)), Fresh().(hand := Found(0)), Made(0));
    assert IdleUnlink(ss[7], aa[7]);
    assert OwnSearch(ss[6], aa[6]);
  }

  lemma LateFails(name: string)
    ensures var ss, aa := LateStates(name), Late(name);
      !CountListed(ss[9], aa[9]) && |aa| == 10
      && ss[10] == System([Plain(name, 1, false, true)], [Dead(Empty), Bound(0)], 0, [], true)
  {
  }

  /**
   * Names are unique, every search finds its own device and only idle devices leave the list: but the
   * count comes when the device is gone, and a live connection is left with it.
   */
  lemma CountedTooLate(name: string)
    ensures AllSteps(Late(name), FreshName) && AllSteps(Late(name), OwnSearch) && AllSteps(Late(name), IdleUnlink)
    ensures !AllSteps(Late(name), CountListed) && !Listing(Run(Late(name)))
    ensures Run(Late(name)) == System([Plain(name, 1, false, true)], [Dead(Empty), Bound(0)], 0, [], true)
  {
    hide Run, AllSteps, Traces, FreshName, OwnSearch, CountListed, IdleUnlink, LateStates, Late;
    LateTraces(name);
    LateGuards(name);
    LateFails(name);
    var ss, aa := LateStates(name), Late(name);
    TraceSteps(aa, ss, FreshName);
    TraceSteps(aa, ss, OwnSearch);
    TraceSteps(aa, ss, IdleUnlink);
    TraceFails(aa, ss, CountListed, 9);
    TraceEnd(aa, ss);
    assert !ListedRight(Run(Late(name)), 0);
  }

  // ---------------------------------------------------------------------------------------------
  // Left twice

  /** A device with one request, which its device took in or not yet, and two connections. */
  function Once(name: string, numConnection: nat, listed: bool, gone: bool, a: Connection, b: Connection, ended: seq<nat>, intact: bool)
    : System
  {
    System([Device(name, [1], numConnection, listed, gone, [1], [])], [a, b], 1, ended, intact)
  }

  /** The second connection finds the device, the first one leaves it, the second one counts itself and leaves it too. */
  function Twice(name: string): seq<Action> {
    [Open, List(0, name), Count(0), Open, Find(1, name), Queue(0), Drop(0), Count(1), Drop(1), Search(0), Search(1),
     Unlink(0), Unlink(1), EndPending(0), EndPending(1)]
  }

  function TwiceStates(name: string): seq<System> {
    LateStates(name)[..6] +
    [Once(name, 1, true, false, Bound(0), Fresh().(hand := Found(0)), [], true),
     Once(name, 0, true, false, Dead(Left(0)), Fresh().(hand := Found(0)), [], true),
     Once(name, 1, true, false, Dead(Left(0)), Bound(0), [], true),
     Once(name, 0, true, false, Dead(Left(0)), Dead(Left(0)), [], true),
     Once(name, 0, true, false, Dead(Marked(0)), Dead(Left(0)), [], true),
     Once(name, 0, true, false, Dead(Marked(0)), Dead(Marked(0)), [], true),
     Once(name, 0, false, false, Dead(Unlinked(0)), Dead(Marked(0)), [], true),
     Once(name, 0, false, false, Dead(Unlinked(0)), Dead(Unlinked(0)), [], false),
     Once(name, 0, false, true, Dead(Empty), Dead(Unlinked(0)), [1], false),
     Once(name, 0, false, true, Dead(Empty), Dead(Empty), [1, 1], false)]
  }

  lemma TwiceQueue(name: string)
    ensures var ss, aa := TwiceStates(name), Twice(name); ss[6] == Step(ss[5], aa[5])
  {
    assert [] + [1] == [1];
  }

  lemma TwiceFirst(name: string)
    ensures var ss, aa := TwiceStates(name), Twice(name); ss[7] == Step(ss[6], aa[6])
  {
  }

  lemma TwiceSecond(name: string)
    ensures var ss, aa := TwiceStates(name), Twice(name);
      ss[8] == Step(ss[7], aa[7]) && ss[9] == Step(ss[8], aa[8])
  {
  }

  lemma TwiceSearch(name: string)
    ensures var ss, aa := TwiceStates(name), Twice(name);
      ss[10] == Step(ss[9], aa[9]) && ss[11] == Step(ss[10], aa[10])
  {
  }

  lemma TwiceRemove(name: string)
    ensures var ss, aa := TwiceStates(name), Twice(name);
      ss[12] == Step(ss[11], aa[11]) && ss[13] == Step(ss[12], aa[12])
  {
  }

  lemma TwiceEnd(name: string)
    ensures var ss, aa := TwiceStates(name), Twice(name); ss[14] == Step(ss[13], aa[13])
  {
    hide Newest;
    assert [] + [1] == [1];
  }

  lemma TwiceEndAgain(name: string)
    ensures var ss, aa := TwiceStates(name), Twice(name); ss[15] == Step(ss[14], aa[14])
  {
    hide Newest;
    assert [1] + [1] == [1, 1];
  }

  lemma TwiceTraces(name: string)
    ensures Traces(Twice(name), TwiceStates(name))
  {
    LateSetUp(name);
    LateFind(name);
    TwiceQueue(name);
    TwiceFirst(name);
    TwiceSecond(name);
    TwiceSearch(name);
    TwiceRemove(name);
    TwiceEnd(name);
    TwiceEndAgain(name);
    hide Step;
    var ss, aa := TwiceStates(name), Twice(name);
    forall i | 0 <= i < |aa| ensures ss[i + 1] == Step(ss[i], aa[i]) {
      if i < 4 {
        assert LateStates(name)[i + 1] == Step(LateStates(name)[i], Late(name)[i]);
      }
    }
  }

  lemma TwiceGuards(name: string)
    ensures var ss, aa := TwiceStates(name), Twice(name);
      forall i :: 0 <= i < |aa| ==> FreshName(ss[i], aa[i]) && CountListed(ss[i], aa[i]) && OwnSearch(ss[i], aa[i])
  {
    hide Holders;
    var ss, aa := TwiceStates(name), Twice(name);
    TwoHolders(Dead(Left(0)), Dead(Left(0)), Left(0));
    assert Newest([Device(name, [1], 0, true, false, [1], [])], name) == 0;
    assert OwnSearch(ss[9], aa[9]) && OwnSearch(ss[10], aa[10]);
    hide Newest, OwnSearch;
  }

  lemma TwiceFails(name: string)
    ensures var ss, aa := TwiceStates(name), Twice(name);
      !IdleUnlink(ss[12], aa[12]) && !StillThere(ss[14], aa[14])
      && |aa| == 15 && ss[15] == Once(name, 0, false, true, Dead(Empty), Dead(Empty), [1, 1], false)
  {
  }

  /**
   * Names are unique, every count finds the device listed and every search finds its own device: but
   * there are two last releases, the device is taken off the list twice and its request ends twice.
   */
  lemma LeftTwice(name: string)
    ensures AllSteps(Twice(name), FreshName) && AllSteps(Twice(name), CountListed) && AllSteps(Twice(name), OwnSearch)
    ensures !AllSteps(Twice(name), IdleUnlink) && !AllSteps(Twice(name), StillThere)
    ensures Run(Twice(name)) == Once(name, 0, false, true, Dead(Empty), Dead(Empty), [1, 1], false)
  {
    hide Run, AllSteps, Traces, FreshName, OwnSearch, CountListed, IdleUnlink, StillThere, TwiceStates, Twice;
    TwiceTraces(name);
    TwiceGuards(name);
    TwiceFails(name);
    var ss, aa := TwiceStates(name), Twice(name);
    TraceSteps(aa, ss, FreshName);
    TraceSteps(aa, ss, CountListed);
    TraceSteps(aa, ss, OwnSearch);
    TraceFails(aa, ss, IdleUnlink, 12);
    TraceFails(aa, ss, StillThere, 14);
    TraceEnd(aa, ss);
  }

  // ---------------------------------------------------------------------------------------------
  // Namesakes

  /** More steps after a run. */
  predicate Leads(s: System, actions: seq<Action>, states: seq<System>) {
    && |states| == |actions| && (actions != [] ==> states[0] == Step(s, actions[0]))
    && forall i :: 0 < i < |actions| ==> states[i] == Step(states[i - 1], actions[i])
  }

  lemma TraceJoin(actions: seq<Action>, states: seq<System>, more: seq<Action>, next: seq<System>)
    requires Traces(actions, states) && Leads(states[|actions|], more, next)
    ensures Traces(actions + more, states + next)
  {
    hide Step, Run;
    var n, aa, ss := |actions|, actions + more, states + next;
    forall i | 0 <= i < |aa| ensures ss[i + 1] == Step(ss[i], aa[i]) {
      if i < n {
        assert states[i + 1] == Step(states[i], actions[i]);
      } else {
        assert i > n ==> next[i - n] == Step(next[i - n - 1], more[i - n]);
      }
    }
  }

  /** Two connections create a device each, of one name. */
  function Namesakes(name: string): seq<Action> {
    [Open, Open, List(0, name), Count(0), List(1, name), Count(1)]
  }

  function Pair(a: Device, b: Device, c: Connection, d: Connection): System {
    System([a, b], [c, d], 0, [], true)
  }

  function NamesakeStates(name: string): seq<System> {
    [System([], [], 0, [], true),
     System([], [Fresh()], 0, [], true),
     System([], [Fresh(), Fresh()], 0, [], true),
     System([Plain(name, 0, true, false)], [Fresh().(hand := Made(0)), Fresh()], 0, [], true),
     System([Plain(name, 1, true, false)], [Bound(0), Fresh()], 0, [], true),
     Pair(Plain(name, 1, true, false), Plain(name, 0, true, false), Bound(0), Fresh().(hand := Made(1))),
     Pair(Plain(name, 1, true, false), Plain(name, 1, true, false), Bound(0), Bound(1))]
  }

  lemma NamesakesOpen(name: string)
    ensures var ss, aa := NamesakeStates(name), Namesakes(name);
      ss[1] == Step(ss[0], aa[0]) && ss[2] == Step(ss[1], aa[1])
  {
  }

  lemma NamesakesFirst(name: string)
    ensures var ss, aa := NamesakeStates(name), Namesakes(name);
      ss[3] == Step(ss[2], aa[2]) && ss[4] == Step(ss[3], aa[3])
  {
  }

  lemma NamesakesSecond(name: string)
    ensures var ss, aa := NamesakeStates(name), Namesakes(name);
      ss[5] == Step(ss[4], aa[4]) && ss[6] == Step(ss[5], aa[5])
  {
  }

  lemma NamesakesTraces(name: string)
    ensures Traces(Namesakes(name), NamesakeStates(name))
  {
    NamesakesOpen(name);
    NamesakesFirst(name);
    NamesakesSecond(name);
    hide Step;
  }

  /** The newer device accepts a request, the older one is released, the newer one's user replies. */
  function Trouble(): seq<Action> {
    [Queue(1), Drop(0), Search(0), Unlink(0), EndPending(0), Take(1, false), Sent(1, true), TakeReply(1, 1), EndReply(1)]
  }

  function Mixed(name: string, numConnection: nat, newer: Device, a: Connection, b: Connection, ended: seq<nat>): System {
    System([Plain(name, numConnection, true, false), newer], [a, b], 1, ended, true)
  }

  function TroubleStates(name: string): seq<System> {
    var full, empty := Device(name, [1], 1, true, false, [1], []), Device(name, [], 1, false, true, [1], [1]);
    var deleted := full.(listed := false, gone := true);
    [Mixed(name, 1, full, Bound(0), Bound(1), []),
     Mixed(name, 0, full, Dead(Left(0)), Bound(1), []),
     Mixed(name, 0, full, Dead(Marked(1)), Bound(1), []),
     Mixed(name, 0, full.(listed := false), Dead(Unlinked(1)), Bound(1), []),
     Mixed(name, 0, deleted, Dead(Empty), Bound(1), [1]),
     Mixed(name, 0, empty, Dead(Empty), Bound(1).(reading := Some(1)), [1]),
     Mixed(name, 0, empty, Dead(Empty), Bound(1).(waiting := [1]), [1]),
     Mixed(name, 0, empty, Dead(Empty), Bound(1).(replying := Some(1)), [1]),
     Mixed(name, 0, empty, Dead(Empty), Bound(1), [1, 1])]
  }

  lemma TroubleQueue(name: string)
    ensures var ss, aa := TroubleStates(name), Trouble();
      ss[0] == Step(NamesakeStates(name)[6], aa[0]) && ss[1] == Step(ss[0], aa[1])
  {
    assert [] + [1] == [1];
  }

  lemma TroubleSearch(name: string)
    ensures var ss, aa := TroubleStates(name), Trouble(); ss[2] == Step(ss[1], aa[2])
  {
  }

  lemma TroubleRemove(name: string)
    ensures var ss, aa := TroubleStates(name), Trouble();
      ss[3] == Step(ss[2], aa[3]) && ss[4] == Step(ss[3], aa[4])
  {
    assert [] + [1] == [1];
  }

  lemma TroubleTake(name: string)
    ensures var ss, aa := TroubleStates(name), Trouble();
      ss[5] == Step(ss[4], aa[5]) && ss[6] == Step(ss[5], aa[6])
  {
    assert [1][1..] == [] && [] + [1] == [1];
  }

  lemma TroubleFind(name: string)
    ensures var ss, aa := TroubleStates(name), Trouble(); ss[7] == Step(ss[6], aa[7])
  {
    hide Newest;
    assert [1][..0] + [1][1..] == [];
  }

  lemma TroubleReply(name: string)
    ensures var ss, aa := TroubleStates(name), Trouble(); ss[8] == Step(ss[7], aa[8])
  {
    hide Newest, Index;
    assert [1] + [1] == [1, 1];
  }

  lemma TroubleTraces(name: string)
    ensures Traces(Namesakes(name) + Trouble(), NamesakeStates(name) + TroubleStates(name))
  {
    NamesakesTraces(name);
    TroubleQueue(name);
    TroubleSearch(name);
    TroubleRemove(name);
    TroubleTake(name);
    TroubleFind(name);
    TroubleReply(name);
    hide Step, Traces;
    TraceJoin(Namesakes(name), NamesakeStates(name), Trouble(), TroubleStates(name));
  }

  lemma TroubleSearches(name: string)
    ensures !OwnSearch(TroubleStates(name)[1], Trouble()[2])
  {
    TwoHolders(Dead(Left(0)), Bound(1), Made(0));
    TwoHolders(Dead(Left(0)), Bound(1), Left(0));
    TwoHolders(Dead(Left(0)), Bound(1), Marked(0));
    hide Holders;
  }

  lemma TroubleFails(name: string)
    ensures !IdleUnlink(TroubleStates(name)[2], Trouble()[3]) && !StillThere(TroubleStates(name)[4], Trouble()[5])
  {
    hide Holders, Newest;
  }

  lemma TroubleAt(name: string, i: nat)
    requires i < |Trouble()|
    ensures var ss, aa := NamesakeStates(name) + TroubleStates(name), Namesakes(name) + Trouble();
      && aa[6 + i] == Trouble()[i] && ss[6 + i] == (if i == 0 then NamesakeStates(name)[6] else TroubleStates(name)[i - 1])
      && |aa| == 15 && |ss| == 16 && ss[15] == TroubleStates(name)[8]
  {
  }

  /**
   * A removal that finds a newer namesake: it takes that one off the list, whose pending request ends
   * although its connection lives on and goes on to end it again.
   */
  lemma SharedNameEndsTwice(name: string)
    ensures Run(Namesakes(name) + Trouble())
         == Mixed(name, 0, Device(name, [], 1, false, true, [1], [1]), Dead(Empty), Bound(1), [1, 1])
    ensures !AllSteps(Namesakes(name) + Trouble(), OwnSearch) && !AllSteps(Namesakes(name) + Trouble(), IdleUnlink)
    ensures !AllSteps(Namesakes(name) + Trouble(), StillThere)
  {
    TroubleTraces(name);
    TroubleSearches(name);
    TroubleFails(name);
    hide Run, AllSteps, Traces, OwnSearch, IdleUnlink, StillThere, Namesakes, NamesakeStates;
    var ss, aa := NamesakeStates(name) + TroubleStates(name), Namesakes(name) + Trouble();
    TroubleAt(name, 2);
    TroubleAt(name, 3);
    TroubleAt(name, 5);
    TraceFails(aa, ss, OwnSearch, 8);
    TraceFails(aa, ss, IdleUnlink, 9);
    TraceFails(aa, ss, StillThere, 11);
    TraceEnd(aa, ss);
  }

  /** Namesakes do no harm when the newer one is released first. */
  function Parting(): seq<Action> {
    [Drop(1), Search(1), Unlink(1), EndPending(1), Drop(0), Search(0), Unlink(0), EndPending(0)]
  }

  function PartingStates(name: string): seq<System> {
    var older, gone := Plain(name, 1, true, false), Plain(name, 0, false, true);
    [Pair(older, Plain(name, 0, true, false), Bound(0), Dead(Left(1))),
     Pair(older, Plain(name, 0, true, false), Bound(0), Dead(Marked(1))),
     Pair(older, Plain(name, 0, false, false), Bound(0), Dead(Unlinked(1))),
     Pair(older, gone, Bound(0), Dead(Empty)),
     Pair(Plain(name, 0, true, false), gone, Dead(Left(0)), Dead(Empty)),
     Pair(Plain(name, 0, true, false), gone, Dead(Marked(0)), Dead(Empty)),
     Pair(Plain(name, 0, false, false), gone, Dead(Unlinked(0)), Dead(Empty)),
     Pair(gone, gone, Dead(Empty), Dead(Empty))]
  }

  lemma PartNewer(name: string)
    ensures var ss, aa := PartingStates(name), Parting();
      ss[0] == Step(NamesakeStates(name)[6], aa[0]) && ss[1] == Step(ss[0], aa[1])
  {
  }

  lemma PartNewerRemoved(name: string)
    ensures var ss, aa := PartingStates(name), Parting();
      ss[2] == Step(ss[1], aa[2]) && ss[3] == Step(ss[2], aa[3])
  {
  }

  lemma PartOlder(name: string)
    ensures var ss, aa := PartingStates(name), Parting();
      ss[4] == Step(ss[3], aa[4]) && ss[5] == Step(ss[4], aa[5])
  {
  }

  lemma PartOlderRemoved(name: string)
    ensures var ss, aa := PartingStates(name), Parting();
      ss[6] == Step(ss[5], aa[6]) && ss[7] == Step(ss[6], aa[7])
  {
  }

  lemma PartingTraces(name: string)
    ensures Traces(Namesakes(name) + Parting(), NamesakeStates(name) + PartingStates(name))
  {
    NamesakesTraces(name);
    PartNewer(name);
    PartNewerRemoved(name);
    PartOlder(name);
    PartOlderRemoved(name);
    hide Step, Traces;
    TraceJoin(Namesakes(name), NamesakeStates(name), Parting(), PartingStates(name));
  }

  lemma NamesakesOrderly(name: string)
    ensures forall i :: 0 <= i < 6 ==> Orderly(NamesakeStates(name)[i], Namesakes(name)[i])
  {
    hide Holders, Newest;
  }

  lemma PartNewerOrderly(name: string)
    ensures var ss, aa := PartingStates(name), Parting();
      Orderly(ss[0], aa[1]) && Orderly(ss[1], aa[2])
  {
    TwoHolders(Bound(0), Dead(Marked(1)), Made(1));
    hide Holders;
  }

  lemma PartOlderOrderly(name: string)
    ensures var ss, aa := PartingStates(name), Parting();
      Orderly(ss[4], aa[5]) && Orderly(ss[5], aa[6])
  {
    TwoHolders(Dead(Marked(0)), Dead(Empty), Made(0));
    hide Holders;
  }

  lemma PartingOrderly(name: string)
    ensures var ss, aa := NamesakeStates(name) + PartingStates(name), Namesakes(name) + Parting();
      forall i :: 0 <= i < |aa| ==> Orderly(ss[i], aa[i])
  {
    NamesakesOrderly(name);
    PartNewerOrderly(name);
    PartOlderOrderly(name);
    hide OwnSearch, IdleUnlink;
    var ss, aa := NamesakeStates(name) + PartingStates(name), Namesakes(name) + Parting();
    forall i | 0 <= i < |aa| ensures Orderly(ss[i], aa[i]) {
      if i < 6 {
        assert ss[i] == NamesakeStates(name)[i] && aa[i] == Namesakes(name)[i];
      } else {
        var a := Parting()[i - 6];
        assert aa[i] == a && (i > 6 ==> ss[i] == PartingStates(name)[i - 7]);
        if a.Drop? || a.EndPending? {
          Unguarded(ss[i], a);
        }
      }
    }
  }

  /** Steps no guard speaks of. */
  lemma Unguarded(s: System, a: Action)
    requires !a.Count? && !a.Search? && !a.Unlink?
    ensures Orderly(s, a)
  {
  }

  lemma NamesakesShare(name: string)
    ensures !FreshName(NamesakeStates(name)[4], Namesakes(name)[4])
  {
  }

  lemma NamesakesMayPart(name: string)
    ensures AllSteps(Namesakes(name) + Parting(), Orderly) && !AllSteps(Namesakes(name) + Parting(), FreshName)
    ensures var gone := Plain(name, 0, false, true);
      Run(Namesakes(name) + Parting()) == Pair(gone, gone, Dead(Empty), Dead(Empty))
  {
    PartingTraces(name);
    PartingOrderly(name);
    NamesakesShare(name);
    hide Run, AllSteps, Traces, Orderly, FreshName;
    var ss, aa := NamesakeStates(name) + PartingStates(name), Namesakes(name) + Parting();
    TraceSteps(aa, ss, Orderly);
    TraceFails(aa, ss, FreshName, 4);
    TraceEnd(aa, ss);
  }
}
