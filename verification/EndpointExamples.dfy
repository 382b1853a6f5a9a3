/** Short runs of coordinator and manager in which a PUT claims a live endpoint and is refused its task. */
module EndpointExamples {
  import opened Prelude
  import opened UploadModel
  import opened UploadInvariants
  import opened UploadCore
  import opened UploadSteps
  import opened UploadTheorems
  import opened UploadRetention
  import opened UploadExamples
  import opened UploadEndpoint
  import H = UploadHttp

  // ---------------------------------------------------------------- building runs

  lemma ExtendSys(t: seq<Sys>, o: seq<SysStep>, x: SysStep) returns (t': seq<Sys>, o': seq<SysStep>)
    requires IsSysRun(CFG, t, o) && SysEnabled(CFG, t[|o|], x)
    ensures IsSysRun(CFG, t', o') && o' == o + [x] && t' == t + [SysNext(CFG, t[|o|], x)]
  {
    var n := SysNext(CFG, t[|o|], x);
    t', o' := t + [n], o + [x];
    forall i | 0 <= i < |o'| ensures SysEnabled(CFG, t'[i], o'[i]) && t'[i + 1] == SysNext(CFG, t'[i], o'[i]) {
      assert t'[i] == t[i];
      if i < |o| {
        assert t'[i + 1] == t[i + 1] && o'[i] == o[i];
      } else {
        assert t'[i + 1] == n;
      }
    }
  }

  /** One waiting task with a window of five. */
  ghost function OneWaiting(): Mgr { Mgr(map[1 := Waiting(1)], map[1 := Slot(5)], map[], []) }

  /** Task 1 is in manager `m` at this instant; token 0 is its endpoint and PUTs in hand hold `hand`. */
  ghost predicate At(s: Sys, m: Mgr, clock: Time, expiry: Time, hand: multiset<H.Token>) {
    && s.core.m == m && s.core.clock == clock && s.http.clock == clock && s.ttls == map[1 := 5]
    && 0 in s.http.minted && s.http.minted[0].handle == Some(1) && s.http.minted[0].expiresAt == expiry
    && (hand == multiset{} ==> s.http.claims == []) && (hand != multiset{} ==> s.http.claims == [0])
    && s.inHand == hand && 8 !in s.core.subs
  }

  /** A run that ends there. */
  ghost predicate EndsAt(t: seq<Sys>, o: seq<SysStep>, m: Mgr, clock: Time, expiry: Time, hand: multiset<H.Token>) {
    IsSysRun(CFG, t, o) && At(t[|o|], m, clock, expiry, hand)
  }

  ghost function FirstSys(): Sys {
    Sys(FirstCore(), H.State(0, H.Coord(map[], map[]), map[], []), {}, map[], multiset{}, multiset{})
  }

  lemma PreparedFirst(s: Sys, x: SysStep)
    requires s == FirstSys() && x == PrepareTask(1, "", 0, 5, KEEP, [])
    ensures SysEnabled(CFG, s, x)
    ensures var n := SysNext(CFG, s, x);
            n == s.(core := n.core, awaiting := {1}, ttls := map[1 := 5])
            && n.core.m == OneWaiting() && n.core.clock == 0 && n.core.subs == map[]
  {
    NoPrepared(s.core.m);
    PrepareAt(s.core, 1, 5);
  }

  lemma TickSys(s: Sys, d: nat)
    ensures SysEnabled(CFG, s, Manager(Tick(d)))
    ensures SysNext(CFG, s, Manager(Tick(d))) == s.(core := s.core.(clock := s.core.clock + d), http := s.http.(clock := s.http.clock + d))
  {
  }

  /** Task 1 is registered and its endpoint not minted yet. */
  ghost predicate Awaiting(s: Sys, d: nat) {
    && s.core.m == OneWaiting() && s.core.clock == d && s.core.subs == map[] && s.inHand == multiset{}
    && s.http == H.State(d, H.Coord(map[], map[]), map[], []) && s.awaiting == {1} && s.ttls == map[1 := 5]
  }

  lemma MintedLater(s: Sys, d: nat, x: SysStep)
    requires Awaiting(s, d) && x == MintEndpoint(0, 1, "", "")
    ensures SysEnabled(CFG, s, x) && At(SysNext(CFG, s, x), OneWaiting(), d, d + 5, multiset{})
    ensures SysNext(CFG, s, x).core.subs == map[]
  {
  }

  /** The task is registered at instant 0, its endpoint minted at `d`. */
  lemma PreparedAndMinted(d: nat) returns (t: seq<Sys>, o: seq<SysStep>)
    ensures EndsAt(t, o, OneWaiting(), d, d + 5, multiset{}) && t[|o|].core.subs == map[]
  {
    var t2, o2 := PreparedOnly(d);
    var b := MintEndpoint(0, 1, "", "");
    MintedLater(t2[|o2|], d, b);
    t, o := ExtendSys(t2, o2, b);
  }

  lemma PreparedOnly(d: nat) returns (t: seq<Sys>, o: seq<SysStep>)
    ensures IsSysRun(CFG, t, o) && Awaiting(t[|o|], d)
  {
    var t1, o1 := PreparedAtZero();
    TickSys(t1[|o1|], d);
    t, o := ExtendSys(t1, o1, Manager(Tick(d)));
  }

  lemma PreparedAtZero() returns (t: seq<Sys>, o: seq<SysStep>)
    ensures IsSysRun(CFG, t, o) && Awaiting(t[|o|], 0)
  {
    var a := PrepareTask(1, "", 0, 5, KEEP, []);
    PreparedFirst(FirstSys(), a);
    t, o := ExtendSys([FirstSys()], [], a);
  }

  lemma ThenTick(t: seq<Sys>, o: seq<SysStep>, m: Mgr, clock: Time, expiry: Time, hand: multiset<H.Token>, d: nat)
    returns (t': seq<Sys>, o': seq<SysStep>)
    requires EndsAt(t, o, m, clock, expiry, hand)
    ensures EndsAt(t', o', m, clock + d, expiry, hand)
  {
    TickSys(t[|o|], d);
    t', o' := ExtendSys(t, o, Manager(Tick(d)));
  }

  lemma ThenClaim(t: seq<Sys>, o: seq<SysStep>, m: Mgr, clock: Time, expiry: Time) returns (t': seq<Sys>, o': seq<SysStep>)
    requires EndsAt(t, o, m, clock, expiry, multiset{}) && clock <= expiry
    ensures EndsAt(t', o', m, clock, expiry, multiset{0}) && |o'| == |o| + 1
    ensures t'[..|t|] == t && o'[..|o|] == o
  {
    SysReachable(CFG, t, o, |o|);
    ClaimAt(t[|o|], m, clock, expiry);
    t', o' := ExtendSys(t, o, ClaimEndpoint(0));
  }

  lemma ClaimAt(s: Sys, m: Mgr, clock: Time, expiry: Time)
    requires H.Inv(s.http) && At(s, m, clock, expiry, multiset{}) && clock <= expiry
    ensures SysEnabled(CFG, s, ClaimEndpoint(0)) && At(SysNext(CFG, s, ClaimEndpoint(0)), m, clock, expiry, multiset{0})
  {
    ClaimSucceeds(s.http, 0);
  }

  lemma PrunedEarlier(t: seq<Sys>, o: seq<SysStep>, t': seq<Sys>, o': seq<SysStep>)
    requires |t| == |o| + 1 && |t'| == |o'| + 1 && |o| <= |o'| && t'[..|t|] == t && o'[..|o|] == o
    requires exists j :: 0 <= j < |o| && PrunesPast(CFG, t[j], o[j], 1)
    ensures exists j :: 0 <= j < |o'| && PrunesPast(CFG, t'[j], o'[j], 1)
  {
    var j :| 0 <= j < |o| && PrunesPast(CFG, t[j], o[j], 1);
    assert t'[j] == t'[..|t|][j] && o'[j] == o'[..|o|][j];
  }

  // ---------------------------------------------------------------- a prune past the window

  ghost function Noticed(): Mgr {
    Mgr(map[1 := Waiting(1)], map[], map[1 := Snapshot(Waiting(1), 6)], [1])
  }

  lemma NoticedInMgr()
    ensures WellFormed(OneWaiting()) && IsBatch(CFG, OneWaiting(), 6, [1]) && Prune(CFG, OneWaiting(), 6, [1]) == Noticed()
    ensures WellFormed(Noticed()) && IsBatch(CFG, Noticed(), 6, [])
  {
    PruneOne(OneWaiting(), 6, 1);
    assert EvictAll(OneWaiting(), [1], 6) == Noticed();
    KeptHead(Noticed(), -4);
    QuietPrune(Noticed(), 6);
  }

  lemma PollNotices(s: Core)
    requires s.m == OneWaiting() && s.clock == 6
    ensures Enabled(CFG, s, Poll([1])) && Prunes(CFG, s, Poll([1]))
    ensures Next(CFG, s, Poll([1])) == s.(m := Noticed(), recAt := Stamp(s, [1]))
  {
    NoticedInMgr();
  }

  lemma PollPrunesPast(s: Sys)
    requires s.core.m == OneWaiting() && s.core.clock == 6 && s.ttls == map[1 := 5]
    ensures PrunesPast(CFG, s, Manager(Poll([1])), 1)
  {
    PollNotices(s.core);
  }

  /** A status poll one nanosecond after the window of task 1. */
  lemma ThenPoll(t: seq<Sys>, o: seq<SysStep>, expiry: Time, hand: multiset<H.Token>) returns (t': seq<Sys>, o': seq<SysStep>)
    requires EndsAt(t, o, OneWaiting(), 6, expiry, hand)
    ensures EndsAt(t', o', Noticed(), 6, expiry, hand)
    ensures exists j :: 0 <= j < |o'| && PrunesPast(CFG, t'[j], o'[j], 1)
  {
    PollNotices(t[|o|].core);
    PollPrunesPast(t[|o|]);
    t', o' := ExtendSys(t, o, Manager(Poll([1])));
    assert t'[|o|] == t[|o|] && o'[|o|] == Manager(Poll([1]));
  }

  lemma RefusedAt(trace: seq<Sys>, steps: seq<SysStep>, i: nat, h: Id)
    requires IsSysRun(CFG, trace, steps) && i < |steps|
    requires steps[i] == PutFulfill(0, 8, []) && Inner(trace[i], steps[i]) == Some(FulfillLock(8, h, []))
    requires WellFormed(trace[i].core.m)
    requires (exists j :: 0 <= j < i && PrunesPast(CFG, trace[j], steps[j], h)) || !ActiveSlotFree(CFG, trace[i].core.m)
    ensures 8 in trace[i + 1].core.subs && !trace[i + 1].core.subs[8].pc.SubAccepted?
  {
    PutAcceptedExact(CFG, trace, steps, i);
  }

  lemma FulfillEnabled(s: Sys, m: Mgr, clock: Time, expiry: Time)
    requires At(s, m, clock, expiry, multiset{0}) && WellFormed(m) && IsBatch(CFG, m, clock, [])
    ensures SysEnabled(CFG, s, PutFulfill(0, 8, [])) && Inner(s, PutFulfill(0, 8, [])) == Some(FulfillLock(8, 1, []))
    ensures var n := SysNext(CFG, s, PutFulfill(0, 8, [])); n.http == s.http && n.core == DoFulfill(CFG, s.core, 8, 1, [])
  {
  }

  /** The PUT that holds token 0 calls Fulfill, after some prune past the window or with no slot free. */
  lemma ThenRefused(t: seq<Sys>, o: seq<SysStep>, m: Mgr, clock: Time, expiry: Time) returns (t': seq<Sys>, o': seq<SysStep>)
    requires EndsAt(t, o, m, clock, expiry, multiset{0}) && WellFormed(m) && IsBatch(CFG, m, clock, [])
    requires 1 in m.objs && m.objs[1].state.Prepared?
    requires (exists j :: 0 <= j < |o| && PrunesPast(CFG, t[j], o[j], 1)) || !ActiveSlotFree(CFG, m)
    ensures EndsRefused(t', o') && |o'| == |o| + 1
    ensures t'[|o'|].http == t[|o|].http && t'[|o'|].core == DoFulfill(CFG, t[|o|].core, 8, 1, [])
  {
    var x := PutFulfill(0, 8, []);
    FulfillEnabled(t[|o|], m, clock, expiry);
    t', o' := ExtendSys(t, o, x);
    assert t'[|o|] == t[|o|] && o'[|o|] == x;
    if j :| 0 <= j < |o| && PrunesPast(CFG, t[j], o[j], 1) {
      assert t'[j] == t[j] && o'[j] == o[j];
    }
    RefusedAt(t', o', |o|, 1);
    RefusedWaits(t[|o|].core);
  }

  /** The run ends with the Fulfill of the PUT that claimed token 0, and the bytes are refused, although
      nobody ever cancelled or fulfilled task 1; the endpoint is spent. */
  ghost predicate EndsRefused(t: seq<Sys>, o: seq<SysStep>) {
    && IsSysRun(CFG, t, o) && |o| > 0 && o[|o| - 1] == PutFulfill(0, 8, [])
    && 8 in t[|o|].core.subs && !t[|o|].core.subs[8].pc.SubAccepted?
    && t[|o|].http.claims == [0] && 0 in t[|o|].http.minted && t[|o|].http.minted[0].handle == Some(1)
    && Waits(t[|o|], 1)
  }

  lemma RefusedWaits(s: Core)
    requires BatchOk(CFG, s, []) && 8 !in s.subs && 1 in s.m.objs && s.m.objs[1].state.Prepared?
    requires var n := DoFulfill(CFG, s, 8, 1, []); 8 in n.subs && !n.subs[8].pc.SubAccepted?
    ensures var n := DoFulfill(CFG, s, 8, 1, []); 1 in n.m.objs && n.m.objs[1].state.Prepared?
  {
    FulfillAnswer(CFG, s, 8, 1, []);
    FulfillTakes(CFG, s, FulfillLock(8, 1, []), 1);
  }

  /** One nanosecond between the two clock reads is enough: a prune in the last instant of the endpoint's
      life leaves an endpoint that can still be claimed, for a task that then refuses the bytes. */
  lemma GapIsReached() returns (trace: seq<Sys>, steps: seq<SysStep>)
    ensures EndsRefused(trace, steps)
  {
    var t1, o1 := PreparedAndMinted(1);
    var t2, o2 := ThenTick(t1, o1, OneWaiting(), 1, 6, multiset{}, 5);
    var t3, o3 := ThenPoll(t2, o2, 6, multiset{});
    var t4, o4 := ThenClaim(t3, o3, Noticed(), 6, 6);
    PrunedEarlier(t3, o3, t4, o4);
    NoticedInMgr();
    trace, steps := ThenRefused(t4, o4, Noticed(), 6, 6);
  }

  /** Even with equal clock reads: the PUT claims its endpoint in the last instant of its life, and a prune
      gets in before the PUT reaches Fulfill. */
  lemma LateFulfillIsRefused() returns (trace: seq<Sys>, steps: seq<SysStep>)
    ensures EndsRefused(trace, steps)
  {
    var t1, o1 := PreparedAndMinted(0);
    var t2, o2 := ThenTick(t1, o1, OneWaiting(), 0, 5, multiset{}, 5);
    var t3, o3 := ThenClaim(t2, o2, OneWaiting(), 5, 5);
    var t4, o4 := ThenTick(t3, o3, OneWaiting(), 5, 5, multiset{0}, 1);
    var t5, o5 := ThenPoll(t4, o4, 5, multiset{0});
    NoticedInMgr();
    trace, steps := ThenRefused(t5, o5, Noticed(), 6, 5);
  }

  // ---------------------------------------------------------------- no active slot

  ghost function Busy(): Mgr {
    Mgr(map[1 := Waiting(1), 2 := NewTask(2, "", Queued, 0).(startedAt := Some(0))],
        map[1 := Slot(5), 2 := Entry(Some(7), 0, Unset, false)], map[], [])
  }

  lemma BusyInMgr()
    ensures WellFormed(OneWaiting()) && IsBatch(CFG, OneWaiting(), 0, [])
    ensures StartLocked(CFG, OneWaiting(), 2, "", 0, 7, 0, []) == (Busy(), true)
  {
    QuietPrune(OneWaiting(), 0);
    NoneActive(OneWaiting());
    RegisteredBusy();
  }

  lemma NoneActive(m: Mgr)
    requires m == OneWaiting()
    ensures m.tasks.Keys <= m.objs.Keys && ActiveSlotFree(CFG, m)
  {
    assert ActiveIds(m) == {};
  }

  lemma RegisteredBusy()
    ensures var p := OneWaiting(); Register(p.(objs := p.objs[2 := NewTask(2, "", Queued, 0)]), 2, 7, 0) == Busy()
  {
    var objs := OneWaiting().objs[2 := NewTask(2, "", Queued, 0)];
    assert objs[2 := objs[2].(state := Queued, startedAt := Some(0))] == Busy().objs;
  }

  lemma BusyIsQuiet()
    ensures WellFormed(Busy()) && IsBatch(CFG, Busy(), 0, []) && Prune(CFG, Busy(), 0, []) == Busy()
  {
    QuietPrune(Busy(), 0);
  }

  lemma BusyIsFull()
    ensures WellFormed(Busy()) && !ActiveSlotFree(CFG, Busy())
  {
    assert ActiveIds(Busy()) == {2};
  }

  lemma OtherStarts(s: Core)
    requires s.m == OneWaiting() && s.clock == 0 && 7 !in s.subs && 8 !in s.subs
    ensures Enabled(CFG, s, StartLock(7, 2, "", 0, []))
    ensures var n := Next(CFG, s, StartLock(7, 2, "", 0, [])); n.m == Busy() && n.clock == 0 && 8 !in n.subs
  {
    BusyInMgr();
    SubmittedFor(s, Busy());
  }

  lemma SubmittedFor(s: Core, m: Mgr)
    requires 8 !in s.subs
    ensures var n := Submitted(s, 7, ViaStart, 2, Policy(Preserve, false), m, [], true); n.m == m && n.clock == s.clock && 8 !in n.subs
  {
  }

  lemma FullAnswer(s: Core)
    requires s.m == Busy() && s.clock == 0 && BatchOk(CFG, s, [])
    ensures DoFulfill(CFG, s, 8, 1, []).m == Busy()
  {
    FulfillShape(CFG, s, 8, 1, []);
    FullInMgr();
  }

  lemma FullInMgr()
    ensures WellFormed(Busy()) && IsBatch(CFG, Busy(), 0, [])
    ensures FulfillLocked(CFG, Busy(), 1, 8, 0, []) == (Busy(), NoSlot)
  {
    BusyIsQuiet();
    BusyIsFull();
    ClaimableInBusy(Busy());
  }

  lemma ClaimableInBusy(m: Mgr)
    requires m == Busy()
    ensures m.tasks.Keys <= m.objs.Keys && FulfillCheck(m, 1) == Claimed && 1 in m.objs && m.objs[1].state.Prepared?
  {
  }

  /** In the middle of the endpoint's life: another upload holds the only active slot, the PUT is refused
      and its endpoint is spent, while the task goes on waiting for bytes that can no longer come. */
  lemma FullSlotsRefuse() returns (trace: seq<Sys>, steps: seq<SysStep>)
    ensures EndsRefused(trace, steps)
    ensures var s := trace[|steps|];
            1 in s.core.m.tasks && 0 in s.http.minted && s.http.clock < s.http.minted[0].expiresAt
  {
    var t1, o1 := BusyRun();
    trace, steps := RefusedWhenBusy(t1, o1);
  }

  lemma RefusedWhenBusy(t: seq<Sys>, o: seq<SysStep>) returns (t': seq<Sys>, o': seq<SysStep>)
    requires EndsAt(t, o, Busy(), 0, 5, multiset{0})
    ensures EndsRefused(t', o') && t'[|o'|].http == t[|o|].http && t'[|o'|].core.m == Busy()
  {
    BusyRefuses();
    ClaimableInBusy(Busy());
    FullAnswer(t[|o|].core);
    t', o' := ThenRefused(t, o, Busy(), 0, 5);
  }

  lemma BusyRefuses()
    ensures WellFormed(Busy()) && IsBatch(CFG, Busy(), 0, []) && !ActiveSlotFree(CFG, Busy())
  {
    BusyIsQuiet();
    BusyIsFull();
  }

  lemma BusyRun() returns (t: seq<Sys>, o: seq<SysStep>)
    ensures EndsAt(t, o, Busy(), 0, 5, multiset{0})
  {
    var t1, o1 := PreparedAndMinted(0);
    var x := Manager(StartLock(7, 2, "", 0, []));
    OtherStarts(t1[|o1|].core);
    OtherStartsSys(t1[|o1|], x);
    var t2, o2 := ExtendSys(t1, o1, x);
    t, o := ThenClaim(t2, o2, Busy(), 0, 5);
  }

  lemma OtherStartsSys(s: Sys, x: SysStep)
    requires At(s, OneWaiting(), 0, 5, multiset{}) && x.Manager? && x.step == StartLock(7, 2, "", 0, [])
    requires Enabled(CFG, s.core, x.step)
    requires var n := Next(CFG, s.core, x.step); n.m == Busy() && n.clock == 0 && 8 !in n.subs
    ensures SysEnabled(CFG, s, x) && At(SysNext(CFG, s, x), Busy(), 0, 5, multiset{})
  {
  }
}
