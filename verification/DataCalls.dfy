/** The table that gives each data call an interface id before the modem has named the call: the id is one plus the
    first free slot, and the modem's call id goes into the slot that is free first when the reply comes. */
module DataCalls {
  import opened Options

  const SLOTS := 4  // of the five table entries only these are used

  // ----- the table -----

  function FreeFrom(cids: seq<int>, i: nat): (f: nat)
    requires i <= SLOTS < |cids|
    ensures i <= f <= SLOTS
    ensures forall k :: i <= k < f ==> cids[k] >= 0
    ensures f < SLOTS ==> cids[f] < 0
    decreases SLOTS - i
  {
    if i == SLOTS || cids[i] < 0 then i else FreeFrom(cids, i + 1)
  }

  function FirstFree(cids: seq<int>): (f: nat)
    requires SLOTS < |cids|
    ensures f <= SLOTS
  {
    FreeFrom(cids, 0)
  }

  // the interface id a slot stands for; 0 if there is no slot
  function IdOf(slot: nat): nat {
    if slot < SLOTS then slot + 1 else 0
  }

  function Stored(cids: seq<int>, cid: int): (r: seq<int>)
    requires SLOTS < |cids|
    ensures |r| == |cids|
  {
    var f := FirstFree(cids);
    if cid >= 0 && f < SLOTS then cids[f := cid] else cids
  }

  function SlotFrom(cids: seq<int>, cid: int, i: nat): (f: nat)
    requires i <= SLOTS < |cids|
    ensures i <= f <= SLOTS
    ensures forall k :: i <= k < f ==> cids[k] != cid
    ensures f < SLOTS ==> cids[f] == cid
    decreases SLOTS - i
  {
    if i == SLOTS || cids[i] == cid then i else SlotFrom(cids, cid, i + 1)
  }

  function Freed(cids: seq<int>, cid: int): (r: seq<int>)
    requires SLOTS < |cids|
    ensures |r| == |cids|
  {
    var f := SlotFrom(cids, cid, 0);
    if f < SLOTS then cids[f := -1] else cids
  }

  // ----- runs with one set-up outstanding at a time -----

  // a set-up under way: the id sent, and whether a call in a lower slot was deactivated since
  datatype Request = Request(id: nat, overtaken: bool)

  // an answered set-up: the id sent, and the one of the slot in which the call is found afterwards
  datatype Answer = Answer(request: Request, got: nat)

  datatype State = State(
    cids: seq<int>,
    pending: Option<Request>,
    setups: map<int, Request>,  // how the live calls were set up
    answers: seq<Answer>)

  datatype Step = Setup | Reply(cid: int) | Deactivate(cid: int)

  function Init(): State {
    State([-1, -1, -1, -1, -1], None, map[], [])
  }

  predicate Shaped(s: State) {
    |s.cids| == SLOTS + 1
  }

  // the modem names no call that is still live; a negative id reports failure
  predicate Enabled(s: State, step: Step)
    requires Shaped(s)
  {
    match step
    case Setup => s.pending.None?
    case Reply(cid) => s.pending.Some? && (cid >= 0 ==> cid !in s.cids)
    case Deactivate(cid) => true
  }

  // whether the deactivation frees a slot below the one the pending request was given
  predicate Overtakes(s: State, cid: int)
    requires Shaped(s)
  {
    && cid >= 0 && s.pending.Some?
    && SlotFrom(s.cids, cid, 0) < (if s.pending.value.id == 0 then SLOTS else s.pending.value.id - 1)
  }

  function Apply(s: State, step: Step): (r: State)
    requires Shaped(s) && Enabled(s, step)
    ensures Shaped(r)
  {
    match step
    case Setup => s.(pending := Some(Request(IdOf(FirstFree(s.cids)), false)))
    case Reply(cid) =>
      if cid < 0 then s.(pending := None)
      else
        var request := s.pending.value;
        var cids := Stored(s.cids, cid);
        State(cids, None, s.setups[cid := request], s.answers + [Answer(request, IdOf(SlotFrom(cids, cid, 0)))])
    case Deactivate(cid) =>
      s.(cids := Freed(s.cids, cid),
         pending := if Overtakes(s, cid) then Some(s.pending.value.(overtaken := true)) else s.pending)
  }

  predicate Feasible(s: State, run: seq<Step>)
    requires Shaped(s)
    decreases |run|
  {
    run == [] || (Enabled(s, run[0]) && Feasible(Apply(s, run[0]), run[1..]))
  }

  function After(s: State, run: seq<Step>): (r: State)
    requires Shaped(s) && Feasible(s, run)
    ensures Shaped(r)
    decreases |run|
  {
    if run == [] then s else After(Apply(s, run[0]), run[1..])
  }

  // ----- the invariant -----

  predicate Distinct(cids: seq<int>) {
    forall i, j :: 0 <= i < j < |cids| && cids[i] >= 0 ==> cids[i] != cids[j]
  }

  // a request names the slot its call will get, unless it was overtaken
  predicate PendingFits(s: State)
    requires Shaped(s)
  {
    s.pending.Some? ==>
      s.pending.value.id <= SLOTS
      && (s.pending.value.id == IdOf(FirstFree(s.cids)) <==> !s.pending.value.overtaken)
      && (s.pending.value.overtaken && s.pending.value.id > 0 ==> FirstFree(s.cids) < s.pending.value.id - 1)
  }

  predicate LiveFit(s: State)
    requires Shaped(s)
  {
    forall i :: 0 <= i < SLOTS && s.cids[i] >= 0 ==>
      s.cids[i] in s.setups && (s.setups[s.cids[i]].id == i + 1 <==> !s.setups[s.cids[i]].overtaken)
  }

  predicate AnswersFit(s: State) {
    forall k :: 0 <= k < |s.answers| ==>
      (s.answers[k].request.id == s.answers[k].got <==> !s.answers[k].request.overtaken)
  }

  predicate Inv(s: State) {
    Shaped(s) && s.cids[SLOTS] < 0 && Distinct(s.cids) && PendingFits(s) && LiveFit(s) && AnswersFit(s)
  }

  lemma {:induction false} FirstFreeIs(cids: seq<int>, f: nat)
    requires SLOTS < |cids| && f <= SLOTS
    requires forall k :: 0 <= k < f ==> cids[k] >= 0
    requires f < SLOTS ==> cids[f] < 0
    ensures FirstFree(cids) == f
  {
  }

  /** A deactivation moves the first free slot exactly if the call is in a slot below it. */
  lemma {:induction false} FreedMovesFirstFree(cids: seq<int>, cid: int)
    requires SLOTS < |cids|
    ensures FirstFree(Freed(cids, cid)) == (if cid >= 0 && SlotFrom(cids, cid, 0) < FirstFree(cids)
                                            then SlotFrom(cids, cid, 0) else FirstFree(cids))
  {
    var f, g := FirstFree(cids), SlotFrom(cids, cid, 0);
    var after := Freed(cids, cid);
    if g < f {
      assert cids[g] >= 0;
      FirstFreeIs(after, g);
    } else {
      FirstFreeIs(after, f);
    }
  }

  /** A new call is found in the slot that was free first, and nowhere if none was; all other slots stay. */
  lemma {:induction false} StoredIsFound(cids: seq<int>, cid: int)
    requires SLOTS < |cids| && cid >= 0 && cid !in cids
    ensures SlotFrom(Stored(cids, cid), cid, 0) == FirstFree(cids)
    ensures forall i :: 0 <= i < |cids| && (i != FirstFree(cids) || i == SLOTS) ==> Stored(cids, cid)[i] == cids[i]
  {
  }

  lemma {:induction false} ReplyKeepsInv(s: State, cid: int)
    requires Inv(s) && Enabled(s, Reply(cid)) && cid >= 0
    ensures Inv(Apply(s, Reply(cid)))
  {
    var r := Apply(s, Reply(cid));
    StoredIsFound(s.cids, cid);
    forall i | 0 <= i < SLOTS && r.cids[i] >= 0
      ensures r.cids[i] in r.setups && (r.setups[r.cids[i]].id == i + 1 <==> !r.setups[r.cids[i]].overtaken)
    {
      if i != FirstFree(s.cids) {
        assert r.cids[i] == s.cids[i] && s.cids[i] in s.cids;
      }
    }
    assert AnswersFit(r);
  }

  lemma {:induction false} DeactivateKeepsPending(s: State, cid: int)
    requires Inv(s)
    ensures PendingFits(Apply(s, Deactivate(cid)))
  {
    FreedMovesFirstFree(s.cids, cid);
  }

  lemma {:induction false} DeactivateKeepsLive(s: State, cid: int)
    requires Inv(s)
    ensures var r := Apply(s, Deactivate(cid)); r.cids[SLOTS] < 0 && Distinct(r.cids) && LiveFit(r)
  {
    var r := Apply(s, Deactivate(cid));
    forall i | 0 <= i < SLOTS && r.cids[i] >= 0
      ensures r.cids[i] in r.setups && (r.setups[r.cids[i]].id == i + 1 <==> !r.setups[r.cids[i]].overtaken)
    {
      assert r.cids[i] == s.cids[i];
    }
  }

  lemma {:induction false} DeactivateKeepsInv(s: State, cid: int)
    requires Inv(s)
    ensures Inv(Apply(s, Deactivate(cid)))
  {
    DeactivateKeepsPending(s, cid);
    DeactivateKeepsLive(s, cid);
  }

  lemma {:induction false} StepKeepsInv(s: State, step: Step)
    requires Inv(s) && Enabled(s, step)
    ensures Inv(Apply(s, step))
  {
    match step {
      case Setup =>
      case Reply(cid) =>
        if cid >= 0 {
          ReplyKeepsInv(s, cid);
        }
      case Deactivate(cid) => DeactivateKeepsInv(s, cid);
    }
  }

  lemma {:induction false} RunKeepsInv(s: State, run: seq<Step>)
    requires Inv(s) && Feasible(s, run)
    ensures Inv(After(s, run))
    decreases |run|
  {
    if run == [] {
    } else {
      StepKeepsInv(s, run[0]);
      RunKeepsInv(Apply(s, run[0]), run[1..]);
    }
  }

  /** In every run with one set-up outstanding and fresh call ids, a set-up's interface id is one plus the slot its
      call gets, exactly if no call in a lower slot was deactivated in between; live calls keep distinct slots and
      ids. */
  lemma {:induction false} IdNamesSlot(run: seq<Step>)
    requires Feasible(Init(), run)
    ensures var s := After(Init(), run);
      && (forall k :: 0 <= k < |s.answers| ==>
            (s.answers[k].request.id == s.answers[k].got <==> !s.answers[k].request.overtaken))
      && (forall i :: 0 <= i < SLOTS && s.cids[i] >= 0 ==>
            s.cids[i] in s.setups && (s.setups[s.cids[i]].id == i + 1 <==> !s.setups[s.cids[i]].overtaken))
      && Distinct(s.cids)
  {
    RunKeepsInv(Init(), run);
  }

  /** Interface id 0 is sent exactly if all four slots are taken. */
  lemma {:induction false} ZeroMeansFull(s: State)
    requires Shaped(s) && s.pending.None?
    ensures Apply(s, Setup).pending.value.id == 0 <==> forall i :: 0 <= i < SLOTS ==> s.cids[i] >= 0
  {
  }

  // the calls set up so far, of which none was given up: the first four are kept, in this order
  predicate Packed(cids: seq<int>, calls: seq<int>) {
    && |cids| == SLOTS + 1
    && forall i :: 0 <= i <= SLOTS ==> cids[i] == if i < |calls| && i < SLOTS then calls[i] else -1
  }

  function StoreAll(cids: seq<int>, calls: seq<int>): (r: seq<int>)
    requires SLOTS < |cids|
    ensures |r| == |cids|
  {
    if calls == [] then cids else Stored(StoreAll(cids, calls[..|calls| - 1]), calls[|calls| - 1])
  }

  /** Calls reported one after the other, none given up, take the four slots in order; a fifth is kept nowhere. */
  lemma {:induction false} CallsFillSlots(calls: seq<int>)
    requires forall i :: 0 <= i < |calls| ==> calls[i] >= 0
    ensures Packed(StoreAll(Init().cids, calls), calls)
    ensures FirstFree(StoreAll(Init().cids, calls)) == if |calls| < SLOTS then |calls| else SLOTS
  {
    if calls == [] {
      FirstFreeIs(Init().cids, 0);
    } else {
      CallsFillSlots(calls[..|calls| - 1]);
      FirstFreeIs(StoreAll(Init().cids, calls), if |calls| < SLOTS then |calls| else SLOTS);
    }
  }

  // two calls, a third requested, the first one given up before the reply
  function Overtaking(): seq<Step> {
    [Setup, Reply(7), Setup, Reply(8), Setup, Deactivate(7), Reply(9)]
  }

  lemma {:induction false} MoreSteps(s: State, step: Step, rest: seq<Step>)
    requires Shaped(s) && Enabled(s, step) && Feasible(Apply(s, step), rest)
    ensures Feasible(s, [step] + rest) && After(s, [step] + rest) == After(Apply(s, step), rest)
  {
    assert ([step] + rest)[1..] == rest;
  }

  // a set-up answered at once, and then other steps
  lemma {:induction false} CallThen(s: State, cid: int, rest: seq<Step>, r: State)
    requires Shaped(s) && s.pending.None? && cid >= 0 && cid !in s.cids
    requires var request := Request(IdOf(FirstFree(s.cids)), false);
      && r.cids == Stored(s.cids, cid) && r.pending.None? && r.setups == s.setups[cid := request]
      && r.answers == s.answers + [Answer(request, request.id)]
    requires Shaped(r) && Feasible(r, rest)
    ensures Feasible(s, [Setup] + ([Reply(cid)] + rest)) && After(s, [Setup] + ([Reply(cid)] + rest)) == After(r, rest)
  {
    var s1 := Apply(s, Setup);
    StoredIsFound(s.cids, cid);
    MoreSteps(s1, Reply(cid), rest);
    MoreSteps(s, Setup, [Reply(cid)] + rest);
  }

  lemma {:induction false} OvertakenEnd(s: State)
    requires Shaped(s) && s.cids == [7, 8, -1, -1, -1] && s.pending.None?
    ensures var run := [Setup] + ([Deactivate(7)] + ([Reply(9)] + []));
      && Feasible(s, run) && After(s, run).cids == [9, 8, -1, -1, -1]
      && 9 in After(s, run).setups && After(s, run).setups[9].id == 3
  {
    FirstFreeIs(s.cids, 2);
    var s1 := Apply(s, Setup);
    var s2 := Apply(s1, Deactivate(7));
    assert s2.cids == [-1, 8, -1, -1, -1];
    FirstFreeIs(s2.cids, 0);
    MoreSteps(s2, Reply(9), []);
    MoreSteps(s1, Deactivate(7), [Reply(9)] + []);
    MoreSteps(s, Setup, [Deactivate(7)] + ([Reply(9)] + []));
  }

  /** Such a deactivation sends interface id 3 for a call that is then kept in slot 0. */
  lemma {:induction false} OvertakingMisnamesSlot()
    ensures Feasible(Init(), Overtaking())
    ensures After(Init(), Overtaking()).cids == [9, 8, -1, -1, -1]
    ensures 9 in After(Init(), Overtaking()).setups && After(Init(), Overtaking()).setups[9].id == 3
  {
    var end := [Setup] + ([Deactivate(7)] + ([Reply(9)] + []));
    FirstFreeIs([-1, -1, -1, -1, -1], 0);
    FirstFreeIs([7, -1, -1, -1, -1], 1);
    var r1, r2 := Request(1, false), Request(2, false);
    var one := State([7, -1, -1, -1, -1], None, map[7 := r1], [Answer(r1, 1)]);
    var two := State([7, 8, -1, -1, -1], None, one.setups[8 := r2], one.answers + [Answer(r2, 2)]);
    OvertakenEnd(two);
    CallThen(one, 8, end, two);
    CallThen(Init(), 7, [Setup] + ([Reply(8)] + end), one);
    assert Overtaking() == [Setup] + ([Reply(7)] + ([Setup] + ([Reply(8)] + end)));
  }

  // ----- the code -----

  class MT6735 {
    const dataCallCids: array<int>

    constructor ()
      ensures dataCallCids[..] == Init().cids && fresh(dataCallCids)
    {
      dataCallCids := new int[SLOTS + 1](_ => -1);
      new;
      assert dataCallCids[..] == [-1, -1, -1, -1, -1];
    }

    method SetupDataCall() returns (interfaceId: nat)
      requires dataCallCids.Length == SLOTS + 1
      ensures interfaceId == IdOf(FirstFree(dataCallCids[..]))
    {
      interfaceId := 0;
      ghost var cids := dataCallCids[..];
      for i := 0 to SLOTS
        invariant FirstFree(cids) == FreeFrom(cids, i) && interfaceId == 0
      {
        if dataCallCids[i] < 0 {
          interfaceId := i + 1;
          break;
        }
      }
    }

    method FetchCidFromDataCall(cid: int)
      requires dataCallCids.Length == SLOTS + 1
      modifies dataCallCids
      ensures dataCallCids[..] == Stored(old(dataCallCids[..]), cid)
    {
      ghost var cids := dataCallCids[..];
      if cid >= 0 {
        for i := 0 to SLOTS
          invariant FirstFree(cids) == FreeFrom(cids, i) && dataCallCids[..] == cids
        {
          if dataCallCids[i] < 0 {
            dataCallCids[i] := cid;
            break;
          }
        }
      }
    }

    method DeactivateDataCall(cid: int)
      requires dataCallCids.Length == SLOTS + 1
      modifies dataCallCids
      ensures dataCallCids[..] == Freed(old(dataCallCids[..]), cid)
    {
      ghost var cids := dataCallCids[..];
      for i := 0 to SLOTS
        invariant SlotFrom(cids, cid, 0) == SlotFrom(cids, cid, i) && dataCallCids[..] == cids
      {
        if dataCallCids[i] == cid {
          dataCallCids[i] := -1;
          break;
        }
      }
    }
  }
}
