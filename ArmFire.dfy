/** The capture/arm/fire protocol as a state machine over event traces.
    The state is the pair of shared globals: the last captured session
    pointer (`gQuestSession`) and the pending-request flag (`gPendingPost`).
    `Arm` is the hot-key store of the input thread; `Capture(p)` is one run of
    the hooked game code handing `p` to `OnCaptureGameThread`. The events of
    the two threads are taken as interleaved one at a time. */
module ArmFire {
  import opened Words
  import opened VirtualMemory

  datatype Signal = Signal(session: u64, pending: bool)

  datatype Event = Arm | Capture(p: u64)

  /** Both globals start zeroed. */
  const Initial: Signal := Signal(0, false)

  /** A capture the callback acts upon (a canonical user pointer). */
  predicate IsLiveCapture(e: Event)
  {
    e.Capture? && IsCanonicalUserPtr(e.p)
  }

  /** Event e, in state s, makes the callback call the executor with e.p. */
  predicate Fires(s: Signal, e: Event)
  {
    IsLiveCapture(e) && s.pending
  }

  /** One event: the arm store, or the exchange of the session pointer
      followed by the test-and-clear of the flag. */
  function Step(s: Signal, e: Event): (r: Signal)
    ensures r.pending <==> e == Arm || (s.pending && !IsLiveCapture(e))
    ensures r.session == if IsLiveCapture(e) then e.p else s.session
  {
    match e
    case Arm => s.(pending := true)
    case Capture(p) => if IsCanonicalUserPtr(p) then Signal(p, false) else s
  }

  lemma StepProperties(s: Signal, p: u64)
    ensures Step(s, Arm) == Signal(s.session, true)
    ensures Step(Step(s, Arm), Arm) == Step(s, Arm)
    ensures !IsCanonicalUserPtr(p) ==> Step(s, Capture(p)) == s && !Fires(s, Capture(p))
    ensures IsCanonicalUserPtr(p) ==> Step(s, Capture(p)) == Signal(p, false)
    ensures IsCanonicalUserPtr(p) ==> (Fires(s, Capture(p)) <==> s.pending)
  {
  }

  /** The state after the whole trace. */
  function Run(s: Signal, es: seq<Event>): (r: Signal)
    decreases |es|
  {
    if es == [] then s else Step(Run(s, es[..|es| - 1]), es[|es| - 1])
  }

  /** The executor runs at event i of the trace. */
  predicate FiresAt(s: Signal, es: seq<Event>, i: nat)
    requires i < |es|
  {
    Fires(Run(s, es[..i]), es[i])
  }

  predicate NoLiveCapture(es: seq<Event>)
  {
    forall k :: 0 <= k < |es| ==> !IsLiveCapture(es[k])
  }

  /** The arm at index j has not been consumed by a later live capture. */
  predicate ArmUnconsumed(es: seq<Event>, j: nat)
    requires j < |es|
  {
    es[j] == Arm && NoLiveCapture(es[j + 1..])
  }

  /** A request is outstanding after es: some arm has not been followed by a
      live capture, or the flag was set at the start and no live capture came. */
  ghost predicate Outstanding(s: Signal, es: seq<Event>)
  {
    || (exists j :: 0 <= j < |es| && ArmUnconsumed(es, j))
    || (s.pending && NoLiveCapture(es))
  }

  lemma AppendDead(s: Signal, es: seq<Event>, e: Event)
    requires !IsLiveCapture(e) && e != Arm
    ensures Outstanding(s, es + [e]) == Outstanding(s, es)
  {
    var es' := es + [e];
    forall j | 0 <= j < |es| ensures ArmUnconsumed(es', j) == ArmUnconsumed(es, j) {
      assert es'[j + 1..] == es[j + 1..] + [e];
      NoLiveCaptureAppend(es[j + 1..], e);
    }
    assert !ArmUnconsumed(es', |es|);
    NoLiveCaptureAppend(es, e);
  }

  lemma NoLiveCaptureAppend(es: seq<Event>, e: Event)
    requires !IsLiveCapture(e)
    ensures NoLiveCapture(es + [e]) == NoLiveCapture(es)
  {
    var es' := es + [e];
    assert forall k :: 0 <= k < |es| ==> es'[k] == es[k];
  }

  lemma AppendLive(s: Signal, es: seq<Event>, e: Event)
    requires IsLiveCapture(e)
    ensures !Outstanding(s, es + [e])
  {
    var es' := es + [e];
    forall j | 0 <= j < |es'| ensures !ArmUnconsumed(es', j) {
      if j < |es| {
        assert es'[j + 1..][|es| - (j + 1)] == e;
      }
    }
    assert es'[|es|] == e;
  }

  lemma AppendArm(s: Signal, es: seq<Event>)
    ensures Outstanding(s, es + [Arm])
  {
    var es' := es + [Arm];
    assert es'[|es| + 1..] == [];
    assert ArmUnconsumed(es', |es|);
  }

  /** The flag is set exactly when a request is outstanding. */
  lemma {:induction false} PendingIffOutstanding(s: Signal, es: seq<Event>)
    ensures Run(s, es).pending <==> Outstanding(s, es)
    decreases |es|
  {
    if es != [] {
      var n := |es|;
      var init, e := es[..n - 1], es[n - 1];
      assert es == init + [e];
      PendingIffOutstanding(s, init);
      if e == Arm {
        AppendArm(s, init);
      } else if IsLiveCapture(e) {
        AppendLive(s, init, e);
      } else {
        AppendDead(s, init, e);
      }
    }
  }

  /** The executor runs at event i exactly when event i is a live capture and
      a request is outstanding just before it: the first live capture after
      an arm fires, no other capture does. */
  lemma FiresAtIff(s: Signal, es: seq<Event>, i: nat)
    requires i < |es|
    ensures FiresAt(s, es, i) <==> IsLiveCapture(es[i]) && Outstanding(s, es[..i])
  {
    PendingIffOutstanding(s, es[..i]);
  }

  /** How many times the executor runs over the trace. */
  function FireCount(s: Signal, es: seq<Event>): (n: nat)
    decreases |es|
  {
    if es == [] then 0
    else
      var init := es[..|es| - 1];
      FireCount(s, init) + (if Fires(Run(s, init), es[|es| - 1]) then 1 else 0)
  }

  function ArmCount(es: seq<Event>): (n: nat)
  {
    if es == [] then 0 else ArmCount(es[..|es| - 1]) + (if es[|es| - 1] == Arm then 1 else 0)
  }

  function Bit(b: bool): (n: nat)
  {
    if b then 1 else 0
  }

  /** Every post consumes an arm: posts, plus the request still pending,
      never exceed the arms, plus the request pending at the start. */
  lemma {:induction false} AtMostOnePostPerArm(s: Signal, es: seq<Event>)
    ensures FireCount(s, es) + Bit(Run(s, es).pending) <= ArmCount(es) + Bit(s.pending)
    decreases |es|
  {
    if es != [] {
      AtMostOnePostPerArm(s, es[..|es| - 1]);
    }
  }

  lemma PostsBoundedByArms(es: seq<Event>)
    ensures FireCount(Initial, es) <= ArmCount(es)
  {
    AtMostOnePostPerArm(Initial, es);
  }

  /** An arm followed by any number of captures posts exactly once if one of
      them is live, and the request stays pending otherwise. */
  lemma {:induction false} ArmThenCaptures(s: Signal, cs: seq<Event>)
    requires forall k :: 0 <= k < |cs| ==> cs[k].Capture?
    ensures FireCount(s, [Arm] + cs) == if NoLiveCapture(cs) then 0 else 1
    ensures Run(s, [Arm] + cs).pending <==> NoLiveCapture(cs)
    decreases |cs|
  {
    var es := [Arm] + cs;
    if cs == [] {
      assert es[..0] == [];
    } else {
      var init := cs[..|cs| - 1];
      ArmThenCaptures(s, init);
      assert es[..|es| - 1] == [Arm] + init;
      assert es[|es| - 1] == cs[|cs| - 1];
      assert cs == init + [cs[|cs| - 1]];
      assert NoLiveCapture(cs) <==> NoLiveCapture(init) && !IsLiveCapture(cs[|cs| - 1]);
    }
  }
}
