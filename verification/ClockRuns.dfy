/**
 How the stamp of signed requests converges: a server with an accurate clock that accepts
 stamps within its window, a device whose clock runs a constant skew behind it (or ahead, if
 negative), and round trips of at most a given wait. Time is the server's, as a real; every
 clock reading is a whole second.
 */
module ClockRuns {
  import opened Results
  import opened ApiClient

  /** The longest wait under which every call is accepted. */
  const LONGEST_WAIT := 29.5

  /** A refusal is read and the request signed again without an await between: at most one tick of the clock. */
  const TICK := 1.0

  /** Signed, checked by the server, and its answer read. */
  datatype Trip = Trip(signed: real, checked: real, answered: real)

  /** The answer is read at most `w` seconds after the request is signed. */
  predicate Prompt(t: Trip, w: real) {
    t.signed <= t.checked <= t.answered <= t.signed + w
  }

  function DeviceClock(t: real, skew: real): int {
    (t - skew).Floor
  }

  predicate InWindow(checked: real, stamp: int) {
    Abs(checked.Floor - stamp) <= SIGNATURE_WINDOW_SECS
  }

  /** A server that refuses for nothing but the clock, and dates its refusals. */
  predicate ServedBy(reply: Reply, stamp: int, checked: real) {
    if InWindow(checked, stamp) then reply.status != 401
    else reply.status == 401 && reply.date == Some(checked.Floor)
  }

  datatype Call = Call(script: Script, out: Trip, again: Trip)

  /** Far enough after the epoch, on both clocks, and representable. */
  predicate Plausible(t: real, skew: real) {
    60.0 <= t <= 1000000000000.0 && 0.0 <= t - skew <= 1000000000000.0
  }

  predicate Timely(c: Call, skew: real, w: real) {
    && Prompt(c.out, w) && Prompt(c.again, w) && c.out.answered <= c.again.signed <= c.out.answered + TICK
    && Plausible(c.out.signed, skew) && Plausible(c.again.answered, skew)
    && c.script.signAt == DeviceClock(c.out.signed, skew) && c.script.readAt == DeviceClock(c.out.answered, skew)
    && c.script.resignAt == DeviceClock(c.again.signed, skew)
    && c.script.rereadAt == DeviceClock(c.again.answered, skew)
  }

  /** The primary host answers, as the server would. */
  predicate Served(c: Call, offset: int) {
    var stamp := CorrectedTimestamp(c.script.signAt, offset);
    && c.script.meets(0).Answered? && ServedBy(c.script.meets(0).reply, stamp, c.out.checked)
    && c.script.remeets(0).Answered?
    && ServedBy(c.script.remeets(0).reply,
                CorrectedTimestamp(c.script.resignAt, Learned(offset, c.script.meets(0).reply.date, c.script.readAt)),
                c.again.checked)
  }

  /** The offset a refusal of the call's first send shows. */
  function MeasuredBy(c: Call): int {
    c.out.checked.Floor - c.script.readAt
  }

  /** An offset read off a refusal: no more than the skew and a second, and not a whole wait less. */
  predicate Measured(offset: int, skew: real, w: real) {
    skew - w - 1.0 < offset as real < skew + 1.0
  }

  /** An offset that moves stamps. */
  predicate Applied(offset: int, skew: real, w: real) {
    Measured(offset, skew, w) && ApplicableOffset(offset) == offset && offset != 0
  }

  lemma RefusalMeasures(t: Trip, skew: real, w: real)
    requires Prompt(t, w)
    ensures Measured(t.checked.Floor - DeviceClock(t.answered, skew), skew, w)
  {
  }

  /** A stamp moved by an applied offset is in the window when it arrives. */
  lemma AppliedFits(t: Trip, skew: real, w: real, offset: int)
    requires Prompt(t, w) && Applied(offset, skew, w) && Plausible(t.signed, skew) && w <= LONGEST_WAIT
    ensures var stamp := CorrectedTimestamp(DeviceClock(t.signed, skew), offset);
            stamp == DeviceClock(t.signed, skew) + offset && InWindow(t.checked, stamp)
  {
  }

  /** A refusal of a device stamp shows more than half the window. */
  lemma RefusalIsLarge(t: Trip, skew: real, w: real)
    requires Prompt(t, w) && !InWindow(t.checked, DeviceClock(t.signed, skew)) && w <= LONGEST_WAIT
    ensures Abs(t.checked.Floor - DeviceClock(t.answered, skew)) > 30
  {
  }

  predicate Accepted(r: Outcome) {
    r.result.Ok? && r.result.value.status != 401
  }

  lemma OneAnswer(headers: Headers, candidates: seq<Candidate>, meets: nat -> Meeting)
    requires candidates != [] && meets(0).Answered?
    ensures Sends(headers, candidates, meets, 0) == [Sent(headers, candidates[0], meets(0))]
  {
  }

  /** Once the offset is applied, a call is one send, accepted, and nothing is learned. */
  lemma AppliedCall(a: Account, skew: real, w: real, offset: int, c: Call)
    requires Usable(a) && a.hasKey && Timely(c, skew, w) && Served(c, offset) && Applied(offset, skew, w)
    requires w <= LONGEST_WAIT
    ensures var r := Request(a, offset, true, c.script);
            Accepted(r) && |r.log| == 1 && r.offset == offset
  {
    AppliedFits(c.out, skew, w, offset);
    OneAnswer(Signed(CorrectedTimestamp(c.script.signAt, offset), c.script.nonce), a.candidates, c.script.meets);
  }

  /** A first call whose stamp the server takes. */
  lemma FirstTaken(a: Account, skew: real, w: real, c: Call)
    requires Usable(a) && a.hasKey && Timely(c, skew, w) && Served(c, 0) && InWindow(c.out.checked, c.script.signAt)
    ensures var r := Request(a, 0, true, c.script); Accepted(r) && |r.log| == 1 && r.offset == 0
  {
    OneAnswer(Signed(c.script.signAt, c.script.nonce), a.candidates, c.script.meets);
  }

  /** A first call it refuses: everything is left to the second signing. */
  lemma FirstRefused(a: Account, skew: real, w: real, c: Call)
    requires Usable(a) && a.hasKey && Timely(c, skew, w) && Served(c, 0) && !InWindow(c.out.checked, c.script.signAt)
    ensures var sent := Sent(Signed(c.script.signAt, c.script.nonce), a.candidates[0], c.script.meets(0));
            Request(a, 0, true, c.script) == Resigned(a, MeasuredBy(c), c.script.meets(0).reply, c.script, [sent])
  {
    OneAnswer(Signed(c.script.signAt, c.script.nonce), a.candidates, c.script.meets);
  }

  /** The second signing, whatever was measured: not sent, or taken, or refused again. */
  lemma SecondSigning(a: Account, skew: real, w: real, c: Call, sent: Sent)
    requires Usable(a) && a.hasKey && Timely(c, skew, w) && Served(c, 0) && !InWindow(c.out.checked, c.script.signAt)
    ensures var r := Resigned(a, MeasuredBy(c), c.script.meets(0).reply, c.script, [sent]);
            var stamp := CorrectedTimestamp(c.script.resignAt, MeasuredBy(c));
            if !InWindow(c.out.checked, stamp) then r.result == Err(ClockSkew) && |r.log| == 1
            else if InWindow(c.again.checked, stamp) then Accepted(r) && |r.log| == 2 && r.offset == MeasuredBy(c)
            else r.result == Err(ClockSkew) && |r.log| == 2
  {
    var s := c.script;
    assert Stampable(s.resignAt);
    OneAnswer(Signed(CorrectedTimestamp(s.resignAt, MeasuredBy(c)), s.renonce), a.candidates, s.remeets);
  }

  /**
   Every first call, however long its waits: accepted at once; given up after one send; or signed
   again with the stamp its refusal leads to, and then accepted or refused for good.
   */
  lemma FirstCall(a: Account, skew: real, w: real, c: Call)
    requires Usable(a) && a.hasKey && Timely(c, skew, w) && Served(c, 0)
    ensures var r := Request(a, 0, true, c.script);
            var stamp := CorrectedTimestamp(c.script.resignAt, MeasuredBy(c));
            if InWindow(c.out.checked, c.script.signAt) then Accepted(r) && |r.log| == 1 && r.offset == 0
            else if !InWindow(c.out.checked, stamp) then r.result == Err(ClockSkew) && |r.log| == 1
            else if InWindow(c.again.checked, stamp) then Accepted(r) && |r.log| == 2 && r.offset == MeasuredBy(c)
            else r.result == Err(ClockSkew) && |r.log| == 2
  {
    if InWindow(c.out.checked, c.script.signAt) {
      FirstTaken(a, skew, w, c);
    } else {
      FirstRefused(a, skew, w, c);
      SecondSigning(a, skew, w, c,
                    Sent(Signed(c.script.signAt, c.script.nonce), a.candidates[0], c.script.meets(0)));
    }
  }

  /** The new stamp is in the window of the refusal's own date, if the offset is applied. */
  lemma ResignFits(c: Call, skew: real, w: real)
    requires Timely(c, skew, w)
    ensures InWindow(c.out.checked, c.script.resignAt + MeasuredBy(c))
  {
  }

  /** Too far ahead to be believed, the date leaves the device stamp, which it then refuses itself. */
  lemma FinalRefusal(c: Call, skew: real, w: real)
    requires Timely(c, skew, w) && MeasuredBy(c) > MAX_FORWARD_CORRECTION_SECS
    ensures !InWindow(c.out.checked, CorrectedTimestamp(c.script.resignAt, MeasuredBy(c)))
  {
  }

  /** With waits no longer than the bound, a refused first call is accepted on its second send, or too far off. */
  lemma PromptFirstCall(a: Account, skew: real, w: real, c: Call)
    requires Usable(a) && a.hasKey && Timely(c, skew, w) && Served(c, 0) && w <= LONGEST_WAIT
    ensures var r := Request(a, 0, true, c.script);
            if InWindow(c.out.checked, c.script.signAt) then Accepted(r) && |r.log| == 1 && r.offset == 0
            else if MeasuredBy(c) <= MAX_FORWARD_CORRECTION_SECS then
              Accepted(r) && |r.log| == 2 && r.offset == MeasuredBy(c) && Applied(MeasuredBy(c), skew, w)
            else r.result == Err(ClockSkew) && |r.log| == 1
  {
    FirstCall(a, skew, w, c);
    if !InWindow(c.out.checked, c.script.signAt) {
      if MeasuredBy(c) <= MAX_FORWARD_CORRECTION_SECS {
        RefusalMeasures(c.out, skew, w);
        RefusalIsLarge(c.out, skew, w);
        AppliedFits(c.again, skew, w, MeasuredBy(c));
        ResignFits(c, skew, w);
      } else {
        FinalRefusal(c, skew, w);
      }
    }
  }

  // ---- whole runs -------------------------------------------------------------------------------

  /** A run of signed calls, each from the offset the one before left. */
  predicate Run(a: Account, skew: real, w: real, offset: int, calls: seq<Call>)
    requires Usable(a)
    decreases |calls|
  {
    calls != [] ==>
      && Timely(calls[0], skew, w) && Served(calls[0], offset)
      && Run(a, skew, w, Request(a, offset, true, calls[0].script).offset, calls[1..])
  }

  function Outcomes(a: Account, offset: int, calls: seq<Call>): (r: seq<Outcome>)
    requires Usable(a)
    ensures |r| == |calls|
    decreases |calls|
  {
    if calls == [] then []
    else
      var first := Request(a, offset, true, calls[0].script);
      [first] + Outcomes(a, first.offset, calls[1..])
  }

  function TotalSends(rs: seq<Outcome>): nat {
    if rs == [] then 0 else |rs[0].log| + TotalSends(rs[1..])
  }

  /** The next call of a run: accepted, and whatever it learned is applied from then on. */
  lemma NextCall(a: Account, skew: real, w: real, offset: int, c: Call)
    requires Usable(a) && a.hasKey && Timely(c, skew, w) && Served(c, offset) && w <= LONGEST_WAIT
    requires skew <= MAX_FORWARD_CORRECTION_SECS as real && (offset == 0 || Applied(offset, skew, w))
    ensures var r := Request(a, offset, true, c.script);
            && Accepted(r) && (r.offset == 0 || Applied(r.offset, skew, w))
            && |r.log| == (if offset == 0 && r.offset != 0 then 2 else 1) && (offset != 0 ==> r.offset == offset)
  {
    if offset == 0 {
      PromptFirstCall(a, skew, w, c);
      RefusalMeasures(c.out, skew, w);
    } else {
      AppliedCall(a, skew, w, offset, c);
    }
  }

  /**
   With the server at most 900 seconds ahead of the device, or any distance behind it, and waits
   no longer than the bound, every signed call of a run is accepted, and all but one in one send.
   */
  lemma {:induction false} EveryCallIsAccepted(a: Account, skew: real, w: real, offset: int, calls: seq<Call>)
    requires Usable(a) && a.hasKey && Run(a, skew, w, offset, calls) && w <= LONGEST_WAIT
    requires skew <= MAX_FORWARD_CORRECTION_SECS as real
    requires offset == 0 || Applied(offset, skew, w)
    ensures var rs := Outcomes(a, offset, calls);
            && (forall i :: 0 <= i < |rs| ==> Accepted(rs[i]) && 1 <= |rs[i].log| <= 2)
            && TotalSends(rs) <= |calls| + if offset == 0 then 1 else 0
    decreases |calls|
  {
    if calls != [] {
      var first := Request(a, offset, true, calls[0].script);
      NextCall(a, skew, w, offset, calls[0]);
      EveryCallIsAccepted(a, skew, w, first.offset, calls[1..]);
      var rs, rest := Outcomes(a, offset, calls), Outcomes(a, first.offset, calls[1..]);
      assert rs == [first] + rest;
      OneMore(first, rest);
    }
  }

  lemma OneMore(first: Outcome, rest: seq<Outcome>)
    ensures TotalSends([first] + rest) == |first.log| + TotalSends(rest)
  {
    assert ([first] + rest)[1..] == rest;
  }

  /** With the server further ahead than the bound and a wait, the call is given up after one send. */
  lemma TooFarAhead(a: Account, skew: real, w: real, c: Call)
    requires Usable(a) && a.hasKey && Timely(c, skew, w) && Served(c, 0)
    requires skew >= MAX_FORWARD_CORRECTION_SECS as real + 1.0 + w
    ensures var r := Request(a, 0, true, c.script); r.result == Err(ClockSkew) && |r.log| == 1
  {
    RefusalMeasures(c.out, skew, w);
    FirstCall(a, skew, w, c);
    FinalRefusal(c, skew, w);
  }

  // ---- calls made to measure -----------------------------------------------------------------------

  const ACCOUNT := Account([Candidate("api", true)], true)

  const TAKEN := Reply(200, false, None)

  function Refusal(checked: real): Reply {
    Reply(401, true, Some(checked.Floor))
  }

  /** A call over two trips, answered as the server would when nothing was learned before it. */
  function CallOver(skew: real, out: Trip, again: Trip): Call {
    var signAt, readAt := DeviceClock(out.signed, skew), DeviceClock(out.answered, skew);
    var first := if InWindow(out.checked, signAt) then TAKEN else Refusal(out.checked);
    var resignAt, rereadAt := DeviceClock(again.signed, skew), DeviceClock(again.answered, skew);
    var restamp := CorrectedTimestamp(resignAt, Learned(0, first.date, readAt));
    var second := if InWindow(again.checked, restamp) then TAKEN else Refusal(again.checked);
    Call(Script(signAt, "a", _ => Answered(first), readAt, resignAt, "b", _ => Answered(second), rereadAt), out, again)
  }

  lemma CallOverIsServed(skew: real, out: Trip, again: Trip)
    ensures Served(CallOver(skew, out, again), 0)
  {
  }

  lemma WholeSecond(at: int, skew: real)
    ensures (at as real + skew - skew).Floor == at && (at as real + skew).Floor == at + skew.Floor
  {
    var t := at as real + skew;
    assert t - skew == at as real;
  }

  // ---- how long a wait may be ------------------------------------------------------------------------

  ghost predicate EveryRunAccepted(w: real) {
    forall a: Account, skew: real, calls: seq<Call> ::
      Usable(a) && a.hasKey && skew <= MAX_FORWARD_CORRECTION_SECS as real && Run(a, skew, w, 0, calls) ==>
        forall i :: 0 <= i < |calls| ==> Accepted(Outcomes(a, 0, calls)[i])
  }

  /** A device 100.5 seconds behind, its refusal and its second request each `e` longer under way than the bound. */
  function TwiceLate(e: real): Call {
    CallOver(100.5, Trip(1001.0 - e, 1001.0 - e, 1030.5), Trip(1031.5 - e, 1061.0, 1061.0))
  }

  /** It measures 70 seconds, signs 1000 for the server's 1061, and is refused twice. */
  lemma TwiceRefused(w: real, e: real)
    requires 0.0 < e <= 0.25 && LONGEST_WAIT + e <= w
    ensures Timely(TwiceLate(e), 100.5, w) && Served(TwiceLate(e), 0)
    ensures var r := Request(ACCOUNT, 0, true, TwiceLate(e).script); r.result == Err(ClockSkew) && |r.log| == 2
  {
    var c := TwiceLate(e);
    CallOverIsServed(100.5, c.out, c.again);
    assert c.out.checked.Floor == 1000 && c.script.signAt == 900 && c.script.readAt == 930 && c.script.resignAt == 930;
    assert MeasuredBy(c) == 70 && CorrectedTimestamp(c.script.resignAt, 70) == 1000;
    FirstCall(ACCOUNT, 100.5, w, c);
  }

  /** Every signed call of every run is accepted exactly when no wait is longer than 29.5 seconds. */
  lemma AcceptedExactlyWhenPrompt(w: real)
    requires w >= 0.0
    ensures EveryRunAccepted(w) <==> w <= LONGEST_WAIT
  {
    if w <= LONGEST_WAIT {
      forall a: Account, skew: real, calls: seq<Call> |
        Usable(a) && a.hasKey && skew <= MAX_FORWARD_CORRECTION_SECS as real && Run(a, skew, w, 0, calls)
        ensures forall i :: 0 <= i < |calls| ==> Accepted(Outcomes(a, 0, calls)[i])
      {
        EveryCallIsAccepted(a, skew, w, 0, calls);
      }
    } else {
      var e := if w - LONGEST_WAIT < 0.25 then w - LONGEST_WAIT else 0.25;
      TwiceRefused(w, e);
      var calls := [TwiceLate(e)];
      assert calls[1..] == [];
      assert Outcomes(ACCOUNT, 0, calls) == [Request(ACCOUNT, 0, true, TwiceLate(e).script)] + [];
      assert Run(ACCOUNT, 100.5, w, 0, calls) && !Accepted(Outcomes(ACCOUNT, 0, calls)[0]);
    }
  }

  // ---- when only the first call takes two sends ----------------------------------------------------

  /** Every call but the first is one send. */
  predicate LaterInOne(rs: seq<Outcome>) {
    forall i :: 0 < i < |rs| ==> |rs[i].log| == 1
  }

  ghost predicate EveryRunLaterInOne(skew: real, w: real) {
    forall a: Account, calls: seq<Call> :: Usable(a) && a.hasKey && Run(a, skew, w, 0, calls) ==>
      LaterInOne(Outcomes(a, 0, calls))
  }

  /** The device stamp is always taken by the server, or never. */
  predicate Decided(skew: real, w: real) {
    AlwaysTaken(skew, w) || skew >= 61.0 || skew <= -61.0 - w
  }

  predicate AlwaysTaken(skew: real, w: real) {
    -60.0 <= skew <= 60.0 - w
  }

  /** How far off the device stamp is when it is checked: between the skew and the skew and a wait, to the second. */
  lemma StampIsOff(t: Trip, skew: real, w: real)
    requires Prompt(t, w)
    ensures AlwaysTaken(skew, w) ==> InWindow(t.checked, DeviceClock(t.signed, skew))
    ensures Decided(skew, w) && !AlwaysTaken(skew, w) ==> !InWindow(t.checked, DeviceClock(t.signed, skew))
  {
  }

  lemma {:induction false} AppliedRun(a: Account, skew: real, w: real, offset: int, calls: seq<Call>)
    requires Usable(a) && a.hasKey && Run(a, skew, w, offset, calls) && Applied(offset, skew, w) && w <= LONGEST_WAIT
    ensures forall i :: 0 <= i < |calls| ==> |Outcomes(a, offset, calls)[i].log| == 1
    decreases |calls|
  {
    if calls != [] {
      AppliedCall(a, skew, w, offset, calls[0]);
      AppliedRun(a, skew, w, offset, calls[1..]);
    }
  }

  lemma {:induction false} TakenRun(a: Account, skew: real, w: real, calls: seq<Call>)
    requires Usable(a) && a.hasKey && Run(a, skew, w, 0, calls) && AlwaysTaken(skew, w)
    ensures forall i :: 0 <= i < |calls| ==> |Outcomes(a, 0, calls)[i].log| == 1
    decreases |calls|
  {
    if calls != [] {
      StampIsOff(calls[0].out, skew, w);
      FirstTaken(a, skew, w, calls[0]);
      TakenRun(a, skew, w, calls[1..]);
    }
  }

  lemma DecidedRun(a: Account, skew: real, w: real, calls: seq<Call>)
    requires Usable(a) && a.hasKey && Run(a, skew, w, 0, calls) && Decided(skew, w)
    requires skew <= MAX_FORWARD_CORRECTION_SECS as real && w <= LONGEST_WAIT
    ensures LaterInOne(Outcomes(a, 0, calls))
  {
    if AlwaysTaken(skew, w) {
      TakenRun(a, skew, w, calls);
    } else if calls != [] {
      var first := Request(a, 0, true, calls[0].script);
      StampIsOff(calls[0].out, skew, w);
      NextCall(a, skew, w, 0, calls[0]);
      PromptFirstCall(a, skew, w, calls[0]);
      RefusalMeasures(calls[0].out, skew, w);
      AppliedRun(a, skew, w, first.offset, calls[1..]);
      var rs, rest := Outcomes(a, 0, calls), Outcomes(a, first.offset, calls[1..]);
      assert rs == [first] + rest;
    }
  }

  // ---- and the runs where a later one does ----------------------------------------------------------

  /** A call checked at once, signed when the device clock reads a whole second. */
  function PromptCall(skew: real, at: int): Call {
    var t := at as real + skew;
    CallOver(skew, Trip(t, t, t), Trip(t, t, t))
  }

  /** A call checked and answered a whole wait after it is signed, on a whole second of the server's. */
  function SlowCall(skew: real, w: real, at: int): Call {
    var t := at as real;
    CallOver(skew, Trip(t - w, t, t), Trip(t, t, t))
  }

  lemma PromptIsTimely(skew: real, w: real, at: int)
    requires 1000 <= at <= 10000 && -100.0 <= skew <= 1000.0 && w >= 0.0
    ensures Timely(PromptCall(skew, at), skew, w)
    ensures var c := PromptCall(skew, at); c.out.checked.Floor - c.script.signAt == skew.Floor
  {
    WholeSecond(at, skew);
  }

  lemma SlowIsTimely(skew: real, w: real, at: int)
    requires 2000 <= at <= 10000 && -100.0 <= skew <= 1000.0 && 0.0 <= w <= 100.0
    ensures Timely(SlowCall(skew, w, at), skew, w)
    ensures var c := SlowCall(skew, w, at); c.out.checked.Floor - c.script.signAt == -(-(w + skew)).Floor
  {
    assert at as real - w - skew == at as real + (-(w + skew));
    WholeSecond(at, -(w + skew));
  }

  lemma TwoCalls(a: Account, skew: real, w: real, c: Call, d: Call)
    requires Usable(a) && Timely(c, skew, w) && Served(c, 0) && Timely(d, skew, w) && Served(d, 0)
    requires Request(a, 0, true, c.script).offset == 0
    ensures Run(a, skew, w, 0, [c, d])
    ensures Outcomes(a, 0, [c, d]) == [Request(a, 0, true, c.script), Request(a, 0, true, d.script)]
  {
    assert [c, d][1..] == [d] && [d][1..] == [];
    assert Run(a, skew, w, 0, [d]);
    assert Outcomes(a, 0, [d]) == [Request(a, 0, true, d.script)] + [];
  }

  /** A run of two calls, the first accepted in one send and the second in two. */
  ghost predicate LateCallTakesTwo(skew: real, w: real) {
    exists calls: seq<Call> :: |calls| == 2 && Run(ACCOUNT, skew, w, 0, calls)
      && Accepted(Outcomes(ACCOUNT, 0, calls)[0]) && |Outcomes(ACCOUNT, 0, calls)[0].log| == 1
      && Accepted(Outcomes(ACCOUNT, 0, calls)[1]) && |Outcomes(ACCOUNT, 0, calls)[1].log| == 2
  }

  lemma FirstTakenThenRefused(skew: real, w: real, c: Call, d: Call)
    requires Timely(c, skew, w) && Served(c, 0) && Timely(d, skew, w) && Served(d, 0)
    requires skew <= 900.0 && w <= LONGEST_WAIT
    requires InWindow(c.out.checked, c.script.signAt) && !InWindow(d.out.checked, d.script.signAt)
    ensures LateCallTakesTwo(skew, w)
  {
    FirstTaken(ACCOUNT, skew, w, c);
    PromptFirstCall(ACCOUNT, skew, w, d);
    RefusalMeasures(d.out, skew, w);
    TwoCalls(ACCOUNT, skew, w, c, d);
    var calls := [c, d];
    assert |calls| == 2 && Run(ACCOUNT, skew, w, 0, calls);
  }

  /** A device behind, by up to 61 seconds and by 60 with the wait: a prompt call is taken, a later slow one is not. */
  lemma SlowCallComesLate(skew: real, w: real)
    requires 60.0 - w < skew < 61.0 && 0.0 <= w <= LONGEST_WAIT
    ensures LateCallTakesTwo(skew, w)
  {
    var c, d := PromptCall(skew, 1000), SlowCall(skew, w, 2000);
    PromptIsTimely(skew, w, 1000);
    SlowIsTimely(skew, w, 2000);
    CallOverIsServed(skew, c.out, c.again);
    CallOverIsServed(skew, d.out, d.again);
    FirstTakenThenRefused(skew, w, c, d);
  }

  /** A device ahead, by 60 seconds and by up to 61 with the wait: a slow call is taken, a later prompt one is not. */
  lemma PromptCallComesLate(skew: real, w: real)
    requires -61.0 - w < skew < -60.0 && 0.0 <= w <= LONGEST_WAIT
    ensures LateCallTakesTwo(skew, w)
  {
    var c, d := SlowCall(skew, w, 2000), PromptCall(skew, 5000);
    SlowIsTimely(skew, w, 2000);
    PromptIsTimely(skew, w, 5000);
    CallOverIsServed(skew, c.out, c.again);
    CallOverIsServed(skew, d.out, d.again);
    FirstTakenThenRefused(skew, w, c, d);
  }

  /** Two instances, with waits up to 29 seconds: 45 seconds behind, and 75 ahead. */
  lemma LateCallsHappen()
    ensures LateCallTakesTwo(45.0, 29.0) && LateCallTakesTwo(-75.0, 29.0)
  {
    SlowCallComesLate(45.0, 29.0);
    PromptCallComesLate(-75.0, 29.0);
  }

  /**
   With the server at most 900 seconds ahead and every wait short enough for acceptance, every run
   has its later calls in one send exactly when the device stamp is always taken or never.
   */
  lemma LaterInOneExactlyWhenDecided(skew: real, w: real)
    requires skew <= MAX_FORWARD_CORRECTION_SECS as real && 0.0 <= w <= LONGEST_WAIT
    ensures EveryRunLaterInOne(skew, w) <==> Decided(skew, w)
  {
    if Decided(skew, w) {
      forall a: Account, calls: seq<Call> | Usable(a) && a.hasKey && Run(a, skew, w, 0, calls)
        ensures LaterInOne(Outcomes(a, 0, calls))
      {
        DecidedRun(a, skew, w, calls);
      }
    } else {
      if skew > 0.0 { SlowCallComesLate(skew, w); } else { PromptCallComesLate(skew, w); }
      var calls: seq<Call> :| |calls| == 2 && Run(ACCOUNT, skew, w, 0, calls)
        && |Outcomes(ACCOUNT, 0, calls)[1].log| == 2;
      assert !LaterInOne(Outcomes(ACCOUNT, 0, calls));
    }
  }

  // ---- when a call is given up for good ----------------------------------------------------------------

  ghost predicate EveryFirstCallGivenUp(skew: real, w: real) {
    forall a: Account, c: Call :: Usable(a) && a.hasKey && Timely(c, skew, w) && Served(c, 0) ==>
      Request(a, 0, true, c.script).result == Err(ClockSkew) && |Request(a, 0, true, c.script).log| == 1
  }

  /** A call checked at once whose refusal is `u` seconds under way, read on a whole second of the device. */
  function LateAnswer(skew: real, u: real, at: int): Call {
    var t := at as real + skew;
    CallOver(skew, Trip(t - u, t - u, t), Trip(t, t, t))
  }

  /** Under way for as long as it takes, it measures 900 seconds and is signed again. */
  lemma LateAnswerIsSignedAgain(skew: real, w: real, u: real)
    requires 0.0 <= u <= w && 900.0 <= skew - u < 901.0 && Plausible(2.0 * skew, skew)
    ensures var c := LateAnswer(skew, u, skew.Floor - 899);
            && Timely(c, skew, w) && Served(c, 0)
            && |Request(ACCOUNT, 0, true, c.script).log| == 2
  {
    var at := skew.Floor - 899;
    var c := LateAnswer(skew, u, at);
    CallOverIsServed(skew, c.out, c.again);
    WholeSecond(at, skew);
    WholeSecond(at, skew - u);
    assert at as real + skew - u == at as real + (skew - u);
    assert c.out.checked.Floor == at + 900 && c.script.readAt == at && c.script.resignAt == at;
    assert c.script.signAt <= at;
    FirstCall(ACCOUNT, skew, w, c);
  }

  /**
   Beyond 900 seconds, every first call is given up after one send exactly when no wait brings
   its refusal within them. (Twice the skew must be a time both clocks can show.)
   */
  lemma GivenUpExactly(skew: real, w: real)
    requires MAX_FORWARD_CORRECTION_SECS as real < skew && Plausible(2.0 * skew, skew) && w >= 0.0
    ensures EveryFirstCallGivenUp(skew, w) <==> skew >= 901.0 + w
  {
    if skew >= 901.0 + w {
      forall a: Account, c: Call | Usable(a) && a.hasKey && Timely(c, skew, w) && Served(c, 0)
        ensures Request(a, 0, true, c.script).result == Err(ClockSkew) && |Request(a, 0, true, c.script).log| == 1
      {
        TooFarAhead(a, skew, w, c);
      }
    } else {
      var u := if skew - 900.0 <= w then skew - 900.0 else w;
      LateAnswerIsSignedAgain(skew, w, u);
    }
  }
}
