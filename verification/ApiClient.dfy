/**
 Signed requests (`api/clock.ts`, `api/client.ts`): the clock learned from refusals, the single
 second signing, and the walk over the hosts. Clock readings, nonces and what each send meets
 come from a script; a `Date` header that is missing or does not parse is no date.
 */
module ApiClient {
  import opened Results

  const SIGNATURE_WINDOW_SECS: int := 60
  const MAX_FORWARD_CORRECTION_SECS: int := 900
  const MAX_SAFE_INTEGER: int := 0x1F_FFFF_FFFF_FFFF

  function Abs(x: int): int {
    if x < 0 then -x else x
  }

  // ---- the clock ------------------------------------------------------------------------

  function ApplicableOffset(offset: int): int {
    if Abs(offset) * 2 <= SIGNATURE_WINDOW_SECS then 0
    else if offset > MAX_FORWARD_CORRECTION_SECS then 0
    else offset
  }

  predicate Stampable(t: int) {
    0 <= t <= MAX_SAFE_INTEGER
  }

  function CorrectedTimestamp(deviceNow: int, offset: int): int {
    var corrected := deviceNow + ApplicableOffset(offset);
    if Stampable(corrected) then corrected else deviceNow
  }

  /** A stamp is within half the window of the measured clock exactly when that clock is not too far ahead. */
  lemma StampIsClose(deviceNow: int, offset: int)
    requires Stampable(deviceNow) && Stampable(deviceNow + offset)
    ensures Abs(deviceNow + offset - CorrectedTimestamp(deviceNow, offset)) <= 30 <==>
            offset <= MAX_FORWARD_CORRECTION_SECS
    ensures CorrectedTimestamp(deviceNow, offset) - deviceNow <= MAX_FORWARD_CORRECTION_SECS
  {
  }

  class ServerClock {
    var offset: int

    constructor ()
      ensures offset == 0
    {
      offset := 0;
    }

    method ObserveDate(date: Option<int>, deviceNow: int)
      modifies this
      ensures offset == Learned(old(offset), date, deviceNow)
    {
      if date.Some? {
        offset := date.value - deviceNow;
      }
    }

    method Stamp(deviceNow: int) returns (t: int)
      ensures t == CorrectedTimestamp(deviceNow, offset)
    {
      t := deviceNow;
      var applied := offset;
      if Abs(offset) * 2 <= SIGNATURE_WINDOW_SECS || offset > MAX_FORWARD_CORRECTION_SECS {
        applied := 0;
      }
      if 0 <= deviceNow + applied <= MAX_SAFE_INTEGER {
        t := deviceNow + applied;
      }
    }
  }

  function Learned(offset: int, date: Option<int>, deviceNow: int): int {
    if date.Some? then date.value - deviceNow else offset
  }

  // ---- one send ------------------------------------------------------------------------------

  /** An answer: its status, whether its body names `clock_skew`, and its date in seconds. */
  datatype Reply = Reply(status: nat, namesSkew: bool, date: Option<int>)

  /** A transport error says whether the connection stood; any other error says nothing. */
  datatype Meeting = Answered(reply: Reply) | NotConnected | BrokenOff | OtherError

  datatype ApiError = NoIdentity | BadClock | ClockSkew | Transport | AllHostsBlocked

  datatype Candidate = Candidate(host: string, useSni: bool)

  datatype Headers = Unsigned | Signed(stamp: int, nonce: string)

  datatype Sent = Sent(headers: Headers, candidate: Candidate, meeting: Meeting)

  /** The primary host, the alternatives, and the primary again without SNI. */
  function Candidates(primary: string, alternatives: seq<string>): (r: seq<Candidate>)
    ensures |r| == |alternatives| + 2 && r[0].host == primary == r[|r| - 1].host
    ensures forall i :: 0 <= i < |r| ==> (r[i].useSni <==> i < |r| - 1)
    ensures forall i :: 0 <= i < |alternatives| ==> r[i + 1].host == alternatives[i]
  {
    [Candidate(primary, true)]
    + seq(|alternatives|, i requires 0 <= i < |alternatives| => Candidate(alternatives[i], true))
    + [Candidate(primary, false)]
  }

  predicate Advances(m: Meeting) {
    m.NotConnected? || m.OtherError?
  }

  /** The sends from candidate `k` on, up to the first that is not advanced past. */
  function Sends(headers: Headers, candidates: seq<Candidate>, meets: nat -> Meeting, k: nat): (log: seq<Sent>)
    requires k <= |candidates|
    ensures k < |candidates| ==> log != []
    decreases |candidates| - k
  {
    if k == |candidates| then []
    else
      var sent := Sent(headers, candidates[k], meets(k));
      if Advances(meets(k)) then [sent] + Sends(headers, candidates, meets, k + 1) else [sent]
  }

  lemma SendsUnfold(log: seq<Sent>, headers: Headers, candidates: seq<Candidate>, meets: nat -> Meeting, k: nat)
    requires k < |candidates|
    ensures var sent := Sent(headers, candidates[k], meets(k));
            log + Sends(headers, candidates, meets, k) ==
              if Advances(meets(k)) then (log + [sent]) + Sends(headers, candidates, meets, k + 1) else log + [sent]
  {
  }

  lemma LastOf(log: seq<Sent>, sent: Sent)
    ensures |log + [sent]| == |log| + 1 && (log + [sent])[|log|] == sent
    ensures Ending(log + [sent]) == Ending([sent])
  {
  }

  function Ending(log: seq<Sent>): Result<Reply, ApiError>
    requires log != []
  {
    match log[|log| - 1].meeting
    case Answered(reply) => Ok(reply)
    case BrokenOff => Err(Transport)
    case _ => Err(AllHostsBlocked)
  }

  // ---- one request ---------------------------------------------------------------------------

  /** Whether a `401` refuses the stamp: it says so, or its own date puts the stamp outside the window. */
  predicate RefusesTheClock(reply: Reply, stamp: int) {
    reply.namesSkew || (reply.date.Some? && Abs(reply.date.value - stamp) > SIGNATURE_WINDOW_SECS)
  }

  predicate StampFitsTheWindow(reply: Reply, stamp: int) {
    reply.date.Some? && Abs(reply.date.value - stamp) <= SIGNATURE_WINDOW_SECS
  }

  /** What a call meets: the device clock when it signs and when it reads an answer, nonces, and sends. */
  datatype Script = Script(
    signAt: int, nonce: string, meets: nat -> Meeting, readAt: int,
    resignAt: int, renonce: string, remeets: nat -> Meeting, rereadAt: int)

  datatype Outcome = Outcome(offset: int, result: Result<Reply, ApiError>, log: seq<Sent>)

  datatype Account = Account(candidates: seq<Candidate>, hasKey: bool)

  predicate Usable(a: Account) {
    a.candidates != []
  }

  /** The second signing, after a refusal that taught the clock. */
  function Resigned(a: Account, offset: int, refusal: Reply, s: Script, log: seq<Sent>): Outcome
    requires Usable(a)
  {
    var stamp := CorrectedTimestamp(s.resignAt, offset);
    if !Stampable(s.resignAt) then Outcome(offset, Err(BadClock), log)
    else if !StampFitsTheWindow(refusal, stamp) then Outcome(offset, Err(ClockSkew), log)
    else
      var more := Sends(Signed(stamp, s.renonce), a.candidates, s.remeets, 0);
      match Ending(more)
      case Err(e) => Outcome(offset, Err(e), log + more)
      case Ok(reply) =>
        if reply.status != 401 then Outcome(offset, Ok(reply), log + more)
        else
          var offset' := Learned(offset, reply.date, s.rereadAt);
          Outcome(offset', if RefusesTheClock(reply, stamp) then Err(ClockSkew) else Ok(reply), log + more)
  }

  function Request(a: Account, offset: int, signed: bool, s: Script): Outcome
    requires Usable(a)
  {
    var stamp := CorrectedTimestamp(s.signAt, offset);
    if signed && !a.hasKey then Outcome(offset, Err(NoIdentity), [])
    else if signed && !Stampable(s.signAt) then Outcome(offset, Err(BadClock), [])
    else
      var log := Sends(if signed then Signed(stamp, s.nonce) else Unsigned, a.candidates, s.meets, 0);
      match Ending(log)
      case Err(e) => Outcome(offset, Err(e), log)
      case Ok(reply) =>
        if !signed || reply.status != 401 then Outcome(offset, Ok(reply), log)
        else
          var offset' := Learned(offset, reply.date, s.readAt);
          if !RefusesTheClock(reply, stamp) then Outcome(offset', Ok(reply), log)
          else Resigned(a, offset', reply, s, log)
  }

  class WarrenApiClient {
    const account: Account
    const serverClock: ServerClock

    constructor (primary: string, alternatives: seq<string>, hasKey: bool, clock: ServerClock)
      ensures account == Account(Candidates(primary, alternatives), hasKey) && serverClock == clock && Usable(account)
    {
      account := Account(Candidates(primary, alternatives), hasKey);
      serverClock := clock;
    }

    method BuildHeaders(signed: bool, deviceNow: int, nonce: string) returns (r: Result<(Headers, int), ApiError>)
      ensures r == if !signed then Ok((Unsigned, 0))
                   else if !account.hasKey then Err(NoIdentity)
                   else if !Stampable(deviceNow) then Err(BadClock)
                   else
                     var stamp := CorrectedTimestamp(deviceNow, serverClock.offset);
                     Ok((Signed(stamp, nonce), stamp))
    {
      if !signed {
        return Ok((Unsigned, 0));
      }
      if !account.hasKey {
        return Err(NoIdentity);
      }
      if !(0 <= deviceNow <= MAX_SAFE_INTEGER) {
        return Err(BadClock);
      }
      var stamp := serverClock.Stamp(deviceNow);
      return Ok((Signed(stamp, nonce), stamp));
    }

    method SendToFirstHostThatAnswers(headers: Headers, meets: nat -> Meeting)
      returns (r: Result<Reply, ApiError>, log: seq<Sent>)
      requires Usable(account)
      ensures log == Sends(headers, account.candidates, meets, 0) && log != [] && r == Ending(log)
    {
      log := [];
      var candidates := account.candidates;
      ghost var all := Sends(headers, candidates, meets, 0);
      for k := 0 to |candidates|
        invariant log + Sends(headers, candidates, meets, k) == all
        invariant k > 0 ==> log != [] && Ending(log) == Err(AllHostsBlocked)
      {
        var meeting := meets(k);
        var sent := Sent(headers, candidates[k], meeting);
        SendsUnfold(log, headers, candidates, meets, k);
        LastOf(log, sent);
        log := log + [sent];
        match meeting {
          case Answered(reply) => return Ok(reply), log;
          case BrokenOff => return Err(Transport), log;
          case _ =>
        }
      }
      assert log + [] == log;
      return Err(AllHostsBlocked), log;
    }

    /** Learns the clock from any `401`, and says whether it refuses the stamp. */
    method RefusedForTheClock(reply: Reply, stamp: int, deviceNow: int) returns (refused: bool)
      modifies serverClock
      ensures refused == (reply.status == 401 && RefusesTheClock(reply, stamp))
      ensures serverClock.offset
           == if reply.status == 401 then Learned(old(serverClock.offset), reply.date, deviceNow)
              else old(serverClock.offset)
    {
      if reply.status != 401 {
        return false;
      }
      serverClock.ObserveDate(reply.date, deviceNow);
      return reply.namesSkew || (reply.date.Some? && Abs(reply.date.value - stamp) > SIGNATURE_WINDOW_SECS);
    }

    method SendRequest(signed: bool, s: Script) returns (r: Result<Reply, ApiError>, log: seq<Sent>)
      requires Usable(account)
      modifies serverClock
      ensures Outcome(serverClock.offset, r, log) == Request(account, old(serverClock.offset), signed, s)
    {
      var first := BuildHeaders(signed, s.signAt, s.nonce);
      if first.Err? {
        return Err(first.error), [];
      }
      var answer: Result<Reply, ApiError>;
      answer, log := SendToFirstHostThatAnswers(first.value.0, s.meets);
      if answer.Err? || !signed {
        return answer, log;
      }
      var refused := RefusedForTheClock(answer.value, first.value.1, s.readAt);
      if !refused {
        return answer, log;
      }
      r, log := SignAgain(answer.value, s, log);
    }

    method SignAgain(refusal: Reply, s: Script, sofar: seq<Sent>) returns (r: Result<Reply, ApiError>, log: seq<Sent>)
      requires Usable(account) && account.hasKey
      modifies serverClock
      ensures Outcome(serverClock.offset, r, log) == Resigned(account, old(serverClock.offset), refusal, s, sofar)
    {
      var retry := BuildHeaders(true, s.resignAt, s.renonce);
      if retry.Err? {
        return Err(retry.error), sofar;
      }
      if !StampFitsTheWindow(refusal, retry.value.1) {
        return Err(ClockSkew), sofar;
      }
      var answer, more := SendToFirstHostThatAnswers(retry.value.0, s.remeets);
      if answer.Err? {
        return answer, sofar + more;
      }
      var refused := RefusedForTheClock(answer.value, retry.value.1, s.rereadAt);
      return if refused then Err(ClockSkew) else answer, sofar + more;
    }
  }

  // ---- what one request may send --------------------------------------------------------------

  /** All sends of one signing carry its headers; each but the last was advanced past. */
  lemma {:induction false} OneSigning(headers: Headers, candidates: seq<Candidate>, meets: nat -> Meeting, k: nat)
    requires k <= |candidates|
    ensures var log := Sends(headers, candidates, meets, k);
            && |log| <= |candidates| - k
            && (forall i :: 0 <= i < |log| ==> log[i] == Sent(headers, candidates[k + i], meets(k + i)))
            && (forall i :: 0 <= i < |log| - 1 ==> Advances(log[i].meeting))
    decreases |candidates| - k
  {
    if k < |candidates| && Advances(meets(k)) {
      var rest := Sends(headers, candidates, meets, k + 1);
      var log := Sends(headers, candidates, meets, k);
      OneSigning(headers, candidates, meets, k + 1);
      assert forall i :: 0 < i < |log| ==> log[i] == rest[i - 1];
    }
  }

  /** The sends of a request's first signing, and of the second if there is one. */
  function FirstSends(a: Account, offset: int, s: Script): seq<Sent>
  {
    Sends(Signed(CorrectedTimestamp(s.signAt, offset), s.nonce), a.candidates, s.meets, 0)
  }

  function SecondSends(a: Account, offset: int, s: Script): seq<Sent>
    requires Usable(a) && Ending(FirstSends(a, offset, s)).Ok?
  {
    var learned := Learned(offset, Ending(FirstSends(a, offset, s)).value.date, s.readAt);
    Sends(Signed(CorrectedTimestamp(s.resignAt, learned), s.renonce), a.candidates, s.remeets, 0)
  }

  lemma LogIsTwoSignings(a: Account, offset: int, s: Script)
    requires Usable(a)
    ensures var log, first := Request(a, offset, true, s).log, FirstSends(a, offset, s);
            || log == []
            || log == first
            || (Ending(first).Ok? && log == first + SecondSends(a, offset, s))
  {
  }

  /** One signing's sends. */
  ghost predicate Signing(log: seq<Sent>, nonce: string, meets: nat -> Meeting) {
    && (forall i: nat :: i < |log| ==>
         log[i].headers.Signed? && log[i].headers.nonce == nonce && log[i].meeting == meets(i))
    && (forall i: nat :: i < |log| ==> log[i].headers == log[0].headers)
    && (forall i: nat :: i < |log| - 1 ==> Advances(log[i].meeting))
  }

  lemma SendsAreOneSigning(a: Account, stamp: int, nonce: string, meets: nat -> Meeting)
    ensures Signing(Sends(Signed(stamp, nonce), a.candidates, meets, 0), nonce, meets)
  {
    var headers := Signed(stamp, nonce);
    var log := Sends(headers, a.candidates, meets, 0);
    OneSigning(headers, a.candidates, meets, 0);
    forall i: nat | i < |log| ensures log[i].headers == headers && log[i].meeting == meets(i) {
      assert log[i] == Sent(headers, a.candidates[0 + i], meets(0 + i));
    }
  }

  /** The first `n` sends are the first signing's, the others the second's. */
  ghost predicate Parted(log: seq<Sent>, n: nat, s: Script) {
    n <= |log| && Signing(log[..n], s.nonce, s.meets) && Signing(log[n..], s.renonce, s.remeets)
  }

  lemma PartsParted(first: seq<Sent>, second: seq<Sent>, s: Script)
    requires Signing(first, s.nonce, s.meets) && Signing(second, s.renonce, s.remeets)
    ensures Parted(first + second, |first|, s)
  {
    var log := first + second;
    var front, back := log[..|first|], log[|first|..];
    assert front == first && back == second;
  }

  /**
   A request signs at most twice, each time with a nonce of its own, and sends one signing's
   headers again only after a send that brought no answer and was not broken off.
   */
  lemma NeverResentAfterAnAnswer(a: Account, offset: int, s: Script)
    requires Usable(a)
    ensures exists n: nat :: Parted(Request(a, offset, true, s).log, n, s)
  {
    var log, first := Request(a, offset, true, s).log, FirstSends(a, offset, s);
    SendsAreOneSigning(a, CorrectedTimestamp(s.signAt, offset), s.nonce, s.meets);
    LogIsTwoSignings(a, offset, s);
    if log == [] {
      PartsParted([], [], s);
      assert [] + [] == log;
    } else if log == first {
      PartsParted(first, [], s);
      assert first + [] == log;
    } else {
      var learned := Learned(offset, Ending(first).value.date, s.readAt);
      SendsAreOneSigning(a, CorrectedTimestamp(s.resignAt, learned), s.renonce, s.remeets);
      PartsParted(first, SecondSends(a, offset, s), s);
    }
  }

  lemma PartedResends(log: seq<Sent>, n: nat, s: Script, i: nat, j: nat)
    requires Parted(log, n, s) && i < j < |log| && s.nonce != s.renonce && log[i].headers == log[j].headers
    ensures Advances(log[i].meeting) && (log[i].meeting == s.meets(i) || (i >= n && log[i].meeting == s.remeets(i - n)))
  {
    assert i < n ==> log[i] == log[..n][i];
    assert j < n ==> log[j] == log[..n][j];
    assert i >= n ==> log[i] == log[n..][i - n];
    assert j >= n ==> log[j] == log[n..][j - n];
  }

  /**
   With a transport that raises only transport errors, nonces being distinct, a signing sent
   again had no connection before.
   */
  lemma ResentMeansNotConnected(a: Account, offset: int, s: Script, i: nat, j: nat)
    requires Usable(a) && i < j < |Request(a, offset, true, s).log| && s.nonce != s.renonce
    requires forall k :: !s.meets(k).OtherError? && !s.remeets(k).OtherError?
    requires Request(a, offset, true, s).log[i].headers == Request(a, offset, true, s).log[j].headers
    ensures Request(a, offset, true, s).log[i].meeting.NotConnected?
  {
    var log := Request(a, offset, true, s).log;
    NeverResentAfterAnAnswer(a, offset, s);
    var n: nat :| Parted(log, n, s);
    PartedResends(log, n, s, i, j);
  }

  lemma {:induction false} SendsReach(
    headers: Headers, candidates: seq<Candidate>, meets: nat -> Meeting, k: nat, to: nat)
    requires k <= to < |candidates| && forall i :: k <= i < to ==> Advances(meets(i))
    ensures |Sends(headers, candidates, meets, k)| > to - k
    decreases |candidates| - k
  {
    if k < to { SendsReach(headers, candidates, meets, k + 1, to); }
  }

  /** Some error that is not the transport's own comes before the last host, with every host before it passed. */
  ghost predicate BlindAt(candidates: seq<Candidate>, meets: nat -> Meeting, k: nat) {
    k + 1 < |candidates| && meets(k).OtherError? && forall i :: 0 <= i < k ==> Advances(meets(i))
  }

  lemma SentInTurn(headers: Headers, candidates: seq<Candidate>, meets: nat -> Meeting)
    ensures var log := Sends(headers, candidates, meets, 0);
            && |log| <= |candidates|
            && (forall i: nat :: i < |log| ==> log[i].meeting == meets(i))
            && (forall i: nat :: i < |log| - 1 ==> Advances(meets(i)))
  {
    var log := Sends(headers, candidates, meets, 0);
    OneSigning(headers, candidates, meets, 0);
    forall i: nat | i < |log| ensures log[i].meeting == meets(i) {
      assert log[i] == Sent(headers, candidates[0 + i], meets(0 + i));
    }
  }

  /** Exactly then a signing is sent again after an error that says nothing about the connection. */
  lemma ResentBlindly(headers: Headers, candidates: seq<Candidate>, meets: nat -> Meeting)
    ensures var log := Sends(headers, candidates, meets, 0);
            (exists i :: 0 <= i < |log| - 1 && log[i].meeting.OtherError?) <==>
                (exists k: nat :: BlindAt(candidates, meets, k))
  {
    var log := Sends(headers, candidates, meets, 0);
    SentInTurn(headers, candidates, meets);
    if i :| 0 <= i < |log| - 1 && log[i].meeting.OtherError? {
      assert BlindAt(candidates, meets, i);
    }
    if k: nat :| BlindAt(candidates, meets, k) {
      SendsReach(headers, candidates, meets, 0, k + 1);
      assert log[k].meeting == meets(k);
    }
  }

  /** With any other error it may have been answered: the same signature goes to the next host all the same. */
  lemma {:induction false} OtherErrorsAreResent()
    ensures exists a: Account, s: Script :: Usable(a) &&
              var log := Request(a, 0, true, s).log;
              |log| > 1 && log[0].headers == log[1].headers && log[0].meeting.OtherError?
  {
    var a := Account(Candidates("api", []), true);
    var s := Script(1000, "a", _ => OtherError, 1000, 1000, "b", _ => OtherError, 1000);
    var log := Sends(Signed(1000, "a"), a.candidates, s.meets, 0);
    assert |a.candidates| == 2 && Sends(Signed(1000, "a"), a.candidates, s.meets, 1) ==
           [Sent(Signed(1000, "a"), a.candidates[1], OtherError)];
    assert Usable(a) && Request(a, 0, true, s).log == log;
  }

  // ---- what a call comes to ------------------------------------------------------------------

  /** Every host from `k` up to `to` was given up for want of a connection, or for an error that says nothing. */
  ghost predicate Passed(meets: nat -> Meeting, k: nat, to: nat) {
    forall i: nat :: k <= i < to ==> meets(i).NotConnected? || meets(i).OtherError?
  }

  /** The first host not passed among `n`, or the last of all. */
  ghost predicate Stops(meets: nat -> Meeting, n: nat, k: nat, at: nat) {
    k <= at < n && Passed(meets, k, at) && (at < n - 1 ==> !meets(at).NotConnected? && !meets(at).OtherError?)
  }

  /** That is where the last send goes. */
  lemma {:induction false} LastSend(headers: Headers, candidates: seq<Candidate>, meets: nat -> Meeting, k: nat)
    returns (at: nat)
    requires k < |candidates|
    ensures Stops(meets, |candidates|, k, at)
    ensures var log := Sends(headers, candidates, meets, k); log[|log| - 1].meeting == meets(at)
    decreases |candidates| - k
  {
    at := k;
    if Advances(meets(k)) && k + 1 < |candidates| {
      at := LastSend(headers, candidates, meets, k + 1);
      assert Sends(headers, candidates, meets, k) ==
             [Sent(headers, candidates[k], meets(k))] + Sends(headers, candidates, meets, k + 1);
    }
  }

  /** Host `k` is reached, and is not passed. */
  ghost predicate Decides(meets: nat -> Meeting, n: nat, k: nat) {
    k < n && Passed(meets, 0, k) && (meets(k).Answered? || meets(k).BrokenOff?)
  }

  lemma OneDecides(meets: nat -> Meeting, n: nat, at: nat)
    requires Stops(meets, n, 0, at)
    ensures Decides(meets, n, at) || Passed(meets, 0, n)
    ensures forall k: nat :: Decides(meets, n, k) ==> k == at
    ensures Passed(meets, 0, n) ==> meets(at).NotConnected? || meets(at).OtherError?
  {
  }

  /**
   A signing ends with the answer of the first host that answers, all before it passed; as a broken
   transport when a connection broke first; and as blocked when every host was passed.
   */
  lemma FirstHostDecides(headers: Headers, candidates: seq<Candidate>, meets: nat -> Meeting)
    requires candidates != []
    ensures var r, n := Ending(Sends(headers, candidates, meets, 0)), |candidates|;
            && (forall reply :: r == Ok(reply) <==>
                  exists k: nat :: Decides(meets, n, k) && meets(k) == Answered(reply))
            && (r == Err(Transport) <==> exists k: nat :: Decides(meets, n, k) && meets(k).BrokenOff?)
            && (r == Err(AllHostsBlocked) <==> Passed(meets, 0, n))
  {
    var at := LastSend(headers, candidates, meets, 0);
    OneDecides(meets, |candidates|, at);
  }

  /** Without an identity or a valid clock nothing is signed and nothing is sent. */
  lemma NothingSentUnsignable(a: Account, offset: int, s: Script)
    requires Usable(a)
    ensures var r := Request(a, offset, true, s);
            && (!a.hasKey ==> r == Outcome(offset, Err(NoIdentity), []))
            && (a.hasKey && (s.signAt < 0 || s.signAt > 9007199254740991) ==> r == Outcome(offset, Err(BadClock), []))
  {
  }

  /** An unsigned call sends no signature, learns nothing and returns whatever answer it gets, a refusal too. */
  lemma UnsignedIsPlain(a: Account, offset: int, s: Script)
    requires Usable(a)
    ensures var r := Request(a, offset, false, s);
            && r.offset == offset && r.log != [] && r.result == Ending(r.log)
            && forall i :: 0 <= i < |r.log| ==> r.log[i].headers == Unsigned
  {
    OneSigning(Unsigned, a.candidates, s.meets, 0);
  }

  /**
   A signed call returns any answer but a refusal of its stamp as it came, after one signing: one
   that is no 401, and teaches nothing; and a 401 for another reason, whose date is learned.
   */
  lemma OtherAnswersComeBack(a: Account, offset: int, s: Script, reply: Reply)
    requires Usable(a) && a.hasKey && 0 <= s.signAt <= 9007199254740991
    requires Ending(FirstSends(a, offset, s)) == Ok(reply)
    requires reply.status == 401 ==>
               && !reply.namesSkew
               && (reply.date.None? || -60 <= reply.date.value - CorrectedTimestamp(s.signAt, offset) <= 60)
    ensures var r := Request(a, offset, true, s);
            && r.result == Ok(reply) && r.log == FirstSends(a, offset, s)
            && (r.offset == if reply.status == 401 && reply.date.Some? then reply.date.value - s.readAt else offset)
  {
  }

  predicate DatedWithin(reply: Reply, stamp: int) {
    reply.date.Some? && -60 <= reply.date.value - stamp <= 60
  }

  /**
   A call whose stamp was refused learns the date of the refusal and signs once more, if that puts
   its new stamp within the window; a second refusal, or a stamp that cannot fit, is the end.
   */
  lemma RefusedIsSignedAgain(a: Account, offset: int, s: Script, reply: Reply)
    requires Usable(a) && a.hasKey && 0 <= s.signAt <= 9007199254740991
    requires Ending(FirstSends(a, offset, s)) == Ok(reply) && reply.status == 401
    requires reply.namesSkew
             || (reply.date.Some? && !DatedWithin(reply, CorrectedTimestamp(s.signAt, offset)))
    ensures var r, first, second := Request(a, offset, true, s), FirstSends(a, offset, s), SecondSends(a, offset, s);
            var learned := if reply.date.Some? then reply.date.value - s.readAt else offset;
            var stamp := CorrectedTimestamp(s.resignAt, learned);
            if s.resignAt < 0 || s.resignAt > 9007199254740991 then r == Outcome(learned, Err(BadClock), first)
            else if !DatedWithin(reply, stamp) then r == Outcome(learned, Err(ClockSkew), first)
            else r.log == first + second && SecondAnswer(r, Ending(second), learned, stamp, s.rereadAt)
  {
  }

  /** What the second answer makes of a call. */
  predicate SecondAnswer(r: Outcome, ending: Result<Reply, ApiError>, learned: int, stamp: int, readAt: int) {
    match ending
    case Err(e) => r.result == Err(e) && r.offset == learned
    case Ok(again) =>
      if again.status != 401 then r.result == Ok(again) && r.offset == learned
      else
        && (r.offset == if again.date.Some? then again.date.value - readAt else learned)
        && (r.result == if again.namesSkew || (again.date.Some? && !DatedWithin(again, stamp)) then Err(ClockSkew)
                        else Ok(again))
  }
}
