/**
  `Socket`: the Homebrew repeater client. Every entry point of the source is
  a transition from one `Gateway` record to the next, together with the
  packets it hands to the transport, the events it emits and the faults it
  raises. Waiting for an acknowledgement is one poll at a time; the clock is
  a parameter in whole seconds; the transport is a flag saying whether the
  socket exists.
 */
module Gateway {
  import opened Errors
  import opened Bytes
  import opened Config
  import opened Packets
  import opened Frame

  const RPTACK := "RPTACK"
  const MSTPONG := "MSTPONG"
  const DMRD := "DMRD"

  const MISSING_RADIO_ID := "Missing radio ID!"
  const MISSING_CALLSIGN := "Missing callsign!"
  const NO_OPTIONS_WARNING := "No options have been set. The server may not receive any data."
  const PONG_TIMEOUT_WARNING := "Socket has not received a reply for over 60 seconds. Closing the connection."
  const UNANSWERED_PINGS_WARNING := "Sent 5 pings and did not receive a reply. Closing the connection."

  /** Seconds without a pong after which the keepalive gives up. */
  const PONG_TIMEOUT := 60
  /** Pings sent without any pong after which the keepalive gives up. */
  const MAX_UNANSWERED_PINGS := 5
  /** The last poll count at which `close` still waits for an acknowledgement. */
  const CLOSE_LAST_WAIT := 10

  /** The kinds of inbound datagram that have a handler. */
  datatype Kind = Ack | Pong | Dmrd

  /** The handler table, in the order it is searched. */
  const HANDLERS: seq<Kind> := [Ack, Pong, Dmrd]

  function Signature(k: Kind): bytes
  {
    match k
    case Ack => AsciiBytes(RPTACK)
    case Pong => AsciiBytes(MSTPONG)
    case Dmrd => AsciiBytes(DMRD)
  }

  /** The handshake step whose acknowledgement is being awaited. */
  datatype Stage = Login | Auth | Configure | Options

  datatype Gateway = Gateway(
    config: Configuration,
    ackFlag: bool,                // packetAckd
    lastPacket: Option<bytes>,    // the most recent RPTACK datagram
    pingCount: nat,
    lastPong: Option<int>,        // seconds, from the clock when the pong arrived
    intervalSet: bool,            // pingInterval has ever been assigned
    ticking: bool,                // the keepalive interval is running
    transportOpen: bool,          // udpClient is not null
    handshake: Option<Stage>,
    closeWait: Option<nat>)       // close's poll count while it waits

  /** What the socket is constructed with besides its configuration; SHA-256 is a parameter. */
  datatype Env = Env(password: Option<string>, version: string, sha256: bytes -> bytes)

  datatype Event =
    | DataEvent(buffer: bytes)
    | FrameEvent(frame: DataFrame)
    | WarningEvent(message: string)
    | ConnectEvent
    | CloseEvent

  datatype Fault = Rejected(reason: string) | Thrown(error: JsError)

  datatype Output = Output(state: Gateway, sent: seq<bytes>, events: seq<Event>, faults: seq<Fault>)

  datatype Input =
    | ConnectCall
    | Datagram(buffer: bytes, now: int)
    | HandshakePoll
    | TimerTick(now: int)
    | CloseCall
    | ClosePoll

  /** The constructor: a fresh socket, nothing acknowledged, no pings sent. */
  function Initial(config: Configuration): Gateway
  {
    Gateway(config, false, None, 0, None, false, false, true, None, None)
  }

  function Quiet(st: Gateway): Output
  {
    Output(st, [], [], [])
  }

  /** One output followed by another that started from the first one's state. */
  function Then(first: Output, second: Output): Output
  {
    Output(second.state, first.sent + second.sent, first.events + second.events, first.faults + second.faults)
  }

  lemma ThenAssoc(a: Output, b: Output, c: Output)
    ensures Then(Then(a, b), c) == Then(a, Then(b, c))
  {
    assert (a.sent + b.sent) + c.sent == a.sent + (b.sent + c.sent);
    assert (a.events + b.events) + c.events == a.events + (b.events + c.events);
    assert (a.faults + b.faults) + c.faults == a.faults + (b.faults + c.faults);
  }

  /** JavaScript truthiness of the nullable pong time: neither null nor 0. */
  predicate TruthyTime(t: Option<int>)
  {
    t.Some? && t.value != 0
  }

  /* ---------------------------------------------------------------- inbound */

  /** The handler search: the first kind in the table whose signature occurs in the datagram. */
  function ClassifyIn(buffer: bytes, table: seq<Kind>): (k: Option<Kind>)
    ensures k.Some? ==> k.value in table
  {
    if |table| == 0 then None
    else if IndexOf(buffer, Signature(table[0]), 0) > -1 then Some(table[0])
    else ClassifyIn(buffer, table[1..])
  }

  function Classify(buffer: bytes): Option<Kind>
  {
    ClassifyIn(buffer, HANDLERS)
  }

  /**
    A datagram goes to the first handler, in table order, whose signature
    occurs anywhere in it; one containing none of the three is unhandled.
   */
  lemma ClassifyPriority(buffer: bytes)
    ensures Classify(buffer) == Some(Ack) <==> Contains(buffer, Signature(Ack))
    ensures Classify(buffer) == Some(Pong) <==>
      !Contains(buffer, Signature(Ack)) && Contains(buffer, Signature(Pong))
    ensures Classify(buffer) == Some(Dmrd) <==>
      !Contains(buffer, Signature(Ack)) && !Contains(buffer, Signature(Pong)) && Contains(buffer, Signature(Dmrd))
    ensures Classify(buffer) == None <==>
      !Contains(buffer, Signature(Ack)) && !Contains(buffer, Signature(Pong)) && !Contains(buffer, Signature(Dmrd))
  {
    IndexOfFindsOccurrence(buffer, Signature(Ack));
    IndexOfFindsOccurrence(buffer, Signature(Pong));
    IndexOfFindsOccurrence(buffer, Signature(Dmrd));
    assert HANDLERS[1..] == [Pong, Dmrd] && [Pong, Dmrd][1..] == [Dmrd] && [Dmrd][1..] == [];
    assert ClassifyIn(buffer, [Dmrd]) == if IndexOf(buffer, Signature(Dmrd), 0) > -1 then Some(Dmrd) else None;
    assert ClassifyIn(buffer, [Pong, Dmrd])
        == if IndexOf(buffer, Signature(Pong), 0) > -1 then Some(Pong) else ClassifyIn(buffer, [Dmrd]);
  }

  /** The DMRD handler: a decoded frame is emitted; a decoding error is thrown. */
  function HandleDmrd(st: Gateway, buffer: bytes): Output
  {
    match DecodeFrame(buffer)
    case Ok(frame) => Output(st, [], [FrameEvent(frame)], [])
    case Err(e) => Output(st, [], [], [Thrown(e)])
  }

  /**
    `udpMessageHandler`: every datagram is first emitted raw; then RPTACK
    sets the ack flag and keeps the datagram, MSTPONG records the time, and
    DMRD is decoded into a frame.
   */
  function Receive(st: Gateway, buffer: bytes, now: int): (o: Output)
    ensures o.sent == []
    ensures |o.events| >= 1 && o.events[0] == DataEvent(buffer)
    ensures Contains(buffer, Signature(Ack)) ==>
      o == Output(st.(ackFlag := true, lastPacket := Some(buffer)), [], [DataEvent(buffer)], [])
    ensures !Contains(buffer, Signature(Ack)) && Contains(buffer, Signature(Pong)) ==>
      o == Output(st.(lastPong := Some(now)), [], [DataEvent(buffer)], [])
    ensures !Contains(buffer, Signature(Ack)) && !Contains(buffer, Signature(Pong)) ==>
      o.state == st
    ensures !Contains(buffer, Signature(Ack)) && !Contains(buffer, Signature(Pong)) && Contains(buffer, Signature(Dmrd)) ==>
      (DecodeFrame(buffer).Ok? ==> o.events == [DataEvent(buffer), FrameEvent(DecodeFrame(buffer).value)] && o.faults == []) &&
      (DecodeFrame(buffer).Err? ==> o.events == [DataEvent(buffer)] && o.faults == [Thrown(DecodeFrame(buffer).error)])
    ensures !Contains(buffer, Signature(Ack)) && !Contains(buffer, Signature(Pong)) && !Contains(buffer, Signature(Dmrd)) ==>
      o == Output(st, [], [DataEvent(buffer)], [])
  {
    ClassifyPriority(buffer);
    var raw := Output(st, [], [DataEvent(buffer)], []);
    match Classify(buffer)
    case None => raw
    case Some(Ack) => raw.(state := st.(ackFlag := true, lastPacket := Some(buffer)))
    case Some(Pong) => raw.(state := st.(lastPong := Some(now)))
    case Some(Dmrd) => Then(raw, HandleDmrd(st, buffer))
  }

  /* -------------------------------------------------------------- handshake */

  /** Hands a handshake packet to the transport and awaits its acknowledgement; with no socket the send throws and the handshake is abandoned. */
  function SendStage(st: Gateway, packet: bytes, stage: Stage): Output
  {
    if st.transportOpen then Output(st.(handshake := Some(stage)), [packet], [], [])
    else Output(st.(handshake := None), [], [], [Thrown(TypeError)])
  }

  function Abandon(st: Gateway, e: JsError): Output
  {
    Output(st.(handshake := None), [], [], [Thrown(e)])
  }

  /** `sendRPTK`: the salt is the tail of the stored acknowledgement, which must exist. */
  function SendAuth(env: Env, st: Gateway): Output
    requires TruthyText(env.password)
  {
    if st.lastPacket.None? then Abandon(st, TypeError)
    else SendStage(st, EncodeRPTK(WireId(st.config), st.lastPacket.value, env.password.value, env.sha256), Auth)
  }

  /** `sendRPTC`: building the packet throws before anything is sent when the callsign or url is null. */
  function SendConfig(env: Env, st: Gateway): Output
  {
    match EncodeRPTC(st.config, env.version)
    case Err(e) => Abandon(st, e)
    case Ok(packet) => SendStage(st, packet, Configure)
  }

  /** The end of `connect`: the keepalive interval starts and `connect` is emitted. */
  function Finish(st: Gateway): Output
  {
    Output(st.(handshake := None, intervalSet := true, ticking := true), [], [ConnectEvent], [])
  }

  /**
    `connect`: a falsy radio id or callsign rejects before anything else
    happens; otherwise the socket is (re)created if needed and RPTL is sent.
   */
  function Connect(st: Gateway): (o: Output)
    ensures !TruthyId(st.config.radioId) ==> o == Output(st, [], [], [Rejected(MISSING_RADIO_ID)])
    ensures TruthyId(st.config.radioId) && !TruthyText(st.config.callsign) ==>
      o == Output(st, [], [], [Rejected(MISSING_CALLSIGN)])
    ensures TruthyId(st.config.radioId) && TruthyText(st.config.callsign) ==>
      o == Output(st.(transportOpen := true, handshake := Some(Login)), [EncodeRPTL(st.config.radioId.value)], [], [])
  {
    if !TruthyId(st.config.radioId) then Output(st, [], [], [Rejected(MISSING_RADIO_ID)])
    else if !TruthyText(st.config.callsign) then Output(st, [], [], [Rejected(MISSING_CALLSIGN)])
    else SendStage(st.(transportOpen := true), EncodeRPTL(WireId(st.config)), Login)
  }

  /**
    One poll of the handshake's acknowledgement wait. Without an
    acknowledgement nothing happens; with one, the flag is consumed and the
    next step runs: RPTK after RPTL when there is a password, RPTC, RPTO when
    there are options (otherwise a warning), and finally the keepalive.
   */
  function Advance(env: Env, st: Gateway): (o: Output)
    ensures st.handshake.None? || !st.ackFlag ==> o == Quiet(st)
    ensures st.handshake.Some? && st.ackFlag ==>
      && !o.state.ackFlag
      && |o.sent| <= 1
      && o.state == st.(ackFlag := false, handshake := o.state.handshake, intervalSet := o.state.intervalSet,
                        ticking := o.state.ticking)
  {
    if st.handshake.None? || !st.ackFlag then Quiet(st)
    else
      var s := st.(ackFlag := false);
      match st.handshake.value
      case Login => if TruthyText(env.password) then SendAuth(env, s) else SendConfig(env, s)
      case Auth => SendConfig(env, s)
      case Configure =>
        if TruthyText(s.config.options) then SendStage(s, EncodeRPTO(WireId(s.config), s.config.options.value), Options)
        else Then(Output(s, [], [WarningEvent(NO_OPTIONS_WARNING)], []), Finish(s))
      case Options => Finish(s)
  }

  /* -------------------------------------------------------------- keepalive */

  /** `close`'s synchronous part: the interval is cleared (which forgets the pong), then RPTCL is sent and the wait begins. */
  function Close(st: Gateway): (o: Output)
    ensures o.events == []
    ensures o.state.pingCount == st.pingCount
    ensures st.intervalSet ==> !o.state.ticking && o.state.lastPong.None?
    ensures !st.intervalSet ==> o.state.ticking == st.ticking && o.state.lastPong == st.lastPong
    ensures st.transportOpen ==> o.sent == [EncodeRPTCL(WireId(st.config))] && o.faults == [] && o.state.closeWait == Some(0)
    ensures !st.transportOpen ==> o.sent == [] && o.faults == [Thrown(TypeError)] && o.state.closeWait == st.closeWait
    ensures o.state == st.(ticking := o.state.ticking, lastPong := o.state.lastPong, closeWait := o.state.closeWait)
  {
    var s := if st.intervalSet then st.(ticking := false, lastPong := None) else st;
    if s.transportOpen then Output(s.(closeWait := Some(0)), [EncodeRPTCL(WireId(s.config))], [], [])
    else Output(s, [], [], [Thrown(TypeError)])
  }

  /** `sendRPTPING`: the count goes up before the send is attempted. */
  function Ping(st: Gateway): Output
  {
    var s := st.(pingCount := st.pingCount + 1);
    if s.transportOpen then Output(s, [EncodeRPTPING(WireId(s.config))], [], [])
    else Output(s, [], [], [Thrown(TypeError)])
  }

  predicate PongOverdue(st: Gateway, now: int)
  {
    TruthyTime(st.lastPong) && now - st.lastPong.value > PONG_TIMEOUT
  }

  predicate PingsUnanswered(st: Gateway)
  {
    !TruthyTime(st.lastPong) && st.pingCount >= MAX_UNANSWERED_PINGS
  }

  /**
    The keepalive interval's callback: close when the last pong is more than
    60 seconds old, or when there has never been a pong and five pings are
    out; otherwise ping.
   */
  function Tick(st: Gateway, now: int): (o: Output)
    ensures !st.ticking ==> o == Quiet(st)
    ensures st.ticking && PongOverdue(st, now) ==>
      o == Then(Output(st, [], [WarningEvent(PONG_TIMEOUT_WARNING)], []), Close(st))
    ensures st.ticking && !PongOverdue(st, now) && PingsUnanswered(st) ==>
      o == Then(Output(st, [], [WarningEvent(UNANSWERED_PINGS_WARNING)], []), Close(st))
    ensures st.ticking && !PongOverdue(st, now) && !PingsUnanswered(st) ==>
      && o.state == st.(pingCount := st.pingCount + 1)
      && o.events == []
      && (st.transportOpen ==> o.sent == [EncodeRPTPING(WireId(st.config))] && o.faults == [])
      && (!st.transportOpen ==> o.sent == [] && o.faults == [Thrown(TypeError)])
    ensures o.state.pingCount >= st.pingCount
  {
    if !st.ticking then Quiet(st)
    else if TruthyTime(st.lastPong) && now - st.lastPong.value > PONG_TIMEOUT then
      Then(Output(st, [], [WarningEvent(PONG_TIMEOUT_WARNING)], []), Close(st))
    else if !TruthyTime(st.lastPong) && st.pingCount >= MAX_UNANSWERED_PINGS then
      Then(Output(st, [], [WarningEvent(UNANSWERED_PINGS_WARNING)], []), Close(st))
    else Ping(st)
  }

  /**
    One poll of `close`'s acknowledgement wait: it sleeps while no
    acknowledgement has come and the count is at most 10; then the flag is
    cleared, the socket is dropped and `close` is emitted. The ping count is
    left alone.
   */
  function CloseStep(st: Gateway): (o: Output)
    ensures o.sent == [] && o.faults == []
    ensures st.closeWait.None? ==> o == Quiet(st)
    ensures st.closeWait.Some? && !st.ackFlag && st.closeWait.value <= CLOSE_LAST_WAIT ==>
      o == Quiet(st.(closeWait := Some(st.closeWait.value + 1)))
    ensures st.closeWait.Some? && (st.ackFlag || st.closeWait.value > CLOSE_LAST_WAIT) ==>
      o == Output(st.(ackFlag := false, transportOpen := false, closeWait := None), [], [CloseEvent], [])
  {
    match st.closeWait
    case None => Quiet(st)
    case Some(count) =>
      if !st.ackFlag && count <= CLOSE_LAST_WAIT then Quiet(st.(closeWait := Some(count + 1)))
      else Output(st.(ackFlag := false, transportOpen := false, closeWait := None), [], [CloseEvent], [])
  }

  /* ----------------------------------------------------------------- driver */

  /**
    One input. Datagrams reach the handler only while the socket exists:
    `close` removes the listener and drops the socket, and `connect`
    creates a new one with a new listener.
   */
  function Step(env: Env, st: Gateway, input: Input): Output
  {
    match input
    case ConnectCall => Connect(st)
    case Datagram(buffer, now) => if st.transportOpen then Receive(st, buffer, now) else Quiet(st)
    case HandshakePoll => Advance(env, st)
    case TimerTick(now) => Tick(st, now)
    case CloseCall => Close(st)
    case ClosePoll => CloseStep(st)
  }

  /** Runs any step function over an input list, concatenating what each step produced. */
  function RunWith(step: (Gateway, Input) -> Output, st: Gateway, inputs: seq<Input>): Output
    decreases |inputs|
  {
    if |inputs| == 0 then Quiet(st)
    else
      var first := step(st, inputs[0]);
      Then(first, RunWith(step, first.state, inputs[1..]))
  }

  function Stepper(env: Env): (Gateway, Input) -> Output
  {
    (st: Gateway, input: Input) => Step(env, st, input)
  }

  /** A whole run: the steps one after another, their packets, events and faults concatenated. */
  function Run(env: Env, st: Gateway, inputs: seq<Input>): Output
  {
    RunWith(Stepper(env), st, inputs)
  }

  /** Running one input list after another, for any step function, is running their concatenation. */
  lemma {:induction false} RunWithAppend(step: (Gateway, Input) -> Output, st: Gateway, a: seq<Input>, b: seq<Input>)
    ensures RunWith(step, st, a + b) == Then(RunWith(step, st, a), RunWith(step, RunWith(step, st, a).state, b))
    decreases |a|
  {
    if |a| == 0 {
      assert a + b == b;
    } else {
      var first := step(st, a[0]);
      assert (a + b)[0] == a[0] && (a + b)[1..] == a[1..] + b;
      RunWithAppend(step, first.state, a[1..], b);
      var x := RunWith(step, first.state, a[1..]);
      var y := RunWith(step, x.state, b);
      assert first.sent + (x.sent + y.sent) == (first.sent + x.sent) + y.sent;
      assert first.events + (x.events + y.events) == (first.events + x.events) + y.events;
      assert first.faults + (x.faults + y.faults) == (first.faults + x.faults) + y.faults;
    }
  }

  /** Running one input list after another is running their concatenation. */
  lemma RunAppend(env: Env, st: Gateway, a: seq<Input>, b: seq<Input>)
    ensures Run(env, st, a + b) == Then(Run(env, st, a), Run(env, Run(env, st, a).state, b))
  {
    RunWithAppend(Stepper(env), st, a, b);
  }

  /* ------------------------------------------------------------- invariant */

  /**
    What every reachable state keeps: a raised ack flag has its datagram
    stored, the stored datagram is an acknowledgement, a running interval was
    assigned, and close's poll count stays within its bound.
   */
  predicate Inv(st: Gateway)
  {
    && (st.ackFlag ==> st.lastPacket.Some?)
    && (st.lastPacket.Some? ==> Contains(st.lastPacket.value, Signature(Ack)))
    && (st.ticking ==> st.intervalSet)
    && (st.closeWait.Some? ==> st.closeWait.value <= CLOSE_LAST_WAIT + 1)
  }

  lemma InitialInv(config: Configuration)
    ensures Inv(Initial(config))
    ensures Initial(config).config == config && Initial(config).pingCount == 0
  {
  }

  /** Every step keeps the invariant and never touches the configuration. */
  lemma ReceiveKeepsInv(st: Gateway, buffer: bytes, now: int)
    requires Inv(st)
    ensures Inv(Receive(st, buffer, now).state)
    ensures Receive(st, buffer, now).state.config == st.config
  {
  }

  lemma AdvanceKeepsInv(env: Env, st: Gateway)
    requires Inv(st)
    ensures Inv(Advance(env, st).state)
    ensures Advance(env, st).state.config == st.config
  {
  }

  lemma TickKeepsInv(st: Gateway, now: int)
    requires Inv(st)
    ensures Inv(Tick(st, now).state)
    ensures Tick(st, now).state.config == st.config
  {
  }

  lemma StepKeepsInv(env: Env, st: Gateway, input: Input)
    requires Inv(st)
    ensures Inv(Step(env, st, input).state)
    ensures Step(env, st, input).state.config == st.config
  {
    match input
    case Datagram(buffer, now) => ReceiveKeepsInv(st, buffer, now);
    case HandshakePoll => AdvanceKeepsInv(env, st);
    case TimerTick(now) => TickKeepsInv(st, now);
    case _ =>
  }

  lemma {:induction false} RunKeepsInv(env: Env, st: Gateway, inputs: seq<Input>)
    requires Inv(st)
    ensures Inv(Run(env, st, inputs).state)
    ensures Run(env, st, inputs).state.config == st.config
    decreases |inputs|
  {
    if |inputs| > 0 {
      StepKeepsInv(env, st, inputs[0]);
      RunKeepsInv(env, Step(env, st, inputs[0]).state, inputs[1..]);
    }
  }

  /** In a reachable state the RPTK step always has a salt: the null-salt fault cannot happen. */
  lemma AuthHasSalt(env: Env, st: Gateway)
    requires Inv(st) && st.ackFlag && st.handshake == Some(Login) && TruthyText(env.password)
    ensures Advance(env, st).faults == [] || !st.transportOpen
  {
  }

  /** Once `close` has dropped the socket, a datagram reaches no handler and changes nothing. */
  lemma ClosedIgnoresDatagrams(env: Env, st: Gateway, buffer: bytes, now: int)
    requires !st.transportOpen
    ensures Step(env, st, Datagram(buffer, now)) == Quiet(st)
  {
  }

  /** While the socket exists, a datagram is handled as `udpMessageHandler` does. */
  lemma OpenHandlesDatagrams(env: Env, st: Gateway, buffer: bytes, now: int)
    requires st.transportOpen
    ensures Step(env, st, Datagram(buffer, now)) == Receive(st, buffer, now)
  {
  }

  /**
    An id that is not a number (`setId(undefined)`, `setId("abc")`) is
    accepted by `setId` and stored as 0; `connect` then rejects with the
    missing-id reason before any packet is sent.
   */
  lemma NaNIdRejected(st: Gateway)
    ensures SetId(st.config, NaN).Ok?
    ensures var s := st.(config := SetId(st.config, NaN).value);
      Connect(s) == Output(s, [], [], [Rejected(MISSING_RADIO_ID)])
  {
  }

  /* ------------------------------------------------------------- ping count */

  /** Only the keepalive tick changes the ping count, and only upwards, by one. */
  lemma StepPingCount(env: Env, st: Gateway, input: Input)
    ensures var after := Step(env, st, input).state.pingCount;
      after == st.pingCount || (input.TimerTick? && after == st.pingCount + 1)
  {
    match input
    case Datagram(buffer, now) => ClassifyPriority(buffer);
    case _ =>
  }

  /** Over any run the ping count never decreases; with no tick it does not change; nothing resets it. */
  lemma {:induction false} RunPingCount(env: Env, st: Gateway, inputs: seq<Input>)
    ensures Run(env, st, inputs).state.pingCount >= st.pingCount
    ensures (forall i :: 0 <= i < |inputs| ==> !inputs[i].TimerTick?) ==>
      Run(env, st, inputs).state.pingCount == st.pingCount
    decreases |inputs|
  {
    if |inputs| > 0 {
      StepPingCount(env, st, inputs[0]);
      RunPingCount(env, Step(env, st, inputs[0]).state, inputs[1..]);
      if forall i :: 0 <= i < |inputs| ==> !inputs[i].TimerTick? {
        assert forall i :: 0 <= i < |inputs[1..]| ==> inputs[1..][i] == inputs[i + 1];
      }
    }
  }

  /* -------------------------------------------------------------- handshake */

  /** A configuration `connect` accepts and whose RPTC can be built. */
  predicate Ready(c: Configuration)
  {
    TruthyId(c.radioId) && TruthyText(c.callsign) && Valid(c)
  }

  /** The handshake plan: the step that follows each step, or none when the keepalive starts. */
  function Next(env: Env, c: Configuration, stage: Stage): Option<Stage>
  {
    match stage
    case Login => if TruthyText(env.password) then Some(Auth) else Some(Configure)
    case Auth => Some(Configure)
    case Configure => if TruthyText(c.options) then Some(Options) else None
    case Options => None
  }

  /** A step the plan for this password and configuration actually contains. */
  predicate OnPlan(env: Env, c: Configuration, stage: Stage)
  {
    && (stage == Auth ==> TruthyText(env.password))
    && (stage == Options ==> TruthyText(c.options))
  }

  function Rank(stage: Stage): nat
  {
    match stage
    case Login => 3
    case Auth => 2
    case Configure => 1
    case Options => 0
  }

  /** The packet each step sends; the salt is the acknowledgement the step before received. */
  function StagePacket(env: Env, c: Configuration, ack: bytes, stage: Stage): bytes
    requires Ready(c)
  {
    var id := WireId(c);
    match stage
    case Login => EncodeRPTL(id)
    case Auth => EncodeRPTK(id, ack, env.password.GetOr(""), env.sha256)
    case Configure => RptcBytes(c, env.version)
    case Options => EncodeRPTO(id, c.options.GetOr(""))
  }

  /** The packets the plan still sends after `stage` has been acknowledged. */
  function PacketsAfter(env: Env, c: Configuration, ack: bytes, stage: Stage): seq<bytes>
    requires Ready(c)
    decreases Rank(stage)
  {
    match Next(env, c, stage)
    case None => []
    case Some(next) => [StagePacket(env, c, ack, next)] + PacketsAfter(env, c, ack, next)
  }

  function Plan(env: Env, c: Configuration, ack: bytes): seq<bytes>
    requires Ready(c)
  {
    [StagePacket(env, c, ack, Login)] + PacketsAfter(env, c, ack, Login)
  }

  /** The events that end a handshake: the missing-options warning when there are none, then `connect`. */
  function FinishEvents(c: Configuration): seq<Event>
  {
    (if TruthyText(c.options) then [] else [WarningEvent(NO_OPTIONS_WARNING)]) + [ConnectEvent]
  }

  /** A block of inputs, `n` times over. */
  function Repeated(block: seq<Input>, n: nat): seq<Input>
  {
    if n == 0 then [] else block + Repeated(block, n - 1)
  }

  /** `n` rounds of an acknowledgement datagram followed by a poll of the handshake wait. */
  function AckRounds(ack: bytes, now: int, n: nat): seq<Input>
  {
    Repeated([Datagram(ack, now), HandshakePoll], n)
  }

  function DataEvents(buffer: bytes, n: nat): seq<Event>
  {
    if n == 0 then [] else [DataEvent(buffer)] + DataEvents(buffer, n - 1)
  }

  /** The state a completed handshake leaves behind. */
  function Done(st: Gateway, ack: bytes): Gateway
  {
    st.(ackFlag := false, lastPacket := Some(ack), handshake := None, intervalSet := true, ticking := true)
  }

  /**
    One acknowledged poll follows the plan: it sends the next step's packet
    and waits for that, or, at the end of the plan, starts the keepalive.
   */
  lemma AdvanceFollowsPlan(env: Env, st: Gateway, ack: bytes)
    requires st.handshake.Some? && st.ackFlag && st.lastPacket == Some(ack) && st.transportOpen && Ready(st.config)
    requires OnPlan(env, st.config, st.handshake.value)
    ensures var next := Next(env, st.config, st.handshake.value); next.Some? ==> OnPlan(env, st.config, next.value)
    ensures var next := Next(env, st.config, st.handshake.value);
      Advance(env, st) ==
        if next.Some? then
          Output(st.(ackFlag := false, handshake := next), [StagePacket(env, st.config, ack, next.value)], [], [])
        else
          Output(Done(st, ack), [], FinishEvents(st.config), [])
  {
    var s := st.(ackFlag := false);
    match st.handshake.value
    case Login =>
      if !TruthyText(env.password) {
        assert EncodeRPTC(s.config, env.version) == Ok(RptcBytes(s.config, env.version));
      }
    case Auth =>
      assert EncodeRPTC(s.config, env.version) == Ok(RptcBytes(s.config, env.version));
    case Configure =>
      if !TruthyText(s.config.options) {
        assert Advance(env, st) == Then(Output(s, [], [WarningEvent(NO_OPTIONS_WARNING)], []), Finish(s));
      }
    case Options =>
  }

  /** An acknowledgement `ack` arriving (raised flag, stored datagram, raw event), then one poll of the handshake wait. */
  function AckThenPoll(env: Env, st: Gateway, ack: bytes): Output
  {
    var acked := st.(ackFlag := true, lastPacket := Some(ack));
    Then(Output(acked, [], [DataEvent(ack)], []), Advance(env, acked))
  }

  /** `n` rounds of any round function, each starting where the one before left off. */
  function Repeat(round: Gateway -> Output, st: Gateway, n: nat): Output
    decreases n
  {
    if n == 0 then Quiet(st)
    else
      var r := round(st);
      Then(r, Repeat(round, r.state, n - 1))
  }

  function AckRoundOf(env: Env, ack: bytes): Gateway -> Output
  {
    (st: Gateway) => AckThenPoll(env, st, ack)
  }

  /** `n` acknowledged rounds, one after another. */
  function Rounds(env: Env, st: Gateway, ack: bytes, n: nat): Output
  {
    Repeat(AckRoundOf(env, ack), st, n)
  }

  /** From an open socket, input lists that start with `block` run as one `round` followed by the rest, and the socket stays open. */
  predicate BlockIsRound(step: (Gateway, Input) -> Output, round: Gateway -> Output, block: seq<Input>,
                         s: Gateway, inputs: seq<Input>)
  {
    s.transportOpen && |block| <= |inputs| && inputs[..|block|] == block ==>
      && round(s).state.transportOpen
      && RunWith(step, s, inputs) == Then(round(s), RunWith(step, round(s).state, inputs[|block|..]))
  }

  /**
    For any step function: when a block of inputs run from an open socket is
    one round and leaves the socket open, running the block `n` times is `n`
    rounds.
   */
  lemma {:induction false} RunWithRepeated(step: (Gateway, Input) -> Output, round: Gateway -> Output,
                                           block: seq<Input>, st: Gateway, n: nat)
    requires st.transportOpen
    requires forall s: Gateway, inputs: seq<Input> :: BlockIsRound(step, round, block, s, inputs)
    ensures RunWith(step, st, Repeated(block, n)) == Repeat(round, st, n)
    decreases n
  {
    if n > 0 {
      var r := round(st);
      var rest := Repeated(block, n - 1);
      var inputs := Repeated(block, n);
      assert inputs == block + rest;
      assert inputs[..|block|] == block && inputs[|block|..] == rest;
      assert BlockIsRound(step, round, block, st, inputs);
      RunWithRepeated(step, round, block, r.state, n - 1);
    }
  }

  /** An acknowledgement datagram followed by a poll, as inputs, is one round, after which the rest runs. */
  lemma AckRound(env: Env, st: Gateway, ack: bytes, now: int, rest: seq<Input>)
    requires st.transportOpen && Contains(ack, Signature(Ack))
    ensures AckThenPoll(env, st, ack).state.transportOpen
    ensures Run(env, st, [Datagram(ack, now), HandshakePoll] + rest)
         == Then(AckThenPoll(env, st, ack), Run(env, AckThenPoll(env, st, ack).state, rest))
  {
    var acked := st.(ackFlag := true, lastPacket := Some(ack));
    var received := Step(env, st, Datagram(ack, now));
    var polled := Step(env, acked, HandshakePoll);
    assert received == Output(acked, [], [DataEvent(ack)], []);
    assert polled == Advance(env, acked);
    assert [Datagram(ack, now), HandshakePoll] + rest == [Datagram(ack, now)] + ([HandshakePoll] + rest);
    RunCons(env, st, Datagram(ack, now), [HandshakePoll] + rest);
    RunCons(env, acked, HandshakePoll, rest);
    ThenAssoc(received, polled, Run(env, polled.state, rest));
  }

  /** Running `n` acknowledgement rounds as inputs is the same as `Rounds`. */
  lemma RunAckRounds(env: Env, st: Gateway, ack: bytes, now: int, n: nat)
    requires st.transportOpen && Contains(ack, Signature(Ack))
    ensures Run(env, st, AckRounds(ack, now, n)) == Rounds(env, st, ack, n)
  {
    var block := [Datagram(ack, now), HandshakePoll];
    var round := AckRoundOf(env, ack);
    forall s: Gateway, inputs: seq<Input>
      ensures BlockIsRound(Stepper(env), round, block, s, inputs)
    {
      if s.transportOpen && |block| <= |inputs| && inputs[..|block|] == block {
        assert inputs == block + inputs[|block|..];
        AckRound(env, s, ack, now, inputs[|block|..]);
      }
    }
    RunWithRepeated(Stepper(env), round, block, st, n);
  }

  /** One acknowledged round of the plan: the next packet goes out, or the handshake completes. */
  lemma PlanRound(env: Env, st: Gateway, ack: bytes)
    requires st.handshake.Some? && st.transportOpen && Ready(st.config)
    requires OnPlan(env, st.config, st.handshake.value)
    ensures var next := Next(env, st.config, st.handshake.value);
      && (next.Some? ==> OnPlan(env, st.config, next.value))
      && AckThenPoll(env, st, ack) ==
        if next.Some? then
          Output(st.(ackFlag := false, lastPacket := Some(ack), handshake := next),
                 [StagePacket(env, st.config, ack, next.value)], [DataEvent(ack)], [])
        else
          Output(Done(st, ack), [], [DataEvent(ack)] + FinishEvents(st.config), [])
  {
    AdvanceFollowsPlan(env, st.(ackFlag := true, lastPacket := Some(ack)), ack);
  }

  /** What `RoundsFrom` promises for a handshake waiting at `st`. */
  predicate RunsRest(env: Env, st: Gateway, ack: bytes)
    requires st.handshake.Some? && Ready(st.config)
  {
    var rest := PacketsAfter(env, st.config, ack, st.handshake.value);
    Rounds(env, st, ack, |rest| + 1)
      == Output(Done(st, ack), rest, DataEvents(ack, |rest| + 1) + FinishEvents(st.config), [])
  }

  /** The last step of the plan: its acknowledgement completes the handshake. */
  lemma LastRound(env: Env, st: Gateway, ack: bytes)
    requires st.handshake.Some? && st.transportOpen && Ready(st.config)
    requires OnPlan(env, st.config, st.handshake.value)
    requires Next(env, st.config, st.handshake.value).None?
    ensures RunsRest(env, st, ack)
  {
    PlanRound(env, st, ack);
    var r := AckThenPoll(env, st, ack);
    assert Rounds(env, st, ack, 1) == Then(r, Quiet(r.state));
    assert DataEvents(ack, 1) == [DataEvent(ack)];
  }

  /** A round that sent one packet, followed by the rest of the rounds. */
  lemma ConsRound(r: Output, tail: Output, packet: bytes, ack: bytes, k: nat, finish: seq<Event>)
    requires r.sent == [packet] && r.events == [DataEvent(ack)] && r.faults == []
    requires tail.events == DataEvents(ack, k) + finish && tail.faults == []
    ensures Then(r, tail) == Output(tail.state, [packet] + tail.sent, DataEvents(ack, k + 1) + finish, [])
  {
    assert DataEvents(ack, k + 1) == [DataEvent(ack)] + DataEvents(ack, k);
  }

  /** A middle step of the plan: its acknowledgement sends the next packet, and the rest follows. */
  lemma MiddleRound(env: Env, st: Gateway, ack: bytes)
    requires st.handshake.Some? && st.transportOpen && Ready(st.config)
    requires OnPlan(env, st.config, st.handshake.value)
    requires Next(env, st.config, st.handshake.value).Some?
    requires RunsRest(env, st.(ackFlag := false, lastPacket := Some(ack), handshake := Next(env, st.config, st.handshake.value)), ack)
    ensures RunsRest(env, st, ack)
  {
    var next := Next(env, st.config, st.handshake.value);
    var waiting := st.(ackFlag := false, lastPacket := Some(ack), handshake := next);
    var later := PacketsAfter(env, st.config, ack, next.value);
    var packet := StagePacket(env, st.config, ack, next.value);
    assert PacketsAfter(env, st.config, ack, st.handshake.value) == [packet] + later;
    PlanRound(env, st, ack);
    var r := AckThenPoll(env, st, ack);
    var tail := Rounds(env, waiting, ack, |later| + 1);
    assert Rounds(env, st, ack, |later| + 2) == Then(r, tail);
    assert Done(waiting, ack) == Done(st, ack);
    ConsRound(r, tail, packet, ack, |later| + 1, FinishEvents(st.config));
  }

  /** From any step of the handshake, acknowledging every packet runs the rest of the plan. */
  lemma {:induction false} RoundsFrom(env: Env, st: Gateway, ack: bytes)
    requires st.handshake.Some? && st.transportOpen && Ready(st.config)
    requires OnPlan(env, st.config, st.handshake.value)
    ensures RunsRest(env, st, ack)
    decreases Rank(st.handshake.value)
  {
    var next := Next(env, st.config, st.handshake.value);
    PlanRound(env, st, ack);
    if next.Some? {
      RoundsFrom(env, st.(ackFlag := false, lastPacket := Some(ack), handshake := next), ack);
      MiddleRound(env, st, ack);
    } else {
      LastRound(env, st, ack);
    }
  }

  /**
    `connect` with an acknowledgement for every packet: the packets go out
    exactly in plan order, nothing is thrown, and the run ends with the
    keepalive running, the ack flag consumed and the ping count untouched.
   */
  lemma HandshakeFollowsPlan(env: Env, st: Gateway, ack: bytes, now: int)
    requires Ready(st.config) && Contains(ack, Signature(Ack))
    ensures var plan := Plan(env, st.config, ack);
      Run(env, st, [ConnectCall] + AckRounds(ack, now, |plan|))
        == Output(Done(st.(transportOpen := true), ack), plan, DataEvents(ack, |plan|) + FinishEvents(st.config), [])
  {
    var plan := Plan(env, st.config, ack);
    var waiting := st.(transportOpen := true, handshake := Some(Login));
    var login := Output(waiting, [EncodeRPTL(WireId(st.config))], [], []);
    var rounds := AckRounds(ack, now, |plan|);
    assert Step(env, st, ConnectCall) == login;
    assert ([ConnectCall] + rounds)[0] == ConnectCall && ([ConnectCall] + rounds)[1..] == rounds;
    assert Run(env, st, [ConnectCall] + rounds) == Then(login, Run(env, waiting, rounds));
    RunAckRounds(env, waiting, ack, now, |plan|);
    RoundsFrom(env, waiting, ack);
    assert Done(waiting, ack) == Done(st.(transportOpen := true), ack);
  }

  /** The plan spelled out: RPTL, RPTK when there is a password, RPTC, RPTO when there are options. */
  lemma PlanOrder(env: Env, c: Configuration, ack: bytes)
    requires Ready(c)
    ensures Plan(env, c, ack) ==
      [EncodeRPTL(WireId(c))]
      + (if TruthyText(env.password) then [EncodeRPTK(WireId(c), ack, env.password.value, env.sha256)] else [])
      + [RptcBytes(c, env.version)]
      + (if TruthyText(c.options) then [EncodeRPTO(WireId(c), c.options.value)] else [])
  {
    assert PacketsAfter(env, c, ack, Options) == [];
    assert PacketsAfter(env, c, ack, Configure)
        == if TruthyText(c.options) then [EncodeRPTO(WireId(c), c.options.value)] else [];
  }

  /**
    `setOptions` decides the end of the handshake: the options are not part
    of RPTC; with truthy options an RPTO carrying them follows RPTC, and with
    none (null or "") the handshake ends with the missing-options warning.
   */
  lemma SetOptionsDecidesRpto(env: Env, c: Configuration, options: Option<string>, ack: bytes)
    requires Ready(c)
    ensures Ready(SetOptions(c, options))
    ensures RptcBytes(SetOptions(c, options), env.version) == RptcBytes(c, env.version)
    ensures Plan(env, SetOptions(c, options), ack)
         == Plan(env, SetOptions(c, None), ack) + (if TruthyText(options) then [EncodeRPTO(WireId(c), options.value)] else [])
    ensures FinishEvents(SetOptions(c, options))
         == (if TruthyText(options) then [] else [WarningEvent(NO_OPTIONS_WARNING)]) + [ConnectEvent]
  {
    PlanOrder(env, SetOptions(c, options), ack);
    PlanOrder(env, SetOptions(c, None), ack);
  }

  /* -------------------------------------------------------- keepalive runs */

  /** One input followed by more: the first step, then the rest from where it left off. */
  lemma RunCons(env: Env, st: Gateway, input: Input, rest: seq<Input>)
    ensures Run(env, st, [input] + rest)
         == Then(Step(env, st, input), Run(env, Step(env, st, input).state, rest))
  {
    assert ([input] + rest)[0] == input && ([input] + rest)[1..] == rest;
  }

  function Ticks(now: int, n: nat): seq<Input>
  {
    if n == 0 then [] else [TimerTick(now)] + Ticks(now, n - 1)
  }

  function Pings(id: uint32, n: nat): seq<bytes>
  {
    if n == 0 then [] else [EncodeRPTPING(id)] + Pings(id, n - 1)
  }

  /** A tick with five pings out and no pong: the warning, then `close`'s RPTCL. */
  lemma SilentTickCloses(env: Env, st: Gateway, now: int)
    requires st.ticking && st.intervalSet && st.transportOpen && PingsUnanswered(st)
    ensures Run(env, st, Ticks(now, 1))
         == Output(st.(ticking := false, lastPong := None, closeWait := Some(0)), [EncodeRPTCL(WireId(st.config))],
                   [WarningEvent(UNANSWERED_PINGS_WARNING)], [])
  {
    RunCons(env, st, TimerTick(now), []);
    assert Ticks(now, 1) == [TimerTick(now)] + [];
  }

  /** A tick with fewer than five pings out and no pong: one more ping. */
  lemma SilentTickPings(env: Env, st: Gateway, now: int)
    requires st.ticking && st.transportOpen && !TruthyTime(st.lastPong) && st.pingCount < MAX_UNANSWERED_PINGS
    ensures Step(env, st, TimerTick(now))
         == Output(st.(pingCount := st.pingCount + 1), [EncodeRPTPING(WireId(st.config))], [], [])
  {
  }

  /**
    With no pong ever received, the keepalive pings until five pings are out
    and closes on the next tick: from a fresh count, five pings and then
    RPTCL on the sixth tick. Nothing resets the count on the way.
   */
  lemma {:induction false} SilentTicksClose(env: Env, st: Gateway, now: int, n: nat)
    requires st.ticking && st.intervalSet && st.transportOpen && !TruthyTime(st.lastPong)
    requires n == if st.pingCount >= MAX_UNANSWERED_PINGS then 0 else MAX_UNANSWERED_PINGS - st.pingCount
    ensures var o := Run(env, st, Ticks(now, n + 1));
      && o.sent == Pings(WireId(st.config), n) + [EncodeRPTCL(WireId(st.config))]
      && o.events == [WarningEvent(UNANSWERED_PINGS_WARNING)]
      && o.faults == []
      && o.state == st.(pingCount := st.pingCount + n, ticking := false, lastPong := None, closeWait := Some(0))
    decreases n
  {
    if n == 0 {
      SilentTickCloses(env, st, now);
    } else {
      var pinged := st.(pingCount := st.pingCount + 1);
      var ping := EncodeRPTPING(WireId(st.config));
      assert Ticks(now, n + 1) == [TimerTick(now)] + Ticks(now, n);
      RunCons(env, st, TimerTick(now), Ticks(now, n));
      SilentTickPings(env, st, now);
      SilentTicksClose(env, pinged, now, n - 1);
      var rest := Run(env, pinged, Ticks(now, n));
      assert Pings(WireId(st.config), n) == [ping] + Pings(WireId(st.config), n - 1);
      assert [ping] + rest.sent == [ping] + Pings(WireId(st.config), n - 1) + [EncodeRPTCL(WireId(st.config))];
    }
  }

  /** A step that is not a pong arriving leaves a socket that has given up on pongs still given up. */
  lemma StepKeepsUnanswered(env: Env, st: Gateway, input: Input)
    requires PingsUnanswered(st)
    requires input.Datagram? ==> !Contains(input.buffer, Signature(Pong))
    ensures PingsUnanswered(Step(env, st, input).state)
  {
    StepPingCount(env, st, input);
  }

  /**
    The ping count outlives `close` and `connect`: once five pings have gone
    unanswered, any run in which no pong arrives (closing, reconnecting,
    completing a new handshake) leaves a socket whose first keepalive tick
    closes the connection again without sending a ping.
   */
  lemma {:induction false} StalePingCount(env: Env, st: Gateway, inputs: seq<Input>, now: int)
    requires PingsUnanswered(st)
    requires forall i :: 0 <= i < |inputs| && inputs[i].Datagram? ==> !Contains(inputs[i].buffer, Signature(Pong))
    ensures PingsUnanswered(Run(env, st, inputs).state)
    ensures var last := Run(env, st, inputs).state;
      last.ticking ==> Tick(last, now) == Then(Output(last, [], [WarningEvent(UNANSWERED_PINGS_WARNING)], []), Close(last))
    decreases |inputs|
  {
    if |inputs| > 0 {
      StepKeepsUnanswered(env, st, inputs[0]);
      assert forall i :: 0 <= i < |inputs[1..]| ==> inputs[1..][i] == inputs[i + 1];
      StalePingCount(env, Step(env, st, inputs[0]).state, inputs[1..], now);
    }
  }

  /* ------------------------------------------------------------ close runs */

  function ClosePolls(n: nat): seq<Input>
  {
    if n == 0 then [] else [ClosePoll] + ClosePolls(n - 1)
  }

  /** Polling a close that has already finished does nothing. */
  lemma {:induction false} PollsAfterClose(env: Env, st: Gateway, n: nat)
    requires st.closeWait.None?
    ensures Run(env, st, ClosePolls(n)) == Quiet(st)
  {
    if n > 0 {
      RunCons(env, st, ClosePoll, ClosePolls(n - 1));
      PollsAfterClose(env, st, n - 1);
    }
  }

  /**
    `close`'s wait is bounded: from poll count c, at most 12 - c polls finish
    it, acknowledged or not, and it finishes with the flag cleared, the socket
    dropped and exactly one `close` event.
   */
  lemma {:induction false} CloseFinishes(env: Env, st: Gateway, k: nat)
    requires st.closeWait.Some? && st.closeWait.value <= CLOSE_LAST_WAIT + 1
    requires k == CLOSE_LAST_WAIT + 2 - st.closeWait.value
    ensures Run(env, st, ClosePolls(k))
         == Output(st.(ackFlag := false, transportOpen := false, closeWait := None), [], [CloseEvent], [])
    decreases k
  {
    RunCons(env, st, ClosePoll, ClosePolls(k - 1));
    var first := CloseStep(st);
    if !st.ackFlag && st.closeWait.value <= CLOSE_LAST_WAIT {
      CloseFinishes(env, first.state, k - 1);
      assert first.state.(ackFlag := false, transportOpen := false, closeWait := None)
          == st.(ackFlag := false, transportOpen := false, closeWait := None);
    } else {
      PollsAfterClose(env, first.state, k - 1);
    }
  }

  /**
    `close` on an open socket: RPTCL goes out, and twelve polls later the
    socket is closed whatever the server did; the ping count is unchanged.
   */
  lemma CloseThenPolls(env: Env, st: Gateway)
    requires st.transportOpen
    ensures var o := Run(env, st, [CloseCall] + ClosePolls(CLOSE_LAST_WAIT + 2));
      && o.sent == [EncodeRPTCL(WireId(st.config))]
      && o.events == [CloseEvent]
      && o.faults == []
      && o.state.closeWait.None? && !o.state.transportOpen && !o.state.ackFlag
      && o.state.pingCount == st.pingCount
  {
    RunCons(env, st, CloseCall, ClosePolls(CLOSE_LAST_WAIT + 2));
    CloseFinishes(env, Close(st).state, CLOSE_LAST_WAIT + 2);
  }
}
