/** Deduplicator and channel together (src/main.rs:261-282, src/channel/unix_socket.rs:200-248): what the deduplicator
    remembers as sent, and what the engine was sent. */
module Delivery {
  import opened Wrappers
  import opened Commands
  import opened Deduplicator
  import opened Framing
  import opened Channel
  import opened ChannelSafety

  /** A directive's payload names its sequence number and its commands. */
  type Encoder = (nat, seq<EngineCommand>) -> Payload

  datatype Loop<Msg> = Loop(dedup: Dedup, chan: State<Msg>)

  /** In the main loop: a directive the policy asks for, or a step of the peer, of the reader or of `try_recv`.
      Waiting for a client and the directives of the start come before the loop. */
  datatype Event =
    | Directive(request: Request, seqId: nat, a: Accept, failedAfter: Option<nat>)
    | Elsewhere(step: Step)

  predicate InLoop(step: Step) { !step.EmitDirective? && !step.WaitAccept? }

  /** The deduplicator records a directive that passes before the channel has tried to send it. */
  function NextLoop<Msg>(parse: Parser<Msg>, encode: Encoder, s: Loop<Msg>, e: Event): Loop<Msg> {
    match e
    case Directive(r, seqId, a, failedAfter) =>
      if s.dedup.Suppresses(r) then s
      else Loop(s.dedup.Next(r), Emit(s.chan, a, encode(seqId, r.commands), failedAfter))
    case Elsewhere(step) =>
      if InLoop(step) then s.(chan := Next(parse, s.chan, step)) else s
  }

  function RunLoop<Msg>(parse: Parser<Msg>, encode: Encoder, s: Loop<Msg>, es: seq<Event>): Loop<Msg>
    decreases |es|
  {
    if es == [] then s else RunLoop(parse, encode, NextLoop(parse, encode, s, es[0]), es[1..])
  }

  /** The loop starts with a new deduplicator on a channel to which anything may have happened: it may have been
      waited on, and the directives of the start have been emitted on it past the deduplicator. */
  function StartLoop<Msg>(parse: Parser<Msg>, startUp: seq<Step>, cooldown: real): Loop<Msg> {
    Loop(New(cooldown), Reached(parse, startUp))
  }

  /** What was emitted on the live connection, if there is one. */
  function Emitted<Msg>(s: State<Msg>): seq<Payload> {
    if s.phase.Connected? && s.phase.id < |s.links| then s.links[s.phase.id].emitted else []
  }

  /** The last thing sent on the live connection is a directive with these commands. */
  ghost predicate WasSentLast<Msg>(encode: Encoder, s: State<Msg>, commands: seq<EngineCommand>) {
    var emitted := Emitted(s);
    emitted != [] && exists seqId :: emitted[|emitted| - 1] == encode(seqId, commands)
  }

  /** What the deduplicator remembers is what the engine was sent last. */
  ghost predicate IsInForce<Msg>(encode: Encoder, s: Loop<Msg>) {
    s.dedup.lastCommands.Some? && WasSentLast(encode, s.chan, s.dedup.lastCommands.value)
  }

  ghost predicate LoopOk<Msg>(parse: Parser<Msg>, encode: Encoder, s: Loop<Msg>) {
    && Ok(parse, s.chan)
    && (s.chan.phase.Connected? && s.dedup.lastCommands.Some? ==> IsInForce(encode, s))
  }

  /** No other step of the loop connects, and none touches what was emitted on a connection that stays live. */
  lemma StepKeepsEmitted<Msg>(parse: Parser<Msg>, s: State<Msg>, step: Step)
    requires Ok(parse, s) && InLoop(step)
    ensures Next(parse, s, step).phase.Connected? ==> s.phase.Connected? && Emitted(Next(parse, s, step)) == Emitted(s)
  {
    hide LinkOk, From, ReadFrame;
  }

  /** An emission that leaves the channel connected is the last thing on its connection. */
  lemma EmitIsLast<Msg>(parse: Parser<Msg>, s: State<Msg>, a: Accept, payload: Payload, failedAfter: Option<nat>)
    requires Ok(parse, s)
    ensures var s' := Emit(s, a, payload, failedAfter);
            s'.phase.Connected? ==> Emitted(s') != [] && Emitted(s')[|Emitted(s')| - 1] == payload
  {
    var s1 := EnsureConnected(s, a);
    if s.phase.Disconnected? && a.Accepted? {
      ConnectingKeepsOk(parse, s, a.cloned);
    }
    hide Connect, LinkOk, From, Encode;
  }

  lemma NextKeepsLoopOk<Msg>(parse: Parser<Msg>, encode: Encoder, s: Loop<Msg>, e: Event)
    requires LoopOk(parse, encode, s)
    ensures LoopOk(parse, encode, NextLoop(parse, encode, s, e))
  {
    hide Ok, Emit, Next, Emitted;
    match e {
      case Directive(r, seqId, a, failedAfter) =>
        EmittingKeepsOk(parse, s.chan, a, encode(seqId, r.commands), failedAfter);
        EmitIsLast(parse, s.chan, a, encode(seqId, r.commands), failedAfter);
      case Elsewhere(step) =>
        StepKeepsOk(parse, s.chan, step);
        if InLoop(step) {
          StepKeepsEmitted(parse, s.chan, step);
        }
    }
  }

  lemma {:induction false} RunKeepsLoopOk<Msg>(parse: Parser<Msg>, encode: Encoder, s: Loop<Msg>, es: seq<Event>)
    requires LoopOk(parse, encode, s)
    ensures LoopOk(parse, encode, RunLoop(parse, encode, s, es))
    decreases |es|
  {
    if es != [] {
      hide LoopOk, NextLoop;
      NextKeepsLoopOk(parse, encode, s, es[0]);
      RunKeepsLoopOk(parse, encode, NextLoop(parse, encode, s, es[0]), es[1..]);
    }
  }

  /** Main result: after any start and any interleaving in the loop, what the deduplicator remembers is what the
      engine was sent last exactly when the channel is connected and anything is remembered. */
  lemma RememberedIsInForceIffConnected<Msg>(parse: Parser<Msg>, encode: Encoder, startUp: seq<Step>, cooldown: real, es: seq<Event>)
    ensures var s := RunLoop(parse, encode, StartLoop(parse, startUp, cooldown), es);
            IsInForce(encode, s) <==> s.chan.phase.Connected? && s.dedup.lastCommands.Some?
  {
    ReachedIsOk(parse, startUp);
    RunKeepsLoopOk(parse, encode, StartLoop(parse, startUp, cooldown), es);
    hide Ok, RunLoop, StartLoop;
  }

  /** So a request that is suppressed asks for what the engine was sent last exactly when the channel is connected,
      and is lost otherwise: suppressing it leaves everything as it is, so it does not even try to reconnect. */
  lemma SuppressedIsInForceIffConnected<Msg>(parse: Parser<Msg>, encode: Encoder, startUp: seq<Step>, cooldown: real, es: seq<Event>,
                                            r: Request, seqId: nat, a: Accept, failedAfter: Option<nat>)
    requires RunLoop(parse, encode, StartLoop(parse, startUp, cooldown), es).dedup.Suppresses(r)
    ensures var s := RunLoop(parse, encode, StartLoop(parse, startUp, cooldown), es);
            && NextLoop(parse, encode, s, Directive(r, seqId, a, failedAfter)) == s
            && (WasSentLast(encode, s.chan, r.commands) <==> s.chan.phase.Connected?)
  {
    RememberedIsInForceIffConnected(parse, encode, startUp, cooldown, es);
    hide RunLoop, StartLoop;
  }

  /** Disconnected, with nobody to accept: the directive is dropped and remembered. Its retry within the cooldown
      finds an engine waiting to be accepted and leaves it there. */
  lemma DroppedDirectiveIsNotRetried<Msg>(parse: Parser<Msg>, encode: Encoder, s: Loop<Msg>, r: Request, retry: Request,
                                         seqId: nat, failedAfter: Option<nat>)
    requires s.chan.phase.Disconnected? && !s.dedup.Suppresses(r)
    requires retry.commands == r.commands && retry.at - r.at < s.dedup.cooldown
    ensures var dropped := NextLoop(parse, encode, s, Directive(r, seqId, WouldBlock, failedAfter));
            && dropped.chan == s.chan
            && NextLoop(parse, encode, dropped, Directive(retry, seqId + 1, Accepted(true), None)) == dropped
  {
  }

  /** Such a run: the engine that was waited for goes away and the loss is noticed, a directive is asked for, and
      asked for again when the engine is back. */
  lemma ReturningEngineIsNotTold<Msg>(parse: Parser<Msg>, encode: Encoder, cooldown: real, r: Request, retry: Request, seqId: nat)
    requires retry.commands == r.commands && retry.at - r.at < cooldown
    ensures var es := [Elsewhere(CloseByPeer(0)), Elsewhere(Read(0)), Elsewhere(TryRecv),
                       Directive(r, seqId, WouldBlock, None), Directive(retry, seqId + 1, Accepted(true), None)];
            var s := RunLoop(parse, encode, StartLoop(parse, [WaitAccept(true)], cooldown), es);
            s.chan.phase == Disconnected && |s.chan.links| == 1 && s.dedup.lastCommands == Some(r.commands)
  {
    var es := [Elsewhere(CloseByPeer(0)), Elsewhere(Read(0)), Elsewhere(TryRecv),
               Directive(r, seqId, WouldBlock, None), Directive(retry, seqId + 1, Accepted(true), None)];
    var s0 := StartLoop(parse, [WaitAccept(true)], cooldown);
    LostAfterStart(parse, encode, cooldown);
    var s3 := NextLoop(parse, encode, NextLoop(parse, encode, NextLoop(parse, encode, s0, es[0]), es[1]), es[2]);
    DroppedDirectiveIsNotRetried(parse, encode, s3, r, retry, seqId, None);
    hide NextLoop;
    RunStep(parse, encode, s0, es);
    RunStep(parse, encode, NextLoop(parse, encode, s0, es[0]), es[1..]);
    RunStep(parse, encode, NextLoop(parse, encode, NextLoop(parse, encode, s0, es[0]), es[1]), es[2..]);
    RunStep(parse, encode, s3, es[3..]);
    RunStep(parse, encode, NextLoop(parse, encode, s3, es[3]), es[4..]);
    RunStep(parse, encode, NextLoop(parse, encode, NextLoop(parse, encode, s3, es[3]), es[4]), es[5..]);
  }

  lemma LostAfterStart<Msg>(parse: Parser<Msg>, encode: Encoder, cooldown: real)
    ensures var s0 := StartLoop(parse, [WaitAccept(true)], cooldown);
            var s1 := NextLoop(parse, encode, s0, Elsewhere(CloseByPeer(0)));
            var s3 := NextLoop(parse, encode, NextLoop(parse, encode, s1, Elsewhere(Read(0))), Elsewhere(TryRecv));
            s3.dedup == New(cooldown) && s3.chan.phase == Disconnected && |s3.chan.links| == 1
  {
    var link: Link<Msg> := Link([], 0, false, true, false, None, [], true, [], []);
    var s0 := StartLoop(parse, [WaitAccept(true)], cooldown);
    assert [WaitAccept(true)][1..] == [];
    assert s0 == Loop(New(cooldown), State(Connected(0), [link], []));
    var s1 := NextLoop(parse, encode, s0, Elsewhere(CloseByPeer(0)));
    assert s1.chan == State(Connected(0), [link.(closed := true)], []);
    var s2 := NextLoop(parse, encode, s1, Elsewhere(Read(0)));
    assert s2.chan == State(Connected(0), [link.(closed := true, running := false)], []);
  }

  lemma RunStep<Msg>(parse: Parser<Msg>, encode: Encoder, s: Loop<Msg>, es: seq<Event>)
    ensures RunLoop(parse, encode, s, es) == if es == [] then s else RunLoop(parse, encode, NextLoop(parse, encode, s, es[0]), es[1..])
  {
  }
}
