/** What the engine channel keeps over every interleaving of its parties (src/channel/unix_socket.rs:122-161, 258-311). */
module ChannelSafety {
  import opened Sequences
  import opened Wrappers
  import opened Framing
  import opened Channel

  // ---------- what every step keeps ----------

  /** The messages delivered from one connection. */
  function From<Msg>(delivered: seq<(nat, Msg)>, id: nat): seq<Msg> {
    if delivered == [] then []
    else
      var (from, m) := delivered[|delivered| - 1];
      From(delivered[..|delivered| - 1], id) + if from == id then [m] else []
  }

  function Held<Msg>(l: Link<Msg>): seq<Msg> {
    if l.held.Some? then [l.held.value] else []
  }

  /** The messages the reader has parsed so far. */
  function Taken<Msg>(parse: Parser<Msg>, l: Link<Msg>): seq<Msg>
    requires l.read <= |l.arrived|
  {
    Messages(parse, l.arrived[..l.read])
  }

  /** Nothing more will come: the peer closed within a frame or between two, or the next frame is bad. */
  predicate Ended<Msg>(parse: Parser<Msg>, l: Link<Msg>)
    requires l.read <= |l.arrived|
  {
    match ReadFrame(l.arrived[l.read..])
    case Frame(p, _) => parse(p).None?
    case TooLong(_) => true
    case Incomplete => l.closed
  }

  /** Every message parsed on a connection is, in order, delivered, in the inbox or held; after the channel left
      the connection what was delivered is still a prefix. */
  predicate LinkOk<Msg(==)>(parse: Parser<Msg>, l: Link<Msg>, got: seq<Msg>) {
    && l.read <= |l.arrived| && Whole(parse, l.arrived[..l.read])
    && |l.inbox| <= INBOX_CAPACITY
    && (l.held.Some? ==> l.running)
    && (if l.open then got + l.inbox + Held(l) == Taken(parse, l) else l.inbox == [] && got <= Taken(parse, l))
    && (l.open && !l.running && !l.broken ==> Ended(parse, l))
    && (l.open ==> l.written == EncodeAll(l.emitted))
  }

  ghost predicate Ok<Msg>(parse: Parser<Msg>, s: State<Msg>) {
    && (s.phase.Connected? ==> s.phase.id + 1 == |s.links|)
    && (forall id :: 0 <= id < |s.links| ==> s.links[id].open == (s.phase == Connected(id)))
    && (forall i :: 0 <= i < |s.delivered| ==> s.delivered[i].0 < |s.links|)
    && (forall i, j :: 0 <= i < j < |s.delivered| ==> s.delivered[i].0 <= s.delivered[j].0)
    && (forall id :: 0 <= id < |s.links| ==> LinkOk(parse, s.links[id], From(s.delivered, id)))
  }

  // the reader and the peer

  /** The bytes of one frame that parses are whole and hold its message. */
  lemma FrameIsWhole<Msg>(parse: Parser<Msg>, s: seq<byte>)
    requires ReadFrame(s).Frame? && parse(ReadFrame(s).payload).Some?
    ensures var frame := s[..|s| - |ReadFrame(s).rest|];
            Whole(parse, frame) && Messages(parse, frame) == [parse(ReadFrame(s).payload).value]
  {
    var r := ReadFrame(s);
    var n := FromBeBytes(s[..4]);
    var frame := s[..|s| - |r.rest|];
    assert frame == s[..4 + n];
    assert frame[..4] == s[..4];
    hide FromBeBytes;
    assert frame[4..4 + n] == s[4..4 + n];
    assert ReadFrame(frame) == Frame(r.payload, []);
  }

  /** Consuming one more frame that parses adds its message to those taken. */
  lemma FrameIsTaken<Msg>(parse: Parser<Msg>, arrived: seq<byte>, read: nat)
    requires read <= |arrived| && Whole(parse, arrived[..read])
    requires ReadFrame(arrived[read..]).Frame? && parse(ReadFrame(arrived[read..]).payload).Some?
    ensures var r := ReadFrame(arrived[read..]);
            var read' := |arrived| - |r.rest|;
            && read <= read' <= |arrived| && Whole(parse, arrived[..read'])
            && Messages(parse, arrived[..read']) == Messages(parse, arrived[..read]) + [parse(r.payload).value]
  {
    var ahead := arrived[read..];
    var frame := ahead[..|ahead| - |ReadFrame(ahead).rest|];
    FrameIsWhole(parse, ahead);
    hide ReadFrame, Whole, Messages;
    assert arrived[..|arrived| - |ReadFrame(ahead).rest|] == arrived[..read] + frame;
    WholeAppend(parse, arrived[..read], frame);
    MessagesAfterWhole(parse, arrived[..read], frame);
  }

  lemma ReadingKeepsLink<Msg>(parse: Parser<Msg>, l: Link<Msg>, got: seq<Msg>)
    requires LinkOk(parse, l, got)
    ensures LinkOk(parse, ReaderReads(parse, l), got) && ReaderReads(parse, l).open == l.open
  {
    hide ReadFrame, Whole, Messages;
    var r := ReadFrame(l.arrived[l.read..]);
    if r.Frame? && parse(r.payload).Some? {
      FrameIsTaken(parse, l.arrived, l.read);
      assert got + l.inbox + [] == got + l.inbox;
    }
  }

  lemma PushingKeepsLink<Msg>(parse: Parser<Msg>, l: Link<Msg>, got: seq<Msg>)
    requires LinkOk(parse, l, got)
    ensures LinkOk(parse, ReaderPushes(l), got) && ReaderPushes(l).open == l.open
    ensures LinkOk(parse, ReaderBreaks(l), got) && ReaderBreaks(l).open == l.open
  {
    hide ReadFrame, Whole, Messages;
    if l.held.Some? && |l.inbox| < INBOX_CAPACITY {
      assert got + (l.inbox + [l.held.value]) + [] == got + l.inbox + [l.held.value];
    }
  }

  lemma PeerKeepsLink<Msg>(parse: Parser<Msg>, l: Link<Msg>, got: seq<Msg>, bytes: seq<byte>)
    requires LinkOk(parse, l, got)
    ensures LinkOk(parse, PeerSends(l, bytes), got) && PeerSends(l, bytes).open == l.open
    ensures LinkOk(parse, l.(closed := true), got)
  {
    ReadIsStable(l.arrived[l.read..], bytes);
    hide ReadFrame, Whole, Messages;
    assert (l.arrived + bytes)[..l.read] == l.arrived[..l.read];
    assert (l.arrived + bytes)[l.read..] == l.arrived[l.read..] + bytes;
  }

  // the main thread

  lemma {:induction false} FromIsEmpty<Msg>(delivered: seq<(nat, Msg)>, id: nat)
    requires forall i :: 0 <= i < |delivered| ==> delivered[i].0 < id
    ensures From(delivered, id) == []
    decreases |delivered|
  {
    if delivered != [] {
      FromIsEmpty(delivered[..|delivered| - 1], id);
    }
  }

  lemma FromGrows<Msg>(delivered: seq<(nat, Msg)>, from: nat, m: Msg, id: nat)
    ensures From(delivered + [(from, m)], id) == From(delivered, id) + if from == id then [m] else []
  {
    assert (delivered + [(from, m)])[..|delivered|] == delivered;
  }

  lemma LinkStepKeepsOk<Msg>(parse: Parser<Msg>, s: State<Msg>, id: nat, l: Link<Msg>)
    requires Ok(parse, s) && id < |s.links| && l.open == s.links[id].open && LinkOk(parse, l, From(s.delivered, id))
    ensures Ok(parse, OnLink(s, id, l))
  {
    hide LinkOk, From;
  }

  lemma LeavingKeepsOk<Msg>(parse: Parser<Msg>, s: State<Msg>)
    requires Ok(parse, s)
    ensures Ok(parse, Leave(s)) && !Leave(s).phase.Connected? && |Leave(s).links| == |s.links| && Leave(s).delivered == s.delivered
  {
    hide From;
    if s.phase.Connected? {
      var l := s.links[s.phase.id];
      assert LinkOk(parse, l.(open := false, inbox := []), From(s.delivered, s.phase.id)) by {
        hide Whole, Messages, EncodeAll;
        assert From(s.delivered, s.phase.id) + l.inbox + Held(l) == From(s.delivered, s.phase.id) + (l.inbox + Held(l));
      }
      hide LinkOk;
    }
  }

  lemma ConnectingKeepsOk<Msg>(parse: Parser<Msg>, s: State<Msg>, cloned: bool)
    requires Ok(parse, s)
    ensures Ok(parse, Connect(s, cloned)) && Connect(s, cloned).delivered == s.delivered
    ensures |s.links| <= |Connect(s, cloned).links|
  {
    LeavingKeepsOk(parse, s);
    if cloned {
      FromIsEmpty(s.delivered, |s.links|);
      var added: Link<Msg> := Link([], 0, false, true, false, None, [], true, [], []);
      assert LinkOk(parse, added, []);
      hide LinkOk, From, Leave;
      var left := Leave(s);
      var s' := Connect(s, cloned);
      assert s'.links == left.links + [added];
      forall id | 0 <= id < |s'.links|
        ensures s'.links[id].open == (s'.phase == Connected(id)) && LinkOk(parse, s'.links[id], From(s'.delivered, id))
      {
        if id < |left.links| {
          assert s'.links[id] == left.links[id];
        }
      }
    }
  }

  lemma ReceivingKeepsOk<Msg>(parse: Parser<Msg>, s: State<Msg>)
    requires Ok(parse, s)
    ensures Ok(parse, Receive(s)) && |Receive(s).links| == |s.links|
  {
    LeavingKeepsOk(parse, s);
    if s.phase.Connected? && s.links[s.phase.id].inbox != [] {
      var id, s' := s.phase.id, Receive(s);
      var l, m := s.links[id], s.links[id].inbox[0];
      var l' := l.(inbox := l.inbox[1..]);
      forall i | 0 <= i < |s.links| ensures LinkOk(parse, s'.links[i], From(s'.delivered, i)) {
        FromGrows(s.delivered, id, m, i);
        if i == id {
          assert l.inbox == [m] + l'.inbox;
          TakingKeepsLink(parse, l, From(s.delivered, id));
        }
      }
      hide LinkOk, From;
    }
  }

  lemma TakingKeepsLink<Msg>(parse: Parser<Msg>, l: Link<Msg>, got: seq<Msg>)
    requires LinkOk(parse, l, got) && l.open && l.inbox != []
    ensures LinkOk(parse, l.(inbox := l.inbox[1..]), got + [l.inbox[0]])
  {
    hide Whole, Messages, EncodeAll, ReadFrame;
    assert got + [l.inbox[0]] + l.inbox[1..] == got + l.inbox;
  }

  lemma {:induction false} EncodeAllAppend(ps: seq<Payload>, p: Payload)
    ensures EncodeAll(ps + [p]) == EncodeAll(ps) + Encode(p)
    decreases |ps|
  {
    hide Encode;
    if ps == [] {
      assert ps + [p] == [p];
      assert [p][1..] == [];
    } else {
      EncodeAllAppend(ps[1..], p);
      assert (ps + [p])[1..] == ps[1..] + [p];
      PlusAssociates(Encode(ps[0]), EncodeAll(ps[1..]), Encode(p));
    }
  }

  lemma WritingKeepsOk<Msg>(parse: Parser<Msg>, s: State<Msg>, payload: Payload, failedAfter: Option<nat>)
    requires Ok(parse, s)
    ensures Ok(parse, Write(s, payload, failedAfter)) && Write(s, payload, failedAfter).delivered == s.delivered
    ensures |s.links| == |Write(s, payload, failedAfter).links|
  {
    hide From;
    if s.phase.Connected? {
      var id := s.phase.id;
      var l := s.links[id];
      match failedAfter {
        case None =>
          WritingKeepsLink(parse, l, From(s.delivered, id), payload);
          hide LinkOk, Ok;
          LinkStepKeepsOk(parse, s, id, l.(written := l.written + Encode(payload), emitted := l.emitted + [payload]));
        case Some(n) =>
          LeavingIgnoresWritten(s, l.written + Part(payload, n));
          LeavingKeepsOk(parse, s);
          var left := Leave(s);
          hide Leave, Part;
          LeftLinkMayWrite(parse, left.links[id], From(s.delivered, id), l.written + Part(payload, n));
          hide LinkOk, Ok;
          LinkStepKeepsOk(parse, left, id, left.links[id].(written := l.written + Part(payload, n)));
      }
    }
  }

  lemma WritingKeepsLink<Msg>(parse: Parser<Msg>, l: Link<Msg>, got: seq<Msg>, payload: Payload)
    requires LinkOk(parse, l, got)
    ensures LinkOk(parse, l.(written := l.written + Encode(payload), emitted := l.emitted + [payload]), got)
  {
    EncodeAllAppend(l.emitted, payload);
    hide Encode, EncodeAll, Whole, Messages, ReadFrame;
  }

  lemma LeftLinkMayWrite<Msg>(parse: Parser<Msg>, l: Link<Msg>, got: seq<Msg>, written: seq<byte>)
    requires LinkOk(parse, l, got) && !l.open
    ensures LinkOk(parse, l.(written := written), got)
  {
    hide EncodeAll, Whole, Messages, ReadFrame;
  }

  lemma EmittingKeepsOk<Msg>(parse: Parser<Msg>, s: State<Msg>, a: Accept, payload: Payload, failedAfter: Option<nat>)
    requires Ok(parse, s)
    ensures Ok(parse, Emit(s, a, payload, failedAfter)) && Emit(s, a, payload, failedAfter).delivered == s.delivered
    ensures |s.links| <= |Emit(s, a, payload, failedAfter).links|
  {
    hide Ok, Connect, Write;
    if s.phase.Disconnected? && a.Accepted? {
      ConnectingKeepsOk(parse, s, a.cloned);
    }
    WritingKeepsOk(parse, EnsureConnected(s, a), payload, failedAfter);
  }

  lemma LeavingIgnoresWritten<Msg>(s: State<Msg>, written: seq<byte>)
    requires s.phase.Connected? && s.phase.id < |s.links|
    ensures var id := s.phase.id;
            var left := Leave(s);
            Leave(s.(links := s.links[id := s.links[id].(written := written)]))
              == OnLink(left, id, left.links[id].(written := written))
  {
    var id := s.phase.id;
    var left := Leave(s);
    assert Leave(s.(links := s.links[id := s.links[id].(written := written)])).links
        == OnLink(left, id, left.links[id].(written := written)).links;
  }

  lemma StepKeepsOk<Msg>(parse: Parser<Msg>, s: State<Msg>, step: Step)
    requires Ok(parse, s)
    ensures Ok(parse, Next(parse, s, step)) && |s.links| <= |Next(parse, s, step).links|
  {
    hide LinkOk, From, Receive, Emit, Connect, ReaderReads, ReaderPushes, ReaderBreaks, PeerSends;
    match step {
      case SendByPeer(id, bytes) =>
        if id < |s.links| {
          PeerKeepsLink(parse, s.links[id], From(s.delivered, id), bytes);
          LinkStepKeepsOk(parse, s, id, PeerSends(s.links[id], bytes));
        }
      case CloseByPeer(id) =>
        if id < |s.links| {
          PeerKeepsLink(parse, s.links[id], From(s.delivered, id), []);
          LinkStepKeepsOk(parse, s, id, s.links[id].(closed := true));
        }
      case Read(id) =>
        if id < |s.links| && s.links[id].read <= |s.links[id].arrived| {
          ReadingKeepsLink(parse, s.links[id], From(s.delivered, id));
          LinkStepKeepsOk(parse, s, id, ReaderReads(parse, s.links[id]));
        }
      case Break(id) =>
        if id < |s.links| {
          PushingKeepsLink(parse, s.links[id], From(s.delivered, id));
          LinkStepKeepsOk(parse, s, id, ReaderBreaks(s.links[id]));
        }
      case Push(id) =>
        if id < |s.links| {
          PushingKeepsLink(parse, s.links[id], From(s.delivered, id));
          LinkStepKeepsOk(parse, s, id, ReaderPushes(s.links[id]));
        }
      case WaitAccept(cloned) => ConnectingKeepsOk(parse, s, cloned);
      case EmitDirective(a, payload, failedAfter) => EmittingKeepsOk(parse, s, a, payload, failedAfter);
      case TryRecv => ReceivingKeepsOk(parse, s);
    }
  }

  /** The invariant holds after every interleaving. */
  lemma {:induction false} RunKeepsOk<Msg>(parse: Parser<Msg>, s: State<Msg>, steps: seq<Step>)
    requires Ok(parse, s)
    ensures Ok(parse, Run(parse, s, steps))
    decreases |steps|
  {
    if steps != [] {
      hide Ok, Next;
      StepKeepsOk(parse, s, steps[0]);
      RunKeepsOk(parse, Next(parse, s, steps[0]), steps[1..]);
    }
  }

  lemma InitialIsOk<Msg>(parse: Parser<Msg>)
    ensures Ok(parse, Initial())
  {
  }

  /** The state reached from the start by an interleaving. */
  function Reached<Msg>(parse: Parser<Msg>, steps: seq<Step>): State<Msg> {
    Run(parse, Initial(), steps)
  }

  lemma ReachedIsOk<Msg>(parse: Parser<Msg>, steps: seq<Step>)
    ensures Ok(parse, Reached(parse, steps))
  {
    InitialIsOk(parse);
    RunKeepsOk(parse, Initial(), steps);
  }

  // ---------- safety over all interleavings ----------

  /** Taken messages are the first of those the peer's bytes hold, the rest being ahead of the reader. */
  lemma TakenIsPrefix<Msg>(parse: Parser<Msg>, l: Link<Msg>)
    requires l.read <= |l.arrived| && Whole(parse, l.arrived[..l.read])
    ensures Messages(parse, l.arrived) == Taken(parse, l) + Messages(parse, l.arrived[l.read..])
    ensures Ended(parse, l) ==> Messages(parse, l.arrived) == Taken(parse, l)
  {
    assert l.arrived == l.arrived[..l.read] + l.arrived[l.read..];
    MessagesAfterWhole(parse, l.arrived[..l.read], l.arrived[l.read..]);
    if Ended(parse, l) {
      assert Messages(parse, l.arrived[l.read..]) == [];
    }
  }

  /** Main result: what was delivered from a connection is always an in-order prefix of the messages its peer
      sent, and the inbox never exceeds its capacity. */
  lemma DeliveredIsPrefix<Msg>(parse: Parser<Msg>, steps: seq<Step>, id: nat)
    requires id < |Reached(parse, steps).links|
    ensures var s := Reached(parse, steps);
            && From(s.delivered, id) <= Messages(parse, s.links[id].arrived)
            && |s.links[id].inbox| <= 64
  {
    ReachedIsOk(parse, steps);
    var s := Reached(parse, steps);
    var l := s.links[id];
    assert LinkOk(parse, l, From(s.delivered, id));
    hide Ok, From, Run;
    TakenIsPrefix(parse, l);
    hide Whole, Messages;
  }

  /** Main result: when `try_recv` reports the loss of a connection, everything its reader parsed has been
      delivered, and unless an I/O error ended the reader, everything the peer sent before the end of the
      stream or its first bad frame has. */
  lemma LossIsReportedAfterDraining<Msg>(parse: Parser<Msg>, steps: seq<Step>)
    requires Reached(parse, steps).phase.Connected? && Receive(Reached(parse, steps)).phase.Disconnected?
    ensures var s := Reached(parse, steps);
            && s.phase.id < |s.links|
            && var l := s.links[s.phase.id];
            && l.inbox == [] && !l.running && l.read <= |l.arrived|
            && From(s.delivered, s.phase.id) == Taken(parse, l)
            && (!l.broken ==> From(s.delivered, s.phase.id) == Messages(parse, l.arrived))
  {
    ReachedIsOk(parse, steps);
    var s := Reached(parse, steps);
    var l := s.links[s.phase.id];
    var got := From(s.delivered, s.phase.id);
    assert LinkOk(parse, l, got) && l.open;
    hide Ok, From, Run;
    assert got + l.inbox + Held(l) == got;
    TakenIsPrefix(parse, l);
  }

  /** So a peer that sends well-formed frames and closes is heard in full, in order, exactly once. */
  lemma WellFormedPeerIsHeard<Msg>(parse: Parser<Msg>, steps: seq<Step>, ps: seq<Payload>)
    requires Reached(parse, steps).phase.Connected? && Receive(Reached(parse, steps)).phase.Disconnected?
    requires var s := Reached(parse, steps);
             s.phase.id < |s.links| && !s.links[s.phase.id].broken && s.links[s.phase.id].arrived == EncodeAll(ps)
    requires forall p :: p in ps ==> |p| <= MAX_PAYLOAD_SIZE
    ensures From(Reached(parse, steps).delivered, Reached(parse, steps).phase.id) == Parsed(parse, ps)
  {
    LossIsReportedAfterDraining(parse, steps);
    MessagesOfEncoded(parse, ps);
  }

  /** Deliveries grew from `before` to `after`, and only by messages of connection n - 1 or later ones. */
  predicate GrewFrom<Msg(==)>(before: seq<(nat, Msg)>, after: seq<(nat, Msg)>, n: nat) {
    before <= after && forall i :: |before| <= i < |after| ==> after[i].0 + 1 >= n
  }

  lemma GrowthComposes<Msg>(a: seq<(nat, Msg)>, b: seq<(nat, Msg)>, c: seq<(nat, Msg)>, m: nat, n: nat)
    requires GrewFrom(a, b, m) && GrewFrom(b, c, n) && m <= n
    ensures GrewFrom(a, c, m)
  {
    forall i | |a| <= i < |c| ensures c[i].0 + 1 >= m {
      if i < |b| {
        assert c[i] == b[i];
      }
    }
  }

  /** One step delivers only from the connection current at that time. */
  lemma StepDeliversFromCurrent<Msg>(parse: Parser<Msg>, s: State<Msg>, step: Step)
    requires Ok(parse, s)
    ensures GrewFrom(s.delivered, Next(parse, s, step).delivered, |s.links|)
  {
    match step {
      case WaitAccept(cloned) => ConnectingKeepsOk(parse, s, cloned);
      case EmitDirective(a, payload, failedAfter) => EmittingKeepsOk(parse, s, a, payload, failedAfter);
      case _ =>
    }
  }

  /** Main result: after a point at which `n` connections had been made, only the last of them or later ones
      deliver. In particular nothing from an old connection is delivered after a reconnect. */
  lemma {:induction false} NothingFromOldConnections<Msg>(parse: Parser<Msg>, s: State<Msg>, after: seq<Step>)
    requires Ok(parse, s)
    ensures GrewFrom(s.delivered, Run(parse, s, after).delivered, |s.links|)
    decreases |after|
  {
    if after != [] {
      hide Ok, Next, GrewFrom;
      var s1 := Next(parse, s, after[0]);
      StepKeepsOk(parse, s, after[0]);
      StepDeliversFromCurrent(parse, s, after[0]);
      NothingFromOldConnections(parse, s1, after[1..]);
      GrowthComposes(s.delivered, s1.delivered, Run(parse, s1, after[1..]).delivered, |s.links|, |s1.links|);
    }
  }

  /** What the engine decodes from a live connection is what was emitted on it, exactly when every payload fits. */
  lemma EngineReadsWhatWasEmitted<Msg>(parse: Parser<Msg>, steps: seq<Step>)
    requires Reached(parse, steps).phase.Connected?
    ensures var s := Reached(parse, steps);
            && s.phase.id < |s.links|
            && var l := s.links[s.phase.id];
            (DecodeAll(l.written).frames == l.emitted <==> forall p :: p in l.emitted ==> |p| <= MAX_PAYLOAD_SIZE)
  {
    ReachedIsOk(parse, steps);
    var s := Reached(parse, steps);
    var l := s.links[s.phase.id];
    assert LinkOk(parse, l, From(s.delivered, s.phase.id)) && l.open;
    hide Ok, From, Run;
    DecodeAllIffFits(l.emitted);
  }

  /** Draining is promised by `try_recv` alone: a failing write loses what was parsed and not yet delivered,
      so nothing is lost exactly when the inbox was empty and the reader held no message. */
  lemma FailedWriteLosesIffPending<Msg>(parse: Parser<Msg>, steps: seq<Step>, payload: Payload, n: nat)
    requires Reached(parse, steps).phase.Connected?
    ensures var s := Reached(parse, steps);
            var id := s.phase.id;
            var s' := Write(s, payload, Some(n));
            && s'.phase.Disconnected? && id < |s.links| && id < |s'.links| && s'.links[id].read <= |s'.links[id].arrived|
            && !s'.links[id].open && s'.links[id].inbox == []
            && (From(s'.delivered, id) == Taken(parse, s'.links[id])
                <==> s.links[id].inbox == [] && s.links[id].held.None?)
  {
    ReachedIsOk(parse, steps);
    var s := Reached(parse, steps);
    var l := s.links[s.phase.id];
    var got := From(s.delivered, s.phase.id);
    assert LinkOk(parse, l, got) && l.open;
    hide Ok, From, Run, Part, Messages, Whole;
    assert |got + l.inbox + Held(l)| == |got| + |l.inbox| + |Held(l)|;
    if l.inbox == [] && l.held.None? {
      assert got + l.inbox + Held(l) == got;
    }
  }

  // ---------- a start without a client ----------

  /** After the start nobody waits for a client any more. */
  predicate NoWait(steps: seq<Step>) { forall i :: 0 <= i < |steps| ==> !steps[i].WaitAccept? }

  /** What the start leaves: the wait's connection, or a channel that listens. */
  function AfterWait<Msg>(polls: seq<Poll>): State<Msg> {
    if Wait(polls).Some? then Connect(Initial(), Wait(polls).value) else Initial()
  }

  /** Only a disconnected channel accepts, and only a connected one can become disconnected: a channel that never
      had a client stays as it is, and everything emitted on it is dropped. */
  lemma {:induction false} ListeningHearsNobody<Msg>(parse: Parser<Msg>, steps: seq<Step>)
    requires NoWait(steps)
    ensures Run(parse, Initial(), steps) == Initial()
    decreases |steps|
  {
    if steps != [] {
      assert Next<Msg>(parse, Initial(), steps[0]) == Initial();
      ListeningHearsNobody(parse, steps[1..]);
    }
  }

  ghost predicate CanConnect<Msg>(parse: Parser<Msg>, s: State<Msg>) {
    exists steps :: NoWait(steps) && Run(parse, s, steps).phase.Connected?
  }

  /** Main result: after the start the channel can ever be connected exactly when the wait accepted a client,
      even one whose stream could not be cloned. */
  lemma ConnectsIffWaitAccepted<Msg>(parse: Parser<Msg>, polls: seq<Poll>)
    ensures CanConnect(parse, AfterWait(polls)) <==> Wait(polls).Some?
  {
    var s: State<Msg> := AfterWait(polls);
    if Wait(polls) == None {
      forall steps | NoWait(steps) ensures !Run(parse, s, steps).phase.Connected? {
        ListeningHearsNobody(parse, steps);
      }
    } else if Wait(polls) == Some(true) {
      assert NoWait([]) && Run(parse, s, []) == s;
    } else {
      var emission := EmitDirective(Accepted(true), [], None);
      assert [emission][1..] == [];
      assert s.phase.Disconnected? && Next(parse, s, emission).phase.Connected?;
      assert NoWait([emission]) && Run(parse, s, [emission]) == Next(parse, s, emission);
    }
  }
}
