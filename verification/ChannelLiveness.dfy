/** What the channel does, not only what it never does: messages are handed over, and what is emitted is written
    (src/channel/unix_socket.rs:122-311). */
module ChannelLiveness {
  import opened Wrappers
  import opened Sequences
  import opened Framing
  import opened Channel
  import opened ChannelSafety

  // ---------- the inbox is handed over ----------

  function Tagged<Msg>(id: nat, ms: seq<Msg>): (ds: seq<(nat, Msg)>)
    ensures |ds| == |ms|
  {
    seq(|ms|, i requires 0 <= i < |ms| => (id, ms[i]))
  }

  function Receives(n: nat): (steps: seq<Step>)
    ensures |steps| == n
  {
    seq(n, _ => TryRecv)
  }

  /** One call: the oldest message is handed over whether the reader lives or not; an empty inbox is a loss exactly
      when the reader is gone. */
  lemma ReceiveCases<Msg>(s: State<Msg>)
    requires s.phase.Connected? && s.phase.id < |s.links|
    ensures var l, s' := s.links[s.phase.id], Receive(s);
            if l.inbox != [] then
              && s'.phase == s.phase && s'.delivered == s.delivered + [(s.phase.id, l.inbox[0])]
              && s'.links == s.links[s.phase.id := l.(inbox := l.inbox[1..])]
            else if l.running then s' == s
            else s'.phase == Disconnected && s'.delivered == s.delivered
  {
  }

  lemma RunStep<Msg>(parse: Parser<Msg>, s: State<Msg>, steps: seq<Step>)
    ensures Run(parse, s, steps) == if steps == [] then s else Run(parse, Next(parse, s, steps[0]), steps[1..])
  {
  }

  lemma {:induction false} RunOfConcat<Msg>(parse: Parser<Msg>, s: State<Msg>, steps: seq<Step>, more: seq<Step>)
    ensures Run(parse, s, steps + more) == Run(parse, Run(parse, s, steps), more)
    decreases |steps|
  {
    hide Next;
    if steps == [] {
      assert steps + more == more;
    } else {
      assert (steps + more)[1..] == steps[1..] + more;
      RunOfConcat(parse, Next(parse, s, steps[0]), steps[1..], more);
    }
  }

  /** Main result: from any connected state, with the reader running or not, as many calls of `try_recv` as there
      are messages in the inbox hand over exactly these, in order and from this connection, and the channel is
      still connected. */
  lemma {:induction false} ReceivesHandOverTheInbox<Msg>(parse: Parser<Msg>, s: State<Msg>)
    requires s.phase.Connected? && s.phase.id < |s.links|
    ensures var l := s.links[s.phase.id];
            Run(parse, s, Receives(|l.inbox|)) ==
              State(s.phase, s.links[s.phase.id := l.(inbox := [])], s.delivered + Tagged(s.phase.id, l.inbox))
    decreases |s.links[s.phase.id].inbox|
  {
    var id := s.phase.id;
    var l := s.links[id];
    var steps := Receives(|l.inbox|);
    RunStep(parse, s, steps);
    if l.inbox == [] {
      assert s.links[id := l.(inbox := [])] == s.links;
      assert s.delivered + Tagged(id, l.inbox) == s.delivered;
    } else {
      assert Next(parse, s, TryRecv) == Receive(s);
      hide Next, Receive, Run;
      ReceiveCases(s);
      var s1 := Next(parse, s, TryRecv);
      assert steps[1..] == Receives(|l.inbox[1..]|);
      ReceivesHandOverTheInbox(parse, s1);
      assert s1.links[id := s1.links[id].(inbox := [])] == s.links[id := l.(inbox := [])];
      assert s.delivered + [(id, l.inbox[0])] + Tagged(id, l.inbox[1..]) == s.delivered + Tagged(id, l.inbox);
    }
  }

  // ---------- a loss is noticed ----------

  /** The next thing the reader meets ends it: an I/O error, or the peer's end of stream within or between frames,
      an oversize frame or one that does not parse. */
  ghost predicate Ends<Msg>(parse: Parser<Msg>, l: Link<Msg>, step: Step, id: nat)
    requires l.read <= |l.arrived|
  {
    || step == Break(id)
    || (step == Read(id) && match ReadFrame(l.arrived[l.read..])
                            case Frame(p, _) => parse(p).None?
                            case TooLong(_) => true
                            case Incomplete => l.closed)
  }

  lemma EndingStep<Msg>(parse: Parser<Msg>, s: State<Msg>, id: nat, step: Step)
    requires id < |s.links| && s.links[id].read <= |s.links[id].arrived|
    requires s.links[id].running && s.links[id].held.None? && Ends(parse, s.links[id], step, id)
    ensures var s' := Next(parse, s, step);
            s' == OnLink(s, id, s.links[id].(running := false, broken := step.Break? || s.links[id].broken))
  {
    hide ReadFrame;
  }

  /** Main result: when the reader of the connection ends, one call of `try_recv` more than there are messages in
      the inbox hands these over and then reports the loss. */
  lemma LossIsNoticed<Msg>(parse: Parser<Msg>, s: State<Msg>, step: Step)
    requires s.phase.Connected? && s.phase.id < |s.links|
    requires var l := s.links[s.phase.id];
             l.read <= |l.arrived| && l.running && l.held.None? && Ends(parse, l, step, s.phase.id)
    ensures var s' := Run(parse, s, [step] + Receives(|s.links[s.phase.id].inbox|) + [TryRecv]);
            s'.phase == Disconnected && s'.delivered == s.delivered + Tagged(s.phase.id, s.links[s.phase.id].inbox)
  {
    var inbox := s.links[s.phase.id].inbox;
    EndingStep(parse, s, s.phase.id, step);
    hide Run, Next, Receives, Tagged, Ends, Leave;
    var s1 := Next(parse, s, step);
    ReceivesHandOverTheInbox(parse, s1);
    var s2 := Run(parse, s1, Receives(|inbox|));
    RunOfConcat(parse, s, [step] + Receives(|inbox|), [TryRecv]);
    RunOfConcat(parse, s, [step], Receives(|inbox|));
    OneStep(parse, s, step);
    OneStep(parse, s2, TryRecv);
    EmptyReceive(parse, s2);
  }

  lemma OneStep<Msg>(parse: Parser<Msg>, s: State<Msg>, step: Step)
    ensures Run(parse, s, [step]) == Next(parse, s, step)
  {
    hide Next;
    assert [step][1..] == [];
    RunStep(parse, s, [step]);
    RunStep(parse, Next(parse, s, step), []);
  }

  lemma EmptyReceive<Msg>(parse: Parser<Msg>, s: State<Msg>)
    requires s.phase.Connected? && s.phase.id < |s.links| && s.links[s.phase.id].inbox == [] && !s.links[s.phase.id].running
    ensures Next(parse, s, TryRecv).phase == Disconnected && Next(parse, s, TryRecv).delivered == s.delivered
  {
  }

  // ---------- the reader gets everything through ----------

  /** A message in hand joins the inbox behind those waiting as long as fewer than 64 are, and is kept in hand
      otherwise; without a receiving end it is lost and the reader ends. */
  lemma PushIntoInbox<Msg>(parse: Parser<Msg>, s: State<Msg>, id: nat)
    requires id < |s.links| && s.links[id].running && s.links[id].held.Some?
    ensures var l, l' := s.links[id], Next(parse, s, Push(id)).links[id];
            if !l.open then l' == l.(running := false, held := None)
            else if |l.inbox| < 64 then l' == l.(inbox := l.inbox + [l.held.value], held := None)
            else l' == l
  {
  }

  function Ahead<Msg>(l: Link<Msg>): seq<byte>
    requires l.read <= |l.arrived|
  {
    l.arrived[l.read..]
  }

  /** The reader reads a message and pushes it, and the main thread takes it. */
  function Round(id: nat): seq<Step> {
    [Read(id), Push(id), TryRecv]
  }

  function Rounds(id: nat, n: nat): seq<Step> {
    if n == 0 then [] else Round(id) + Rounds(id, n - 1)
  }

  /** A connected state whose reader has nothing in hand and whose inbox is empty. */
  ghost predicate Quiet<Msg>(s: State<Msg>) {
    && s.phase.Connected? && s.phase.id < |s.links|
    && var l := s.links[s.phase.id];
       l.read <= |l.arrived| && l.running && l.open && l.held.None? && l.inbox == []
  }

  lemma ThreeSteps<Msg>(parse: Parser<Msg>, s: State<Msg>, a: Step, b: Step, c: Step)
    ensures Run(parse, s, [a, b, c]) == Next(parse, Next(parse, Next(parse, s, a), b), c)
  {
    hide Next;
    assert [a, b, c][1..] == [b, c] && [b, c][1..] == [c] && [c][1..] == [];
    RunStep(parse, s, [a, b, c]);
    RunStep(parse, Next(parse, s, a), [b, c]);
    RunStep(parse, Next(parse, Next(parse, s, a), b), [c]);
    RunStep(parse, Next(parse, Next(parse, Next(parse, s, a), b), c), []);
  }

  // one step on the link the channel holds

  lemma ReadStep<Msg>(parse: Parser<Msg>, s: State<Msg>, id: nat)
    requires id < |s.links| && s.links[id].read <= |s.links[id].arrived| && s.links[id].running && s.links[id].held.None?
    requires var r := ReadFrame(Ahead(s.links[id])); r.Frame? && parse(r.payload).Some?
    ensures var l, r := s.links[id], ReadFrame(Ahead(s.links[id]));
            |r.rest| <= |l.arrived|
            && Next(parse, s, Read(id)) == OnLink(s, id, l.(held := Some(parse(r.payload).value), read := |l.arrived| - |r.rest|))
  {
    AheadAfterRead(s.links[id]);
    hide ReadFrame;
  }

  lemma PushStep<Msg>(parse: Parser<Msg>, s: State<Msg>, id: nat)
    requires id < |s.links| && s.links[id].running && s.links[id].held.Some? && s.links[id].open
    requires s.links[id].inbox == []
    ensures Next(parse, s, Push(id)) == OnLink(s, id, s.links[id].(inbox := [s.links[id].held.value], held := None))
  {
    assert [] + [s.links[id].held.value] == [s.links[id].held.value];
  }

  lemma ReceiveStep<Msg>(parse: Parser<Msg>, s: State<Msg>, id: nat, m: Msg)
    requires s.phase == Connected(id) && id < |s.links| && s.links[id].inbox == [m]
    ensures Next(parse, s, TryRecv) == OnLink(s, id, s.links[id].(inbox := [])).(delivered := s.delivered + [(id, m)])
  {
    assert [m][1..] == [];
  }

  lemma LinkTwice<Msg>(links: seq<Link<Msg>>, id: nat, l1: Link<Msg>, l2: Link<Msg>)
    requires id < |links|
    ensures links[id := l1][id] == l1 && |links[id := l1]| == |links| && links[id := l1][id := l2] == links[id := l2]
  {
  }

  /** What the reader holds goes through the empty inbox to the caller. */
  lemma HeldGoesThrough<Msg>(parse: Parser<Msg>, s: State<Msg>, id: nat)
    requires s.phase == Connected(id) && id < |s.links|
    requires s.links[id].running && s.links[id].open && s.links[id].held.Some? && s.links[id].inbox == []
    ensures var l := s.links[id];
            Next(parse, Next(parse, s, Push(id)), TryRecv) ==
              OnLink(s, id, l.(held := None)).(delivered := s.delivered + [(id, l.held.value)])
  {
    hide Next;
    var l := s.links[id];
    PushStep(parse, s, id);
    LinkTwice(s.links, id, l.(inbox := [l.held.value], held := None), l.(held := None));
    ReceiveStep(parse, Next(parse, s, Push(id)), id, l.held.value);
  }

  /** A round takes the next whole message from the peer's bytes to the caller. */
  lemma RoundDelivers<Msg>(parse: Parser<Msg>, s: State<Msg>)
    requires Quiet(s)
    requires var r := ReadFrame(Ahead(s.links[s.phase.id])); r.Frame? && parse(r.payload).Some?
    ensures var id := s.phase.id;
            var l, r := s.links[id], ReadFrame(Ahead(s.links[id]));
            |r.rest| <= |l.arrived|
            && Run(parse, s, Round(id)) == State(s.phase, s.links[id := l.(read := |l.arrived| - |r.rest|)],
                                                 s.delivered + [(id, parse(r.payload).value)])
  {
    hide Next, ReadFrame, Run;
    var id := s.phase.id;
    var l, r := s.links[id], ReadFrame(Ahead(s.links[id]));
    ThreeSteps(parse, s, Read(id), Push(id), TryRecv);
    ReadStep(parse, s, id);
    var l1 := l.(held := Some(parse(r.payload).value), read := |l.arrived| - |r.rest|);
    LinkTwice(s.links, id, l1, l.(read := |l.arrived| - |r.rest|));
    HeldGoesThrough(parse, Next(parse, s, Read(id)), id);
  }

  lemma AheadAfterRead<Msg>(l: Link<Msg>)
    requires l.read <= |l.arrived| && ReadFrame(Ahead(l)).Frame?
    ensures var rest := ReadFrame(Ahead(l)).rest;
            l.read <= |l.arrived| - |rest| <= |l.arrived| && l.arrived[|l.arrived| - |rest|..] == rest
  {
    var s := Ahead(l);
    var n := FromBeBytes(s[..4]);
    hide FromBeBytes;
    assert ReadFrame(s).rest == s[4 + n..];
    assert s[4 + n..] == l.arrived[l.read + 4 + n..];
  }

  lemma MessagesStep<Msg>(parse: Parser<Msg>, s: seq<byte>)
    requires Messages(parse, s) != []
    ensures ReadFrame(s).Frame? && parse(ReadFrame(s).payload).Some?
    ensures Messages(parse, s) == [parse(ReadFrame(s).payload).value] + Messages(parse, ReadFrame(s).rest)
  {
  }

  lemma TaggedSplits<Msg>(delivered: seq<(nat, Msg)>, id: nat, m: Msg, ms: seq<Msg>)
    ensures delivered + [(id, m)] + Tagged(id, ms) == delivered + Tagged(id, [m] + ms)
    ensures delivered + Tagged(id, ms) + [(id, m)] == delivered + Tagged(id, ms + [m])
  {
  }

  lemma NoneTagged<Msg>(delivered: seq<(nat, Msg)>, id: nat)
    ensures delivered + Tagged(id, []) == delivered
  {
  }

  /** After a round the reader is quiet again and one message further on. */
  lemma RoundQuiets<Msg>(parse: Parser<Msg>, s: State<Msg>)
    requires Quiet(s) && Messages(parse, Ahead(s.links[s.phase.id])) != []
    ensures var id := s.phase.id;
            var ms := Messages(parse, Ahead(s.links[id]));
            var s' := Run(parse, s, Round(id));
            && Quiet(s') && s'.phase == s.phase && s'.delivered == s.delivered + [(id, ms[0])]
            && s'.links[id].arrived == s.links[id].arrived
            && |Ahead(s'.links[id])| < |Ahead(s.links[id])| && Messages(parse, Ahead(s'.links[id])) == ms[1..]
  {
    hide ReadFrame, Messages, Run, Round, Ahead;
    var id := s.phase.id;
    var l := s.links[id];
    ReadsNext(parse, l);
    RoundDelivers(parse, s);
    var read := |l.arrived| - |ReadFrame(Ahead(l)).rest|;
    LinkTwice(s.links, id, l.(read := read), l);
  }

  /** Reading past the first frame leaves the other messages ahead. */
  lemma ReadsNext<Msg>(parse: Parser<Msg>, l: Link<Msg>)
    requires l.read <= |l.arrived| && Messages(parse, Ahead(l)) != []
    ensures var r, ms := ReadFrame(Ahead(l)), Messages(parse, Ahead(l));
            && r.Frame? && parse(r.payload).Some? && ms[0] == parse(r.payload).value
            && l.read <= |l.arrived| - |r.rest| <= |l.arrived|
            && var l' := l.(read := |l.arrived| - |r.rest|);
               Ahead(l') == r.rest && |Ahead(l')| < |Ahead(l)| && Messages(parse, Ahead(l')) == ms[1..]
  {
    ShorterRest(Ahead(l));
    MessagesStep(parse, Ahead(l));
    AheadAfterRead(l);
    hide ReadFrame, Messages;
  }

  lemma ShorterRest(s: seq<byte>)
    ensures ReadFrame(s).Frame? ==> |ReadFrame(s).rest| < |s|
  {
  }

  /** As many rounds as messages are ahead deliver exactly these. */
  lemma {:induction false} RoundsDeliver<Msg>(parse: Parser<Msg>, s: State<Msg>)
    requires Quiet(s)
    ensures var id := s.phase.id;
            var ms := Messages(parse, Ahead(s.links[id]));
            var s' := Run(parse, s, Rounds(id, |ms|));
            && Quiet(s') && s'.phase == s.phase && s'.delivered == s.delivered + Tagged(id, ms)
            && s'.links[id].arrived == s.links[id].arrived
    decreases |Ahead(s.links[s.phase.id])|
  {
    hide Messages, Run, Round, Tagged, Ahead;
    var id := s.phase.id;
    var ms := Messages(parse, Ahead(s.links[id]));
    if ms == [] {
      RunStep(parse, s, []);
      NoneTagged(s.delivered, id);
    } else {
      RoundQuiets(parse, s);
      var s1 := Run(parse, s, Round(id));
      RunOfConcat(parse, s, Round(id), Rounds(id, |ms| - 1));
      RoundsDeliver(parse, s1);
      assert ms == [ms[0]] + ms[1..];
      TaggedSplits(s.delivered, id, ms[0], ms[1..]);
    }
  }

  /** Hand over the inbox, then what the reader holds. */
  function Flush<Msg>(s: State<Msg>): seq<Step>
    requires s.phase.Connected? && s.phase.id < |s.links|
  {
    var l := s.links[s.phase.id];
    Receives(|l.inbox|) + if l.held.Some? then [Push(s.phase.id), TryRecv] else []
  }

  lemma FlushQuiets<Msg>(parse: Parser<Msg>, s: State<Msg>)
    requires s.phase.Connected? && s.phase.id < |s.links|
    requires var l := s.links[s.phase.id]; l.read <= |l.arrived| && l.running && l.open
    ensures var id := s.phase.id;
            var l := s.links[id];
            var s' := Run(parse, s, Flush(s));
            && Quiet(s') && s'.phase == s.phase
            && s'.links[id].arrived == l.arrived && s'.links[id].read == l.read
            && s'.delivered == s.delivered + Tagged(id, l.inbox + Held(l))
  {
    hide Run, Next, Tagged;
    var id := s.phase.id;
    var l := s.links[id];
    ReceivesHandOverTheInbox(parse, s);
    var s1 := Run(parse, s, Receives(|l.inbox|));
    if l.held.Some? {
      RunOfConcat(parse, s, Receives(|l.inbox|), [Push(id), TryRecv]);
      TwoSteps(parse, s1, Push(id), TryRecv);
      HeldGoesThrough(parse, s1, id);
      TaggedSplits(s.delivered, id, l.held.value, l.inbox);
    } else {
      assert Receives(|l.inbox|) + [] == Receives(|l.inbox|);
      assert l.inbox + [] == l.inbox;
    }
  }

  lemma TwoSteps<Msg>(parse: Parser<Msg>, s: State<Msg>, a: Step, b: Step)
    ensures Run(parse, s, [a, b]) == Next(parse, Next(parse, s, a), b)
  {
    hide Next;
    assert [a, b][1..] == [b] && [b][1..] == [];
    RunStep(parse, s, [a, b]);
    RunStep(parse, Next(parse, s, a), [b]);
    RunStep(parse, Next(parse, Next(parse, s, a), b), []);
  }

  lemma {:induction false} FromOfTagged<Msg>(delivered: seq<(nat, Msg)>, id: nat, ms: seq<Msg>)
    ensures From(delivered + Tagged(id, ms), id) == From(delivered, id) + ms
    decreases |ms|
  {
    if ms == [] {
      assert delivered + Tagged(id, ms) == delivered && From(delivered, id) + [] == From(delivered, id);
    } else {
      var init, m := ms[..|ms| - 1], ms[|ms| - 1];
      FromOfTagged(delivered, id, init);
      assert delivered + Tagged(id, ms) == (delivered + Tagged(id, init)) + [(id, m)];
      FromGrows(delivered + Tagged(id, init), id, m, id);
      hide From;
      PlusAssociates(From(delivered, id), init, [m]);
      assert ms == init + [m];
    }
  }

  /** Main result: in every reached state with a living connection, steps of its reader and of `try_recv` alone lead
      to a state in which every message its peer has sent so far has been delivered. */
  lemma EverythingSentCanBeDelivered<Msg>(parse: Parser<Msg>, steps: seq<Step>) returns (more: seq<Step>)
    requires var s := Reached(parse, steps); s.phase.Connected? && s.phase.id < |s.links| && s.links[s.phase.id].running
    ensures var s := Reached(parse, steps);
            var id := s.phase.id;
            var s' := Run(parse, s, more);
            && (forall i :: 0 <= i < |more| ==> more[i] in {Read(id), Push(id), TryRecv})
            && s'.phase == s.phase && id < |s'.links| && s'.links[id].arrived == s.links[id].arrived
            && From(s'.delivered, id) == Messages(parse, s.links[id].arrived)
  {
    hide Run, From, Messages, Rounds, Whole, Tagged, Flush;
    var s := Reached(parse, steps);
    var id := s.phase.id;
    var l := s.links[id];
    ReachedLink(parse, steps);
    FlushQuiets(parse, s);
    var s1 := Run(parse, s, Flush(s));
    var ahead := Messages(parse, Ahead(l));
    RoundsDeliver(parse, s1);
    more := Flush(s) + Rounds(id, |ahead|);
    RunOfConcat(parse, s, Flush(s), Rounds(id, |ahead|));
    FromOfTagged(s.delivered, id, l.inbox + Held(l));
    FromOfTagged(s1.delivered, id, ahead);
    RoundsAreTheirs(id, |ahead|);
    FlushIsTheirs(s);
    PlusAssociates(From(s.delivered, id), l.inbox, Held(l));
  }

  /** In a reached state the messages of the living connection are those handed over, in the inbox, held, and
      those still ahead. */
  lemma ReachedLink<Msg>(parse: Parser<Msg>, steps: seq<Step>)
    requires var s := Reached(parse, steps); s.phase.Connected? && s.phase.id < |s.links| && s.links[s.phase.id].running
    ensures var s := Reached(parse, steps);
            var l := s.links[s.phase.id];
            && l.read <= |l.arrived| && l.open
            && Messages(parse, l.arrived) ==
               From(s.delivered, s.phase.id) + l.inbox + Held(l) + Messages(parse, Ahead(l))
  {
    ReachedIsOk(parse, steps);
    hide Reached, From, Messages, Whole, ReadFrame;
    var s := Reached(parse, steps);
    var l := s.links[s.phase.id];
    assert LinkOk(parse, l, From(s.delivered, s.phase.id)) && l.open;
    hide Ok;
    TakenIsPrefix(parse, l);
  }

  lemma FlushIsTheirs<Msg>(s: State<Msg>)
    requires s.phase.Connected? && s.phase.id < |s.links|
    ensures forall i :: 0 <= i < |Flush(s)| ==> Flush(s)[i] in {Read(s.phase.id), Push(s.phase.id), TryRecv}
  {
  }

  lemma {:induction false} RoundsAreTheirs(id: nat, n: nat)
    ensures forall i :: 0 <= i < |Rounds(id, n)| ==> Rounds(id, n)[i] in {Read(id), Push(id), TryRecv}
    decreases n
  {
    if n > 0 {
      RoundsAreTheirs(id, n - 1);
    }
  }

  // ---------- what is emitted is written ----------

  /** On a live connection an emission adds its header and payload to what the peer gets; a channel that lost its
      connection first takes a waiting client, and the emission is the first it gets. When the writing fails part
      of this has gone out, and the connection is left with whatever was in its inbox. */
  lemma EmissionIsWritten<Msg>(s: State<Msg>, payload: Payload)
    requires s.phase.Connected? ==> s.phase.id < |s.links|
    ensures s.phase.Connected? ==>
      var s' := Emit(s, WouldBlock, payload, None);
      s'.phase == s.phase && |s'.links| == |s.links|
      && s'.links[s.phase.id].written == s.links[s.phase.id].written + (ToBeBytes(|payload| % 0x1_0000_0000) + payload)
    ensures s.phase.Disconnected? ==>
      var s' := Emit(s, Accepted(true), payload, None);
      s'.phase == Connected(|s.links|) && |s'.links| == |s.links| + 1
      && s'.links[|s.links|].written == ToBeBytes(|payload| % 0x1_0000_0000) + payload
    ensures s.phase.Listening? ==> Emit(s, Accepted(true), payload, None) == s
    ensures s.phase.Connected? ==> forall n: nat ::
      var frame, s' := ToBeBytes(|payload| % 0x1_0000_0000) + payload, Emit(s, WouldBlock, payload, Some(n));
      s'.phase == Disconnected && |s'.links| == |s.links| && s'.links[s.phase.id].inbox == [] && !s'.links[s.phase.id].open
      && s'.links[s.phase.id].written == s.links[s.phase.id].written + (if n < |frame| then frame[..n] else frame)
  {
    hide ToBeBytes;
    assert [] + (ToBeBytes(|payload| % 0x1_0000_0000) + payload) == ToBeBytes(|payload| % 0x1_0000_0000) + payload;
  }
}
