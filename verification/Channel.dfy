/** The engine channel as a protocol of interleaved steps: peers, one reader thread per connection with a bounded
    inbox, and the main thread (src/channel/unix_socket.rs:38-311; src/channel/tcp.rs has the same protocol). */
module Channel {
  import opened Wrappers
  import opened Framing

  const INBOX_CAPACITY := 64

  /** One connection. `arrived` is what the peer has written so far and `read` how much of it the reader consumed;
      `running` says the reader thread lives, `broken` that it died of an I/O error; `held` is a message it has
      parsed and not yet pushed; `open` says the channel still holds the receiving end of the inbox. `written` is
      what the channel sent, and `emitted` the payloads whose writing succeeded. */
  datatype Link<Msg> = Link(arrived: seq<byte>, read: nat, closed: bool, running: bool, broken: bool,
                            held: Option<Msg>, inbox: seq<Msg>, open: bool,
                            written: seq<byte>, emitted: seq<Payload>)

  datatype Phase = Listening | Connected(id: nat) | Disconnected

  /** Connections are numbered in the order they were made; `delivered` records every message handed to the
      caller with the connection it came from. */
  datatype State<Msg> = State(phase: Phase, links: seq<Link<Msg>>, delivered: seq<(nat, Msg)>)

  /** What a non-blocking accept yields, and whether the stream could then be cloned for writing. */
  datatype Accept = Accepted(cloned: bool) | WouldBlock | AcceptFailed

  // ---------- reader thread ----------

  function ReaderReads<Msg>(parse: Parser<Msg>, l: Link<Msg>): Link<Msg>
    requires l.read <= |l.arrived|
  {
    if !l.running || l.held.Some? then l
    else
      match ReadFrame(l.arrived[l.read..])
      case Frame(p, rest) =>
        (match parse(p)
         case Some(m) => l.(held := Some(m), read := |l.arrived| - |rest|)
         case None => l.(running := false))
      case TooLong(_) => l.(running := false)
      case Incomplete => if l.closed then l.(running := false) else l
  }

  function ReaderBreaks<Msg>(l: Link<Msg>): Link<Msg> {
    if l.running && l.held.None? then l.(running := false, broken := true) else l
  }

  /** A push into a full inbox blocks; once the receiving end is dropped it fails and ends the thread. */
  function ReaderPushes<Msg>(l: Link<Msg>): Link<Msg> {
    if !l.running || l.held.None? then l
    else if !l.open then l.(running := false, held := None)
    else if |l.inbox| < INBOX_CAPACITY then l.(inbox := l.inbox + [l.held.value], held := None)
    else l
  }

  function PeerSends<Msg>(l: Link<Msg>, bytes: seq<byte>): Link<Msg> {
    if l.closed then l else l.(arrived := l.arrived + bytes)
  }

  // ---------- main thread ----------

  function OnLink<Msg>(s: State<Msg>, id: nat, l: Link<Msg>): State<Msg>
    requires id < |s.links|
  {
    s.(links := s.links[id := l])
  }

  /** Leaving a connection drops the receiving end of its inbox with whatever is in it. */
  function Leave<Msg>(s: State<Msg>): State<Msg> {
    if s.phase.Connected? && s.phase.id < |s.links| then
      s.(phase := Disconnected, links := s.links[s.phase.id := s.links[s.phase.id].(open := false, inbox := [])])
    else s.(phase := Disconnected)
  }

  function Connect<Msg>(s: State<Msg>, cloned: bool): State<Msg> {
    var left := Leave(s);
    if cloned then
      left.(phase := Connected(|s.links|), links := left.links + [Link([], 0, false, true, false, None, [], true, [], [])])
    else left
  }

  function EnsureConnected<Msg>(s: State<Msg>, a: Accept): State<Msg> {
    if s.phase.Disconnected? && a.Accepted? then Connect(s, a.cloned) else s
  }

  /** Writing on the current connection. `failedAfter` is absent when it succeeds, and else the number of bytes
      that still went out. */
  function Write<Msg>(s: State<Msg>, payload: Payload, failedAfter: Option<nat>): State<Msg> {
    if !s.phase.Connected? || s.phase.id >= |s.links| then s
    else
      var l := s.links[s.phase.id];
      match failedAfter
      case None => OnLink(s, s.phase.id, l.(written := l.written + Encode(payload), emitted := l.emitted + [payload]))
      case Some(n) => Leave(OnLink(s, s.phase.id, l.(written := l.written + Part(payload, n))))
  }

  function Part(payload: Payload, n: nat): seq<byte> {
    if n < |Encode(payload)| then Encode(payload)[..n] else Encode(payload)
  }

  /** Without a connection nothing is written, and the caller is told of success in every case. */
  function Emit<Msg>(s: State<Msg>, a: Accept, payload: Payload, failedAfter: Option<nat>): State<Msg> {
    Write(EnsureConnected(s, a), payload, failedAfter)
  }

  /** Take the oldest message; only an empty inbox whose sender is gone means the connection is lost. */
  function Receive<Msg>(s: State<Msg>): State<Msg> {
    if !s.phase.Connected? || s.phase.id >= |s.links| then s
    else
      var id := s.phase.id;
      var l := s.links[id];
      if l.inbox != [] then s.(links := s.links[id := l.(inbox := l.inbox[1..])], delivered := s.delivered + [(id, l.inbox[0])])
      else if l.running then s
      else Leave(s)
  }

  // ---------- interleavings ----------

  datatype Step =
    | SendByPeer(id: nat, bytes: seq<byte>)
    | CloseByPeer(id: nat)
    | Read(id: nat)
    | Break(id: nat)
    | Push(id: nat)
    | WaitAccept(cloned: bool)
    | EmitDirective(a: Accept, payload: Payload, failedAfter: Option<nat>)
    | TryRecv

  /** One step of one of the parties; a step about a connection that does not exist changes nothing. */
  function Next<Msg>(parse: Parser<Msg>, s: State<Msg>, step: Step): State<Msg> {
    match step
    case SendByPeer(id, bytes) => if id < |s.links| then OnLink(s, id, PeerSends(s.links[id], bytes)) else s
    case CloseByPeer(id) => if id < |s.links| then OnLink(s, id, s.links[id].(closed := true)) else s
    case Read(id) =>
      if id < |s.links| && s.links[id].read <= |s.links[id].arrived| then OnLink(s, id, ReaderReads(parse, s.links[id])) else s
    case Break(id) => if id < |s.links| then OnLink(s, id, ReaderBreaks(s.links[id])) else s
    case Push(id) => if id < |s.links| then OnLink(s, id, ReaderPushes(s.links[id])) else s
    case WaitAccept(cloned) => Connect(s, cloned)
    case EmitDirective(a, payload, failedAfter) => Emit(s, a, payload, failedAfter)
    case TryRecv => Receive(s)
  }

  function Run<Msg>(parse: Parser<Msg>, s: State<Msg>, steps: seq<Step>): State<Msg>
    decreases |steps|
  {
    if steps == [] then s else Run(parse, Next(parse, s, steps[0]), steps[1..])
  }

  function Initial<Msg>(): State<Msg> {
    State(Listening, [], [])
  }

  // ---------- the channel object ----------

  /** What one poll of the accept loop sees: shutdown was asked for, or an accept, and whether time is up. */
  datatype Poll = Shutdown | Polled(a: Accept, timeUp: bool)

  /** Whether the loop accepts a connection, and then whether its stream could be cloned. */
  function Wait(polls: seq<Poll>): Option<bool> {
    if polls == [] then None
    else
      match polls[0]
      case Shutdown => None
      case Polled(Accepted(cloned), _) => Some(cloned)
      case Polled(WouldBlock, timeUp) => if timeUp then None else Wait(polls[1..])
      case Polled(AcceptFailed, _) => None
  }

  /** The wait accepts a client exactly when one arrives after polls that only found nobody in time. */
  lemma {:induction false} WaitIff(polls: seq<Poll>, cloned: bool)
    ensures Wait(polls) == Some(cloned) <==>
      exists i :: 0 <= i < |polls| && polls[i].Polled? && polls[i].a == Accepted(cloned)
                  && forall j :: 0 <= j < i ==> polls[j] == Polled(WouldBlock, false)
    decreases |polls|
  {
    if polls != [] && polls[0] == Polled(WouldBlock, false) {
      var rest := polls[1..];
      WaitIff(rest, cloned);
      if i :| 0 <= i < |rest| && rest[i].Polled? && rest[i].a == Accepted(cloned)
              && forall j :: 0 <= j < i ==> rest[j] == Polled(WouldBlock, false) {
        assert polls[i + 1] == rest[i];
        assert forall j :: 0 < j < i + 1 ==> polls[j] == rest[j - 1];
      }
      if i :| 0 <= i < |polls| && polls[i].Polled? && polls[i].a == Accepted(cloned)
              && forall j :: 0 <= j < i ==> polls[j] == Polled(WouldBlock, false) {
        assert rest[i - 1] == polls[i];
        assert forall j :: 0 <= j < i - 1 ==> rest[j] == polls[j + 1];
      }
    }
  }

  /** True does not mean connected: it does exactly when the accepted stream could be cloned. */
  lemma WaitConnectsIffCloned<Msg>(s: State<Msg>, polls: seq<Poll>)
    requires Wait(polls).Some?
    ensures Connect(s, Wait(polls).value).phase.Connected? <==> Wait(polls) == Some(true)
    ensures !Connect(s, Wait(polls).value).phase.Connected? ==> Connect(s, Wait(polls).value).phase == Disconnected
  {
  }

  /** A client that arrives on the second poll and whose stream cannot be cloned. */
  lemma UnclonedClientIsReported()
    ensures var polls := [Polled(WouldBlock, false), Polled(Accepted(false), false)];
            Wait(polls) == Some(false) && Connect<int>(Initial(), false).phase == Disconnected
  {
    var polls := [Polled(WouldBlock, false), Polled(Accepted(false), false)];
    assert polls[1..] == [Polled(Accepted(false), false)];
  }

  class EngineChannel<Msg> {
    var phase: Phase
    var links: seq<Link<Msg>>
    ghost var delivered: seq<(nat, Msg)>

    ghost function View(): State<Msg>
      reads this
    {
      State(phase, links, delivered)
    }

    ghost predicate Valid()
      reads this
    {
      phase.Connected? ==> phase.id + 1 == |links|
    }

    constructor ()
      ensures View() == Initial() && Valid()
    {
      phase, links, delivered := Listening, [], [];
    }

    /** Overwriting the state drops the old connection's inbox. */
    method Disconnect()
      requires Valid()
      modifies this
      ensures View() == Leave(old(View())) && Valid()
    {
      if phase.Connected? {
        links := links[phase.id := links[phase.id].(open := false, inbox := [])];
      }
      phase := Disconnected;
    }

    method TransitionToConnected(cloned: bool)
      requires Valid()
      modifies this
      ensures View() == Connect(old(View()), cloned) && Valid()
    {
      Disconnect();
      if cloned {
        phase := Connected(|links|);
        links := links + [Link([], 0, false, true, false, None, [], true, [], [])];
      }
    }

    /** True says that a connection was accepted; when its stream could not be cloned the channel is left
        disconnected all the same. When the polls run out the wait is taken to have timed out. */
    method WaitForClient(polls: seq<Poll>) returns (accepted: bool)
      requires Valid()
      modifies this
      ensures accepted == Wait(polls).Some? && Valid()
      ensures View() == if Wait(polls).Some? then Connect(old(View()), Wait(polls).value) else old(View())
    {
      var i := 0;
      while i < |polls|
        invariant 0 <= i <= |polls|
        invariant Wait(polls) == Wait(polls[i..])
        invariant Valid() && View() == old(View())
      {
        match polls[i] {
          case Shutdown => return false;
          case Polled(Accepted(cloned), _) =>
            TransitionToConnected(cloned);
            return true;
          case Polled(WouldBlock, timeUp) =>
            if timeUp {
              return false;
            }
          case Polled(AcceptFailed, _) => return false;
        }
        i := i + 1;
      }
      return false;
    }

    method TryReconnect(a: Accept)
      requires Valid()
      modifies this
      ensures View() == EnsureConnected(old(View()), a) && Valid()
    {
      if phase.Disconnected? && a.Accepted? {
        TransitionToConnected(a.cloned);
      }
    }

    method EmitPayload(a: Accept, payload: Payload, failedAfter: Option<nat>)
      requires Valid()
      modifies this
      ensures View() == Emit(old(View()), a, payload, failedAfter) && Valid()
    {
      hide Connect, Encode;
      TryReconnect(a);
      if !phase.Connected? {
        return;
      }
      var l := links[phase.id];
      match failedAfter {
        case None =>
          links := links[phase.id := l.(written := l.written + Encode(payload), emitted := l.emitted + [payload])];
        case Some(n) =>
          links := links[phase.id := l.(written := l.written + Part(payload, n))];
          Disconnect();
      }
    }

    /** The message returned is the one that `delivered` grows by. */
    method TryReceive() returns (msg: Option<Msg>)
      requires Valid()
      modifies this
      ensures View() == Receive(old(View())) && Valid()
      ensures match msg
              case Some(m) => old(phase).Connected? && delivered == old(delivered) + [(old(phase).id, m)]
              case None => delivered == old(delivered)
      ensures msg.None? <==> (!old(phase).Connected? || old(links)[old(phase).id].inbox == [])
      ensures msg.Some? ==> phase == old(phase) && msg.value == old(links)[old(phase).id].inbox[0]
    {
      if !phase.Connected? {
        return None;
      }
      var l := links[phase.id];
      if l.inbox != [] {
        msg := Some(l.inbox[0]);
        links := links[phase.id := l.(inbox := l.inbox[1..])];
        delivered := delivered + [(phase.id, l.inbox[0])];
      } else {
        msg := None;
        if !l.running {
          Disconnect();
        }
      }
    }
  }
}
