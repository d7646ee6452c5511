/** The manager's main loop (src/main.rs) with the reference script: script, parser and deduplicator composed. */
module Pipeline {
  import opened Wrappers
  import opened Commands
  import opened Deduplicator
  import LuaPolicy
  import DefaultPolicy

  datatype Reading = Reading(signal: LuaPolicy.Signal, ctx: DefaultPolicy.Context, at: real)

  datatype Manager = Manager(window: DefaultPolicy.Window, shell: LuaPolicy.Shell)

  const FRESH := Manager(DefaultPolicy.CLOSED, LuaPolicy.FRESH)

  /** What the script's result looks like to the manager. */
  function ToLua(action: Option<DefaultPolicy.Action>): LuaPolicy.Returned {
    match action
    case None => LuaPolicy.ReturnedNil
    case Some(KvCompress(b)) =>
      LuaPolicy.ReturnedAction(LuaPolicy.Table(LuaPolicy.Text("kv.compress"), LuaPolicy.Number(b), LuaPolicy.Nil, LuaPolicy.Nil))
    case Some(RestoreDefaults) =>
      LuaPolicy.ReturnedAction(LuaPolicy.Table(LuaPolicy.Text("restore_defaults"), LuaPolicy.Nil, LuaPolicy.Nil, LuaPolicy.Nil))
  }

  function ToCommand(action: DefaultPolicy.Action): EngineCommand {
    match action
    case KvCompress(b) => EngineCommand.KvCompress(b)
    case RestoreDefaults => EngineCommand.RestoreDefaults
  }

  /** One signal with a VM that does not fail; the script is not called while the fallback is latched. */
  function ProcessSignal(m: Manager, r: Reading, everyMax: nat): (Manager, Option<Request>) {
    var (window', action) := DefaultPolicy.Step(m.window, r.ctx);
    var outcome := LuaPolicy.Ok(ToLua(action));
    var commands := LuaPolicy.Answer(m.shell, r.signal, outcome, everyMax);
    (Manager(if m.shell.permanentFallback then m.window else window', LuaPolicy.Called(m.shell, outcome, everyMax)),
     if commands == [] then None else Some(Request(commands, r.at)))
  }

  function After(m: Manager, rs: seq<Reading>, everyMax: nat): Manager
    decreases |rs|
  {
    if rs == [] then m else After(ProcessSignal(m, rs[0], everyMax).0, rs[1..], everyMax)
  }

  /** The directives the policy asks for, with their times. */
  function Requests(m: Manager, rs: seq<Reading>, everyMax: nat): seq<Request>
    decreases |rs|
  {
    if rs == [] then []
    else
      var (m', request) := ProcessSignal(m, rs[0], everyMax);
      (if request.Some? then [request.value] else []) + Requests(m', rs[1..], everyMax)
  }

  ghost predicate Healthy(m: Manager) {
    DefaultPolicy.Consistent(m.window) && m.shell == LuaPolicy.FRESH
  }

  function Contexts(rs: seq<Reading>): seq<DefaultPolicy.Context> {
    seq(|rs|, i requires 0 <= i < |rs| => rs[i].ctx)
  }

  /** The parser passes the script's result through untouched and drops nothing, whatever happened before. */
  lemma SignalIsTheScript(m: Manager, r: Reading, everyMax: nat)
    requires !m.shell.permanentFallback
    ensures var (m', request) := ProcessSignal(m, r, everyMax);
            var (window', action) := DefaultPolicy.Step(m.window, r.ctx);
            && m'.window == window' && m'.shell == LuaPolicy.Shell(0, false, m.shell.droppedActions)
            && (Healthy(m) ==> Healthy(m'))
            && request == (if action.Some? then Some(Request([ToCommand(action.value)], r.at)) else None)
  {
    DefaultPolicy.StepEmitsNext(m.window, r.ctx);
    var (window', action) := DefaultPolicy.Step(m.window, r.ctx);
    hide DefaultPolicy.Step, DefaultPolicy.Consistent;
    ActionIsAccepted(action, everyMax);
  }

  lemma ActionIsAccepted(action: Option<DefaultPolicy.Action>, everyMax: nat)
    requires action.Some? && action.value.KvCompress? ==> DefaultPolicy.OnRamp(action.value.budget)
    ensures var items := LuaPolicy.Requested(ToLua(action));
            && LuaPolicy.Accepted(items, everyMax) == (if action.Some? then [ToCommand(action.value)] else [])
            && |items| == |LuaPolicy.Accepted(items, everyMax)|
  {
    var items := LuaPolicy.Requested(ToLua(action));
    if action.Some? {
      assert items[..0] == [];
      if action.value.KvCompress? {
        var k :| 5 <= k <= 18 && action.value.budget == DefaultPolicy.Rung(k);
        assert LuaPolicy.ParseItem(items[0], everyMax) == Some(ToCommand(action.value));
      }
    }
  }

  lemma {:induction false} RequestsAreTheScripts(m: Manager, rs: seq<Reading>, everyMax: nat)
    requires !m.shell.permanentFallback
    ensures Healthy(m) ==> Healthy(After(m, rs, everyMax))
    ensures var requests, actions := Requests(m, rs, everyMax), DefaultPolicy.Emitted(m.window, Contexts(rs));
            && |requests| == |actions|
            && forall i :: 0 <= i < |requests| ==> requests[i].commands == [ToCommand(actions[i])]
    decreases |rs|
  {
    if rs != [] {
      SignalIsTheScript(m, rs[0], everyMax);
      RequestsAreTheScripts(ProcessSignal(m, rs[0], everyMax).0, rs[1..], everyMax);
      assert Contexts(rs)[1..] == Contexts(rs[1..]);
    }
  }

  lemma {:induction false} DifferentNeighboursPass(d: Dedup, rs: seq<Request>)
    requires d.lastCommands.Some? && rs != [] ==> rs[0].commands != d.lastCommands.value
    requires forall i :: 0 < i < |rs| ==> rs[i].commands != rs[i - 1].commands
    ensures Sent(d, rs) == rs
    decreases |rs|
  {
    if rs != [] {
      DifferentNeighboursPass(d.Next(rs[0]), rs[1..]);
    }
  }

  /** A stretch of calls that succeed never asks for the same thing twice in a row. */
  lemma StretchNeverRepeats(m: Manager, rs: seq<Reading>, everyMax: nat)
    requires !m.shell.permanentFallback
    ensures var requests := Requests(m, rs, everyMax);
            forall i :: 0 < i < |requests| ==> requests[i].commands != requests[i - 1].commands
  {
    RequestsAreTheScripts(m, rs, everyMax);
    var requests, actions := Requests(m, rs, everyMax), DefaultPolicy.Emitted(m.window, Contexts(rs));
    DefaultPolicy.RunEmitsWindows(m.window, Contexts(rs));
    DefaultPolicy.NeighboursDiffer(m.window.applied, actions);
    hide Requests, DefaultPolicy.Emitted;
    forall i | 0 < i < |requests| ensures requests[i].commands != requests[i - 1].commands {
      assert actions[i] != actions[i - 1];
      assert requests[i].commands[0] != requests[i - 1].commands[0];
    }
  }

  /** With the reference script and a VM that does not fail, nothing it asks for is dropped by the parser or
      suppressed by the deduplicator, for any pressures, times and cooldown. The readings taken at start-up
      bypass the deduplicator and may leave any window open. */
  lemma NothingIsSuppressed(initial: seq<Reading>, rs: seq<Reading>, cooldown: real, everyMax: nat)
    ensures var m := After(FRESH, initial, everyMax);
            && Sent(New(cooldown), Requests(m, rs, everyMax)) == Requests(m, rs, everyMax)
            && |Requests(m, rs, everyMax)| == |DefaultPolicy.Emitted(m.window, Contexts(rs))|
            && After(m, rs, everyMax).shell == LuaPolicy.FRESH
  {
    RequestsAreTheScripts(FRESH, initial, everyMax);
    var m := After(FRESH, initial, everyMax);
    RequestsAreTheScripts(m, rs, everyMax);
    StretchNeverRepeats(m, rs, everyMax);
    DifferentNeighboursPass(New(cooldown), Requests(m, rs, everyMax));
  }

  // ---------- histories with failures and reloads ----------

  /** A call that fails is answered by the fallback and leaves the script's variables in any state; a reload that
      succeeds starts the script afresh. The deduplicator is touched by neither. */
  datatype Happening = Called(r: Reading) | CallFailed(r: Reading, left: DefaultPolicy.Window) | Reload(loads: bool)

  function Happens(m: Manager, h: Happening, everyMax: nat): (Manager, Option<Request>) {
    match h
    case Called(r) => ProcessSignal(m, r, everyMax)
    case CallFailed(r, left) =>
      var commands := LuaPolicy.Answer(m.shell, r.signal, LuaPolicy.Failed, everyMax);
      (Manager(if m.shell.permanentFallback then m.window else left, LuaPolicy.Called(m.shell, LuaPolicy.Failed, everyMax)),
       if commands == [] then None else Some(Request(commands, r.at)))
    case Reload(loads) =>
      (Manager(if loads then DefaultPolicy.CLOSED else m.window, LuaPolicy.Reloaded(m.shell, loads)), None)
  }

  function ManagerAfter(m: Manager, hs: seq<Happening>, everyMax: nat): Manager
    decreases |hs|
  {
    if hs == [] then m else ManagerAfter(Happens(m, hs[0], everyMax).0, hs[1..], everyMax)
  }

  /** Everything asked for over a history, by the script or the fallback. */
  function Asked(m: Manager, hs: seq<Happening>, everyMax: nat): seq<Request>
    decreases |hs|
  {
    if hs == [] then []
    else
      var (m', request) := Happens(m, hs[0], everyMax);
      (if request.Some? then [request.value] else []) + Asked(m', hs[1..], everyMax)
  }

  function Calls(rs: seq<Reading>): (hs: seq<Happening>)
    ensures |hs| == |rs|
  {
    seq(|rs|, i requires 0 <= i < |rs| => Called(rs[i]))
  }

  lemma {:induction false} AskedOfCalls(m: Manager, rs: seq<Reading>, everyMax: nat)
    ensures Asked(m, Calls(rs), everyMax) == Requests(m, rs, everyMax)
    decreases |rs|
  {
    if rs != [] {
      assert Calls(rs)[1..] == Calls(rs[1..]);
      AskedOfCalls(ProcessSignal(m, rs[0], everyMax).0, rs[1..], everyMax);
    }
  }

  lemma {:induction false} AskedOfConcat(m: Manager, hs: seq<Happening>, more: seq<Happening>, everyMax: nat)
    ensures Asked(m, hs + more, everyMax) == Asked(m, hs, everyMax) + Asked(ManagerAfter(m, hs, everyMax), more, everyMax)
    decreases |hs|
  {
    if hs == [] {
      assert hs + more == more;
    } else {
      assert (hs + more)[1..] == hs[1..] + more;
      AskedOfConcat(Happens(m, hs[0], everyMax).0, hs[1..], more, everyMax);
    }
  }

  lemma OnlyTheFirstMayRepeat(d: Dedup, rs: seq<Request>)
    requires forall i :: 0 < i < |rs| ==> rs[i].commands != rs[i - 1].commands
    requires d.Valid()
    ensures Sent(d, rs) == if rs != [] && d.Suppresses(rs[0]) then rs[1..] else rs
  {
    if rs != [] {
      DifferentNeighboursPass(d.Next(rs[0]), rs[1..]);
    }
  }

  lemma {:induction false} DedupStaysValid(d: Dedup, rs: seq<Request>)
    requires d.Valid()
    ensures Deduplicator.After(d, rs).Valid()
    decreases |rs|
  {
    if rs != [] {
      DedupStaysValid(d.Next(rs[0]), rs[1..]);
    }
  }

  /** Main result: after any history of calls, failures and reloads, of a stretch of calls that succeed only the
      first request can be suppressed, and it is exactly when it repeats the last request before the stretch
      within the cooldown of the last emission. */
  lemma OnlyTheFirstOfAStretchIsSuppressed(m: Manager, before: seq<Happening>, rs: seq<Reading>, cooldown: real, everyMax: nat)
    requires !ManagerAfter(m, before, everyMax).shell.permanentFallback
    ensures var earlier := Asked(m, before, everyMax);
            var stretch := Asked(ManagerAfter(m, before, everyMax), Calls(rs), everyMax);
            var d := Deduplicator.After(New(cooldown), earlier);
            var repeats := stretch != [] && earlier != [] && stretch[0].commands == earlier[|earlier| - 1].commands
                           && !d.CooldownElapsed(stretch[0].at);
            && Asked(m, before + Calls(rs), everyMax) == earlier + stretch
            && Sent(New(cooldown), earlier + stretch) == Sent(New(cooldown), earlier) + (if repeats then stretch[1..] else stretch)
  {
    var m1 := ManagerAfter(m, before, everyMax);
    var earlier, stretch := Asked(m, before, everyMax), Asked(m1, Calls(rs), everyMax);
    var d := Deduplicator.After(New(cooldown), earlier);
    AskedOfCalls(m1, rs, everyMax);
    StretchNeverRepeats(m1, rs, everyMax);
    AskedOfConcat(m, before, Calls(rs), everyMax);
    SentOfConcat(New(cooldown), earlier, stretch);
    DedupStaysValid(New(cooldown), earlier);
    OnlyTheFirstMayRepeat(d, stretch);
    if earlier != [] {
      LatestRequestIsInForce(New(cooldown), earlier);
    }
  }

  /** A reload is such a case: the same reading before and after it asks for the same thing, and the second is
      suppressed when it comes within the cooldown. */
  lemma ReloadedScriptRepeats(shell: LuaPolicy.Shell, r: Reading, later: Reading, cooldown: real, everyMax: nat)
    requires !shell.permanentFallback && later.ctx == r.ctx && DefaultPolicy.Step(DefaultPolicy.CLOSED, r.ctx).1.Some?
    requires later.at - r.at < cooldown
    ensures var m := Manager(DefaultPolicy.CLOSED, shell);
            var asked := Asked(m, [Called(r), Reload(true), Called(later)], everyMax);
            |asked| == 2 && Sent(New(cooldown), asked) == [asked[0]]
  {
    var m := Manager(DefaultPolicy.CLOSED, shell);
    SignalIsTheScript(m, r, everyMax);
    var m1 := ProcessSignal(m, r, everyMax).0;
    var m2 := Happens(m1, Reload(true), everyMax).0;
    SignalIsTheScript(m2, later, everyMax);
    var first, second := ProcessSignal(m, r, everyMax).1.value, ProcessSignal(m2, later, everyMax).1.value;
    hide ProcessSignal, DefaultPolicy.Step;
    AskedStep(m, [Called(r), Reload(true), Called(later)], everyMax);
    AskedStep(m1, [Reload(true), Called(later)], everyMax);
    AskedStep(m2, [Called(later)], everyMax);
    AskedStep(ProcessSignal(m2, later, everyMax).0, [], everyMax);
    assert [Called(r), Reload(true), Called(later)][1..] == [Reload(true), Called(later)];
    assert [Reload(true), Called(later)][1..] == [Called(later)];
    assert [Called(later)][1..] == [];
    assert Asked(m, [Called(r), Reload(true), Called(later)], everyMax) == [first, second];
    SecondIsSuppressed(first, second, cooldown);
  }

  lemma AskedStep(m: Manager, hs: seq<Happening>, everyMax: nat)
    ensures Asked(m, hs, everyMax) ==
      if hs == [] then []
      else (if Happens(m, hs[0], everyMax).1.Some? then [Happens(m, hs[0], everyMax).1.value] else [])
           + Asked(Happens(m, hs[0], everyMax).0, hs[1..], everyMax)
  {
    hide Happens;
  }

  lemma SecondIsSuppressed(first: Request, second: Request, cooldown: real)
    requires first.commands == second.commands && second.at - first.at < cooldown
    ensures Sent(New(cooldown), [first, second]) == [first]
  {
    assert [first, second][1..] == [second];
    var d := New(cooldown).Next(first);
    assert d.Suppresses(second);
    assert [second][1..] == [];
    assert Sent(d, [second]) == [];
  }
}
