/** The scripted policy's shell (src/lua_policy.rs, src/lua/fallback.rs): parsing what `decide` returns,
    the fallback, and the latch that disables a failing script. The Lua VM is a given outcome per call. */
module LuaPolicy {
  import opened Commands
  import opened Wrappers
  import opened Evaluator

  // ---------- values that come back from the VM ----------

  /** `NumberText` is a string that Lua reads as a finite number. */
  datatype LuaValue = Nil | Integer(i: int) | Number(x: real) | NumberText(x: real) | NonFinite | Boolean(b: bool) | OtherValue

  datatype Kind = Missing | NotText | Text(name: string)

  /** The fields of one returned table that the manager looks at. */
  datatype Table = Table(kind: Kind, budget: LuaValue, every: LuaValue, on: LuaValue)

  datatype Item = Entry(table: Table) | NotATable

  datatype Returned =
    | ReturnedNil
    | ReturnedAction(table: Table)
    | ReturnedArray(items: seq<Item>)
    | ReturnedOther

  /** Reading a float coerces; an interval and a switch are read as they are. */
  function AsReal(v: LuaValue): Option<real> {
    match v
    case Integer(i) => Some(i as real)
    case Number(x) => Some(x)
    case NumberText(x) => Some(x)
    case _ => None
  }

  const U32_MAX: nat := 0xFFFF_FFFF

  /** A value naming a whole number that fits 32 bits. */
  function AsU32(v: LuaValue): Option<nat> {
    match v
    case Integer(i) => if 0 <= i <= U32_MAX then Some(i) else None
    case Number(x) =>
      if x.Floor as real == x && 0 <= x.Floor <= U32_MAX then Some(x.Floor) else None
    case _ => None
  }

  /** `everyMax` is the contract's own limit, a constant of the shared protocol crate. */
  function ParseSingle(t: Table, everyMax: nat): Option<EngineCommand> {
    match t.kind
    case Missing => None
    case NotText => None
    case Text(name) =>
      if name == "kv.compress" then
        match AsReal(t.budget)
        case Some(b) => if 0.0 < b <= 1.0 then Some(KvCompress(b)) else None
        case None => None
      else if name == "restore_defaults" then Some(RestoreDefaults)
      else if name == "suspend" then Some(Suspend)
      else if name == "resume" then Some(Resume)
      else if name == "gpu.yield" then
        match AsU32(t.every)
        case Some(e) => if e <= everyMax then Some(GpuYield(e)) else None
        case None => None
      else if name == "gpu.offload" then
        match t.on
        case Boolean(on) => Some(GpuOffload(on))
        case _ => None
      else None
  }

  /** What reaches the wire is always inside the contract's ranges. */
  ghost predicate WithinContract(c: EngineCommand, everyMax: nat) {
    match c
    case KvCompress(b) => 0.0 < b <= 1.0
    case GpuYield(e) => e <= everyMax
    case _ => true
  }

  function ParseItem(item: Item, everyMax: nat): Option<EngineCommand> {
    match item
    case Entry(t) => ParseSingle(t, everyMax)
    case NotATable => None
  }

  /** The accepted commands in order. */
  function Accepted(items: seq<Item>, everyMax: nat): (cmds: seq<EngineCommand>)
    ensures |cmds| <= |items|
  {
    if items == [] then []
    else
      var rest := Accepted(items[..|items| - 1], everyMax);
      match ParseItem(items[|items| - 1], everyMax)
      case Some(c) => rest + [c]
      case None => rest
  }

  /** Everything the script asked for, as a list of entries. */
  function Requested(value: Returned): seq<Item> {
    match value
    case ReturnedNil => []
    case ReturnedAction(t) => [Entry(t)]
    case ReturnedArray(items) => items
    case ReturnedOther => [NotATable]
  }

  /** Every entry is either a command, in order and within the contract, or counted as dropped. */
  method ParseActions(value: Returned, dropped: nat, everyMax: nat) returns (commands: seq<EngineCommand>, dropped': nat)
    ensures commands == Accepted(Requested(value), everyMax)
    ensures |commands| + dropped' == dropped + |Requested(value)|
    ensures forall c :: c in commands ==> WithinContract(c, everyMax)
  {
    commands, dropped' := [], dropped;
    match value {
      case ReturnedNil =>
      case ReturnedOther =>
        assert [NotATable][..0] == [];
        dropped' := dropped' + 1;
      case ReturnedAction(t) =>
        assert [Entry(t)][..0] == [];
        match ParseSingle(t, everyMax) {
          case Some(c) => commands := [c];
          case None => dropped' := dropped' + 1;
        }
      case ReturnedArray(items) =>
        for k := 0 to |items|
          invariant commands == Accepted(items[..k], everyMax)
          invariant |commands| + dropped' == dropped + k
          invariant forall c :: c in commands ==> WithinContract(c, everyMax)
        {
          assert items[..k + 1][..k] == items[..k];
          match ParseItem(items[k], everyMax) {
            case Some(c) => commands := commands + [c];
            case None => dropped' := dropped' + 1;
          }
        }
        assert items[..|items|] == items;
    }
  }

  // ---------- the contract's vocabulary ----------

  /** A whole number of at most `max`, given as an integer or as a float. */
  ghost predicate NamesCount(v: LuaValue, n: nat, max: nat) {
    n <= max && n <= 4294967295 && (v == Integer(n) || v == Number(n as real))
  }

  /** Each command is parsed from its own name and from nothing else, with its argument inside the contract. */
  lemma ParsedIff(t: Table, everyMax: nat)
    ensures ParseSingle(t, everyMax) == Some(RestoreDefaults) <==> t.kind == Text("restore_defaults")
    ensures ParseSingle(t, everyMax) == Some(Suspend) <==> t.kind == Text("suspend")
    ensures ParseSingle(t, everyMax) == Some(Resume) <==> t.kind == Text("resume")
    ensures forall on :: ParseSingle(t, everyMax) == Some(GpuOffload(on)) <==> t.kind == Text("gpu.offload") && t.on == Boolean(on)
    ensures forall n :: ParseSingle(t, everyMax) == Some(GpuYield(n)) <==> t.kind == Text("gpu.yield") && NamesCount(t.every, n, everyMax)
    ensures forall b :: ParseSingle(t, everyMax) == Some(KvCompress(b)) <==>
      && t.kind == Text("kv.compress") && 0.0 < b <= 1.0
      && (t.budget == Number(b) || t.budget == NumberText(b) || (t.budget.Integer? && t.budget.i as real == b))
  {
  }

  /** Entries are parsed one by one, in order, and those that cannot be are left out. */
  lemma {:induction false} AcceptedOfConcat(xs: seq<Item>, ys: seq<Item>, everyMax: nat)
    ensures Accepted(xs + ys, everyMax) == Accepted(xs, everyMax) + Accepted(ys, everyMax)
    decreases |ys|
  {
    if ys == [] {
      assert xs + ys == xs;
    } else {
      var init := ys[..|ys| - 1];
      assert (xs + ys)[..|xs + ys| - 1] == xs + init;
      AcceptedOfConcat(xs, init, everyMax);
    }
  }

  lemma AcceptedOfOne(item: Item, everyMax: nat)
    ensures Accepted([item], everyMax) == match item
      case NotATable => []
      case Entry(t) => if ParseSingle(t, everyMax).Some? then [ParseSingle(t, everyMax).value] else []
  {
    assert [item][..0] == [];
  }

  /** No result asks for nothing, one table or a list for what is in it, and anything else for one unusable thing. */
  lemma RequestedIs(table: Table, items: seq<Item>, everyMax: nat)
    ensures Requested(ReturnedNil) == [] && Requested(ReturnedAction(table)) == [Entry(table)]
    ensures Requested(ReturnedArray(items)) == items
    ensures |Requested(ReturnedOther)| == 1 && Accepted(Requested(ReturnedOther), everyMax) == []
  {
    AcceptedOfOne(NotATable, everyMax);
  }

  // ---------- the built-in fallback ----------

  datatype Signal = MemoryPressure(level: Level) | OtherSignal

  function FallbackDecide(signal: Signal): seq<EngineCommand> {
    match signal
    case OtherSignal => []
    case MemoryPressure(level) =>
      match level
      case Normal => [RestoreDefaults]
      case Warning => [KvCompress(0.85)]
      case Critical => [KvCompress(0.50)]
      case Emergency => [KvCompress(0.25)]
  }

  /** Memory pressure alone is answered: 0.85, 0.50 and 0.25 of the cache as it gets worse, all of it when normal. */
  lemma FallbackAnswers(signal: Signal)
    ensures FallbackDecide(signal) == [] <==> signal == OtherSignal
    ensures FallbackDecide(MemoryPressure(Normal)) == [RestoreDefaults]
    ensures FallbackDecide(MemoryPressure(Warning)) == [KvCompress(0.85)]
    ensures FallbackDecide(MemoryPressure(Critical)) == [KvCompress(0.50)]
    ensures FallbackDecide(MemoryPressure(Emergency)) == [KvCompress(0.25)]
  {
  }

  // ---------- calling the script ----------

  const FALLBACK_ERROR_THRESHOLD: nat := 3

  datatype Outcome = Failed | Ok(value: Returned)

  datatype Shell = Shell(consecutiveErrors: nat, permanentFallback: bool, droppedActions: nat)

  const FRESH := Shell(0, false, 0)

  function Called(s: Shell, o: Outcome, everyMax: nat): Shell {
    if s.permanentFallback then s
    else
      match o
      case Ok(value) =>
        Shell(0, false, s.droppedActions + |Requested(value)| - |Accepted(Requested(value), everyMax)|)
      case Failed =>
        Shell(s.consecutiveErrors + 1, s.consecutiveErrors + 1 >= FALLBACK_ERROR_THRESHOLD, s.droppedActions)
  }

  function Answer(s: Shell, signal: Signal, o: Outcome, everyMax: nat): seq<EngineCommand> {
    if s.permanentFallback || o.Failed? then FallbackDecide(signal) else Accepted(Requested(o.value), everyMax)
  }

  function Reloaded(s: Shell, loads: bool): Shell {
    if loads then s.(consecutiveErrors := 0, permanentFallback := false) else s
  }

  class Policy {
    var consecutiveErrors: nat
    var permanentFallback: bool
    var droppedActions: nat
    const everyMax: nat

    function View(): Shell
      reads this
    {
      Shell(consecutiveErrors, permanentFallback, droppedActions)
    }

    constructor (everyMax: nat)
      ensures View() == FRESH && this.everyMax == everyMax
    {
      consecutiveErrors, permanentFallback, droppedActions := 0, false, 0;
      this.everyMax := everyMax;
    }

    method CallDecide(signal: Signal, outcome: Outcome) returns (commands: seq<EngineCommand>)
      modifies this
      ensures View() == Called(old(View()), outcome, everyMax)
      ensures commands == Answer(old(View()), signal, outcome, everyMax)
    {
      if permanentFallback {
        return FallbackDecide(signal);
      }
      match outcome {
        case Ok(value) =>
          commands, droppedActions := ParseActions(value, droppedActions, everyMax);
          consecutiveErrors := 0;
        case Failed =>
          consecutiveErrors := consecutiveErrors + 1;
          if consecutiveErrors >= FALLBACK_ERROR_THRESHOLD {
            permanentFallback := true;
          }
          commands := FallbackDecide(signal);
      }
    }

    method ReloadScript(loads: bool) returns (ok: bool)
      modifies this
      ensures View() == Reloaded(old(View()), loads) && ok == loads
    {
      if !loads {
        return false;
      }
      consecutiveErrors := 0;
      permanentFallback := false;
      return true;
    }
  }

  // ---------- the latch, told from the history alone ----------

  datatype Event = Call(signal: Signal, outcome: Outcome) | Reload(loads: bool)

  function Next(s: Shell, e: Event, everyMax: nat): Shell {
    match e
    case Call(_, o) => Called(s, o, everyMax)
    case Reload(loads) => Reloaded(s, loads)
  }

  /** The shell after a whole history of calls and reloads. */
  function After(h: seq<Event>, everyMax: nat): Shell {
    if h == [] then FRESH else Next(After(h[..|h| - 1], everyMax), h[|h| - 1], everyMax)
  }

  /** For each call since the last reload that succeeded: does the VM fail on it? */
  function FailuresSinceReload(h: seq<Event>): seq<bool> {
    if h == [] then []
    else
      var before := FailuresSinceReload(h[..|h| - 1]);
      match h[|h| - 1]
      case Call(_, o) => before + [o.Failed?]
      case Reload(loads) => if loads then [] else before
  }

  ghost predicate ThreeInARow(fails: seq<bool>) {
    exists i :: 0 <= i && i + 2 < |fails| && fails[i] && fails[i + 1] && fails[i + 2]
  }

  /** Length of the run of failures the sequence ends in. */
  function Trailing(fails: seq<bool>): nat {
    if fails == [] || !fails[|fails| - 1] then 0 else 1 + Trailing(fails[..|fails| - 1])
  }

  lemma ThreeInARowOfSnoc(fails: seq<bool>, f: bool)
    ensures ThreeInARow(fails + [f]) <==> ThreeInARow(fails) || (f && Trailing(fails) >= 2)
  {
    var all := fails + [f];
    var n := |fails|;
    if i :| 0 <= i && i + 2 < |fails| && fails[i] && fails[i + 1] && fails[i + 2] {
      assert all[i] && all[i + 1] && all[i + 2];
    }
    if i :| 0 <= i && i + 2 < |all| && all[i] && all[i + 1] && all[i + 2] {
      if i + 2 < n {
        assert fails[i] && fails[i + 1] && fails[i + 2];
      } else {
        assert fails[n - 1] && fails[..n - 1][n - 2];
      }
    }
    if f && Trailing(fails) >= 2 {
      var shorter := fails[..n - 1];
      assert Trailing(shorter) >= 1 && shorter[|shorter| - 1];
      assert all[n - 2] && all[n - 1] && all[n];
    }
  }

  /** Main result: after any history the policy is in permanent fallback exactly when three calls in a row have
      failed since the last successful reload. */
  lemma {:induction false} ShellFollowsHistory(h: seq<Event>, everyMax: nat)
    ensures var s, fails := After(h, everyMax), FailuresSinceReload(h);
            && (s.permanentFallback <==> ThreeInARow(fails))
            && (!s.permanentFallback ==> s.consecutiveErrors == Trailing(fails))
  {
    if h != [] {
      var before := h[..|h| - 1];
      ShellFollowsHistory(before, everyMax);
      var fails := FailuresSinceReload(before);
      match h[|h| - 1] {
        case Call(_, o) =>
          ThreeInARowOfSnoc(fails, o.Failed?);
          assert (fails + [o.Failed?])[..|fails|] == fails;
        case Reload(loads) =>
      }
    }
  }

  /** So a further call is answered by the script exactly when that has not happened and the VM does not fail
      on it. */
  lemma AnswersFollowHistory(h: seq<Event>, signal: Signal, o: Outcome, everyMax: nat)
    ensures After(h, everyMax).permanentFallback <==> ThreeInARow(FailuresSinceReload(h))
    ensures Answer(After(h, everyMax), signal, o, everyMax)
         == if ThreeInARow(FailuresSinceReload(h)) || o.Failed? then FallbackDecide(signal)
            else Accepted(Requested(o.value), everyMax)
  {
    ShellFollowsHistory(h, everyMax);
  }

  /** Entries that could not be used in the calls the script answered. */
  ghost function Unusable(h: seq<Event>, everyMax: nat): int {
    if h == [] then 0
    else
      var before := h[..|h| - 1];
      Unusable(before, everyMax) +
      match h[|h| - 1]
      case Call(_, Ok(value)) =>
        if ThreeInARow(FailuresSinceReload(before)) then 0
        else |Requested(value)| - |Accepted(Requested(value), everyMax)|
      case _ => 0
  }

  /** The drop counter counts exactly those, over failures and reloads. */
  lemma {:induction false} DroppedCountsUnusable(h: seq<Event>, everyMax: nat)
    ensures After(h, everyMax).droppedActions == Unusable(h, everyMax)
  {
    if h != [] {
      var before := h[..|h| - 1];
      DroppedCountsUnusable(before, everyMax);
      ShellFollowsHistory(before, everyMax);
      hide ThreeInARow, FailuresSinceReload, Accepted, Requested;
    }
  }

  /** Once latched, no call and no failed reload ends the fallback. */
  lemma {:induction false} LatchHolds(h: seq<Event>, more: seq<Event>, everyMax: nat)
    requires After(h, everyMax).permanentFallback && Reload(true) !in more
    ensures After(h + more, everyMax).permanentFallback
    decreases |more|
  {
    if more == [] {
      assert h + more == h;
    } else {
      var n := |more| - 1;
      LatchHolds(h, more[..n], everyMax);
      assert (h + more)[..|h + more| - 1] == h + more[..n];
      assert (h + more)[|h + more| - 1] == more[n];
    }
  }
}
