/** Suppression of repeated directives (src/pipeline.rs). */
module Deduplicator {
  import opened Commands
  import opened Numbers
  import opened Wrappers

  datatype Request = Request(commands: seq<EngineCommand>, at: real)

  datatype Dedup = Dedup(lastCommands: Option<seq<EngineCommand>>, lastSentAt: Option<real>, cooldown: real)
  {
    predicate CooldownElapsed(now: real) {
      match lastSentAt
      case None => false
      case Some(t) => now - t >= cooldown
    }

    predicate Suppresses(r: Request) {
      lastCommands == Some(r.commands) && !CooldownElapsed(r.at)
    }

    function Next(r: Request): Dedup {
      if Suppresses(r) then this else Dedup(Some(r.commands), Some(r.at), cooldown)
    }

    /** Both memories are set together, by the same emission. */
    ghost predicate Valid() { lastCommands.Some? <==> lastSentAt.Some? }
  }

  function New(cooldown: real): Dedup { Dedup(None, None, cooldown) }

  class DirectiveDeduplicator {
    var lastCommands: Option<seq<EngineCommand>>
    var lastSentAt: Option<real>
    const cooldownSecs: real

    function View(): Dedup
      reads this
    {
      Dedup(lastCommands, lastSentAt, cooldownSecs)
    }

    constructor (cooldownSecs: real)
      ensures View() == New(cooldownSecs)
    {
      lastCommands, lastSentAt := None, None;
      this.cooldownSecs := cooldownSecs;
    }

    method Process(request: Request) returns (emitted: Option<Request>)
      modifies this
      ensures View() == old(View()).Next(request)
      ensures emitted == if old(View()).Suppresses(request) then None else Some(request)
    {
      var isDup := lastCommands == Some(request.commands);
      var cooldownElapsed := false;
      if lastSentAt.Some? {
        cooldownElapsed := request.at - lastSentAt.value >= cooldownSecs;
      }
      if isDup && !cooldownElapsed {
        emitted := None;
      } else {
        lastCommands := Some(request.commands);
        lastSentAt := Some(request.at);
        emitted := Some(request);
      }
    }
  }

  // ---------- runs ----------

  function After(d: Dedup, rs: seq<Request>): Dedup
    decreases |rs|
  {
    if rs == [] then d else After(d.Next(rs[0]), rs[1..])
  }

  /** The requests that get through. */
  function Sent(d: Dedup, rs: seq<Request>): seq<Request>
    decreases |rs|
  {
    if rs == [] then []
    else (if d.Suppresses(rs[0]) then [] else [rs[0]]) + Sent(d.Next(rs[0]), rs[1..])
  }

  lemma {:induction false} SentOfConcat(d: Dedup, rs: seq<Request>, more: seq<Request>)
    ensures Sent(d, rs + more) == Sent(d, rs) + Sent(After(d, rs), more)
    decreases |rs|
  {
    if rs == [] {
      assert rs + more == more;
    } else {
      assert (rs + more)[1..] == rs[1..] + more;
      SentOfConcat(d.Next(rs[0]), rs[1..], more);
    }
  }

  lemma {:induction false} AfterOfConcat(d: Dedup, rs: seq<Request>, more: seq<Request>)
    ensures After(d, rs + more) == After(After(d, rs), more)
    decreases |rs|
  {
    if rs == [] {
      assert rs + more == more;
    } else {
      assert (rs + more)[1..] == rs[1..] + more;
      AfterOfConcat(d.Next(rs[0]), rs[1..], more);
    }
  }

  // ---------- which requests get through ----------

  function Last(out: seq<Request>): Request
    requires out != []
  {
    out[|out| - 1]
  }

  /** The memory is the last emission, and nothing else. */
  lemma {:induction false} MemoryIsTheLastEmission(cooldown: real, rs: seq<Request>)
    ensures var d, out := After(New(cooldown), rs), Sent(New(cooldown), rs);
            && d.cooldown == cooldown
            && d.lastCommands == (if out == [] then None else Some(Last(out).commands))
            && d.lastSentAt == (if out == [] then None else Some(Last(out).at))
    decreases |rs|
  {
    if rs != [] {
      var init, r := rs[..|rs| - 1], rs[|rs| - 1];
      assert rs == init + [r];
      MemoryIsTheLastEmission(cooldown, init);
      SentOfConcat(New(cooldown), init, [r]);
      AfterOfConcat(New(cooldown), init, [r]);
      assert [r][1..] == [];
      var d := After(New(cooldown), init);
      assert After(d, [r]) == d.Next(r) && Sent(d, [r]) == if d.Suppresses(r) then [] else [r];
    }
  }

  /** Main result: a request gets through exactly when nothing was sent before it, or it asks for something else
      than was sent last, or at least the cooldown has passed since then. */
  lemma GetsThroughIff(cooldown: real, rs: seq<Request>, r: Request)
    ensures var out := Sent(New(cooldown), rs);
            Sent(New(cooldown), rs + [r]) ==
              if out == [] || r.commands != Last(out).commands || r.at - Last(out).at >= cooldown then out + [r] else out
  {
    MemoryIsTheLastEmission(cooldown, rs);
    SentOfConcat(New(cooldown), rs, [r]);
    assert [r][1..] == [];
    var d := After(New(cooldown), rs);
    assert Sent(d, [r]) == if d.Suppresses(r) then [] else [r];
  }

  /** The same request over and over, in time order and with gaps of at most `gap`. */
  ghost predicate Insistent(rs: seq<Request>, gap: real) {
    forall i :: 0 < i < |rs| ==> rs[i].commands == rs[i - 1].commands && 0.0 <= rs[i].at - rs[i - 1].at <= gap
  }

  /** Consecutive emissions less than `limit` apart. */
  ghost predicate Frequent(out: seq<Request>, limit: real) {
    forall i :: 0 < i < |out| ==> out[i].at - out[i - 1].at < limit
  }

  /** The last emission asks for what `last` asks for and is less than the cooldown before it. */
  ghost predicate Kept(out: seq<Request>, last: Request, cooldown: real, gap: real) {
    && out != [] && Last(out).commands == last.commands && last.at - Last(out).at < cooldown
    && Frequent(out, cooldown + gap)
  }

  /** So a request that is repeated is sent again and again: less than the cooldown and one gap lie between two
      emissions, and less than the cooldown since the last one. */
  lemma {:induction false} RepeatsAreSentAgain(cooldown: real, rs: seq<Request>, gap: real)
    requires cooldown > 0.0 && rs != [] && Insistent(rs, gap)
    ensures Kept(Sent(New(cooldown), rs), Last(rs), cooldown, gap)
    decreases |rs|
  {
    hide Sent, Kept;
    var init, r := rs[..|rs| - 1], rs[|rs| - 1];
    assert rs == init + [r];
    if init == [] {
      FirstIsKept(cooldown, gap, r);
      assert rs == [r];
    } else {
      assert Last(init) == rs[|rs| - 2] && Insistent(init, gap);
      RepeatsAreSentAgain(cooldown, init, gap);
      RepeatIsKept(cooldown, gap, init, r);
    }
  }

  lemma FirstIsKept(cooldown: real, gap: real, r: Request)
    requires cooldown > 0.0
    ensures Kept(Sent(New(cooldown), [r]), r, cooldown, gap)
  {
    SentOfNone(cooldown);
    hide Sent;
    GetsThroughIff(cooldown, [], r);
    assert [] + [r] == [r];
  }

  /** One more equal request, at most a gap after the last one. */
  lemma RepeatIsKept(cooldown: real, gap: real, init: seq<Request>, r: Request)
    requires cooldown > 0.0 && init != [] && Kept(Sent(New(cooldown), init), Last(init), cooldown, gap)
    requires Last(init).commands == r.commands && r.at - Last(init).at <= gap
    ensures Kept(Sent(New(cooldown), init + [r]), r, cooldown, gap)
  {
    hide Sent;
    GetsThroughIff(cooldown, init, r);
    FrequentGrows(Sent(New(cooldown), init), r, cooldown + gap);
    hide Frequent;
  }

  lemma SentOfNone(cooldown: real)
    ensures Sent(New(cooldown), []) == []
  {
  }

  lemma FrequentGrows(out: seq<Request>, r: Request, limit: real)
    requires out != [] && Frequent(out, limit)
    ensures r.at - Last(out).at < limit ==> Frequent(out + [r], limit)
  {
  }

  ghost predicate Chronological(from: real, rs: seq<Request>)
    decreases |rs|
  {
    rs == [] || (from <= rs[0].at && Chronological(rs[0].at, rs[1..]))
  }

  /** Suppression never hides a change: after any run the memory, and the last thing sent, are the latest request. */
  lemma {:induction false} LatestRequestIsInForce(d: Dedup, rs: seq<Request>)
    requires d.Valid() && rs != []
    ensures After(d, rs).lastCommands == Some(rs[|rs| - 1].commands)
    ensures Sent(d, rs) != [] ==> Sent(d, rs)[|Sent(d, rs)| - 1].commands == rs[|rs| - 1].commands
    ensures Sent(d, rs) == [] ==> d.lastCommands == Some(rs[|rs| - 1].commands)
    decreases |rs|
  {
    var d' := d.Next(rs[0]);
    if |rs| > 1 {
      LatestRequestIsInForce(d', rs[1..]);
      assert rs[1..][|rs| - 2] == rs[|rs| - 1];
    } else {
      assert Sent(d', rs[1..]) == [];
    }
  }

  /** Equal neighbours in the output are at least a cooldown apart. */
  lemma {:induction false} EqualNeighboursAreSpaced(d: Dedup, rs: seq<Request>)
    requires d.Valid()
    ensures var out := Sent(d, rs);
            && (forall i :: 0 < i < |out| && out[i].commands == out[i - 1].commands ==> out[i].at - out[i - 1].at >= d.cooldown)
            && (out != [] && d.lastCommands == Some(out[0].commands) ==> out[0].at - d.lastSentAt.value >= d.cooldown)
    decreases |rs|
  {
    if rs != [] {
      var d' := d.Next(rs[0]);
      EqualNeighboursAreSpaced(d', rs[1..]);
      var rest := Sent(d', rs[1..]);
      if !d.Suppresses(rs[0]) {
        var out := Sent(d, rs);
        forall i | 0 < i < |out| && out[i].commands == out[i - 1].commands
          ensures out[i].at - out[i - 1].at >= d.cooldown
        {
          assert out[i] == rest[i - 1] && (i > 1 ==> out[i - 1] == rest[i - 2]);
        }
      }
    }
  }

  /** Its own output passes it unchanged. */
  lemma {:induction false} SentIsIdempotent(d: Dedup, rs: seq<Request>)
    ensures Sent(d, Sent(d, rs)) == Sent(d, rs)
    decreases |rs|
  {
    if rs != [] {
      SentIsIdempotent(d.Next(rs[0]), rs[1..]);
      if d.Suppresses(rs[0]) {
        assert Sent(d, rs) == Sent(d, rs[1..]);
      } else {
        assert Sent(d, rs)[1..] == Sent(d.Next(rs[0]), rs[1..]);
      }
    }
  }

  // ---------- how much gets through ----------

  /** How often the requested commands differ from those before them. */
  function Changes(last: seq<EngineCommand>, rs: seq<Request>): nat
    decreases |rs|
  {
    if rs == [] then 0 else (if rs[0].commands != last then 1 else 0) + Changes(rs[0].commands, rs[1..])
  }

  /** What is sent is exactly the changes plus some number of repeats, and the repeats fit, one cooldown
      each, between the last emission and the end of the run. */
  lemma {:induction false} SentIsChangesPlusRepeats(d: Dedup, rs: seq<Request>) returns (repeats: nat)
    requires d.Valid() && d.lastCommands.Some? && d.cooldown > 0.0 && Chronological(d.lastSentAt.value, rs)
    ensures |Sent(d, rs)| == Changes(d.lastCommands.value, rs) + repeats
    ensures rs != [] ==> Times(repeats, d.cooldown) <= rs[|rs| - 1].at - d.lastSentAt.value
    ensures rs == [] ==> repeats == 0
    decreases |rs|
  {
    if rs == [] {
      repeats := 0;
    } else {
      var d' := d.Next(rs[0]);
      ChronologicalFrom(d'.lastSentAt.value, rs[0].at, rs[1..]);
      var later := SentIsChangesPlusRepeats(d', rs[1..]);
      repeats := if d.lastCommands == Some(rs[0].commands) && !d.Suppresses(rs[0]) then later + 1 else later;
      if |rs| > 1 {
        assert rs[1..][|rs| - 2] == rs[|rs| - 1];
      }
    }
  }

  lemma ChronologicalFrom(a: real, b: real, rs: seq<Request>)
    requires a <= b && Chronological(b, rs)
    ensures Chronological(a, rs)
  {
  }

  /** Main result: a fresh deduplicator sends at most the first request, the changes, and one repeat per
      cooldown of elapsed time. */
  lemma SentIsBounded(cooldown: real, rs: seq<Request>)
    requires cooldown > 0.0 && rs != [] && Chronological(rs[0].at, rs)
    ensures |Sent(New(cooldown), rs)|
         <= 1 + Changes(rs[0].commands, rs) + ((rs[|rs| - 1].at - rs[0].at) / cooldown).Floor
  {
    var d := New(cooldown).Next(rs[0]);
    var repeats := SentIsChangesPlusRepeats(d, rs[1..]);
    var elapsed := rs[|rs| - 1].at - rs[0].at;
    if |rs| > 1 {
      assert rs[1..][|rs| - 2] == rs[|rs| - 1];
    }
    RepeatsFit(repeats, cooldown, elapsed);
  }

  lemma RepeatsFit(repeats: nat, cooldown: real, elapsed: real)
    requires cooldown > 0.0 && Times(repeats, cooldown) <= elapsed
    ensures repeats <= (elapsed / cooldown).Floor
  {
    TimesIsProduct(repeats, cooldown);
    assert repeats as real <= elapsed / cooldown;
  }
}
