/** agent/tools/db_tools.py: the low-level fuse. */
module DbFuse {
  // It counts database tool calls per thread. SHA-256 over tool name and arguments is taken as
  // collision-free, so a fingerprint is the call itself.

  datatype Call = SchemaCall(table: string) | SqlCall(query: string) | TopProductsCall

  datatype Limits = Limits(calls: int, schemaCalls: int, sqlCalls: int)

  const DEFAULT_LIMITS := Limits(10, 5, 4)

  datatype Guard = Guard(calls: nat, schemaCalls: nat, sqlCalls: nat, fingerprints: seq<Call>, ready: bool)

  const FRESH := Guard(0, 0, 0, [], false)

  function Last6(s: seq<Call>): seq<Call> {
    if |s| <= 6 then s else s[|s| - 6..]
  }

  /** Once the specialised result is there, every other tool is refused before counting. */
  predicate Refused(g: Guard, c: Call) {
    g.ready && !c.TopProductsCall?
  }

  function Counted(g: Guard, c: Call): Guard {
    Guard(g.calls + 1,
          g.schemaCalls + (if c.SchemaCall? then 1 else 0),
          g.sqlCalls + (if c.SqlCall? then 1 else 0),
          g.fingerprints + [c],
          g.ready)
  }

  predicate OverLimit(g: Guard, c: Call, lim: Limits) {
    || multiset(Last6(g.fingerprints))[c] >= 2
    || g.calls > lim.calls
    || g.schemaCalls > lim.schemaCalls
    || g.sqlCalls > lim.sqlCalls
  }

  function Updated(g: Guard, c: Call): Guard {
    if Refused(g, c) then g else Counted(g, c)
  }

  /** _record_db_tool_call: whether the call is broken off; the guard is `Updated` either way. */
  predicate Broken(g: Guard, c: Call, lim: Limits) {
    Refused(g, c) || OverLimit(Counted(g, c), c, lim)
  }

  /** `Marked` is a specialised result of so many lines. */
  datatype Event = Called(call: Call) | WasReset | Marked(lines: nat)

  function Next(g: Guard, e: Event): Guard {
    match e
    case Called(c) => Updated(g, c)
    case WasReset => FRESH
    case Marked(lines) => if lines > 1 then g.(ready := true) else g
  }

  class DbToolGuard {
    var state: map<string, Guard>

    constructor ()
      ensures state == map[]
    {
      state := map[];
    }

    function GuardOf(thread: string): Guard
      reads this
    {
      if thread in state then state[thread] else FRESH
    }

    method Reset(thread: string)
      modifies this
      ensures state == old(state) - {thread} && GuardOf(thread) == Next(old(GuardOf(thread)), WasReset)
    {
      state := state - {thread};
    }

    method RecordCall(thread: string, c: Call, lim: Limits) returns (tripped: bool)
      modifies this
      ensures var g := old(GuardOf(thread)); GuardOf(thread) == Next(g, Called(c)) && tripped == Broken(g, c, lim)
      ensures forall t :: t != thread ==> GuardOf(t) == old(GuardOf(t))
    {
      if thread !in state { state := state[thread := FRESH]; }
      var g := state[thread];
      if g.ready && !c.TopProductsCall? { return true; }
      g := g.(calls := g.calls + 1);
      if c.SchemaCall? { g := g.(schemaCalls := g.schemaCalls + 1); }
      if c.SqlCall? { g := g.(sqlCalls := g.sqlCalls + 1); }
      g := g.(fingerprints := g.fingerprints + [c]);
      state := state[thread := g];
      tripped := OverLimit(g, c, lim);
    }

    /** A result of more than one line ends the exploration. */
    method MarkSpecializedResultReady(thread: string, lines: nat)
      modifies this
      ensures GuardOf(thread) == Next(old(GuardOf(thread)), Marked(lines))
      ensures forall t :: t != thread ==> GuardOf(t) == old(GuardOf(t))
    {
      if lines > 1 {
        state := state[thread := GuardOf(thread).(ready := true)];
      }
    }
  }

  // ---------------------------------------------------------------- sequences of calls

  /** The guard after a sequence of calls, broken off or not, on a freshly reset thread. */
  function After(cs: seq<Call>): Guard {
    if cs == [] then FRESH else Updated(After(cs[..|cs| - 1]), cs[|cs| - 1])
  }

  predicate Trips(cs: seq<Call>, k: nat, lim: Limits)
    requires k < |cs|
  {
    Broken(After(cs[..k]), cs[k], lim)
  }

  /** `t` schema look-ups followed by SQL calls. */
  predicate Exploration(cs: seq<Call>, t: nat) {
    t <= |cs| && forall i :: 0 <= i < |cs| ==> if i < t then cs[i].SchemaCall? else cs[i].SqlCall?
  }

  lemma AfterOneMore(cs: seq<Call>, k: nat)
    requires k < |cs|
    ensures After(cs[..k + 1]) == Updated(After(cs[..k]), cs[k]) && cs[..k + 1] == cs[..k] + [cs[k]]
  {
    assert cs[..k + 1][..k] == cs[..k];
  }

  /** The counters of an exploration after `k` calls. */
  function Explored(cs: seq<Call>, t: nat, k: nat): Guard
    requires k <= |cs|
  {
    Guard(k, if k <= t then k else t, if k <= t then 0 else k - t, cs[..k], false)
  }

  lemma ExploredNext(cs: seq<Call>, t: nat, k: nat)
    requires Exploration(cs, t) && k < |cs|
    ensures Updated(Explored(cs, t, k), cs[k]) == Explored(cs, t, k + 1)
  {
    assert cs[..k + 1] == cs[..k] + [cs[k]];
  }

  lemma {:induction false} GuardAfterExploration(cs: seq<Call>, t: nat, k: nat)
    requires Exploration(cs, t) && k <= |cs|
    ensures After(cs[..k]) == Explored(cs, t, k)
  {
    if k > 0 {
      GuardAfterExploration(cs, t, k - 1);
      AfterOneMore(cs, k - 1);
      ExploredNext(cs, t, k - 1);
    }
  }

  predicate IsRecent(past: seq<Call>, c: Call) {
    exists j :: |past| - 5 <= j < |past| && 0 <= j && past[j] == c
  }

  lemma RepeatsRecent(past: seq<Call>, c: Call)
    ensures multiset(Last6(past + [c]))[c] >= 2 <==> IsRecent(past, c)
  {
    var before := if |past| <= 5 then past else past[|past| - 5..];
    assert Last6(past + [c]) == before + [c];
    assert multiset(before + [c])[c] == multiset(before)[c] + 1;
    if IsRecent(past, c) {
      var j :| |past| - 5 <= j < |past| && 0 <= j && past[j] == c;
      assert before[|before| - (|past| - j)] == c;
      assert c in before;
    }
    if c in before {
      var i :| 0 <= i < |before| && before[i] == c;
      assert past[|past| - |before| + i] == c;
    }
  }

  /** Within the limits only a repeat among the last six breaks a call off. */
  lemma BrokenByRepeat(g: Guard, c: Call)
    requires !g.ready && g.calls <= 9
    requires g.schemaCalls + (if c.SchemaCall? then 1 else 0) <= 5
    requires g.sqlCalls + (if c.SqlCall? then 1 else 0) <= 4
    ensures Broken(g, c, DEFAULT_LIMITS) <==> multiset(Last6(g.fingerprints + [c]))[c] >= 2
  {}

  /** An explored call has come before only as a recent statement. */
  lemma RecentStatement(cs: seq<Call>, t: nat, k: nat)
    requires Exploration(cs, t) && |cs| - t <= 4 && k < |cs|
    requires forall i, j :: 0 <= i < j < t ==> cs[i] != cs[j]
    ensures IsRecent(cs[..k], cs[k]) <==> cs[k].SqlCall? && cs[k] in cs[..k]
  {
    var past, c := cs[..k], cs[k];
    if IsRecent(past, c) {
      var j :| |past| - 5 <= j < |past| && 0 <= j && past[j] == c;
      assert past[j] == cs[j];
    }
    if c.SqlCall? && c in past {
      var j :| 0 <= j < |past| && past[j] == c;
      assert past[j] == cs[j];
      assert |past| - 5 <= j;
    }
  }

  /** After a reset, with at most five look-ups of distinct tables and then at most four
      statements, the fuse breaks off exactly the calls that repeat an earlier statement. */
  lemma TripsExactlyOnRepeatedSql(cs: seq<Call>, t: nat, k: nat)
    requires Exploration(cs, t) && t <= 5 && |cs| - t <= 4 && k < |cs|
    requires forall i, j :: 0 <= i < j < t ==> cs[i] != cs[j]
    ensures Trips(cs, k, DEFAULT_LIMITS) <==> cs[k].SqlCall? && cs[k] in cs[..k]
  {
    GuardAfterExploration(cs, t, k);
    RepeatsRecent(cs[..k], cs[k]);
    RecentStatement(cs, t, k);
    BrokenByRepeat(After(cs[..k]), cs[k]);
  }

  // ---------------------------------------------------------------- any sequence of events

  function AfterEvents(run: seq<Event>): Guard {
    if run == [] then FRESH else Next(AfterEvents(run[..|run| - 1]), run[|run| - 1])
  }

  /** A result of several lines has come since the last reset. */
  predicate HasResult(run: seq<Event>) {
    exists i :: 0 <= i < |run| && run[i].Marked? && run[i].lines > 1 && WasReset !in run[i..]
  }

  /** The calls since the last reset that were counted: all but those for other tools behind a
      specialised result. */
  ghost function CountedCalls(run: seq<Event>): seq<Call> {
    if run == [] then []
    else
      var n := |run| - 1;
      match run[n]
      case WasReset => []
      case Marked(_) => CountedCalls(run[..n])
      case Called(c) => CountedCalls(run[..n]) + (if HasResult(run[..n]) && !c.TopProductsCall? then [] else [c])
  }

  lemma ResultStep(run: seq<Event>, e: Event)
    ensures HasResult(run + [e]) <==> e != WasReset && (HasResult(run) || (e.Marked? && e.lines > 1))
  {
    var now := run + [e];
    if HasResult(run) && e != WasReset {
      var i :| 0 <= i < |run| && run[i].Marked? && run[i].lines > 1 && WasReset !in run[i..];
      assert now[i] == run[i] && now[i..] == run[i..] + [e];
    }
    if e.Marked? && e.lines > 1 {
      assert now[|run|] == e && now[|run|..] == [e];
    }
    if i :| 0 <= i < |now| && now[i].Marked? && now[i].lines > 1 && WasReset !in now[i..] {
      assert now[i..][|run| - i] == e;
      if i < |run| { assert now[i..] == run[i..] + [e] && now[i] == run[i]; }
    }
  }

  function HowMany(cs: seq<Call>, what: Call -> bool): nat {
    if cs == [] then 0 else HowMany(cs[..|cs| - 1], what) + if what(cs[|cs| - 1]) then 1 else 0
  }

  predicate IsLookUp(c: Call) {
    c.SchemaCall?
  }

  predicate IsStatement(c: Call) {
    c.SqlCall?
  }

  lemma OneCallMore(cs: seq<Call>, c: Call, what: Call -> bool)
    ensures HowMany(cs + [c], what) == HowMany(cs, what) + if what(c) then 1 else 0
  {
    assert (cs + [c])[..|cs|] == cs;
  }

  lemma {:induction false} GuardAfterEvents(run: seq<Event>)
    ensures var cs := CountedCalls(run);
      AfterEvents(run) == Guard(|cs|, HowMany(cs, IsLookUp), HowMany(cs, IsStatement), cs, HasResult(run))
  {
    if run != [] {
      var n := |run| - 1;
      var past := run[..n];
      GuardAfterEvents(past);
      assert run == past + [run[n]] && CountedCalls(past) + [] == CountedCalls(past);
      ResultStep(past, run[n]);
      if run[n].Called? {
        OneCallMore(CountedCalls(past), run[n].call, IsLookUp);
        OneCallMore(CountedCalls(past), run[n].call, IsStatement);
      }
    }
  }

  /** After any events on a thread and whatever the limits: a call is broken off exactly when it is
      for another tool behind a specialised result, or repeats one of the last five counted calls,
      or is one too many of all, of the look-ups or of the statements. */
  lemma BrokenExactlyWhen(run: seq<Event>, c: Call, lim: Limits)
    ensures var cs := CountedCalls(run);
      Broken(AfterEvents(run), c, lim) <==>
        || (HasResult(run) && !c.TopProductsCall?)
        || IsRecent(cs, c)
        || |cs| >= lim.calls
        || HowMany(cs + [c], IsLookUp) > lim.schemaCalls
        || HowMany(cs + [c], IsStatement) > lim.sqlCalls
  {
    var cs := CountedCalls(run);
    GuardAfterEvents(run);
    RepeatsRecent(cs, c);
    OneCallMore(cs, c, IsLookUp);
    OneCallMore(cs, c, IsStatement);
  }
}
