/**
 The rule cache under overlapping calls. A call is cut at its one await: it looks, then a load reads
 the database at some moment, then it stores what was read and returns it.
 */
module RuleCaching {
  import opened IpRules
  import opened Options

  datatype Cache = Cache(ruleset: Option<RuleSet>, expiresAt: real)

  function Empty(): Cache { Cache(None, 0.0) }

  predicate Serves(cache: Cache, now: real) {
    cache.ruleset.Some? && now < cache.expiresAt
  }

  function Stored(lib: Library, rules: seq<Rule>, now: real, ttl: real): Cache {
    Cache(Some(Compile(lib, rules)), now + ttl)
  }

  datatype Call =
    | Loading(start: real)
    | Loaded(start: real, rules: seq<Rule>)
    | Done(start: real, result: RuleSet)
    | Failed

  /** What the database held, and when. */
  datatype Moment = Moment(at: real, rules: seq<Rule>)

  /** `past` logs every moment so far, the present one last. */
  datatype State = State(cache: Cache, calls: seq<Call>, past: seq<Moment>)

  datatype Event =
    | Pass(seconds: real)
    | Write(rules: seq<Rule>)
    | Invalidate
    | Ask
    | Read(c: nat)
    | Return(c: nat)
    | Raise(c: nat)

  function Now(s: State): Moment
    requires s.past != []
  {
    s.past[|s.past| - 1]
  }

  function Next(lib: Library, ttl: real, s: State, e: Event): State
    requires s.past != []
  {
    var now := Now(s);
    match e
    case Pass(seconds) => if seconds > 0.0 then s.(past := s.past + [Moment(now.at + seconds, now.rules)]) else s
    case Write(rules) => s.(past := s.past + [Moment(now.at, rules)])
    case Invalidate => s.(cache := Empty())
    case Ask =>
      s.(calls := s.calls + [if Serves(s.cache, now.at) then Done(now.at, s.cache.ruleset.value) else Loading(now.at)])
    case Read(c) =>
      if c < |s.calls| && s.calls[c].Loading? then s.(calls := s.calls[c := Loaded(s.calls[c].start, now.rules)]) else s
    case Return(c) =>
      if c < |s.calls| && s.calls[c].Loaded? then
        var cache := Stored(lib, s.calls[c].rules, s.calls[c].start, ttl);
        s.(cache := cache, calls := s.calls[c := Done(s.calls[c].start, cache.ruleset.value)])
      else s
    case Raise(c) =>
      if c < |s.calls| && (s.calls[c].Loading? || s.calls[c].Loaded?) then s.(calls := s.calls[c := Failed]) else s
  }

  function Run(lib: Library, ttl: real, s: State, events: seq<Event>): (t: State)
    requires s.past != []
    ensures t.past != []
  {
    if events == [] then s
    else Next(lib, ttl, Run(lib, ttl, s, events[..|events| - 1]), events[|events| - 1])
  }

  predicate Initial(s: State) {
    s.cache == Empty() && s.calls == [] && |s.past| == 1
  }

  // ---- nothing older than the time to live is served -------------------------------------------------------------

  /** At some moment no earlier than `from`, the database held rules that compile to this. */
  ghost predicate HeldSince(lib: Library, past: seq<Moment>, ruleset: RuleSet, from: real) {
    exists k :: 0 <= k < |past| && past[k].at >= from && Compile(lib, past[k].rules) == ruleset
  }

  ghost predicate Backed(lib: Library, ttl: real, past: seq<Moment>, call: Call)
    requires past != []
  {
    match call
    case Loading(start) => start <= past[|past| - 1].at
    case Loaded(start, rules) => HeldSince(lib, past, Compile(lib, rules), start)
    case Done(start, result) => HeldSince(lib, past, result, start - ttl)
    case Failed => true
  }

  ghost predicate Inv(lib: Library, ttl: real, s: State) {
    && s.past != []
    && (s.cache.ruleset.Some? ==> HeldSince(lib, s.past, s.cache.ruleset.value, s.cache.expiresAt - ttl))
    && (forall c :: 0 <= c < |s.calls| ==> Backed(lib, ttl, s.past, s.calls[c]))
  }

  lemma HeldStays(lib: Library, past: seq<Moment>, m: Moment, ruleset: RuleSet, from: real)
    requires HeldSince(lib, past, ruleset, from)
    ensures HeldSince(lib, past + [m], ruleset, from)
  {
    var k :| 0 <= k < |past| && past[k].at >= from && Compile(lib, past[k].rules) == ruleset;
    assert (past + [m])[k] == past[k];
  }

  lemma HeldEarlier(lib: Library, past: seq<Moment>, ruleset: RuleSet, from: real, earlier: real)
    requires HeldSince(lib, past, ruleset, from) && earlier <= from
    ensures HeldSince(lib, past, ruleset, earlier)
  {
  }

  lemma BackedStays(lib: Library, ttl: real, past: seq<Moment>, m: Moment, call: Call)
    requires past != [] && past[|past| - 1].at <= m.at && Backed(lib, ttl, past, call)
    ensures Backed(lib, ttl, past + [m], call)
  {
    match call
    case Loaded(start, rules) => HeldStays(lib, past, m, Compile(lib, rules), start);
    case Done(start, result) => HeldStays(lib, past, m, result, start - ttl);
    case _ =>
  }

  lemma MomentKeeps(lib: Library, ttl: real, s: State, m: Moment)
    requires Inv(lib, ttl, s) && Now(s).at <= m.at
    ensures Inv(lib, ttl, s.(past := s.past + [m]))
  {
    if s.cache.ruleset.Some? {
      HeldStays(lib, s.past, m, s.cache.ruleset.value, s.cache.expiresAt - ttl);
    }
    forall c | 0 <= c < |s.calls|
      ensures Backed(lib, ttl, s.past + [m], s.calls[c])
    {
      BackedStays(lib, ttl, s.past, m, s.calls[c]);
    }
  }

  lemma CallKeeps(lib: Library, ttl: real, s: State)
    requires Inv(lib, ttl, s) && ttl >= 0.0
    ensures Inv(lib, ttl, Next(lib, ttl, s, Ask))
  {
    var now := Now(s).at;
    if Serves(s.cache, now) {
      HeldEarlier(lib, s.past, s.cache.ruleset.value, s.cache.expiresAt - ttl, now - ttl);
    }
    var calls := Next(lib, ttl, s, Ask).calls;
    assert forall c :: 0 <= c < |s.calls| ==> calls[c] == s.calls[c];
    assert Backed(lib, ttl, s.past, calls[|s.calls|]);
  }

  lemma ReadKeeps(lib: Library, ttl: real, s: State, c: nat)
    requires Inv(lib, ttl, s) && c < |s.calls| && s.calls[c].Loading?
    ensures Inv(lib, ttl, Next(lib, ttl, s, Read(c)))
  {
    var start, k := s.calls[c].start, |s.past| - 1;
    assert Backed(lib, ttl, s.past, s.calls[c]);
    assert s.past[k].at >= start && Compile(lib, s.past[k].rules) == Compile(lib, Now(s).rules);
    assert HeldSince(lib, s.past, Compile(lib, Now(s).rules), start);
    assert Backed(lib, ttl, s.past, Loaded(start, Now(s).rules));
  }

  lemma ReturnKeeps(lib: Library, ttl: real, s: State, c: nat)
    requires Inv(lib, ttl, s) && ttl >= 0.0 && c < |s.calls| && s.calls[c].Loaded?
    ensures Inv(lib, ttl, Next(lib, ttl, s, Return(c)))
  {
    var call := s.calls[c];
    var result := Compile(lib, call.rules);
    assert Backed(lib, ttl, s.past, call);
    HeldEarlier(lib, s.past, result, call.start, call.start - ttl);
    assert call.start + ttl - ttl == call.start;
    assert Backed(lib, ttl, s.past, Done(call.start, result));
  }

  lemma NextKeeps(lib: Library, ttl: real, s: State, e: Event)
    requires Inv(lib, ttl, s) && ttl >= 0.0
    ensures Inv(lib, ttl, Next(lib, ttl, s, e))
  {
    match e
    case Pass(seconds) => MomentKeeps(lib, ttl, s, Moment(Now(s).at + (if seconds > 0.0 then seconds else 0.0), Now(s).rules));
    case Write(rules) => MomentKeeps(lib, ttl, s, Moment(Now(s).at, rules));
    case Ask => CallKeeps(lib, ttl, s);
    case Read(c) => if c < |s.calls| && s.calls[c].Loading? { ReadKeeps(lib, ttl, s, c); }
    case Return(c) => if c < |s.calls| && s.calls[c].Loaded? { ReturnKeeps(lib, ttl, s, c); }
    case _ =>
  }

  lemma {:induction false} RunKeeps(lib: Library, ttl: real, s: State, events: seq<Event>)
    requires Inv(lib, ttl, s) && ttl >= 0.0
    ensures Inv(lib, ttl, Run(lib, ttl, s, events))
  {
    if events != [] {
      RunKeeps(lib, ttl, s, events[..|events| - 1]);
      NextKeeps(lib, ttl, Run(lib, ttl, s, events[..|events| - 1]), events[|events| - 1]);
    }
  }

  /** However loads, writes and invalidations overlap, an answer is never older than the time to live. */
  lemma AnswersAreRecent(lib: Library, ttl: real, s: State, events: seq<Event>, c: nat)
    requires Initial(s) && ttl >= 0.0
    requires c < |Run(lib, ttl, s, events).calls| && Run(lib, ttl, s, events).calls[c].Done?
    ensures var t := Run(lib, ttl, s, events);
            HeldSince(lib, t.past, t.calls[c].result, t.calls[c].start - ttl)
  {
    RunKeeps(lib, ttl, s, events);
    var t := Run(lib, ttl, s, events);
    assert Backed(lib, ttl, t.past, t.calls[c]);
  }

  // ---- what an invalidation achieves ------------------------------------------------------------------------------

  /** Held by the database at the mark-th moment or later. */
  ghost predicate HeldFrom(lib: Library, past: seq<Moment>, ruleset: RuleSet, mark: nat) {
    exists k :: mark <= k < |past| && Compile(lib, past[k].rules) == ruleset
  }

  ghost predicate CacheFrom(lib: Library, s: State, mark: nat) {
    s.cache.ruleset.Some? ==> HeldFrom(lib, s.past, s.cache.ruleset.value, mark)
  }

  /** Every load that has already read holds rules of that moment or later. */
  ghost predicate LoadsFrom(lib: Library, s: State, mark: nat) {
    forall c :: 0 <= c < |s.calls| && s.calls[c].Loaded? ==> HeldFrom(lib, s.past, Compile(lib, s.calls[c].rules), mark)
  }

  ghost predicate From(lib: Library, s: State, mark: nat) {
    mark < |s.past| && CacheFrom(lib, s, mark) && LoadsFrom(lib, s, mark)
  }

  lemma HeldFromStays(lib: Library, past: seq<Moment>, m: Moment, ruleset: RuleSet, mark: nat)
    requires HeldFrom(lib, past, ruleset, mark)
    ensures HeldFrom(lib, past + [m], ruleset, mark)
  {
    var k :| mark <= k < |past| && Compile(lib, past[k].rules) == ruleset;
    assert (past + [m])[k] == past[k];
  }

  lemma MomentKeepsFrom(lib: Library, s: State, m: Moment, mark: nat)
    requires From(lib, s, mark)
    ensures From(lib, s.(past := s.past + [m]), mark)
  {
    if s.cache.ruleset.Some? {
      HeldFromStays(lib, s.past, m, s.cache.ruleset.value, mark);
    }
    forall c | 0 <= c < |s.calls| && s.calls[c].Loaded?
      ensures HeldFrom(lib, s.past + [m], Compile(lib, s.calls[c].rules), mark)
    {
      HeldFromStays(lib, s.past, m, Compile(lib, s.calls[c].rules), mark);
    }
  }

  lemma NextKeepsFrom(lib: Library, ttl: real, s: State, e: Event, mark: nat)
    requires From(lib, s, mark)
    ensures From(lib, Next(lib, ttl, s, e), mark)
  {
    match e
    case Pass(seconds) => MomentKeepsFrom(lib, s, Moment(Now(s).at + seconds, Now(s).rules), mark);
    case Write(rules) => MomentKeepsFrom(lib, s, Moment(Now(s).at, rules), mark);
    case Read(c) =>
      assert s.past[|s.past| - 1] == Now(s);
      assert HeldFrom(lib, s.past, Compile(lib, Now(s).rules), mark);
    case _ =>
  }

  lemma {:induction false} RunKeepsFrom(lib: Library, ttl: real, s: State, events: seq<Event>, mark: nat)
    requires From(lib, s, mark)
    ensures From(lib, Run(lib, ttl, s, events), mark)
  {
    if events != [] {
      RunKeepsFrom(lib, ttl, s, events[..|events| - 1], mark);
      NextKeepsFrom(lib, ttl, Run(lib, ttl, s, events[..|events| - 1]), events[|events| - 1], mark);
    }
  }

  /** The cache never again holds anything from before now, whatever happens next. */
  ghost predicate NeverGoesBack(lib: Library, ttl: real, s: State)
    requires s.past != []
  {
    forall events :: CacheFrom(lib, Run(lib, ttl, s, events), |s.past| - 1)
  }

  /** An invalidation is final exactly when no load under way holds rules that are already outdated. */
  lemma InvalidationIsFinalIff(lib: Library, ttl: real, s: State)
    requires s.past != []
    ensures NeverGoesBack(lib, ttl, Next(lib, ttl, s, Invalidate)) <==>
      forall c :: 0 <= c < |s.calls| && s.calls[c].Loaded? ==>
        Compile(lib, s.calls[c].rules) == Compile(lib, Now(s).rules)
  {
    var t, mark := Next(lib, ttl, s, Invalidate), |s.past| - 1;
    if forall c :: 0 <= c < |s.calls| && s.calls[c].Loaded? ==>
         Compile(lib, s.calls[c].rules) == Compile(lib, Now(s).rules) {
      assert HeldFrom(lib, s.past, Compile(lib, Now(s).rules), mark);
      forall events
        ensures CacheFrom(lib, Run(lib, ttl, t, events), mark)
      {
        RunKeepsFrom(lib, ttl, t, events, mark);
      }
    } else {
      var c :| 0 <= c < |s.calls| && s.calls[c].Loaded?
               && Compile(lib, s.calls[c].rules) != Compile(lib, Now(s).rules);
      var u := Run(lib, ttl, t, [Return(c)]);
      RunSteps(lib, ttl, t, [], Return(c));
      assert [] + [Return(c)] == [Return(c)];
      assert !HeldFrom(lib, u.past, u.cache.ruleset.value, mark);
      assert !CacheFrom(lib, u, mark);
    }
  }

  /** So it can go: a load reads, rules are written and the cache emptied, the load returns, and the next call is stale. */
  lemma StaleAfterInvalidation(lib: Library, ttl: real, stale: seq<Rule>, newer: seq<Rule>)
    requires ttl > 0.0
    ensures var read := Next(lib, ttl, Next(lib, ttl, State(Empty(), [], [Moment(0.0, stale)]), Ask), Read(0));
            var emptied := Next(lib, ttl, Next(lib, ttl, read, Write(newer)), Invalidate);
            var t := Next(lib, ttl, Next(lib, ttl, emptied, Return(0)), Ask);
            && Now(emptied).rules == newer && emptied.cache == Empty() && |emptied.calls| == 1
            && |t.calls| == 2 && t.calls[1] == Done(0.0, Compile(lib, stale))
  {
  }

  lemma RunSteps(lib: Library, ttl: real, s: State, events: seq<Event>, e: Event)
    requires s.past != []
    ensures Run(lib, ttl, s, events + [e]) == Next(lib, ttl, Run(lib, ttl, s, events), e)
  {
    assert (events + [e])[..|events|] == events;
  }

  // ---- the cache, updated in place -----------------------------------------------------------------------------------

  class RuleCache {
    const lib: Library
    const ttl: real
    var ruleset: Option<RuleSet>
    var expiresAt: real

    constructor (lib: Library, ttl: real)
      ensures this.lib == lib && this.ttl == ttl && Value() == Empty()
    {
      this.lib, this.ttl, ruleset, expiresAt := lib, ttl, None, 0.0;
    }

    function Value(): Cache
      reads this
    {
      Cache(ruleset, expiresAt)
    }

    /** Up to the await: the answer, or None when a load is needed. */
    method Look(now: real) returns (hit: Option<RuleSet>)
      ensures hit.Some? <==> Serves(Value(), now)
      ensures hit.Some? <==> ruleset.Some? && now < expiresAt
      ensures hit.Some? ==> hit == ruleset
    {
      if ruleset == None || now >= expiresAt {
        return None;
      }
      hit := ruleset;
    }

    /** From the await on; `now` is still the reading taken before it. */
    method Keep(now: real, rules: seq<Rule>) returns (result: RuleSet)
      modifies this
      ensures Value() == Stored(lib, rules, now, ttl) && result == Compile(lib, rules)
      ensures ruleset == Some(result) && expiresAt == now + ttl
    {
      result := CompileRules(lib, rules);
      ruleset := Some(result);
      expiresAt := now + ttl;
    }

    method Forget()
      modifies this
      ensures Value() == Empty() && ruleset == None
    {
      ruleset := None;
      expiresAt := 0.0;
    }
  }
}
