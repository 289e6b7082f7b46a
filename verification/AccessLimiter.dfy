/** The invocation limiter of the agent API: three live calls per actor and window, and single use of invocation keys. */
module AccessLimiter {
  import opened Wrappers

  const LIVE_RATE_LIMIT := 3
  const LIVE_RATE_WINDOW_MS := 60_000
  const INVOCATION_KEY_TTL_MS := 900_000

  datatype Window = Window(count: nat, startedAt: int)

  datatype Limits = Limits(windows: map<string, Window>, keys: map<string, int>)

  datatype AccessError = Unauthorized | KeyRequired | Replayed | RateLimited

  predicate KeyChar(c: char) {
    'A' <= c <= 'Z' || 'a' <= c <= 'z' || '0' <= c <= '9' || c == ':' || c == '_' || c == '-'
  }

  predicate AllKeyChars(s: string) {
    s == [] || (KeyChar(s[0]) && AllKeyChars(s[1..]))
  }

  predicate UsableKey(key: Option<string>) {
    key.Some? && 16 <= |key.value| <= 128 && AllKeyChars(key.value)
  }

  predicate Expired(w: Window, now: int) {
    now - w.startedAt >= LIVE_RATE_WINDOW_MS
  }

  function LiveKeys(keys: map<string, int>, now: int): map<string, int> {
    map k | k in keys && keys[k] > now :: keys[k]
  }

  function LiveWindows(windows: map<string, Window>, now: int): map<string, Window> {
    map a | a in windows && !Expired(windows[a], now) :: windows[a]
  }

  /** What the sweep leaves: expired keys and windows are gone. */
  function Swept(s: Limits, now: int): Limits {
    Limits(LiveWindows(s.windows, now), LiveKeys(s.keys, now))
  }

  function WindowFor(s: Limits, actor: string, now: int): Window {
    if actor !in s.windows || Expired(s.windows[actor], now) then Window(0, now) else s.windows[actor]
  }

  /** One invocation in live mode by an authenticated actor: the limits after it, and whether it is accepted. */
  function Invoke(s: Limits, actor: string, key: Option<string>, now: int): (Limits, Result<string, AccessError>) {
    var t := Swept(s, now);
    if !UsableKey(key) then (t, Failure(KeyRequired))
    else if key.value in t.keys then (t, Failure(Replayed))
    else
      var w := WindowFor(t, actor, now);
      if w.count >= LIVE_RATE_LIMIT then (t, Failure(RateLimited))
      else (Limits(t.windows[actor := Window(w.count + 1, w.startedAt)], t.keys[key.value := now + INVOCATION_KEY_TTL_MS]), Success(actor))
  }

  class AgentAccess {
    var windows: map<string, Window>
    var keys: map<string, int>

    function State(): Limits
      reads this
    {
      Limits(windows, keys)
    }

    constructor ()
      ensures State() == Limits(map[], map[])
    {
      windows, keys := map[], map[];
    }

    method SweepKeys(now: int)
      modifies this`keys
      ensures keys == LiveKeys(old(keys), now)
    {
      var pending := keys.Keys;
      while pending != {}
        invariant pending <= old(keys).Keys
        invariant forall k :: k in keys <==> k in old(keys) && (k in pending || old(keys)[k] > now)
        invariant forall k :: k in keys ==> keys[k] == old(keys)[k]
        decreases |pending|
      {
        var k :| k in pending;
        if keys[k] <= now { keys := keys - {k}; }
        pending := pending - {k};
      }
    }

    method SweepWindows(now: int)
      modifies this`windows
      ensures windows == LiveWindows(old(windows), now)
    {
      var pending := windows.Keys;
      while pending != {}
        invariant pending <= old(windows).Keys
        invariant forall a :: a in windows <==> a in old(windows) && (a in pending || !Expired(old(windows)[a], now))
        invariant forall a :: a in windows ==> windows[a] == old(windows)[a]
        decreases |pending|
      {
        var a :| a in pending;
        if Expired(windows[a], now) { windows := windows - {a}; }
        pending := pending - {a};
      }
    }

    /** `authorizeAgentInvocation`, given what authentication said and whether the agent runs live. */
    method AuthorizeInvocation(authenticated: Result<string, AccessError>, live: bool, key: Option<string>, now: int) returns (r: Result<string, AccessError>)
      modifies this
      ensures authenticated.Failure? || !live ==> r == authenticated && State() == old(State())
      ensures authenticated.Success? && live ==> (State(), r) == Invoke(old(State()), authenticated.value, key, now)
    {
      var actor :- authenticated;
      if !live { return Success(actor); }
      SweepKeys(now);
      SweepWindows(now);
      if key.None? || |key.value| < 16 || |key.value| > 128 || !AllKeyChars(key.value) { return Failure(KeyRequired); }
      if key.value in keys { return Failure(Replayed); }
      var window := if actor !in windows || Expired(windows[actor], now) then Window(0, now) else windows[actor];
      if window.count >= LIVE_RATE_LIMIT { return Failure(RateLimited); }
      windows := windows[actor := Window(window.count + 1, window.startedAt)];
      keys := keys[key.value := now + INVOCATION_KEY_TTL_MS];
      return Success(actor);
    }
  }

  // ----- runs -----

  datatype Call = Call(actor: string, key: Option<string>, now: int)

  /** An accepted call, with the start of its window and its number in it. */
  datatype Accepted = Accepted(actor: string, key: string, time: int, startedAt: int, number: nat)

  function After(calls: seq<Call>): Limits {
    if calls == [] then Limits(map[], map[])
    else var last := calls[|calls| - 1]; Invoke(After(calls[..|calls| - 1]), last.actor, last.key, last.now).0
  }

  predicate IsAccepted(s: Limits, c: Call) {
    Invoke(s, c.actor, c.key, c.now).1.Success?
  }

  function AcceptedAs(s: Limits, c: Call): Accepted
    requires IsAccepted(s, c)
  {
    var w := WindowFor(Swept(s, c.now), c.actor, c.now);
    Accepted(c.actor, c.key.value, c.now, w.startedAt, w.count + 1)
  }

  /** The accepted calls of a run, in order. */
  function Log(calls: seq<Call>): seq<Accepted> {
    if calls == [] then []
    else
      var init, last := calls[..|calls| - 1], calls[|calls| - 1];
      Log(init) + if IsAccepted(After(init), last) then [AcceptedAs(After(init), last)] else []
  }

  predicate ClockRuns(calls: seq<Call>) {
    forall j, k :: 0 <= j < k < |calls| ==> calls[j].now <= calls[k].now
  }

  function Of(log: seq<Accepted>, actor: string): seq<Accepted> {
    if log == [] then []
    else
      var last := log[|log| - 1];
      Of(log[..|log| - 1], actor) + if last.actor == actor then [last] else []
  }

  // ----- windows -----

  /** The next accepted call of an actor continues the window of the one before or starts a later window. */
  predicate Follows(e: Accepted, f: Accepted) {
    && e.time <= f.time
    && ((f.startedAt == e.startedAt && f.number == e.number + 1)
        || (f.number == 1 && f.startedAt == f.time && f.startedAt >= e.startedAt + LIVE_RATE_WINDOW_MS))
  }

  predicate InWindow(e: Accepted) {
    1 <= e.number <= LIVE_RATE_LIMIT && e.startedAt <= e.time < e.startedAt + LIVE_RATE_WINDOW_MS && (e.number == 1 ==> e.time == e.startedAt)
  }

  predicate Windowed(log: seq<Accepted>) {
    && (forall k :: 0 <= k < |log| ==> InWindow(log[k]))
    && (forall k :: 0 < k < |log| ==> Follows(log[k - 1], log[k]))
  }

  /** The limits remember the last accepted call of the actor, or its window is over. */
  predicate Remembers(s: Limits, now: int, actor: string, own: seq<Accepted>) {
    if own == [] then actor !in s.windows
    else
      var e := own[|own| - 1];
      && e.time <= now
      && (if actor in s.windows then s.windows[actor] == Window(e.number, e.startedAt) else now >= e.startedAt + LIVE_RATE_WINDOW_MS)
  }

  lemma {:induction false} LogStep(calls: seq<Call>, actor: string)
    requires calls != []
    ensures var init, last := calls[..|calls| - 1], calls[|calls| - 1];
            Of(Log(calls), actor) == Of(Log(init), actor)
              + if IsAccepted(After(init), last) && last.actor == actor then [AcceptedAs(After(init), last)] else []
  {
    var init, last := calls[..|calls| - 1], calls[|calls| - 1];
    if IsAccepted(After(init), last) {
      assert Log(calls)[..|Log(calls)| - 1] == Log(init);
    } else {
      assert Log(calls) == Log(init);
    }
  }

  /** One invocation after `clock` keeps the windows of an actor in order. */
  lemma {:induction false} InvocationKeepsWindows(s: Limits, clock: int, c: Call, actor: string, own: seq<Accepted>)
    requires Windowed(own) && Remembers(s, clock, actor, own) && (own == [] || clock <= c.now)
    ensures var next := own + if IsAccepted(s, c) && c.actor == actor then [AcceptedAs(s, c)] else [];
            Windowed(next) && Remembers(Invoke(s, c.actor, c.key, c.now).0, c.now, actor, next)
  {
    var next := own + if IsAccepted(s, c) && c.actor == actor then [AcceptedAs(s, c)] else [];
    if IsAccepted(s, c) && c.actor == actor {
      assert forall k :: 0 <= k < |own| ==> next[k] == own[k];
      if own != [] { assert Follows(own[|own| - 1], next[|own|]); }
    } else {
      assert next == own;
    }
  }

  lemma {:induction false} RunWindows(calls: seq<Call>, actor: string)
    requires ClockRuns(calls)
    ensures Windowed(Of(Log(calls), actor))
    ensures Remembers(After(calls), if calls == [] then 0 else calls[|calls| - 1].now, actor, Of(Log(calls), actor))
  {
    if calls != [] {
      var init, last := calls[..|calls| - 1], calls[|calls| - 1];
      RunWindows(init, actor);
      LogStep(calls, actor);
      InvocationKeepsWindows(After(init), if init == [] then 0 else init[|init| - 1].now, last, actor, Of(Log(init), actor));
    }
  }

  /** Of six consecutive accepted calls the last comes at least a window after the first. */
  lemma {:induction false} SixSpanAWindow(log: seq<Accepted>, k: nat)
    requires Windowed(log) && k + 5 < |log|
    ensures log[k + 5].time >= log[k].time + LIVE_RATE_WINDOW_MS
  {
    assert Follows(log[k], log[k + 1]);
    assert Follows(log[k + 1], log[k + 2]);
    assert Follows(log[k + 2], log[k + 3]);
    assert Follows(log[k + 3], log[k + 4]);
    assert Follows(log[k + 4], log[k + 5]);
  }

  /** How many calls of the log lie in the half-open interval of one window length that starts at `from`. */
  function CountIn(log: seq<Accepted>, from: int): nat {
    if log == [] then 0
    else CountIn(log[..|log| - 1], from) + if from <= log[|log| - 1].time < from + LIVE_RATE_WINDOW_MS then 1 else 0
  }

  lemma {:induction false} TimesRise(log: seq<Accepted>, j: nat, k: nat)
    requires Windowed(log) && j <= k < |log|
    ensures log[j].time <= log[k].time
    decreases k
  {
    if j < k {
      TimesRise(log, j, k - 1);
      assert Follows(log[k - 1], log[k]);
    }
  }

  lemma {:induction false} NoneBefore(log: seq<Accepted>, from: int)
    requires forall k :: 0 <= k < |log| ==> log[k].time < from
    ensures CountIn(log, from) == 0
  {
    if log != [] { NoneBefore(log[..|log| - 1], from); }
  }

  lemma {:induction false} CountLast(log: seq<Accepted>, from: int, n: nat)
    requires n <= |log|
    ensures CountIn(log, from) <= CountIn(log[..|log| - n], from) + n
    decreases n
  {
    if n == 0 {
      assert log[..|log|] == log;
    } else {
      CountLast(log[..|log| - 1], from, n - 1);
      assert log[..|log| - 1][..|log| - n] == log[..|log| - n];
    }
  }

  lemma {:induction false} AtMostFiveIn(log: seq<Accepted>, from: int)
    requires Windowed(log)
    ensures CountIn(log, from) <= 5
  {
    var n := |log|;
    if n > 0 {
      assert Windowed(log[..n - 1]);
      AtMostFiveIn(log[..n - 1], from);
      if n >= 6 && from <= log[n - 1].time < from + LIVE_RATE_WINDOW_MS {
        SixSpanAWindow(log, n - 6);
        var early := log[..n - 5];
        forall k | 0 <= k < |early| ensures early[k].time < from { TimesRise(log, k, n - 6); }
        NoneBefore(early, from);
        CountLast(log, from, 5);
      } else if n <= 5 {
        CountLast(log, from, n);
      }
    }
  }

  /** In live mode at most five calls of an actor are accepted in any half-open interval of sixty seconds. */
  lemma {:induction false} AtMostFivePerMinute(calls: seq<Call>, actor: string, from: int)
    requires ClockRuns(calls)
    ensures CountIn(Of(Log(calls), actor), from) <= 5
  {
    RunWindows(calls, actor);
    AtMostFiveIn(Of(Log(calls), actor), from);
  }

  // ----- five is attained -----

  /** The run so far leaves these limits, and `count` accepted calls of the actor in the interval from `from`. */
  ghost predicate Leaves(calls: seq<Call>, actor: string, from: int, s: Limits, count: nat) {
    ClockRuns(calls) && After(calls) == s && CountIn(Of(Log(calls), actor), from) == count
  }

  lemma {:induction false} ClockRunsOn(calls: seq<Call>, c: Call)
    requires ClockRuns(calls) && (calls == [] || calls[|calls| - 1].now <= c.now)
    ensures ClockRuns(calls + [c])
  {
  }

  lemma {:induction false} CountOne(log: seq<Accepted>, e: Accepted, from: int)
    ensures CountIn(log + [e], from) == CountIn(log, from) + if from <= e.time < from + LIVE_RATE_WINDOW_MS then 1 else 0
  {
    assert (log + [e])[..|log|] == log;
  }

  lemma {:induction false} AfterOne(calls: seq<Call>, c: Call)
    ensures After(calls + [c]) == Invoke(After(calls), c.actor, c.key, c.now).0
    ensures IsAccepted(After(calls), c) ==> Of(Log(calls + [c]), c.actor) == Of(Log(calls), c.actor) + [AcceptedAs(After(calls), c)]
  {
    assert (calls + [c])[..|calls|] == calls;
    LogStep(calls + [c], c.actor);
  }

  /** One more accepted call, not before the last one. */
  lemma {:induction false} OneMore(calls: seq<Call>, c: Call, from: int, s: Limits, count: nat)
    requires Leaves(calls, c.actor, from, s, count) && IsAccepted(s, c) && (calls == [] || calls[|calls| - 1].now <= c.now)
    ensures Leaves(calls + [c], c.actor, from, Invoke(s, c.actor, c.key, c.now).0, count + if from <= c.now < from + LIVE_RATE_WINDOW_MS then 1 else 0)
  {
    ClockRunsOn(calls, c);
    AfterOne(calls, c);
    CountOne(Of(Log(calls), c.actor), AcceptedAs(s, c), from);
  }

  /** A usable key of its own for each n: they differ in length. */
  function NthKey(n: nat): string {
    seq(16 + n, _ => 'k')
  }

  lemma {:induction false} KeyCharsOf(n: nat)
    ensures AllKeyChars(seq(n, _ => 'k'))
  {
    if n > 0 {
      KeyCharsOf(n - 1);
      assert seq(n, _ => 'k')[1..] == seq(n - 1, _ => 'k');
    }
  }

  /** The window an accepted call leaves. */
  function NextWindow(own: Option<Window>, now: int): Window {
    if own.None? || Expired(own.value, now) then Window(1, now) else Window(own.value.count + 1, own.value.startedAt)
  }

  /** Limits that know one actor at most, and only the first n keys, for the fifteen minutes that began with the run. */
  ghost predicate Knows(s: Limits, actor: string, own: Option<Window>, n: nat) {
    && s.windows == (if own.None? then map[] else map[actor := own.value])
    && forall k :: k in s.keys ==> |k| < 16 + n && s.keys[k] >= INVOCATION_KEY_TTL_MS
  }

  lemma {:induction false} NextIsAccepted(s: Limits, actor: string, own: Option<Window>, n: nat, now: int)
    requires Knows(s, actor, own, n) && n < 100 && 0 <= now < INVOCATION_KEY_TTL_MS
    requires own.Some? ==> own.value.count < 3 || Expired(own.value, now)
    ensures IsAccepted(s, Call(actor, Some(NthKey(n)), now))
    ensures Knows(Invoke(s, actor, Some(NthKey(n)), now).0, actor, Some(NextWindow(own, now)), n + 1)
  {
    KeyCharsOf(16 + n);
    assert NthKey(n) !in s.keys;
    assert Swept(s, now).windows == if own.None? || Expired(own.value, now) then map[] else map[actor := own.value];
  }

  /** One more call with a new key. */
  lemma {:induction false} NextCall(calls: seq<Call>, actor: string, from: int, s: Limits, count: nat, own: Option<Window>, n: nat, now: int)
      returns (longer: seq<Call>, t: Limits)
    requires Leaves(calls, actor, from, s, count) && Knows(s, actor, own, n) && n < 100 && 0 <= now < INVOCATION_KEY_TTL_MS
    requires calls == [] || calls[|calls| - 1].now <= now
    requires own.Some? ==> own.value.count < 3 || Expired(own.value, now)
    ensures longer != [] && longer[|longer| - 1].now == now
    ensures Leaves(longer, actor, from, t, count + if from <= now < from + LIVE_RATE_WINDOW_MS then 1 else 0)
    ensures Knows(t, actor, Some(NextWindow(own, now)), n + 1)
  {
    var c := Call(actor, Some(NthKey(n)), now);
    NextIsAccepted(s, actor, own, n, now);
    OneMore(calls, c, from, s, count);
    longer, t := calls + [c], Invoke(s, actor, Some(NthKey(n)), now).0;
  }

  /** The bound is attained: the last two calls of one window and the first three of the next fit into a minute. */
  lemma {:induction false} FiveCanBeAccepted(actor: string)
    ensures exists calls, from :: ClockRuns(calls) && CountIn(Of(Log(calls), actor), from) == 5
  {
    var from := 59_998;
    var calls, s := [], Limits(map[], map[]);
    assert Leaves(calls, actor, from, s, 0);
    calls, s := NextCall(calls, actor, from, s, 0, None, 0, 0);
    calls, s := NextCall(calls, actor, from, s, 0, Some(Window(1, 0)), 1, 59_998);
    calls, s := NextCall(calls, actor, from, s, 1, Some(Window(2, 0)), 2, 59_999);
    calls, s := NextCall(calls, actor, from, s, 2, Some(Window(3, 0)), 3, 60_000);
    calls, s := NextCall(calls, actor, from, s, 3, Some(Window(1, 60_000)), 4, 60_000);
    calls, s := NextCall(calls, actor, from, s, 4, Some(Window(2, 60_000)), 5, 60_000);
    assert Leaves(calls, actor, from, s, 5);
  }

  // ----- keys -----

  /** Every accepted key is still remembered, or fifteen minutes have passed since. */
  predicate RemembersKeys(s: Limits, now: int, log: seq<Accepted>) {
    forall k :: 0 <= k < |log| ==>
      now >= log[k].time + INVOCATION_KEY_TTL_MS || (log[k].key in s.keys && s.keys[log[k].key] >= log[k].time + INVOCATION_KEY_TTL_MS)
  }

  predicate KeysApart(log: seq<Accepted>) {
    forall j, k :: 0 <= j < k < |log| && log[j].key == log[k].key ==> log[k].time >= log[j].time + INVOCATION_KEY_TTL_MS
  }

  predicate NotAfter(log: seq<Accepted>, now: int) {
    forall k :: 0 <= k < |log| ==> log[k].time <= now
  }

  lemma {:induction false} InvocationKeepsKeys(s: Limits, clock: int, c: Call, log: seq<Accepted>)
    requires KeysApart(log) && RemembersKeys(s, clock, log) && NotAfter(log, clock) && (log == [] || clock <= c.now)
    ensures var next := log + if IsAccepted(s, c) then [AcceptedAs(s, c)] else [];
            KeysApart(next) && RemembersKeys(Invoke(s, c.actor, c.key, c.now).0, c.now, next) && NotAfter(next, c.now)
  {
    var next := log + if IsAccepted(s, c) then [AcceptedAs(s, c)] else [];
    assert forall k :: 0 <= k < |log| ==> next[k] == log[k];
  }

  lemma {:induction false} RunKeys(calls: seq<Call>)
    requires ClockRuns(calls)
    ensures var now := if calls == [] then 0 else calls[|calls| - 1].now;
            KeysApart(Log(calls)) && RemembersKeys(After(calls), now, Log(calls)) && NotAfter(Log(calls), now)
  {
    if calls != [] {
      var init, last := calls[..|calls| - 1], calls[|calls| - 1];
      RunKeys(init);
      InvocationKeepsKeys(After(init), if init == [] then 0 else init[|init| - 1].now, last, Log(init));
    }
  }

  /** Two accepted calls with the same invocation key are at least fifteen minutes apart. */
  lemma {:induction false} SameKeyFifteenMinutesApart(calls: seq<Call>, j: nat, k: nat)
    requires ClockRuns(calls) && j < k < |Log(calls)| && Log(calls)[j].key == Log(calls)[k].key
    ensures Log(calls)[k].time - Log(calls)[j].time >= INVOCATION_KEY_TTL_MS
  {
    RunKeys(calls);
  }
}
