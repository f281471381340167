/** The fixed-window rate limiter on one key. Requests interleave freely: the INCR of a request and
    the EXPIRE that the first request of a window sends are separate steps, and a process may die
    between them. */
module RateLimiter {
  import opened Wrappers
  import opened RedisCounter

  datatype Config = Config(maxRequests: nat, window: nat)

  /** What became of a request: when its INCR ran, in which life of the key, and the decision. */
  datatype Entry = Entry(time: int, life: nat, admitted: bool)

  datatype State = State(
    now: int,
    key: Key,
    life: nat,          // how many times the key has come into being
    born: int,          // when it last did
    unexpired: nat,     // requests that saw 1 and have not sent their EXPIRE
    log: seq<Entry>)

  datatype Step = Tick(delta: nat) | Request | SendExpire | Die

  ghost predicate Init(s: State) {
    s.key == Absent && s.life == 0 && s.unexpired == 0 && s.log == []
  }

  predicate Enabled(s: State, step: Step) {
    (step.SendExpire? || step.Die?) ==> s.unexpired > 0
  }

  function Apply(s: State, step: Step, c: Config): State
    requires Enabled(s, step)
  {
    match step
    case Tick(d) => s.(now := s.now + d)
    case Request =>
      var key := Incremented(s.key, s.now);
      var first := key.count == 1;
      var life := if first then s.life + 1 else s.life;
      s.(key := key, life := life, born := if first then s.now else s.born,
         unexpired := if first then s.unexpired + 1 else s.unexpired,
         log := s.log + [Entry(s.now, life, key.count <= c.maxRequests)])
    case SendExpire => s.(key := Expiring(s.key, s.now, c.window), unexpired := s.unexpired - 1)
    case Die => s.(unexpired := s.unexpired - 1)
  }

  ghost predicate StepAt(states: seq<State>, steps: seq<Step>, c: Config, i: int) {
    && 0 <= i < |steps| && i + 1 < |states|
    && Enabled(states[i], steps[i]) && states[i + 1] == Apply(states[i], steps[i], c)
  }

  ghost predicate Execution(states: seq<State>, steps: seq<Step>, c: Config) {
    && c.window > 0 && |states| == |steps| + 1 && Init(states[0])
    && forall i :: 0 <= i < |steps| ==> StepAt(states, steps, c, i)
  }

  // ---------------------------------------------------------------- counting

  /** Requests of one life, all or only the admitted ones. */
  function OfLife(log: seq<Entry>, life: nat): nat {
    if log == [] then 0 else OfLife(log[..|log| - 1], life) + (if log[|log| - 1].life == life then 1 else 0)
  }

  function AdmittedInLife(log: seq<Entry>, life: nat): nat {
    if log == [] then 0
    else AdmittedInLife(log[..|log| - 1], life) + (if log[|log| - 1].life == life && log[|log| - 1].admitted
        then 1 else 0)
  }

  /** Requests admitted in the closed interval [from, to]. */
  function AdmittedBetween(log: seq<Entry>, from: int, to: int): nat {
    if log == [] then 0
    else AdmittedBetween(log[..|log| - 1], from, to)
         + (if from <= log[|log| - 1].time <= to && log[|log| - 1].admitted then 1 else 0)
  }

  // ---------------------------------------------------------------- invariant

  predicate KeyInv(s: State, c: Config) {
    && s.unexpired <= 1
    && (s.unexpired == 1 ==> s.key.Live? && s.key.expireAt == None)
    && (s.key.Absent? ==> s.life == 0)
    && (s.key.Live? ==> s.key.count >= 1 && s.life >= 1 && s.born <= s.now)
    && (s.key.Live? && s.key.expireAt.Some? ==> s.born + c.window <= s.key.expireAt.value)
  }

  /** Where an entry lies: this life's after its birth and before its expiry, the last life's before
      this birth, older ones a whole window before it. */
  predicate EntryInv(s: State, c: Config, e: Entry) {
    && 1 <= e.life <= s.life && e.time <= s.now
    && (e.life == s.life ==> s.born <= e.time)
    && (e.life == s.life && s.key.Live? && s.key.expireAt.Some? ==> e.time < s.key.expireAt.value)
    && (e.life < s.life ==> e.time < s.born)
    && (e.life + 1 < s.life ==> e.time + c.window < s.born)
  }

  ghost predicate LogInv(s: State, c: Config) {
    && (forall i :: 0 <= i < |s.log| ==> EntryInv(s, c, s.log[i]))
    && (forall i, j :: 0 <= i < |s.log| && 0 <= j < |s.log| && s.log[i].life + 1 < s.log[j].life ==>
          s.log[i].time + c.window < s.log[j].time)
  }

  ghost predicate CountInv(s: State, c: Config) {
    && (s.key.Live? ==> OfLife(s.log, s.life) == s.key.count)
    && (forall g: nat :: g > s.life ==> OfLife(s.log, g) == 0 && AdmittedInLife(s.log, g) == 0)
    && (forall g: nat :: AdmittedInLife(s.log, g) == if OfLife(s.log, g) <= c.maxRequests
        then OfLife(s.log, g) else c.maxRequests)
  }

  ghost predicate Inv(s: State, c: Config) { KeyInv(s, c) && LogInv(s, c) && CountInv(s, c) }

  lemma KeyInvStep(s: State, step: Step, c: Config)
    requires KeyInv(s, c) && Enabled(s, step)
    ensures KeyInv(Apply(s, step, c), c)
  {
  }

  lemma LogInvStep(s: State, step: Step, c: Config)
    requires c.window > 0 && KeyInv(s, c) && LogInv(s, c) && Enabled(s, step)
    ensures LogInv(Apply(s, step, c), c)
  {
    var s' := Apply(s, step, c);
    forall i | 0 <= i < |s.log| ensures EntryInv(s', c, s.log[i]) {
      assert EntryInv(s, c, s.log[i]);
    }
    assert step.Request? ==> EntryInv(s', c, s'.log[|s.log|]);
    assert forall i :: 0 <= i < |s.log| ==> s'.log[i] == s.log[i];
  }

  lemma {:induction false} CountInvStep(s: State, step: Step, c: Config)
    requires KeyInv(s, c) && CountInv(s, c) && Enabled(s, step)
    ensures CountInv(Apply(s, step, c), c)
  {
    if step.Request? {
      var s' := Apply(s, step, c);
      assert s'.log[..|s'.log| - 1] == s.log;
      assert OfLife(s'.log, s'.life) == s'.key.count;
      forall g: nat
        ensures AdmittedInLife(s'.log, g) == if OfLife(s'.log, g) <= c.maxRequests
            then OfLife(s'.log, g) else c.maxRequests
        ensures g > s'.life ==> OfLife(s'.log, g) == 0 && AdmittedInLife(s'.log, g) == 0
      {
        assert AdmittedInLife(s.log, g) == if OfLife(s.log, g) <= c.maxRequests
            then OfLife(s.log, g) else c.maxRequests;
      }
    }
  }

  lemma {:induction false} InvAlways(states: seq<State>, steps: seq<Step>, c: Config, i: nat)
    requires Execution(states, steps, c) && i < |states|
    ensures Inv(states[i], c)
  {
    if i > 0 {
      InvAlways(states, steps, c, i - 1);
      assert StepAt(states, steps, c, i - 1);
      KeyInvStep(states[i - 1], steps[i - 1], c);
      LogInvStep(states[i - 1], steps[i - 1], c);
      CountInvStep(states[i - 1], steps[i - 1], c);
    }
  }

  /** If the admitted requests of an interval belong to two consecutive lives, so do they all. */
  lemma {:induction false} IntervalWithinTwoLives(log: seq<Entry>, from: int, to: int, g: nat)
    requires forall i :: 0 <= i < |log| && from <= log[i].time <= to && log[i].admitted ==>
        log[i].life == g || log[i].life == g + 1
    ensures AdmittedBetween(log, from, to) <= AdmittedInLife(log, g) + AdmittedInLife(log, g + 1)
  {
    if log != [] {
      var n := |log| - 1;
      assert forall i :: 0 <= i < n ==> log[..n][i] == log[i];
      IntervalWithinTwoLives(log[..n], from, to, g);
    }
  }

  /** The oldest life with an admitted request in the interval. */
  lemma {:induction false} OldestLife(log: seq<Entry>, from: int, to: int) returns (k: nat)
    requires exists i :: 0 <= i < |log| && from <= log[i].time <= to && log[i].admitted
    ensures k < |log| && from <= log[k].time <= to && log[k].admitted
    ensures forall i :: 0 <= i < |log| && from <= log[i].time <= to && log[i].admitted ==> log[k].life <= log[i].life
  {
    var n := |log| - 1;
    if exists i :: 0 <= i < n && from <= log[i].time <= to && log[i].admitted {
      assert forall i :: 0 <= i < n ==> log[..n][i] == log[i];
      k := OldestLife(log[..n], from, to);
      if from <= log[n].time <= to && log[n].admitted && log[n].life < log[k].life {
        k := n;
      }
    } else {
      k := n;
    }
  }

  /** For every history of requests on a key, however they interleave and whichever processes die,
      any interval as long as the window contains at most twice the limit of admitted requests. */
  lemma TwiceTheLimitPerWindow(states: seq<State>, steps: seq<Step>, c: Config, i: nat, from: int)
    requires Execution(states, steps, c) && i < |states|
    ensures AdmittedBetween(states[i].log, from, from + c.window) <= 2 * c.maxRequests
  {
    InvAlways(states, steps, c, i);
    var log := states[i].log;
    if exists k :: 0 <= k < |log| && from <= log[k].time <= from + c.window && log[k].admitted {
      var k := OldestLife(log, from, from + c.window);
      IntervalWithinTwoLives(log, from, from + c.window, log[k].life);
    } else {
      IntervalWithinTwoLives(log, from, from + c.window, 0);
    }
  }

  lemma {:induction false} IntervalWithinOneLife(log: seq<Entry>, from: int, to: int, g: nat)
    requires forall i :: 0 <= i < |log| && from <= log[i].time <= to && log[i].admitted ==> log[i].life == g
    ensures AdmittedBetween(log, from, to) <= AdmittedInLife(log, g)
  {
    if log != [] {
      var n := |log| - 1;
      assert forall i :: 0 <= i < n ==> log[..n][i] == log[i];
      IntervalWithinOneLife(log[..n], from, to, g);
    }
  }

  /** An interval, of any length, in which the key is not reborn contains at most the limit. */
  lemma {:induction false} OnceTheLimitWithoutRebirth(states: seq<State>, steps: seq<Step>, c: Config, i: nat,
                                                      from: int, to: int)
    requires Execution(states, steps, c) && i < |states|
    requires var log := states[i].log;
      forall k, l :: 0 <= k < l < |log| && from <= log[k].time <= to && from <= log[l].time <= to ==>
          log[k].life == log[l].life
    ensures AdmittedBetween(states[i].log, from, to) <= c.maxRequests
  {
    InvAlways(states, steps, c, i);
    var log := states[i].log;
    if exists k :: 0 <= k < |log| && from <= log[k].time <= to && log[k].admitted {
      var k := OldestLife(log, from, to);
      forall l | 0 <= l < |log| && from <= log[l].time <= to && log[l].admitted ensures log[l].life == log[k].life {
        assert l < k || l == k || k < l;
      }
      IntervalWithinOneLife(log, from, to, log[k].life);
    } else {
      IntervalWithinOneLife(log, from, to, 0);
    }
  }

  // ---------------------------------------------------------------- paths

  ghost predicate Legal(s: State, steps: seq<Step>, c: Config)
    decreases |steps|
  {
    steps == [] || (Enabled(s, steps[0]) && Legal(Apply(s, steps[0], c), steps[1..], c))
  }

  ghost function After(s: State, steps: seq<Step>, c: Config): State
    requires Legal(s, steps, c)
    decreases |steps|
  {
    if steps == [] then s else After(Apply(s, steps[0], c), steps[1..], c)
  }

  lemma {:induction false} First(s: State, step: Step, rest: seq<Step>, c: Config)
    requires Enabled(s, step) && Legal(Apply(s, step, c), rest, c)
    ensures Legal(s, [step] + rest, c) && After(s, [step] + rest, c) == After(Apply(s, step, c), rest, c)
  {
    assert ([step] + rest)[1..] == rest;
  }

  /** A path from the start is an execution. */
  lemma {:induction false} PathIsExecution(s: State, steps: seq<Step>, c: Config) returns (states: seq<State>)
    requires Legal(s, steps, c)
    ensures |states| == |steps| + 1 && states[0] == s && states[|steps|] == After(s, steps, c)
    ensures forall i :: 0 <= i < |steps| ==> StepAt(states, steps, c, i)
    decreases |steps|
  {
    if steps == [] {
      states := [s];
    } else {
      var rest := PathIsExecution(Apply(s, steps[0], c), steps[1..], c);
      states := [s] + rest;
      forall i | 0 <= i < |steps| ensures StepAt(states, steps, c, i) {
        assert i > 0 ==> StepAt(rest, steps[1..], c, i - 1);
      }
    }
  }

  function Requests(n: nat): seq<Step> { if n == 0 then [] else [Request] + Requests(n - 1) }

  lemma {:induction false} AdmittedOneMore(log: seq<Entry>, e: Entry, from: int, to: int)
    ensures AdmittedBetween(log + [e], from, to)
         == AdmittedBetween(log, from, to) + (if from <= e.time <= to && e.admitted then 1 else 0)
  {
    assert (log + [e])[..|log|] == log;
  }

  /** Requests at one moment, with room for all of them in the window that is open. */
  lemma {:induction false} Burst(s: State, n: nat, c: Config, from: int, to: int)
    requires At(s.key, s.now).Live? && s.key.count >= 1 && s.key.count + n <= c.maxRequests && from <= s.now <= to
    ensures Legal(s, Requests(n), c)
    ensures var end := After(s, Requests(n), c);
      && end == s.(key := Live(s.key.count + n, s.key.expireAt), log := end.log)
      && AdmittedBetween(end.log, from, to) == AdmittedBetween(s.log, from, to) + n
    decreases n
  {
    if n > 0 {
      var next := Apply(s, Request, c);
      AdmittedOneMore(s.log, next.log[|s.log|], from, to);
      Burst(next, n - 1, c, from, to);
      First(s, Request, Requests(n - 1), c);
    }
  }

  /** The first request of a window, and what becomes of its EXPIRE. */
  lemma {:induction false} Opening(s: State, fate: Step, c: Config, from: int, to: int)
    requires At(s.key, s.now).Absent? && s.unexpired == 0 && c.maxRequests >= 1 && from <= s.now <= to && c.window > 0
    requires fate == SendExpire || fate == Die
    ensures Legal(s, [Request, fate], c)
    ensures var end := After(s, [Request, fate], c);
      && end == s.(key := Live(1, if fate == Die then None else Some(s.now + c.window)),
                   life := s.life + 1, born := s.now, log := end.log)
      && AdmittedBetween(end.log, from, to) == AdmittedBetween(s.log, from, to) + 1
  {
    var next := Apply(s, Request, c);
    AdmittedOneMore(s.log, next.log[|s.log|], from, to);
    First(next, fate, [], c);
    First(s, Request, [fate], c);
    assert [fate] + [] == [fate] && [Request] + [fate] == [Request, fate];
  }

  lemma {:induction false} Concatenate(s: State, a: seq<Step>, b: seq<Step>, c: Config)
    requires Legal(s, a, c) && Legal(After(s, a, c), b, c)
    ensures Legal(s, a + b, c) && After(s, a + b, c) == After(After(s, a, c), b, c)
    decreases |a|
  {
    if a == [] {
      assert a + b == b;
    } else {
      Concatenate(Apply(s, a[0], c), a[1..], b, c);
      assert (a + b)[1..] == a[1..] + b;
    }
  }

  /** A full window: the first request, its EXPIRE or its loss, and as many more as are admitted. */
  function FullWindow(fate: Step, c: Config): seq<Step>
    requires c.maxRequests >= 1
  {
    [Request, fate] + Requests(c.maxRequests - 1)
  }

  lemma {:induction false} FullWindowAdmits(s: State, fate: Step, c: Config, from: int, to: int)
    requires At(s.key, s.now).Absent? && s.unexpired == 0 && c.maxRequests >= 1 && from <= s.now <= to && c.window > 0
    requires fate == SendExpire || fate == Die
    ensures Legal(s, FullWindow(fate, c), c)
    ensures var end := After(s, FullWindow(fate, c), c);
      && end.key == Live(c.maxRequests, if fate == Die then None else Some(s.now + c.window))
      && end.now == s.now && end.unexpired == 0
      && AdmittedBetween(end.log, from, to) == AdmittedBetween(s.log, from, to) + c.maxRequests
  {
    Opening(s, fate, c, from, to);
    var open := After(s, [Request, fate], c);
    Burst(open, c.maxRequests - 1, c, from, to);
    Concatenate(s, [Request, fate], Requests(c.maxRequests - 1), c);
  }

  /** The factor of two is reached under every limit: a full window, and another when it expires, lie
      in one interval as long as the window. */
  lemma {:induction false} TwiceTheLimitIsReached(s: State, c: Config) returns (states: seq<State>, steps: seq<Step>)
    requires Init(s) && c.maxRequests >= 1 && c.window > 0
    ensures Execution(states, steps, c) && states[0] == s
    ensures AdmittedBetween(states[|steps|].log, s.now, s.now + c.window) == 2 * c.maxRequests
  {
    var to := s.now + c.window;
    var full := FullWindow(SendExpire, c);
    FullWindowAdmits(s, SendExpire, c, s.now, to);
    var one := After(s, full, c);
    var expired := Apply(one, Tick(c.window), c);
    FullWindowAdmits(expired, SendExpire, c, s.now, to);
    First(one, Tick(c.window), full, c);
    Concatenate(s, full, [Tick(c.window)] + full, c);
    steps := full + ([Tick(c.window)] + full);
    states := PathIsExecution(s, steps, c);
  }

  // ---------------------------------------------------------------- after the window

  /** Whether the request just made was admitted. */
  predicate LastAdmitted(s: State) { s.log != [] && s.log[|s.log| - 1].admitted }

  /** No request, admitted or rejected, moves the expiry of a key that has one; and the first
      request at or after the expiry is admitted. */
  lemma RequestsNeverExtendTheWindow(s: State, c: Config)
    requires KeyInv(s, c) && s.key.Live? && s.key.expireAt.Some? && c.maxRequests >= 1
    ensures var s' := Apply(s, Request, c);
      && (s.now < s.key.expireAt.value ==> s'.key.expireAt == s.key.expireAt)
      && (s.now >= s.key.expireAt.value ==> LastAdmitted(s') && s'.life == s.life + 1)
  {
  }

  /** Until then nothing else moves it either: once set, a window's end is fixed. */
  lemma WindowEndIsFixed(states: seq<State>, steps: seq<Step>, c: Config, i: nat)
    requires Execution(states, steps, c) && i < |steps|
    requires states[i].key.Live? && states[i].key.expireAt.Some? && states[i].now < states[i].key.expireAt.value
    ensures states[i + 1].key.Live? && states[i + 1].key.expireAt == states[i].key.expireAt
    ensures states[i + 1].life == states[i].life
  {
    InvAlways(states, steps, c, i);
    assert StepAt(states, steps, c, i);
  }

  /** If the process that made the first request dies before its EXPIRE, the key never expires: once
      the limit is reached no request is admitted any more. */
  lemma {:induction false} LostExpireBlocksForGood(states: seq<State>, steps: seq<Step>, c: Config, i: nat, j: nat)
    requires Execution(states, steps, c) && i <= j < |states|
    requires states[i].key.Live? && states[i].key.expireAt == None && states[i].unexpired == 0
    requires states[i].key.count >= c.maxRequests
    ensures states[j].key.Live? && states[j].key.expireAt == None && states[j].unexpired == 0
    ensures states[j].key.count >= c.maxRequests && states[j].life == states[i].life
    ensures |states[i].log| <= |states[j].log|
    ensures forall k :: |states[i].log| <= k < |states[j].log| ==> !states[j].log[k].admitted
  {
    if i < j {
      LostExpireBlocksForGood(states, steps, c, i, j - 1);
      InvAlways(states, steps, c, j - 1);
      assert StepAt(states, steps, c, j - 1);
    }
  }

  /** The key is at its limit, has no expiry, and nobody is left to give it one. */
  predicate Stuck(s: State, c: Config) {
    s.key.Live? && s.key.expireAt == None && s.unexpired == 0 && s.key.count >= c.maxRequests
  }

  /** Some continuation ends in an admitted request. */
  ghost predicate CanAdmit(s: State, c: Config) {
    exists steps :: Legal(s, steps, c) && |After(s, steps, c).log| > |s.log| && LastAdmitted(After(s, steps, c))
  }

  /** The request that is admitted now. */
  predicate AdmitsNow(s: State, c: Config) { LastAdmitted(Apply(s, Request, c)) }

  lemma {:induction false} AdmittedAfter(s: State, steps: seq<Step>, c: Config)
    requires Legal(s, steps, c) && AdmitsNow(After(s, steps, c), c) && |After(s, steps, c).log| >= |s.log|
    ensures CanAdmit(s, c)
  {
    var end := After(s, steps, c);
    First(end, Request, [], c);
    assert [Request] + [] == [Request];
    Concatenate(s, steps, [Request], c);
    assert Legal(s, steps + [Request], c);
  }

  lemma {:induction false} StuckAlong(s: State, steps: seq<Step>, c: Config)
    requires c.maxRequests >= 1 && Stuck(s, c) && Legal(s, steps, c)
    ensures |After(s, steps, c).log| > |s.log| ==> !LastAdmitted(After(s, steps, c))
    ensures |After(s, steps, c).log| == |s.log| ==> After(s, steps, c).log == s.log
    ensures |After(s, steps, c).log| >= |s.log|
    decreases |steps|
  {
    if steps != [] {
      StuckAlong(Apply(s, steps[0], c), steps[1..], c);
    }
  }

  /** In a reachable state some continuation ends in an admitted request if and only if the key is not
      stuck: the limiter recovers from everything but a lost EXPIRE at the limit. */
  lemma {:induction false} RecoversIff(s: State, c: Config)
    requires KeyInv(s, c) && c.maxRequests >= 1
    ensures CanAdmit(s, c) <==> !Stuck(s, c)
  {
    if Stuck(s, c) {
      forall steps | Legal(s, steps, c) && |After(s, steps, c).log| > |s.log|
          ensures !LastAdmitted(After(s, steps, c)) {
        StuckAlong(s, steps, c);
      }
    } else if AdmitsNow(s, c) {
      AdmittedAfter(s, [], c);
    } else if s.key.expireAt.Some? {
      First(s, Tick(s.key.expireAt.value - s.now), [], c);
      AdmittedAfter(s, [Tick(s.key.expireAt.value - s.now)] + [], c);
    } else {
      var expiring := Apply(s, SendExpire, c);
      First(expiring, Tick(c.window), [], c);
      First(s, SendExpire, [Tick(c.window)] + [], c);
      AdmittedAfter(s, [SendExpire] + ([Tick(c.window)] + []), c);
    }
  }

  /** And a key does get stuck: a first request whose process dies, and a full window of others. */
  lemma {:induction false} KeysGetStuck(s: State, c: Config) returns (states: seq<State>, steps: seq<Step>)
    requires Init(s) && c.maxRequests >= 1 && c.window > 0
    ensures Execution(states, steps, c) && states[0] == s && Stuck(states[|steps|], c)
  {
    steps := FullWindow(Die, c);
    FullWindowAdmits(s, Die, c, s.now, s.now);
    states := PathIsExecution(s, steps, c);
  }

  // ---------------------------------------------------------------- the middleware

  /** A whole request that no other interrupts: the decision and the Retry-After value in seconds,
      which is never zero, and never more than half a second short of the end of the window. */
  method Dispatch(counter: Counter, c: Config, now: int) returns (admitted: bool, retryAfter: int)
    requires c.window >= 1000
    modifies counter
    ensures admitted <==> Value(old(counter.key), now) < c.maxRequests
    ensures counter.key == var k := Incremented(old(counter.key), now); if k.count == 1
        then Live(1, Some(now + c.window)) else k
    ensures retryAfter > 0
    ensures counter.key.expireAt.Some? ==> counter.key.expireAt.value <= now + 1000 * retryAfter + 500
    ensures counter.key.expireAt.Some? && counter.key.expireAt.value - now >= 500 ==>
              1000 * retryAfter <= counter.key.expireAt.value - now + 500
    ensures counter.key.expireAt.Some? && counter.key.expireAt.value - now < 500 ==> retryAfter == c.window / 1000
    ensures counter.key.expireAt == None ==> retryAfter == c.window / 1000
  {
    var current := counter.Incr(now);
    if current == 1 {
      counter.Expire(now, c.window);
    }
    var ttl := counter.Ttl(now);
    retryAfter := if ttl > 0 then ttl else c.window / 1000;
    admitted := current <= c.maxRequests;
  }
}
