/** The circuit breaker in front of a target agent, on one host key, with any number of workers. An
    interaction passes the breaker's check, is in flight, and ends with success (DELETE), failure
    (INCR and, if it counted 1, EXPIRE) or neither. */
module CircuitBreaker {
  import opened Wrappers
  import opened RedisCounter

  const FAILURE_THRESHOLD := 4
  const FAILURE_TTL := 60_000

  datatype State = State(
    now: int,
    key: Key,
    inFlight: nat,      // interactions past the check that have not recorded their outcome
    expiring: nat)      // interactions that counted 1 and have not sent their EXPIRE

  datatype Step = Tick(delta: nat) | Start | Succeed | Fail | Other | SendExpire | Die | LoseExpire

  ghost predicate Init(s: State) { s.key == Absent && s.inFlight == 0 && s.expiring == 0 }

  predicate Open(s: State) { Value(s.key, s.now) >= FAILURE_THRESHOLD }

  /** What the protocol itself allows. */
  predicate CanTake(s: State, step: Step) {
    match step
    case Tick(_) => true
    case Start => !Open(s)
    case SendExpire => s.expiring > 0
    case LoseExpire => s.expiring > 0
    case _ => s.inFlight > 0
  }

  /** At most `slots` interactions at once; one is over when its last command is. */
  predicate Enabled(s: State, step: Step, slots: nat) {
    CanTake(s, step) && (step.Start? ==> s.inFlight + s.expiring < slots)
  }

  function Apply(s: State, step: Step): State
    requires CanTake(s, step)
  {
    match step
    case Tick(d) => s.(now := s.now + d)
    case Start => s.(inFlight := s.inFlight + 1)
    case Succeed => s.(key := Absent, inFlight := s.inFlight - 1)
    case Fail =>
      var key := Incremented(s.key, s.now);
      s.(key := key, inFlight := s.inFlight - 1, expiring := if key.count == 1 then s.expiring + 1 else s.expiring)
    case Other => s.(inFlight := s.inFlight - 1)
    case SendExpire => s.(key := Expiring(s.key, s.now, FAILURE_TTL), expiring := s.expiring - 1)
    case Die => s.(inFlight := s.inFlight - 1)
    case LoseExpire => s.(expiring := s.expiring - 1)
  }

  ghost predicate StepAt(states: seq<State>, steps: seq<Step>, slots: nat, i: int) {
    && 0 <= i < |steps| && i + 1 < |states|
    && Enabled(states[i], steps[i], slots) && states[i + 1] == Apply(states[i], steps[i])
  }

  ghost predicate Execution(states: seq<State>, steps: seq<Step>, slots: nat) {
    |states| == |steps| + 1 && Init(states[0]) && forall i :: 0 <= i < |steps| ==> StepAt(states, steps, slots, i)
  }

  /** The failure count and the interactions that can still raise it. */
  predicate Inv(s: State, slots: nat) {
    && s.inFlight + s.expiring <= slots
    && (s.key.Live? ==> s.key.count >= 1)
    && Value(s.key, s.now) + s.inFlight + s.expiring <= FAILURE_THRESHOLD - 1 + slots
  }

  lemma {:induction false} InvAlways(states: seq<State>, steps: seq<Step>, slots: nat, i: nat)
    requires Execution(states, steps, slots) && i < |states|
    ensures Inv(states[i], slots)
  {
    if i > 0 {
      InvAlways(states, steps, slots, i - 1);
      assert StepAt(states, steps, slots, i - 1);
    }
  }

  /** With at most K interactions at once the failure count never exceeds threshold - 1 + K; once the
      breaker is open, count and interactions in flight together do not; and no interaction passes
      the check while it is open. */
  lemma FailuresAreBounded(states: seq<State>, steps: seq<Step>, slots: nat, i: nat)
    requires Execution(states, steps, slots) && i < |states|
    ensures Value(states[i].key, states[i].now) <= FAILURE_THRESHOLD - 1 + slots
    ensures Open(states[i]) ==>
        Value(states[i].key, states[i].now) + states[i].inFlight <= FAILURE_THRESHOLD - 1 + slots
    ensures i < |steps| && Open(states[i]) ==> states[i + 1].inFlight <= states[i].inFlight
  {
    InvAlways(states, steps, slots, i);
    if i < |steps| {
      assert StepAt(states, steps, slots, i);
    }
  }

  // ---------------------------------------------------------------- reachable states

  /** Some execution from the start ends in s. */
  ghost predicate Reachable(s: State, slots: nat) {
    exists states, steps :: Execution(states, steps, slots) && states[|steps|] == s
  }

  lemma StartIsReachable(s: State, slots: nat)
    requires Init(s)
    ensures Reachable(s, slots)
  {
    var states, steps: seq<Step> := [s], [];
    assert Execution(states, steps, slots) && states[|steps|] == s;
  }

  lemma ReachableStep(s: State, step: Step, slots: nat)
    requires Reachable(s, slots) && Enabled(s, step, slots)
    ensures Reachable(Apply(s, step), slots)
  {
    var states, steps :| Execution(states, steps, slots) && states[|steps|] == s;
    var states', steps' := states + [Apply(s, step)], steps + [step];
    forall i | 0 <= i < |steps'| ensures StepAt(states', steps', slots, i) {
      assert i < |steps| ==> StepAt(states, steps, slots, i);
    }
    assert Execution(states', steps', slots) && states'[|steps'|] == Apply(s, step);
  }

  /** One interaction that fails, and is not the first to. */
  lemma FailOnce(s: State, slots: nat) returns (s': State)
    requires Reachable(s, slots) && At(s.key, s.now).Live? && 1 <= s.key.count < FAILURE_THRESHOLD
    requires s.inFlight + s.expiring < slots
    ensures Reachable(s', slots) && s' == s.(key := Live(s.key.count + 1, s.key.expireAt))
  {
    ReachableStep(s, Start, slots);
    ReachableStep(Apply(s, Start), Fail, slots);
    s' := Apply(Apply(s, Start), Fail);
  }

  /** The first failure of a window, and what becomes of its EXPIRE. */
  lemma FirstFailure(s: State, fate: Step, slots: nat) returns (s': State)
    requires Reachable(s, slots) && At(s.key, s.now).Absent? && s.inFlight + s.expiring < slots
    requires fate == SendExpire || fate == LoseExpire
    ensures Reachable(s', slots)
    ensures s' == s.(key := Live(1, if fate == SendExpire then Some(s.now + FAILURE_TTL) else None))
  {
    ReachableStep(s, Start, slots);
    var started := Apply(s, Start);
    ReachableStep(started, Fail, slots);
    var failed := Apply(started, Fail);
    ReachableStep(failed, fate, slots);
    s' := Apply(failed, fate);
  }

  lemma {:induction false} StartMany(s: State, n: nat, slots: nat) returns (s': State)
    requires Reachable(s, slots) && !Open(s) && s.inFlight + s.expiring + n <= slots
    ensures Reachable(s', slots) && s' == s.(inFlight := s.inFlight + n)
    decreases n
  {
    if n == 0 {
      s' := s;
    } else {
      ReachableStep(s, Start, slots);
      s' := StartMany(Apply(s, Start), n - 1, slots);
    }
  }

  lemma {:induction false} FailMany(s: State, n: nat, slots: nat) returns (s': State)
    requires Reachable(s, slots) && At(s.key, s.now).Live? && s.key.count >= 1 && s.inFlight >= n
    ensures Reachable(s', slots) && s' == s.(inFlight := s.inFlight - n, key := Live(s.key.count + n, s.key.expireAt))
    decreases n
  {
    if n == 0 {
      s' := s;
    } else {
      ReachableStep(s, Fail, slots);
      s' := FailMany(Apply(s, Fail), n - 1, slots);
    }
  }

  /** The bound is reached, for every number of slots: with the count just under the threshold, all
      of them start an interaction before any of them fails. */
  lemma {:induction false} BoundIsReached(start: State, slots: nat) returns (s: State)
    requires Init(start) && slots >= 1
    ensures Reachable(s, slots) && Value(s.key, s.now) == FAILURE_THRESHOLD - 1 + slots
  {
    StartIsReachable(start, slots);
    s := FirstFailure(start, SendExpire, slots);
    s := FailOnce(s, slots);
    s := FailOnce(s, slots);
    s := StartMany(s, slots, slots);
    s := FailMany(s, slots, slots);
  }

  // ---------------------------------------------------------------- expiry

  /** The key is live with an expiry. */
  predicate Fixed(s: State) { At(s.key, s.now).Live? && s.key.expireAt.Some? }

  /** While no EXPIRE is outstanding the end of a failure window is fixed: until it is reached or a
      success deletes the key, no failure moves it. (The code's comment, "60 seconds of no new
      failures", describes something else.) */
  lemma {:induction false} ExpiryIsFixed(states: seq<State>, steps: seq<Step>, slots: nat, i: nat, j: nat)
    requires Execution(states, steps, slots) && i <= j < |states|
    requires Fixed(states[i]) && states[i].expiring == 0
    requires states[j].now < states[i].key.expireAt.value
    requires forall k :: i <= k < j ==> !steps[k].Succeed?
    ensures Fixed(states[j]) && states[j].key.expireAt == states[i].key.expireAt && states[j].expiring == 0
    ensures states[j].key.count >= states[i].key.count
  {
    if i < j {
      assert StepAt(states, steps, slots, j - 1);
      InvAlways(states, steps, slots, j - 1);
      ExpiryIsFixed(states, steps, slots, i, j - 1);
    }
  }

  /** In any state, some step other than a success can move the end of the window if and only if an
      EXPIRE is outstanding; it then moves to 60 seconds from now. */
  lemma ExpiryMovesIff(s: State, slots: nat)
    requires Fixed(s) && s.key.expireAt.value != s.now + FAILURE_TTL
    ensures (exists step: Step :: Enabled(s, step, slots) && !step.Succeed? &&
               Apply(s, step).key.Live? && Apply(s, step).key.expireAt != s.key.expireAt)
       <==> s.expiring > 0
  {
    if s.expiring > 0 {
      assert Enabled(s, SendExpire, slots);
      assert Apply(s, SendExpire).key.expireAt == Some(s.now + FAILURE_TTL);
    }
  }

  /** One interaction at a time never leaves an EXPIRE outstanding for a key that has an expiry. */
  lemma {:induction false} OneSlotIsSafe(states: seq<State>, steps: seq<Step>, slots: nat, i: nat)
    requires Execution(states, steps, slots) && i < |states| && slots <= 1
    ensures states[i].inFlight + states[i].expiring <= 1
    ensures states[i].expiring > 0 ==> states[i].key.Live? && states[i].key.expireAt == None
  {
    if i > 0 {
      OneSlotIsSafe(states, steps, slots, i - 1);
      InvAlways(states, steps, slots, i - 1);
      assert StepAt(states, steps, slots, i - 1);
    }
  }

  /** A success between a first failure's INCR and its EXPIRE clears the key; the next failure opens a
      window of its own, and the first EXPIRE is still to come. */
  lemma {:induction false} OutdatedExpire(start: State, slots: nat) returns (s: State)
    requires Init(start) && slots >= 2
    ensures Reachable(s, slots) && s.expiring == 1 && s.now == start.now
    ensures s.key == Live(1, Some(s.now + FAILURE_TTL))
  {
    StartIsReachable(start, slots);
    s := StartMany(start, 2, slots);
    ReachableStep(s, Fail, slots);
    s := Apply(s, Fail);
    ReachableStep(s, Succeed, slots);
    s := Apply(s, Succeed);
    s := FirstFailure(s, SendExpire, slots);
  }

  /** It then extends the new window: by any delay shorter than the window. */
  lemma {:induction false} StaleExpireExtends(start: State, slots: nat, delay: nat) returns (s: State)
    requires Init(start) && slots >= 2 && delay < FAILURE_TTL
    ensures Reachable(s, slots) && Fixed(s) && s.key.expireAt == Some(start.now + FAILURE_TTL)
    ensures Enabled(s, SendExpire, slots)
    ensures Apply(s, SendExpire).key == Live(1, Some(start.now + FAILURE_TTL + delay))
  {
    s := OutdatedExpire(start, slots);
    ReachableStep(s, Tick(delay), slots);
    s := Apply(s, Tick(delay));
  }

  /** So the end of a window can be moved by a late EXPIRE if and only if two interactions can be under
      way at once. */
  lemma {:induction false} StaleExpireIff(slots: nat)
    ensures (exists s :: Reachable(s, slots) && Fixed(s) && s.expiring > 0) <==> slots >= 2
  {
    if slots >= 2 {
      var s := OutdatedExpire(State(0, Absent, 0, 0), slots);
      assert Fixed(s);
    } else {
      forall s | Reachable(s, slots) ensures !(Fixed(s) && s.expiring > 0) {
        var states, steps :| Execution(states, steps, slots) && states[|steps|] == s;
        OneSlotIsSafe(states, steps, slots, |steps|);
      }
    }
  }

  // ---------------------------------------------------------------- closing again

  ghost predicate Legal(s: State, steps: seq<Step>, slots: nat)
    decreases |steps|
  {
    steps == [] || (Enabled(s, steps[0], slots) && Legal(Apply(s, steps[0]), steps[1..], slots))
  }

  ghost function After(s: State, steps: seq<Step>, slots: nat): State
    requires Legal(s, steps, slots)
    decreases |steps|
  {
    if steps == [] then s else After(Apply(s, steps[0]), steps[1..], slots)
  }

  lemma {:induction false} First(s: State, step: Step, rest: seq<Step>, slots: nat)
    requires Enabled(s, step, slots) && Legal(Apply(s, step), rest, slots)
    ensures Legal(s, [step] + rest, slots) && After(s, [step] + rest, slots) == After(Apply(s, step), rest, slots)
  {
    assert ([step] + rest)[1..] == rest;
  }

  /** Some continuation ends with the breaker closed. */
  ghost predicate CanClose(s: State, slots: nat) {
    exists steps :: Legal(s, steps, slots) && !Open(After(s, steps, slots))
  }

  lemma ClosesLater(s: State, step: Step, slots: nat)
    requires Enabled(s, step, slots) && CanClose(Apply(s, step), slots)
    ensures CanClose(s, slots)
  {
    var steps :| Legal(Apply(s, step), steps, slots) && !Open(After(Apply(s, step), steps, slots));
    First(s, step, steps, slots);
    assert Legal(s, [step] + steps, slots);
  }

  lemma ClosedNow(s: State, slots: nat)
    requires !Open(s)
    ensures CanClose(s, slots)
  {
    var none: seq<Step> := [];
    assert Legal(s, none, slots) && !Open(After(s, none, slots));
  }

  /** Open without an expiry, and nobody left who could set one or succeed. */
  predicate Stuck(s: State) {
    Open(s) && s.key.expireAt == None && s.inFlight == 0 && s.expiring == 0
  }

  lemma {:induction false} StuckAlong(s: State, steps: seq<Step>, slots: nat)
    requires Stuck(s) && Legal(s, steps, slots)
    ensures Stuck(After(s, steps, slots))
    decreases |steps|
  {
    if steps != [] {
      StuckAlong(Apply(s, steps[0]), steps[1..], slots);
    }
  }

  /** The breaker can close again if and only if it is not stuck: an EXPIRE lost with its process keeps
      a host blocked for good once its failures reach the threshold and nothing is in flight. */
  lemma {:induction false} ClosesAgainIff(s: State, slots: nat)
    ensures CanClose(s, slots) <==> !Stuck(s)
  {
    if Stuck(s) {
      forall steps | Legal(s, steps, slots) ensures Open(After(s, steps, slots)) {
        StuckAlong(s, steps, slots);
      }
    } else if !Open(s) {
      ClosedNow(s, slots);
    } else if s.key.expireAt.Some? {
      var wait := Tick(s.key.expireAt.value - s.now);
      ClosedNow(Apply(s, wait), slots);
      ClosesLater(s, wait, slots);
    } else if s.inFlight > 0 {
      ClosedNow(Apply(s, Succeed), slots);
      ClosesLater(s, Succeed, slots);
    } else {
      var expiring := Apply(s, SendExpire);
      ClosedNow(Apply(expiring, Tick(FAILURE_TTL)), slots);
      ClosesLater(expiring, Tick(FAILURE_TTL), slots);
      ClosesLater(s, SendExpire, slots);
    }
  }

  /** And it does get stuck, with one interaction at a time already. */
  lemma {:induction false} BreakersGetStuck(start: State, slots: nat) returns (s: State)
    requires Init(start) && slots >= 1
    ensures Reachable(s, slots) && Stuck(s)
  {
    StartIsReachable(start, slots);
    s := FirstFailure(start, LoseExpire, slots);
    s := FailOnce(s, slots);
    s := FailOnce(s, slots);
    s := FailOnce(s, slots);
  }

  // ---------------------------------------------------------------- one interaction

  /** How the HTTP exchange ends, retries included: a response with its status and whether its body is
      JSON, no response (a network error), or any other exception, such as a refused address. */
  datatype Reply = Status(code: nat, json: bool) | NoResponse | OtherError

  datatype Result = Refused | Answered | Failed

  predicate IsSuccess(reply: Reply) { reply.Status? && 200 <= reply.code < 300 }

  /** Server errors and network errors trip the breaker; other responses that raise do not. */
  predicate Counts(reply: Reply) { reply.NoResponse? || (reply.Status? && reply.code >= 500) }

  /** send_interaction, uninterrupted: refused while open; a successful status clears the count, even
      if the body then turns out not to be JSON and the call fails; a counted failure raises it and
      starts its 60 seconds if it is the first; any other failure leaves it. */
  method SendInteraction(counter: Counter, reply: Reply, now: int) returns (result: Result)
    modifies counter
    ensures result == Refused <==> Value(old(counter.key), now) >= 4
    ensures result != Refused && reply.Status? && 300 <= reply.code < 500 ==> counter.key == old(counter.key)
    ensures result != Refused && (reply.NoResponse? || (reply.Status? && reply.code >= 500)) ==>
              Value(counter.key, now) == Value(old(counter.key), now) + 1
    ensures result != Refused && reply.NoResponse? && At(old(counter.key), now) == Absent ==>
              counter.key == Live(1, Some(now + 60_000))
    ensures result != Refused && reply.Status? && 200 <= reply.code < 300 ==> counter.key == Absent
    ensures result == Answered <==> result != Refused && IsSuccess(reply) && reply.json
    ensures counter.key ==
      if result == Refused then old(counter.key)
      else if IsSuccess(reply) then Absent
      else if Counts(reply) then
        var k := Incremented(old(counter.key), now); if k.count == 1 then Live(1, Some(now + FAILURE_TTL)) else k
      else old(counter.key)
  {
    if At(counter.key, now).Live? && counter.key.count >= FAILURE_THRESHOLD {
      return Refused;
    }
    if reply.Status? && 200 <= reply.code < 300 {
      counter.Delete();
      return if reply.json then Answered else Failed;
    }
    if reply.NoResponse? || (reply.Status? && reply.code >= 500) {
      var failures := counter.Incr(now);
      if failures == 1 {
        counter.Expire(now, FAILURE_TTL);
      }
    }
    return Failed;
  }
}
