/** One run's event stream: a publisher that publishes and then stores, and any number of clients
    that replay, subscribe, drop and come back. Replay read and subscription are separate steps, so
    are publication and storage; they interleave freely. An event is known by its number, since a
    run has one publisher. */
module EventStream {
  import opened Wrappers
  import opened ReplayBuffer

  type ClientId = nat

  /** A client's connection: none; open with the `last_seq` it asked for; past the replay read;
      subscribed. `queue` is what the server has sent and the client has not received yet. */
  datatype Link =
    | Offline
    | Opened(after: nat)
    | Replayed(queue: seq<nat>)
    | Live(queue: seq<nat>)

  /** The viewer: its connection, `lastSeqRef`, and the events it has been shown. */
  datatype Client = Client(link: Link, lastSeq: nat, log: seq<nat>)

  datatype State = State(
    next: nat,                        // the number of the next event
    pending: Option<nat>,             // published, not stored yet
    buffer: seq<nat>,             // the replay list
    history: seq<nat>,            // everything stored since the list last expired
    clients: map<ClientId, Client>)

  datatype Step =
    | Publish(delivered: bool, raised: bool)
    | Store(ok: bool)
    | Expire
    | Connect(c: ClientId)
    | ReplayRead(c: ClientId, reachable: bool)
    | Subscribe(c: ClientId)
    | Deliver(c: ClientId)
    | Disconnect(c: ClientId)

  ghost predicate Init(s: State) {
    s.next == 1 && s.pending == None && s.buffer == [] && s.history == [] &&
    forall c :: c in s.clients ==> s.clients[c] == Client(Offline, 0, [])
  }

  predicate Enabled(s: State, step: Step) {
    match step
    case Publish(_, _) => s.pending == None
    case Store(_) => s.pending.Some?
    case Expire => true
    case Connect(c) => c in s.clients && s.clients[c].link.Offline?
    case ReplayRead(c, _) => c in s.clients && s.clients[c].link.Opened? && s.clients[c].link.after > 0
    case Subscribe(c) =>
      c in s.clients && (s.clients[c].link.Replayed? || (s.clients[c].link.Opened? && s.clients[c].link.after == 0))
    case Deliver(c) =>
      c in s.clients && (s.clients[c].link.Replayed? || s.clients[c].link.Live?) && s.clients[c].link.queue != []
    case Disconnect(c) => c in s.clients && !s.clients[c].link.Offline?
  }

  /** A subscriber's queue grows by every message that reaches it. */
  function Broadcast(client: Client, m: nat): Client {
    if client.link.Live? then client.(link := Live(client.link.queue + [m])) else client
  }

  /** The message handler: show the event, raise `lastSeq` if its number is larger. */
  function Received(client: Client): Client
    requires (client.link.Replayed? || client.link.Live?) && client.link.queue != []
  {
    var m := client.link.queue[0];
    var rest := client.link.queue[1..];
    Client(if client.link.Live? then Live(rest) else Replayed(rest),
           if m > client.lastSeq then m else client.lastSeq,
           client.log + [m])
  }

  function Apply(s: State, step: Step): State
    requires Enabled(s, step)
  {
    match step
    case Publish(delivered, raised) =>
      s.(next := s.next + 1,
         pending := if raised then None else Some(s.next),
         clients := if delivered then map c | c in s.clients :: Broadcast(s.clients[c], s.next) else s.clients)
    case Store(ok) =>
      if ok then s.(pending := None, buffer := Stored(s.buffer, s.pending.value),
                    history := s.history + [s.pending.value])
      else s.(pending := None)
    case Expire => s.(buffer := [], history := [])
    case Connect(c) => s.(clients := s.clients[c := s.clients[c].(link := Opened(s.clients[c].lastSeq))])
    case ReplayRead(c, reachable) =>
      s.(clients := s.clients[c := s.clients[c].(link :=
           Replayed(if reachable then Above(s.buffer, s.clients[c].link.after) else []))])
    case Subscribe(c) =>
      s.(clients := s.clients[c := s.clients[c].(link :=
           Live(if s.clients[c].link.Opened? then [] else s.clients[c].link.queue))])
    case Deliver(c) => s.(clients := s.clients[c := Received(s.clients[c])])
    case Disconnect(c) => s.(clients := s.clients[c := s.clients[c].(link := Offline)])
  }

  ghost predicate StepAt(states: seq<State>, steps: seq<Step>, i: int) {
    0 <= i < |steps| && i + 1 < |states| && Enabled(states[i], steps[i]) && states[i + 1] == Apply(states[i], steps[i])
  }

  ghost predicate Execution(states: seq<State>, steps: seq<Step>) {
    |states| == |steps| + 1 && Init(states[0]) && forall i :: 0 <= i < |steps| ==> StepAt(states, steps, i)
  }

  // ---------------------------------------------------------------- invariant

  function Queue(client: Client): seq<nat> {
    if client.link.Replayed? || client.link.Live? then client.link.queue else []
  }

  /** What the client has been shown, and what is on its way. */
  function Traffic(client: Client): seq<nat> { client.log + Queue(client) }

  /** Increasing numbers from 1 up, all below a bound. */
  ghost predicate Below(events: seq<nat>, bound: nat) {
    Increasing(events) && forall i :: 0 <= i < |events| ==> 0 < events[i] < bound
  }

  ghost predicate ClientOk(client: Client, next: nat) {
    && Below(Traffic(client), next)
    && client.lastSeq == (if client.log == [] then 0 else client.log[|client.log| - 1])
    && (client.link.Opened? ==> client.link.after == client.lastSeq)
  }

  ghost predicate StoreInv(s: State) {
    && s.next > 0
    && (s.pending.Some? ==> s.pending.value == s.next - 1 > 0)
    && Below(s.history, if s.pending.Some? then s.next - 1 else s.next)
    && s.buffer == StoredAll(s.history)
  }

  ghost predicate Inv(s: State) {
    StoreInv(s) && forall c :: c in s.clients ==> ClientOk(s.clients[c], s.next)
  }

  lemma {:induction false} BufferBelow(history: seq<nat>, bound: nat)
    requires Below(history, bound)
    ensures Below(StoredAll(history), bound)
  {
    BufferIsTheTail(history);
  }

  /** What a replay read sends continues what the client has been shown. */
  lemma {:induction false} ReplayOk(buffer: seq<nat>, client: Client, next: nat)
    requires Below(buffer, next) && ClientOk(client, next) && client.link.Opened?
    ensures ClientOk(client.(link := Replayed(Above(buffer, client.link.after))), next)
    ensures ClientOk(client.(link := Replayed([])), next)
  {
    var k := AboveIsASuffix(buffer, client.link.after);
    assert client.log == Traffic(client);
    assert Traffic(client.(link := Replayed([]))) == client.log;
    assert Traffic(client.(link := Replayed(Above(buffer, client.link.after)))) == client.log + buffer[k..];
  }

  lemma LinkOk(client: Client, next: nat, link: Link)
    requires ClientOk(client, next)
    requires link == Offline || link == Opened(client.lastSeq) || link == Live(Queue(client))
    ensures ClientOk(client.(link := link), next)
  {
    assert client.log == Traffic(client)[..|client.log|];
    if link.Live? {
      assert Traffic(client.(link := link)) == Traffic(client);
    } else {
      assert Traffic(client.(link := link)) == client.log;
    }
  }

  lemma DeliverOk(client: Client, next: nat)
    requires ClientOk(client, next) && (client.link.Replayed? || client.link.Live?) && client.link.queue != []
    ensures ClientOk(Received(client), next) && Traffic(Received(client)) == Traffic(client)
  {
    var n := |client.log|;
    assert Traffic(Received(client)) == Traffic(client);
    assert client.link.queue[0] == Traffic(client)[n];
    assert n > 0 ==> client.log[n - 1] == Traffic(client)[n - 1];
  }

  lemma BroadcastOk(client: Client, next: nat)
    requires ClientOk(client, next) && next > 0
    ensures ClientOk(Broadcast(client, next), next + 1) && ClientOk(client, next + 1)
  {
    if client.link.Live? {
      assert Traffic(Broadcast(client, next)) == Traffic(client) + [next];
    }
  }

  lemma ClientStep(s: State, step: Step, c: ClientId)
    requires StoreInv(s) && Enabled(s, step) && c in s.clients && ClientOk(s.clients[c], s.next)
    ensures ClientOk(Apply(s, step).clients[c], Apply(s, step).next)
  {
    var client := s.clients[c];
    match step
    case ReplayRead(d, _) =>
      if c == d {
        BufferBelow(s.history, s.next);
        ReplayOk(s.buffer, client, s.next);
      }
    case Deliver(d) =>
      if c == d {
        DeliverOk(client, s.next);
      }
    case Publish(_, _) => BroadcastOk(client, s.next);
    case Subscribe(_) => LinkOk(client, s.next, Live(Queue(client)));
    case Connect(_) => LinkOk(client, s.next, Opened(client.lastSeq));
    case Disconnect(_) => LinkOk(client, s.next, Offline);
    case _ =>
  }

  lemma {:induction false} StoredNext(history: seq<nat>, m: nat)
    ensures StoredAll(history + [m]) == Stored(StoredAll(history), m)
  {
    assert (history + [m])[..|history|] == history;
  }

  lemma BelowNext(history: seq<nat>, m: nat)
    requires m > 0 && Below(history, m)
    ensures Below(history + [m], m + 1)
  {
  }

  lemma {:induction false} StoringKeepsInv(s: State)
    requires StoreInv(s) && s.pending.Some?
    ensures StoreInv(Apply(s, Store(true)))
  {
    StoredNext(s.history, s.pending.value);
    BelowNext(s.history, s.pending.value);
    assert Apply(s, Store(true)).buffer == StoredAll(s.history + [s.pending.value]);
  }

  lemma {:induction false} PublishingKeepsInv(s: State, delivered: bool, raised: bool)
    requires StoreInv(s) && s.pending == None
    ensures StoreInv(Apply(s, Publish(delivered, raised)))
  {
  }

  lemma {:induction false} StoreStep(s: State, step: Step)
    requires StoreInv(s) && Enabled(s, step)
    ensures StoreInv(Apply(s, step))
  {
    match step
    case Store(ok) =>
      if ok {
        StoringKeepsInv(s);
      }
    case Publish(delivered, raised) => PublishingKeepsInv(s, delivered, raised);
    case Expire => assert Below([], s.next) && StoredAll<nat>([]) == [];
    case _ =>
      var s' := Apply(s, step);
      assert (s'.next, s'.pending, s'.buffer, s'.history) == (s.next, s.pending, s.buffer, s.history);
  }

  lemma ClientsStay(s: State, step: Step)
    requires Enabled(s, step)
    ensures Apply(s, step).clients.Keys == s.clients.Keys
  {
  }

  lemma InvStep(s: State, step: Step)
    requires Inv(s) && Enabled(s, step)
    ensures Inv(Apply(s, step)) && Apply(s, step).clients.Keys == s.clients.Keys
  {
    StoreStep(s, step);
    ClientsStay(s, step);
    forall c | c in s.clients ensures ClientOk(Apply(s, step).clients[c], Apply(s, step).next) {
      ClientStep(s, step, c);
    }
  }

  lemma {:induction false} InvAlways(states: seq<State>, steps: seq<Step>, i: nat)
    requires Execution(states, steps) && i < |states|
    ensures Inv(states[i])
  {
    if i == 0 {
      assert forall c :: c in states[0].clients ==> ClientOk(states[0].clients[c], 1);
    } else {
      InvAlways(states, steps, i - 1);
      assert StepAt(states, steps, i - 1);
      InvStep(states[i - 1], steps[i - 1]);
    }
  }

  /** Whatever the interleaving, and however often clients drop and reconnect, the numbers shown to
      one client are strictly increasing: no event is shown twice or out of order. */
  lemma ShownInOrderOnce(states: seq<State>, steps: seq<Step>, i: nat, c: ClientId)
    requires Execution(states, steps) && i < |states| && c in states[i].clients
    ensures var log := states[i].clients[c].log;
      forall k, l :: 0 <= k < l < |log| ==> log[k] < log[l]
  {
    InvAlways(states, steps, i);
    var client := states[i].clients[c];
    assert client.log == Traffic(client)[..|client.log|];
  }

  // ---------------------------------------------------------------- reconnection

  ghost predicate Legal(s: State, steps: seq<Step>)
    decreases |steps|
  {
    steps == [] || (Enabled(s, steps[0]) && Legal(Apply(s, steps[0]), steps[1..]))
  }

  ghost function After(s: State, steps: seq<Step>): State
    requires Legal(s, steps)
    decreases |steps|
  {
    if steps == [] then s else After(Apply(s, steps[0]), steps[1..])
  }

  /** The numbers that reach subscribers during some steps. */
  function Reaching(next: nat, steps: seq<Step>): seq<nat>
    decreases |steps|
  {
    if steps == [] then []
    else if steps[0].Publish? then (if steps[0].delivered then [next] else []) + Reaching(next + 1, steps[1..])
    else Reaching(next, steps[1..])
  }

  function Published(steps: seq<Step>): nat {
    if steps == [] then 0 else (if steps[0].Publish? then 1 else 0) + Published(steps[1..])
  }

  /** While a client stays subscribed it gets every event that reaches subscribers, in order. */
  lemma {:induction false} SubscribedGetsEverything(s: State, steps: seq<Step>, c: ClientId)
    requires c in s.clients && s.clients[c].link.Live? && Legal(s, steps) && Disconnect(c) !in steps
    ensures c in After(s, steps).clients && After(s, steps).clients[c].link.Live?
    ensures Traffic(After(s, steps).clients[c]) == Traffic(s.clients[c]) + Reaching(s.next, steps)
    decreases |steps|
  {
    if steps != [] {
      var s' := Apply(s, steps[0]);
      SubscribedGetsEverything(s', steps[1..], c);
      if steps[0].Publish? && steps[0].delivered {
        assert Traffic(s'.clients[c]) == Traffic(s.clients[c]) + [s.next];
      } else {
        assert Traffic(s'.clients[c]) == Traffic(s.clients[c]);
      }
    }
  }

  /** Between its replay read and its subscription a client's traffic does not change, whatever is
      published meanwhile. */
  lemma {:induction false} UnsubscribedGetsNothing(s: State, steps: seq<Step>, c: ClientId)
    requires c in s.clients && s.clients[c].link.Replayed? && Legal(s, steps)
    requires Disconnect(c) !in steps && Subscribe(c) !in steps
    ensures c in After(s, steps).clients && After(s, steps).clients[c].link.Replayed?
    ensures Traffic(After(s, steps).clients[c]) == Traffic(s.clients[c])
    ensures After(s, steps).next == s.next + Published(steps)
    decreases |steps|
  {
    if steps != [] {
      UnsubscribedGetsNothing(Apply(s, steps[0]), steps[1..], c);
    }
  }

  /** A reconnection in a reachable state: replay read, anything else, subscription. The client is
      sent the newest 200 of the stored events it missed, in order, and nothing else; what was
      published in between never reaches it through this connection. */
  lemma {:induction false} ReconnectionSendsMissedSuffix(s: State, c: ClientId, between: seq<Step>)
    requires Inv(s) && Enabled(s, ReplayRead(c, true))
    requires Legal(Apply(s, ReplayRead(c, true)), between)
    requires Disconnect(c) !in between && Subscribe(c) !in between
    ensures var r := After(Apply(s, ReplayRead(c, true)), between);
      && Enabled(r, Subscribe(c))
      && var end := Apply(r, Subscribe(c));
      && var missed := Above(s.history, s.clients[c].lastSeq);
      && Traffic(end.clients[c]) == s.clients[c].log + LastN(missed, MAX_REPLAY_BUFFER_SIZE)
      && (Traffic(end.clients[c]) == s.clients[c].log + missed <==> |missed| <= MAX_REPLAY_BUFFER_SIZE)
      && (forall n :: s.next <= n < end.next ==> n !in Traffic(end.clients[c]))
      && end.next == s.next + Published(between)
  {
    var s1 := Apply(s, ReplayRead(c, true));
    var client := s.clients[c];
    assert ClientOk(client, s.next);
    ReplayIsCompleteIff(s.history, client.lastSeq);
    var missed := Above(s.history, client.lastSeq);
    assert Traffic(s1.clients[c]) == client.log + LastN(missed, MAX_REPLAY_BUFFER_SIZE);
    if client.log + LastN(missed, MAX_REPLAY_BUFFER_SIZE) == client.log + missed {
      assert |LastN(missed, MAX_REPLAY_BUFFER_SIZE)| == |missed|;
    }
    UnsubscribedGetsNothing(s1, between, c);
    BufferBelow(s.history, s.next);
    ReplayOk(s.buffer, client, s.next);
    var traffic := Traffic(s1.clients[c]);
    assert forall k :: 0 <= k < |traffic| ==> traffic[k] < s.next;
  }

  /** If Redis cannot be read, the client subscribes with nothing but what it had been shown. */
  lemma {:induction false} FailedReplaySendsNothing(s: State, c: ClientId, between: seq<Step>)
    requires Enabled(s, ReplayRead(c, false))
    requires Legal(Apply(s, ReplayRead(c, false)), between)
    requires Disconnect(c) !in between && Subscribe(c) !in between
    ensures var r := After(Apply(s, ReplayRead(c, false)), between);
      && Enabled(r, Subscribe(c))
      && Traffic(Apply(r, Subscribe(c)).clients[c]) == s.clients[c].log
  {
    var s1 := Apply(s, ReplayRead(c, false));
    assert Traffic(s1.clients[c]) == s.clients[c].log + [] == s.clients[c].log;
    UnsubscribedGetsNothing(s1, between, c);
  }

  /** What a replay read finds of what the client has not been shown. */
  lemma {:induction false} ReplayedEvents(s: State, c: ClientId, n: nat)
    requires Inv(s) && c in s.clients && s.clients[c].lastSeq < n
    ensures var missed := Above(s.history, s.clients[c].lastSeq);
      n in LastN(missed, MAX_REPLAY_BUFFER_SIZE) <==> n in s.buffer
  {
    ReplayIsCompleteIff(s.history, s.clients[c].lastSeq);
    BufferBelow(s.history, s.next);
    var k := AboveIsASuffix(s.buffer, s.clients[c].lastSeq);
    if n in s.buffer {
      var i :| 0 <= i < |s.buffer| && s.buffer[i] == n;
      assert s.buffer[k..][i - k] == n;
    }
  }

  /** Everything published since the last event the client had been shown, up to a bound, reaches it. */
  ghost predicate HasAll(events: seq<nat>, after: nat, bound: nat) {
    forall n :: after < n < bound ==> n in events
  }

  /** After a reconnection the client has every event published up to its subscription if and only if
      all it had missed was in the replay list when that was read (published, stored, neither expired
      nor trimmed) and nothing was published between the read and the subscription. */
  lemma {:induction false} ReconnectionIsCompleteIff(s: State, c: ClientId, between: seq<Step>)
    requires Inv(s) && Enabled(s, ReplayRead(c, true))
    requires Legal(Apply(s, ReplayRead(c, true)), between)
    requires Disconnect(c) !in between && Subscribe(c) !in between
    ensures var r := After(Apply(s, ReplayRead(c, true)), between);
      && Enabled(r, Subscribe(c))
      && var end, lastSeq := Apply(r, Subscribe(c)), s.clients[c].lastSeq;
      && (HasAll(Traffic(end.clients[c]), lastSeq, end.next)
          <==> Published(between) == 0 && HasAll(s.buffer, lastSeq, s.next))
  {
    ReconnectionSendsMissedSuffix(s, c, between);
    var end := Apply(After(Apply(s, ReplayRead(c, true)), between), Subscribe(c));
    var client := s.clients[c];
    var replayed := LastN(Above(s.history, client.lastSeq), MAX_REPLAY_BUFFER_SIZE);
    assert ClientOk(client, s.next);
    LogIsShown(client, s.next);
    forall n: nat | client.lastSeq < n ensures n in Traffic(end.clients[c]) <==> n in s.buffer {
      ReplayedEvents(s, c, n);
    }
    if Published(between) > 0 {
      assert client.lastSeq < s.next < end.next && s.next !in Traffic(end.clients[c]);
    }
  }

  lemma LogIsShown(client: Client, next: nat)
    requires ClientOk(client, next) && next > 0
    ensures client.lastSeq < next && forall n :: n in client.log ==> n <= client.lastSeq
  {
    assert client.log == Traffic(client)[..|client.log|];
  }

  /** An event a client was passed over for stays lost: once something newer has been shown, no
      reconnection brings it back. */
  lemma SkippedIsLost(states: seq<State>, steps: seq<Step>, i: nat, j: nat, c: ClientId, n: nat)
    requires Execution(states, steps) && i <= j < |states| && c in states[i].clients && c in states[j].clients
    requires n !in states[i].clients[c].log && n < states[i].clients[c].lastSeq
    ensures n !in states[j].clients[c].log
  {
    InvAlways(states, steps, i);
    ShownInOrderOnce(states, steps, j, c);
    LogGrows(states, steps, i, j, c);
    var before, later := states[i].clients[c].log, states[j].clients[c].log;
    assert ClientOk(states[i].clients[c], states[i].next);
    assert later[|before| - 1] == before[|before| - 1] > n;
    forall k | 0 <= k < |later| ensures later[k] != n {
      if k < |before| {
        assert before[k] == later[k];
      }
    }
  }

  lemma {:induction false} LogGrows(states: seq<State>, steps: seq<Step>, i: nat, j: nat, c: ClientId)
    requires Execution(states, steps) && i <= j < |states| && c in states[i].clients
    ensures c in states[j].clients && states[i].clients[c].log <= states[j].clients[c].log
  {
    if i < j {
      LogGrows(states, steps, i, j - 1, c);
      assert StepAt(states, steps, j - 1);
    }
  }

  // ---------------------------------------------------------------- what is stored

  /** The publisher's last command. */
  function LastCommand(steps: seq<Step>): Option<Step> {
    if steps == [] then None
    else if steps[|steps| - 1].Publish? || steps[|steps| - 1].Store? then Some(steps[|steps| - 1])
    else LastCommand(steps[..|steps| - 1])
  }

  /** The publisher has just published without an error, so that it will store. */
  predicate JustPublished(steps: seq<Step>) {
    LastCommand(steps).Some? && LastCommand(steps).value.Publish? && !LastCommand(steps).value.raised
  }

  /** The numbers published without an error, then stored successfully, since the list last expired. */
  function Kept(next: nat, steps: seq<Step>): seq<nat>
    requires next > 0
  {
    if steps == [] then []
    else
      var before := steps[..|steps| - 1];
      match steps[|steps| - 1]
      case Expire => []
      case Store(true) => Kept(next, before) + (if JustPublished(before) then [next + Published(before) - 1] else [])
      case _ => Kept(next, before)
  }

  lemma {:induction false} Snoc(s: State, steps: seq<Step>, last: Step)
    requires Legal(s, steps + [last])
    ensures Legal(s, steps) && Enabled(After(s, steps), last)
    ensures After(s, steps + [last]) == Apply(After(s, steps), last)
    ensures Published(steps + [last]) == Published(steps) + (if last.Publish? then 1 else 0)
    decreases |steps|
  {
    if steps == [] {
      assert [] + [last] == [last] && [last][1..] == [];
    } else {
      assert (steps + [last])[1..] == steps[1..] + [last];
      Snoc(Apply(s, steps[0]), steps[1..], last);
    }
  }

  /** Along any path from a state with nothing half-published, exactly the events published without an
      error and then stored are added to what the list had, since it last expired; an event whose
      publication raised never is. */
  lemma {:induction false} StoredIsWhatWasPublished(s: State, steps: seq<Step>)
    requires Legal(s, steps) && s.pending == None && s.next > 0
    ensures var end := After(s, steps);
      && end.next == s.next + Published(steps)
      && end.history == (if Expire in steps then [] else s.history) + Kept(s.next, steps)
      && end.pending == (if JustPublished(steps) then Some(s.next + Published(steps) - 1) else None)
    decreases |steps|
  {
    if steps != [] {
      var before, last := steps[..|steps| - 1], steps[|steps| - 1];
      assert steps == before + [last];
      Snoc(s, before, last);
      StoredIsWhatWasPublished(s, before);
      assert Expire in steps <==> Expire in before || last == Expire;
    }
  }

  /** Undisturbed, an event published without an error is the newest in the replay list, whether or not
      it reached any subscriber; one whose publication raised cannot be stored at all. */
  lemma {:induction false} PublishedIsReplayable(s: State, delivered: bool)
    requires Inv(s) && s.pending == None
    ensures var steps := [Publish(delivered, false)] + [Store(true)];
      && Legal(s, steps)
      && |After(s, steps).buffer| > 0 && After(s, steps).buffer[|After(s, steps).buffer| - 1] == s.next
    ensures forall ok :: !Enabled(Apply(s, Publish(delivered, true)), Store(ok))
  {
    var steps := [Publish(delivered, false)] + [Store(true)];
    var published := Apply(s, Publish(delivered, false));
    assert steps[1..] == [Store(true)] && [Store(true)][1..] == [];
    assert Legal(published, [Store(true)]) && After(published, [Store(true)]) == Apply(published, Store(true));
    BufferIsTheTail(s.history + [s.next]);
    StoredNext(s.history, s.next);
  }

  /** The list may expire at any moment; an event published before that and stored after it is then all
      that is left. */
  lemma {:induction false} ExpiryBeforeTheStore(s: State)
    requires s.pending.Some?
    ensures Legal(s, [Expire] + [Store(true)])
    ensures After(s, [Expire] + [Store(true)]).buffer == [s.pending.value]
  {
    var expired := Apply(s, Expire);
    assert ([Expire] + [Store(true)])[1..] == [Store(true)] && [Store(true)][1..] == [];
    assert Legal(expired, [Store(true)]) && After(expired, [Store(true)]) == Apply(expired, Store(true));
  }

  /** A viewer may drop at any point of its connection; when it connects again it asks for what follows
      the last event it was shown, and loses nothing it was shown. */
  lemma DroppedClientsComeBack(s: State, c: ClientId)
    requires Inv(s) && c in s.clients && s.clients[c].link != Offline
    ensures Enabled(s, Disconnect(c))
    ensures var dropped := Apply(s, Disconnect(c));
      && Enabled(dropped, Connect(c))
      && var back, log := Apply(dropped, Connect(c)).clients[c], s.clients[c].log;
      && back.log == log
      && back.link == Opened(if log == [] then 0 else log[|log| - 1])
  {
    assert ClientOk(s.clients[c], s.next);
  }

  /** A viewer that has been shown something reads the replay list before it can subscribe; one that has
      not subscribes at once. */
  lemma ConnectingClients(s: State, c: ClientId, reachable: bool)
    requires Inv(s) && c in s.clients && s.clients[c].link.Opened?
    ensures Enabled(s, ReplayRead(c, reachable)) <==> s.clients[c].log != []
    ensures Enabled(s, Subscribe(c)) <==> s.clients[c].log == []
  {
    var client := s.clients[c];
    assert ClientOk(client, s.next);
    assert client.log == Traffic(client);
  }
}
