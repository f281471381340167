/** The replay list of a run in Redis: push, trim to the last 200, read back what is newer. */
module ReplayBuffer {
  import opened Wrappers

  const MAX_REPLAY_BUFFER_SIZE := 200

  // ---------------------------------------------------------------- the list

  function LastN<T>(list: seq<T>, n: nat): seq<T> {
    if |list| <= n then list else list[|list| - n..]
  }

  /** LTRIM: negative indices count from the end, the range is inclusive and clipped. */
  function LTrim<T>(list: seq<T>, start: int, stop: int): seq<T> {
    var n := |list|;
    var lo := if start < 0 then (if n + start < 0 then 0 else n + start) else start;
    var hi := if stop < 0 then n + stop else if stop >= n then n - 1 else stop;
    if lo > hi || lo >= n then [] else list[lo..hi + 1]
  }

  lemma TrimKeepsTheTail<T>(list: seq<T>, n: nat)
    requires n > 0
    ensures LTrim(list, 0 - n, -1) == LastN(list, n)
  {
  }

  lemma TailOfTail<T>(list: seq<T>, x: T, n: nat)
    requires n > 0
    ensures LastN(LastN(list, n) + [x], n) == LastN(list + [x], n)
  {
    if |list| > n {
      assert LastN(list, n) + [x] == (list + [x])[|list| - n..];
    }
  }

  /** What one successful RPUSH, LTRIM pipeline leaves in the list. */
  function Stored<T>(list: seq<T>, m: T): seq<T> {
    LTrim(list + [m], -MAX_REPLAY_BUFFER_SIZE, -1)
  }

  /** What a history of them leaves in a list that was empty or had expired. */
  function StoredAll<T>(history: seq<T>): seq<T> {
    if history == [] then []
    else Stored(StoredAll(history[..|history| - 1]), history[|history| - 1])
  }

  /** After any history of stores the list holds the last min(n, 200) events. */
  lemma {:induction false} BufferIsTheTail<T>(history: seq<T>)
    ensures StoredAll(history) == LastN(history, MAX_REPLAY_BUFFER_SIZE)
    ensures |StoredAll(history)| == if |history| < 200 then |history| else 200
  {
    if history != [] {
      var before, m := history[..|history| - 1], history[|history| - 1];
      BufferIsTheTail(before);
      TrimKeepsTheTail(StoredAll(before) + [m], 200);
      TailOfTail(before, m, 200);
      assert before + [m] == history;
    }
  }

  // ---------------------------------------------------------------- reading back

  /** The events of one worker, known by their numbers: those above `after`, in order. */
  function Above(numbers: seq<nat>, after: nat): seq<nat> {
    if numbers == [] then [] else (if numbers[0] > after then [numbers[0]] else []) + Above(numbers[1..], after)
  }

  ghost predicate Increasing(numbers: seq<nat>) {
    forall i, j :: 0 <= i < j < |numbers| ==> numbers[i] < numbers[j]
  }

  lemma {:induction false} AboveFrom(numbers: seq<nat>, after: nat, k: nat)
    requires k <= |numbers|
    requires forall i :: 0 <= i < k ==> numbers[i] <= after
    requires forall i :: k <= i < |numbers| ==> numbers[i] > after
    ensures Above(numbers, after) == numbers[k..]
  {
    if numbers != [] {
      if k > 0 {
        AboveFrom(numbers[1..], after, k - 1);
      } else {
        AboveFrom(numbers[1..], after, 0);
      }
    }
  }

  /** Where the numbers above `after` begin in an increasing list. */
  lemma {:induction false} FirstAbove(numbers: seq<nat>, after: nat) returns (k: nat)
    requires Increasing(numbers)
    ensures k <= |numbers|
    ensures forall i :: 0 <= i < k ==> numbers[i] <= after
    ensures forall i :: k <= i < |numbers| ==> numbers[i] > after
  {
    k := |numbers|;
    while k > 0 && numbers[k - 1] > after
      invariant k <= |numbers|
      invariant forall i :: k <= i < |numbers| ==> numbers[i] > after
    {
      k := k - 1;
    }
    assert forall i :: 0 <= i < k ==> numbers[i] <= numbers[k - 1];
  }

  /** In an increasing list the events above a number are a suffix of it. */
  lemma {:induction false} AboveIsASuffix(numbers: seq<nat>, after: nat) returns (k: nat)
    requires Increasing(numbers)
    ensures k <= |numbers| && Above(numbers, after) == numbers[k..]
    ensures forall i :: 0 <= i < k ==> numbers[i] <= after
    ensures forall i :: k <= i < |numbers| ==> numbers[i] > after
  {
    k := FirstAbove(numbers, after);
    AboveFrom(numbers, after, k);
  }

  /** Dropping k and keeping the last n, in either order. */
  lemma DropThenLast<T>(list: seq<T>, k: nat, n: nat)
    requires k <= |list|
    ensures LastN(list[k..], n) == if |list| <= n || k >= |list| - n then list[k..] else list[|list| - n..]
  {
  }

  lemma {:induction false} AboveInTheTail(history: seq<nat>, n: nat, after: nat)
    requires Increasing(history)
    ensures Above(LastN(history, n), after) == LastN(Above(history, after), n)
  {
    var k := FirstAbove(history, after);
    AboveFrom(history, after, k);
    DropThenLast(history, k, n);
    if |history| > n {
      var cut := |history| - n;
      if k >= cut {
        AboveFrom(history[cut..], after, k - cut);
        assert history[cut..][k - cut..] == history[k..];
      } else {
        AboveFrom(history[cut..], after, 0);
        assert history[cut..][0..] == history[cut..];
      }
    }
  }

  /** Replaying from the buffer gives the newest 200 of the missed events; that is all of them, in
      order, if and only if at most 200 were missed. */
  lemma {:induction false} ReplayIsCompleteIff(history: seq<nat>, after: nat)
    requires Increasing(history)
    ensures Above(StoredAll(history), after) == LastN(Above(history, after), MAX_REPLAY_BUFFER_SIZE)
    ensures Above(StoredAll(history), after) == Above(history, after)
       <==> |Above(history, after)| <= MAX_REPLAY_BUFFER_SIZE
  {
    BufferIsTheTail(history);
    AboveInTheTail(history, 200, after);
    var all := Above(history, after);
    assert |LastN(all, 200)| == if |all| <= 200 then |all| else 200;
  }

  // ---------------------------------------------------------------- the class

  /** A stored string: a JSON object with or without a sequence number, something that does not parse,
      or something that parses and makes the test below raise (not an object, or a sequence number
      that is no number). */
  datatype Message = Json(seqNum: Option<int>, body: string) | NotJson(body: string) | Unexpected(body: string)

  /** `parsed.get("seq_num", 0) > after`; what does not parse is skipped. */
  predicate NewerThan(m: Message, after: int) {
    m.Json? && (if m.seqNum.Some? then m.seqNum.value else 0) > after
  }

  function Newer(list: seq<Message>, after: int): seq<Message> {
    if list == [] then [] else (if NewerThan(list[0], after) then [list[0]] else []) + Newer(list[1..], after)
  }

  lemma {:induction false} NewerConcat(a: seq<Message>, b: seq<Message>, after: int)
    ensures Newer(a + b, after) == Newer(a, after) + Newer(b, after)
  {
    if a == [] {
      assert a + b == b;
    } else {
      assert (a + b)[1..] == a[1..] + b;
      NewerConcat(a[1..], b, after);
    }
  }

  /** A published event as it is stored; `body` stands for its other fields. */
  function Event(n: nat): Message { Json(Some(n), "snapshot") }

  function Events(numbers: seq<nat>): seq<Message> {
    if numbers == [] then [] else [Event(numbers[0])] + Events(numbers[1..])
  }

  /** On a worker's own events, reading back selects by number. */
  lemma {:induction false} NewerEvents(numbers: seq<nat>, after: nat)
    ensures Newer(Events(numbers), after) == Events(Above(numbers, after))
  {
    if numbers != [] {
      NewerEvents(numbers[1..], after);
      assert Events(numbers)[1..] == Events(numbers[1..]);
      assert Above(numbers, after)[if numbers[0] > after then 1 else 0..] == Above(numbers[1..], after);
    }
  }

  lemma {:induction false} EventsAt(numbers: seq<nat>)
    ensures |Events(numbers)| == |numbers|
    ensures forall i :: 0 <= i < |numbers| ==> Events(numbers)[i] == Event(numbers[i])
  {
    if numbers != [] {
      EventsAt(numbers[1..]);
    }
  }

  /** And storing one of them appends its number and trims alike. */
  lemma {:induction false} StoredEvents(numbers: seq<nat>, n: nat)
    ensures Stored(Events(numbers), Event(n)) == Events(Stored(numbers, n))
  {
    EventsAt(numbers);
    EventsAt(Stored(numbers, n));
    TrimKeepsTheTail(numbers + [n], MAX_REPLAY_BUFFER_SIZE);
    TrimKeepsTheTail(Events(numbers) + [Event(n)], MAX_REPLAY_BUFFER_SIZE);
  }

  /** One run's list, changed in place as Redis does. */
  class RedisEventPublisher {
    var list: seq<Message>

    constructor ()
      ensures list == []
    {
      list := [];
    }

    /** The pipeline RPUSH, LTRIM, or, when Redis is unreachable, nothing: the error is logged. */
    method StoreForReplay(m: Message, reachable: bool)
      modifies this
      ensures list == if reachable then LastN(old(list) + [m], 200) else old(list)
      ensures reachable ==> list == Stored(old(list), m)
    {
      if reachable {
        list := list + [m];
        TrimKeepsTheTail(list, MAX_REPLAY_BUFFER_SIZE);
        list := LTrim(list, -MAX_REPLAY_BUFFER_SIZE, -1);
      }
    }

    /** The stored events newer than `after`, in order; one unexpected message makes the whole
        read fail, which is logged and answered with nothing. */
    method GetReplayEvents(after: int) returns (replay: seq<Message>)
      ensures replay == if exists i :: 0 <= i < |list| && list[i].Unexpected? then [] else Newer(list, after)
    {
      replay := [];
      var i := 0;
      while i < |list|
        invariant i <= |list| && replay == Newer(list[..i], after)
        invariant forall k :: 0 <= k < i ==> !list[k].Unexpected?
      {
        if list[i].Unexpected? {
          return [];
        }
        assert list[..i + 1] == list[..i] + [list[i]];
        NewerConcat(list[..i], [list[i]], after);
        if list[i].Json? && (if list[i].seqNum.Some? then list[i].seqNum.value else 0) > after {
          replay := replay + [list[i]];
        }
        i := i + 1;
      }
      assert list[..i] == list;
    }
  }

  /** What is read back: the parsed messages with a number above `after`; one without a number counts
      as 0. */
  lemma {:induction false} NewerMembers(list: seq<Message>, after: int, m: Message)
    ensures m in Newer(list, after) <==>
      m in list && m.Json? && (m.seqNum.Some? ==> m.seqNum.value > after) && (m.seqNum == None ==> after < 0)
  {
    if list != [] {
      NewerMembers(list[1..], after, m);
      assert list == [list[0]] + list[1..];
    }
  }
}
