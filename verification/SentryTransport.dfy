/**
 The auth sentry's delivery queue: senders append, one goroutine posts the head, waits after
 a retry, and makes a pass over the whole queue when a flush cuts the wait short. Every
 critical section is one move; between moves anything another party may do can happen.
 */
module SentryTransport {

  const BUFFER_CAP := 100

  /** Nanoseconds. */
  const SECOND := 1_000_000_000
  const BACKOFF_CAP := 300 * SECOND
  const RATE_LIMIT_CAP := 3600 * SECOND

  /** Events are numbered in the order the transport accepts them. */
  type Event = nat

  /** How one attempt at posting an event ends. */
  datatype Outcome = Delivered | Dropped | Retry

  /** What became of an event that was taken: an attempt, or none for want of a destination. */
  datatype Result = Tried(outcome: Outcome) | NoDestination

  predicate Final(r: Result) {
    r != Tried(Retry)
  }

  /** Where the delivering goroutine is; `dsn` is whether it saw a destination when it took the event. */
  datatype Place =
    | Idle
    | Posting(head: Event, dsn: bool)
    | Settling(head: Event, tried: bool)
    | Sleeping(d: int)
    | Flushing(snap: seq<Event>, left: nat, d: int)
    | Removing(snap: seq<Event>, left: nat, e: Event, d: int)
    | Stopped

  datatype Exit = Overflow(e: Event) | Attempted(e: Event) | Discarded(e: Event)

  datatype Entry = Entry(e: Event, result: Result)

  /** The queue and the goroutine, with the record of what happened. */
  datatype State = State(queue: seq<Event>, configured: bool, closed: bool, at: Place, failures: nat,
                         accepted: nat, exits: seq<Exit>, log: seq<Entry>, waits: seq<int>)

  datatype Move =
    | Configure
    | Send
    | Close
    | Take
    | Post(outcome: Outcome, wait: int)
    | Settle
    | Wake
    | Kick
    | FlushPost(post: Outcome)
    | FlushSettle
    | FlushEnd

  const START := State([], false, false, Idle, 0, 0, [], [], [])

  // ---- Critical sections ----

  /** A full buffer drops its oldest event. */
  function Pushed(queue: seq<Event>, e: Event): seq<Event> {
    (if |queue| >= BUFFER_CAP then queue[1..] else queue) + [e]
  }

  function WithoutHead(queue: seq<Event>, head: Event): seq<Event> {
    if |queue| > 0 && queue[0] == head then queue[1..] else queue
  }

  function Without(queue: seq<Event>, e: Event): seq<Event> {
    if queue == [] then []
    else if queue[0] == e then queue[1..]
    else [queue[0]] + Without(queue[1..], e)
  }

  function Power(n: nat): nat {
    if n == 0 then 1 else 2 * Power(n - 1)
  }

  function Min(a: int, b: int): int {
    if a < b then a else b
  }

  function Max(a: int, b: int): int {
    if a < b then b else a
  }

  /** How long to wait after a retry: doubling to five minutes, or what the server asks for up to an hour. */
  function Pause(failures: nat, wait: int): int {
    Max(Min(SECOND * Power(Min(failures, 20)), BACKOFF_CAP), Min(wait, RATE_LIMIT_CAP))
  }

  // ---- Moves ----

  function Sent(s: State): State {
    if s.closed then s
    else s.(queue := Pushed(s.queue, s.accepted), accepted := s.accepted + 1,
            exits := s.exits + if |s.queue| >= BUFFER_CAP then [Overflow(s.queue[0])] else [])
  }

  function Taken(s: State): State {
    if s.at != Idle then s
    else if s.closed then s.(at := Stopped)
    else if s.queue == [] then s
    else s.(at := Posting(s.queue[0], s.configured))
  }

  /** With no destination the event is given up without an attempt being made. */
  function Posted(s: State, outcome: Outcome, wait: int): State {
    if !s.at.Posting? then s
    else
      var res := if s.at.dsn then Tried(outcome) else NoDestination;
      var d := Pause(s.failures, wait);
      var noted := s.(log := s.log + [Entry(s.at.head, res)]);
      if Final(res) then noted.(failures := 0, at := Settling(s.at.head, s.at.dsn))
      else noted.(failures := s.failures + 1, at := Sleeping(d), waits := s.waits + [d])
  }

  function Settled(s: State): State {
    if !s.at.Settling? then s
    else
      var exit := if s.at.tried then Attempted(s.at.head) else Discarded(s.at.head);
      s.(queue := WithoutHead(s.queue, s.at.head), at := Idle,
         exits := s.exits + if |s.queue| > 0 && s.queue[0] == s.at.head then [exit] else [])
  }

  function Woken(s: State): State {
    if !s.at.Sleeping? then s else s.(at := Idle)
  }

  /** A flush cuts the wait short; without a destination it only starts the wait again. */
  function Kicked(s: State): State {
    if !s.at.Sleeping? then s
    else if s.configured then s.(at := Flushing(s.queue, |s.queue|, s.at.d))
    else s.(waits := s.waits + [s.at.d])
  }

  /** The next attempt of the pass, newest first; a retry moves on to the event before. */
  function FlushPosted(s: State, outcome: Outcome): State {
    if !s.at.Flushing? || s.closed || s.at.left == 0 || s.at.left > |s.at.snap| then s
    else
      var e := s.at.snap[s.at.left - 1];
      var noted := s.(log := s.log + [Entry(e, Tried(outcome))]);
      if outcome == Retry then noted.(at := Flushing(s.at.snap, s.at.left - 1, s.at.d))
      else noted.(at := Removing(s.at.snap, s.at.left - 1, e, s.at.d))
  }

  function FlushSettled(s: State): State {
    if !s.at.Removing? then s
    else s.(queue := Without(s.queue, s.at.e), at := Flushing(s.at.snap, s.at.left, s.at.d),
            exits := s.exits + if s.at.e in s.queue then [Attempted(s.at.e)] else [])
  }

  /** The pass ends, or stops early on close, and the same wait starts again. */
  function FlushEnded(s: State): State {
    if !s.at.Flushing? || (s.at.left > 0 && !s.closed) then s
    else s.(at := Sleeping(s.at.d), waits := s.waits + [s.at.d])
  }

  function Next(s: State, m: Move): State {
    match m
    case Configure => s.(configured := true)
    case Send => Sent(s)
    case Close => s.(closed := true)
    case Take => Taken(s)
    case Post(outcome, wait) => Posted(s, outcome, wait)
    case Settle => Settled(s)
    case Wake => Woken(s)
    case Kick => Kicked(s)
    case FlushPost(outcome) => FlushPosted(s, outcome)
    case FlushSettle => FlushSettled(s)
    case FlushEnd => FlushEnded(s)
  }

  /** Any interleaving of the senders, the delivering goroutine, flushes and close. */
  function Trace(moves: seq<Move>): State {
    if moves == [] then START else Next(Trace(moves[..|moves| - 1]), moves[|moves| - 1])
  }

  // ---- What every interleaving keeps ----

  ghost predicate Ascending(s: seq<Event>) {
    forall i, j | 0 <= i < j < |s| :: s[i] < s[j]
  }

  /** The event has been delivered, dropped, or given up. */
  ghost predicate Done(log: seq<Entry>, e: Event) {
    exists k :: 0 <= k < |log| && log[k].e == e && Final(log[k].result)
  }

  ghost predicate Noted(log: seq<Entry>, e: Event, tried: bool) {
    exists k :: 0 <= k < |log| && log[k].e == e && Final(log[k].result) && log[k].result.Tried? == tried
  }

  /** At most one entry on an event ends in anything but a retry. */
  ghost predicate DoneOnce(log: seq<Entry>) {
    forall j, k | 0 <= j < k < |log| && Final(log[j].result) && Final(log[k].result) :: log[j].e != log[k].e
  }

  ghost predicate Left(exits: seq<Exit>, e: Event) {
    exists k :: 0 <= k < |exits| && exits[k].e == e
  }

  ghost predicate LeftOnce(exits: seq<Exit>) {
    forall j, k | 0 <= j < k < |exits| :: exits[j].e != exits[k].e
  }

  /** The queue is in acceptance order and bounded, and every accepted event is in it or has left. */
  ghost predicate QueueOk(s: State) {
    && Ascending(s.queue) && |s.queue| <= BUFFER_CAP
    && (forall e | e in s.queue :: e < s.accepted)
    && (forall e: Event :: Left(s.exits, e) <==> e < s.accepted && e !in s.queue)
    && LeftOnce(s.exits)
  }

  ghost predicate ExitsOk(s: State) {
    forall k | 0 <= k < |s.exits| ::
      match s.exits[k]
      case Attempted(e) => Noted(s.log, e, true)
      case Discarded(e) => Noted(s.log, e, false)
      case Overflow(e) => e + BUFFER_CAP < s.accepted
  }

  /** The goroutine never holds an event that is already done, except to take it out of the queue. */
  ghost predicate PlaceOk(s: State) {
    match s.at
    case Posting(head, _) =>
      && head < s.accepted && !Done(s.log, head) && (forall e | e in s.queue :: head <= e && !Done(s.log, e))
    case Settling(head, tried) =>
      && head < s.accepted && Done(s.log, head) && Noted(s.log, head, tried)
          && (forall e | e in s.queue :: head <= e && (Done(s.log, e) ==> e == head))
    case Flushing(snap, left, _) =>
      && left <= |snap| && Ascending(snap) && (forall k | 0 <= k < left :: !Done(s.log, snap[k]))
      && (forall e | e in snap :: e < s.accepted) && (forall e | e in s.queue :: !Done(s.log, e))
    case Removing(snap, left, e, _) =>
      && left < |snap| && snap[left] == e && Ascending(snap) && (forall k | 0 <= k < left :: !Done(s.log, snap[k]))
      && (forall e | e in snap :: e < s.accepted)
      && Done(s.log, e) && Noted(s.log, e, true) && (forall q | q in s.queue :: Done(s.log, q) ==> q == e)
    case _ => forall e | e in s.queue :: !Done(s.log, e)
  }

  /** Nothing not yet accepted is in the log. */
  ghost predicate EntriesKnown(s: State) {
    forall k | 0 <= k < |s.log| :: s.log[k].e < s.accepted
  }

  predicate WaitsOk(s: State) {
    && (forall k | 0 <= k < |s.waits| :: SECOND <= s.waits[k] <= RATE_LIMIT_CAP)
    && (s.at.Sleeping? || s.at.Flushing? || s.at.Removing? ==> SECOND <= s.at.d <= RATE_LIMIT_CAP)
  }

  ghost predicate Inv(s: State) {
    QueueOk(s) && ExitsOk(s) && PlaceOk(s) && EntriesKnown(s) && DoneOnce(s.log) && WaitsOk(s)
  }

  lemma DoneGrows(log: seq<Entry>, a: Entry)
    ensures forall e :: Done(log + [a], e) <==> Done(log, e) || (a.e == e && Final(a.result))
  {
    forall e ensures Done(log + [a], e) <==> Done(log, e) || (a.e == e && Final(a.result)) {
      if Done(log, e) {
        var k :| 0 <= k < |log| && log[k].e == e && Final(log[k].result);
        assert (log + [a])[k] == log[k];
      }
      if a.e == e && Final(a.result) {
        assert (log + [a])[|log|] == a;
      }
    }
  }

  lemma NotedGrows(log: seq<Entry>, a: Entry)
    ensures forall e, tried | Noted(log, e, tried) :: Noted(log + [a], e, tried)
    ensures Final(a.result) ==> Noted(log + [a], a.e, a.result.Tried?)
  {
    forall e, tried | Noted(log, e, tried) ensures Noted(log + [a], e, tried) {
      var k :| 0 <= k < |log| && log[k].e == e && Final(log[k].result) && log[k].result.Tried? == tried;
      assert (log + [a])[k] == log[k];
    }
    assert (log + [a])[|log|] == a;
  }

  lemma DoneOnceGrows(log: seq<Entry>, a: Entry)
    requires DoneOnce(log) && (Final(a.result) ==> !Done(log, a.e))
    ensures DoneOnce(log + [a])
  {
  }

  lemma LeftGrows(exits: seq<Exit>, x: Exit)
    ensures forall e :: Left(exits + [x], e) <==> Left(exits, e) || x.e == e
  {
    forall e ensures Left(exits + [x], e) <==> Left(exits, e) || x.e == e {
      if Left(exits, e) {
        var k :| 0 <= k < |exits| && exits[k].e == e;
        assert (exits + [x])[k] == exits[k];
      }
      if x.e == e {
        assert (exits + [x])[|exits|] == x;
      }
    }
  }

  lemma LeftOnceGrows(exits: seq<Exit>, x: Exit)
    requires LeftOnce(exits) && !Left(exits, x.e)
    ensures LeftOnce(exits + [x])
  {
  }

  lemma HeadOut(queue: seq<Event>)
    requires Ascending(queue) && |queue| > 0
    ensures Ascending(queue[1..]) && forall e :: e in queue[1..] <==> e in queue && e != queue[0]
  {
    assert queue == [queue[0]] + queue[1..];
    forall e | e in queue[1..] ensures e != queue[0] {
      var k :| 1 <= k < |queue| && queue[k] == e;
      assert queue[0] < queue[k];
    }
  }

  lemma HeadLeast(queue: seq<Event>)
    requires Ascending(queue) && |queue| > 0
    ensures queue[0] in queue && forall e | e in queue :: queue[0] <= e
  {
    forall e | e in queue ensures queue[0] <= e {
      var k :| 0 <= k < |queue| && queue[k] == e;
      assert k > 0 ==> queue[0] < queue[k];
    }
  }

  /** An ascending queue spans at least its length. */
  lemma {:induction false} Spans(queue: seq<Event>)
    requires Ascending(queue) && |queue| > 0
    ensures queue[0] + |queue| - 1 <= queue[|queue| - 1]
  {
    if |queue| > 1 {
      Spans(queue[..|queue| - 1]);
      assert queue[|queue| - 2] < queue[|queue| - 1];
    }
  }

  lemma Prepended(h: Event, rest: seq<Event>)
    requires Ascending(rest) && forall x | x in rest :: h < x
    ensures Ascending([h] + rest)
  {
    assert forall k | 0 <= k < |rest| :: rest[k] in rest;
  }

  lemma {:induction false} WithoutExact(queue: seq<Event>, e: Event)
    requires Ascending(queue)
    ensures Ascending(Without(queue, e)) && |Without(queue, e)| <= |queue|
    ensures forall x :: x in Without(queue, e) <==> x in queue && x != e
  {
    hide Ascending;
    if queue != [] {
      HeadOut(queue);
      HeadLeast(queue);
      if queue[0] != e {
        WithoutExact(queue[1..], e);
        Prepended(queue[0], Without(queue[1..], e));
        assert forall x :: x in queue <==> x == queue[0] || x in queue[1..];
      }
    }
  }

  // ---- The queue moves ----

  lemma QueueAfterSend(s: State)
    requires QueueOk(s) && !s.closed
    ensures QueueOk(Sent(s))
  {
    var s' := Sent(s);
    var kept := if |s.queue| >= BUFFER_CAP then s.queue[1..] else s.queue;
    if |s.queue| >= BUFFER_CAP {
      HeadOut(s.queue);
      HeadLeast(s.queue);
      LeftGrows(s.exits, Overflow(s.queue[0]));
      LeftOnceGrows(s.exits, Overflow(s.queue[0]));
    } else {
      assert s.exits + [] == s.exits;
    }
    assert s'.queue == kept + [s.accepted];
    Appended(kept, s.accepted);
    hide Left, LeftOnce, Ascending;
    forall e: Event ensures Left(s'.exits, e) <==> e < s'.accepted && e !in s'.queue {
      assert e in s'.queue <==> e in kept || e == s.accepted;
    }
  }

  lemma Appended(kept: seq<Event>, e: Event)
    requires Ascending(kept) && forall x | x in kept :: x < e
    ensures Ascending(kept + [e])
  {
    assert forall k | 0 <= k < |kept| :: kept[k] in kept;
  }

  /** Taking one event out of the queue keeps the account. */
  lemma QueueAfterRemoval(s: State, queue: seq<Event>, e: Event, exit: Exit)
    requires exit.e == e && QueueOk(s) && e in s.queue && Ascending(queue) && |queue| <= |s.queue|
    requires forall x :: x in queue <==> x in s.queue && x != e
    ensures var s' := s.(queue := queue, exits := s.exits + [exit]); QueueOk(s')
  {
    LeftGrows(s.exits, exit);
    LeftOnceGrows(s.exits, exit);
    hide Left, LeftOnce, Ascending;
  }

  /** What a send adds to the queue is new, and what it drops had a hundred newer events behind it. */
  lemma SendQueue(s: State)
    requires QueueOk(s) && !s.closed
    ensures forall e | e in Sent(s).queue :: e in s.queue || e == s.accepted
    ensures |s.queue| >= BUFFER_CAP ==> s.queue[0] + BUFFER_CAP < s.accepted + 1
  {
    if |s.queue| >= BUFFER_CAP {
      HeadOut(s.queue);
      Spans(s.queue);
      assert s.queue[|s.queue| - 1] in s.queue;
    }
    hide Left, LeftOnce, Ascending;
  }

  lemma SendKeeps(s: State)
    requires Inv(s)
    ensures Inv(Sent(s))
  {
    if !s.closed {
      QueueAfterSend(s);
      SendQueue(s);
      NotDoneYet(s, s.accepted);
      hide Done, Noted, QueueOk, DoneOnce, Ascending, Pushed;
      assert ExitsOk(Sent(s));
      SendPlace(s, Sent(s).queue, Sent(s).exits);
    }
  }

  lemma SendPlace(s: State, queue: seq<Event>, exits: seq<Exit>)
    requires PlaceOk(s) && !Done(s.log, s.accepted) && forall e | e in queue :: e in s.queue || e == s.accepted
    ensures PlaceOk(s.(queue := queue, accepted := s.accepted + 1, exits := exits))
  {
    hide Done, Noted, Ascending;
  }

  lemma NotDoneYet(s: State, e: Event)
    requires EntriesKnown(s) && e >= s.accepted
    ensures !Done(s.log, e)
  {
  }

  /** The queue's account reads nothing but the queue, the exits and how many were accepted. */
  lemma QueueUntouched(s: State, s': State)
    requires QueueOk(s) && s'.queue == s.queue && s'.accepted == s.accepted && s'.exits == s.exits
    ensures QueueOk(s')
    ensures forall e | e in s'.queue :: e < s'.accepted
  {
    hide Left, LeftOnce, Ascending;
  }

  /** What the exits say of the log stays true as the log grows. */
  lemma ExitsUntouched(s: State, s': State, a: Entry)
    requires ExitsOk(s) && s'.log == s.log + [a] && s'.accepted == s.accepted && s'.exits == s.exits
    ensures ExitsOk(s')
  {
    NotedGrows(s.log, a);
    hide Noted;
  }

  lemma PostKeeps(s: State, outcome: Outcome, wait: int)
    requires Inv(s)
    ensures Inv(Posted(s, outcome, wait))
  {
    if s.at.Posting? {
      var a := Entry(s.at.head, if s.at.dsn then Tried(outcome) else NoDestination);
      QueueUntouched(s, Posted(s, outcome, wait));
      ExitsUntouched(s, Posted(s, outcome, wait), a);
      NotedGrows(s.log, a);
      DoneGrows(s.log, a);
      DoneOnceGrows(s.log, a);
      PauseBounds(s.failures, wait);
      hide Done, Noted, DoneOnce, QueueOk, ExitsOk, Pause;
    }
  }

  lemma {:induction false} PowerPositive(n: nat)
    ensures Power(n) >= 1
  {
    if n > 0 {
      PowerPositive(n - 1);
    }
  }

  /** Every wait is between a second and an hour. */
  lemma PauseBounds(failures: nat, wait: int)
    ensures SECOND <= Pause(failures, wait) <= RATE_LIMIT_CAP
  {
    PowerPositive(Min(failures, 20));
  }

  lemma SettleKeeps(s: State)
    requires Inv(s)
    ensures Inv(Settled(s))
  {
    if s.at.Settling? {
      var head := s.at.head;
      if |s.queue| > 0 && s.queue[0] == head {
        HeadOut(s.queue);
        HeadLeast(s.queue);
        var exit := if s.at.tried then Attempted(head) else Discarded(head);
        QueueAfterRemoval(s, s.queue[1..], head, exit);
        assert Settled(s) == s.(queue := s.queue[1..], exits := s.exits + [exit], at := Idle);
        hide Done, Noted, DoneOnce, Left, LeftOnce, Ascending;
      } else {
        HeadGone(s.queue, head);
        assert s.exits + [] == s.exits;
        hide Done, Noted, DoneOnce, Left, LeftOnce, Ascending;
      }
    }
  }

  lemma HeadGone(queue: seq<Event>, head: Event)
    requires Ascending(queue) && (forall e | e in queue :: head <= e) && !(|queue| > 0 && queue[0] == head)
    ensures head !in queue
  {
    if |queue| > 0 {
      HeadLeast(queue);
    }
  }

  lemma FlushPostKeeps(s: State, outcome: Outcome)
    requires Inv(s)
    ensures Inv(FlushPosted(s, outcome))
  {
    if s.at.Flushing? && !s.closed && s.at.left > 0 {
      var snap, left := s.at.snap, s.at.left - 1;
      var a := Entry(snap[left], Tried(outcome));
      NotedGrows(s.log, a);
      assert snap[left] in snap;
      QueueUntouched(s, FlushPosted(s, outcome));
      ExitsUntouched(s, FlushPosted(s, outcome), a);
      DoneGrows(s.log, a);
      DoneOnceGrows(s.log, a);
      assert forall k | 0 <= k < left :: snap[k] < snap[left];
      hide Done, Noted, DoneOnce, QueueOk, ExitsOk, Ascending;
    }
  }

  lemma FlushSettleKeeps(s: State)
    requires Inv(s)
    ensures Inv(FlushSettled(s))
  {
    if s.at.Removing? {
      WithoutExact(s.queue, s.at.e);
      if s.at.e in s.queue {
        QueueAfterRemoval(s, Without(s.queue, s.at.e), s.at.e, Attempted(s.at.e));
      } else {
        assert s.exits + [] == s.exits;
      }
      hide Done, Noted, DoneOnce, Left, LeftOnce, Without;
    }
  }

  lemma TakeKeeps(s: State)
    requires Inv(s)
    ensures Inv(Taken(s))
  {
    if s.queue != [] {
      HeadLeast(s.queue);
    }
    hide Done, Noted, DoneOnce, QueueOk, ExitsOk, Ascending, EntriesKnown, WaitsOk;
    Kept(s);
    SameQueue(s, Taken(s));
  }

  /** A move that touches neither queue nor record keeps what is said of them. */
  lemma SameQueue(s: State, s': State)
    requires QueueOk(s) && ExitsOk(s) && EntriesKnown(s) && WaitsOk(s)
    requires s'.queue == s.queue && s'.accepted == s.accepted && s'.exits == s.exits && s'.log == s.log
    requires (s'.waits == s.waits || ((s.at.Sleeping? || s.at.Flushing?) && s'.waits == s.waits + [s.at.d]))
    requires !(s'.at.Sleeping? || s'.at.Flushing? || s'.at.Removing?)
        || ((s.at.Sleeping? || s.at.Flushing?) && s'.at.d == s.at.d)
          || s'.at == s.at
    ensures QueueOk(s') && ExitsOk(s') && EntriesKnown(s') && WaitsOk(s')
  {
    hide Left, LeftOnce, Ascending, Done;
  }

  lemma QuietKeeps(s: State, m: Move)
    requires Inv(s) && (m.Configure? || m.Close? || m.Wake? || m.Kick? || m.FlushEnd?)
    ensures Inv(Next(s, m))
  {
    hide Done, Noted, DoneOnce, QueueOk, ExitsOk, EntriesKnown, WaitsOk;
    SameQueue(s, Next(s, m));
    assert forall k | 0 <= k < |s.queue| :: s.queue[k] in s.queue;
    Kept(s);
  }

  lemma Kept(s: State)
    requires QueueOk(s)
    ensures Ascending(s.queue) && forall e | e in s.queue :: e < s.accepted
  {
    hide Left, LeftOnce, Ascending;
  }

  lemma NextKeeps(s: State, m: Move)
    requires Inv(s)
    ensures Inv(Next(s, m))
  {
    hide Inv, Sent, Taken, Posted, Settled, FlushPosted, FlushSettled;
    match m
    case Send => SendKeeps(s);
    case Take => TakeKeeps(s);
    case Post(outcome, wait) => PostKeeps(s, outcome, wait);
    case Settle => SettleKeeps(s);
    case FlushPost(outcome) => FlushPostKeeps(s, outcome);
    case FlushSettle => FlushSettleKeeps(s);
    case _ => QuietKeeps(s, m);
  }

  lemma {:induction false} TraceKeeps(moves: seq<Move>)
    ensures Inv(Trace(moves))
  {
    if moves != [] {
      TraceKeeps(moves[..|moves| - 1]);
      NextKeeps(Trace(moves[..|moves| - 1]), moves[|moves| - 1]);
    }
  }

  // ---- The buffer in place ----

  lemma {:induction false} WithoutAt(queue: seq<Event>, j: nat)
    requires j < |queue| && forall k | 0 <= k < j :: queue[k] != queue[j]
    ensures Without(queue, queue[j]) == queue[..j] + queue[j + 1..]
  {
    if j > 0 {
      WithoutAt(queue[1..], j - 1);
      assert queue[..j] == [queue[0]] + queue[1..][..j - 1];
      assert queue[1..][j..] == queue[j + 1..];
    }
  }

  lemma {:induction false} WithoutAbsent(queue: seq<Event>, e: Event)
    requires e !in queue
    ensures Without(queue, e) == queue
  {
    if queue != [] {
      WithoutAbsent(queue[1..], e);
      assert queue == [queue[0]] + queue[1..];
    }
  }

  /** The queue's storage, shifted in place by every removal. */
  class Buffer {
    const data: array<Event>
    var len: nat

    ghost predicate Valid()
      reads this
    {
      data.Length == BUFFER_CAP && len <= BUFFER_CAP
    }

    ghost function Contents(): seq<Event>
      requires Valid()
      reads this, data
    {
      data[..len]
    }

    constructor ()
      ensures Valid() && fresh(data) && Contents() == []
    {
      data := new Event[BUFFER_CAP](_ => 0);
      len := 0;
    }

    /** Everything behind position j moves one place forward. */
    method RemoveAt(j: nat)
      requires Valid() && j < len
      modifies this`len, data
      ensures Valid() && Contents() == old(Contents())[..j] + old(Contents())[j + 1..]
    {
      for k := j to len - 1
        invariant len == old(len)
        invariant forall n | 0 <= n < j :: data[n] == old(data[n])
        invariant forall n | j <= n < k :: data[n] == old(data[n + 1])
        invariant forall n | k <= n < len :: data[n] == old(data[n])
      {
        data[k] := data[k + 1];
      }
      len := len - 1;
    }

    /** Never blocks: a full buffer drops its oldest event. */
    method SendEvent(e: Event)
      requires Valid()
      modifies this`len, data
      ensures Valid() && Contents() == Pushed(old(Contents()), e)
    {
      if len >= BUFFER_CAP {
        RemoveAt(0);
      }
      data[len] := e;
      len := len + 1;
    }

    /** After an attempt on the head: it leaves unless it already has. */
    method SettleHead(head: Event)
      requires Valid()
      modifies this`len, data
      ensures Valid() && Contents() == WithoutHead(old(Contents()), head)
    {
      if len > 0 && data[0] == head {
        RemoveAt(0);
      }
    }

    /** After an attempt in a flush pass: the event leaves wherever it stands. */
    method RemoveSent(e: Event)
      requires Valid()
      modifies this`len, data
      ensures Valid() && Contents() == Without(old(Contents()), e)
    {
      ghost var before := Contents();
      for j := 0 to len
        invariant Contents() == before && len == |before|
        invariant forall k | 0 <= k < j :: before[k] != e
      {
        assert data[j] == before[j];
        if data[j] == e {
          WithoutAt(before, j);
          RemoveAt(j);
          return;
        }
      }
      WithoutAbsent(before, e);
    }
  }

  // ---- Results ----

  /**
   Under every interleaving, each accepted event is in the queue or has left it exactly once: by overflow, after
   a hundred newer events were accepted; after an attempt on that same event that was not a retry; or given up
   without an attempt because there was no destination. An event done with is still queued only while the
   goroutine is about to take it out.
   */
  lemma {:induction false} EveryEventLeavesOnce(moves: seq<Move>, e: Event)
    requires e < Trace(moves).accepted
    ensures var s := Trace(moves);
      && (e in s.queue <==> forall k | 0 <= k < |s.exits| :: s.exits[k].e != e)
      && (forall j, k | 0 <= j < k < |s.exits| :: !(s.exits[j].e == e && s.exits[k].e == e))
      && (forall k | 0 <= k < |s.exits| && s.exits[k] == Attempted(e) ::
            exists n :: 0 <= n < |s.log| && s.log[n].e == e && s.log[n].result.Tried?
                && s.log[n].result.outcome != Retry)
      && (forall k | 0 <= k < |s.exits| && s.exits[k] == Discarded(e) ::
            exists n :: 0 <= n < |s.log| && s.log[n] == Entry(e, NoDestination))
      && (forall k | 0 <= k < |s.exits| && s.exits[k] == Overflow(e) :: e + BUFFER_CAP < s.accepted)
    ensures var s := Trace(moves);
      forall n | 0 <= n < |s.log| && s.log[n].e == e && s.log[n].result != Tried(Retry) && e in s.queue ::
        (s.at.Settling? && s.at.head == e) || (s.at.Removing? && s.at.e == e)
  {
    TraceKeeps(moves);
    var s := Trace(moves);
    hide Trace;
    assert Left(s.exits, e) <==> e !in s.queue;
    forall n | 0 <= n < |s.log| && s.log[n].e == e && s.log[n].result != Tried(Retry) && e in s.queue
      ensures (s.at.Settling? && s.at.head == e) || (s.at.Removing? && s.at.e == e)
    {
      assert Done(s.log, e);
    }
  }

  /** No event is delivered, dropped or given up twice. */
  lemma {:induction false} NoSecondOutcome(moves: seq<Move>, j: nat, k: nat)
    requires var s := Trace(moves); j < k < |s.log| && s.log[j].e == s.log[k].e
    ensures var s := Trace(moves); s.log[j].result == Tried(Retry) || s.log[k].result == Tried(Retry)
  {
    TraceKeeps(moves);
  }

  /** The queue is bounded and stays in acceptance order. */
  lemma QueueInOrder(moves: seq<Move>)
    ensures var s := Trace(moves);
      |s.queue| <= BUFFER_CAP && forall i, j | 0 <= i < j < |s.queue| :: s.queue[i] < s.queue[j]
  {
    TraceKeeps(moves);
  }

  /** Every wait is between a second and an hour, whatever the server asks for and however many failures came before. */
  lemma WaitsAreBounded(moves: seq<Move>, k: nat)
    requires k < |Trace(moves).waits|
    ensures SECOND <= Trace(moves).waits[k] <= RATE_LIMIT_CAP
  {
    TraceKeeps(moves);
  }
}
