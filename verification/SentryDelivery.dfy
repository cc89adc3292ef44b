/**
 Laws of the auth sentry's delivery: in what order events are tried, how long a retry waits,
 and what closing stops.
 */
module SentryDelivery {
  import opened SentryTransport

  // ---- Waiting ----

  /** Unasked, the first wait is a second and each next one twice as long, up to five minutes. */
  lemma UnaskedWait(n: nat, wait: int)
    requires wait <= 0
    ensures Pause(0, wait) == 1_000_000_000
    ensures Pause(n + 1, wait) == if 2 * Pause(n, wait) < 300_000_000_000 then 2 * Pause(n, wait) else 300_000_000_000
  {
    if n + 1 > 20 {
      LargePower(20);
    } else {
      assert Power(n + 1) == 2 * Power(n);
    }
    PowerPositive(Min(n, 20));
    assert Power(0) == 1;
    LargePower(Min(n + 1, 20));
  }

  lemma {:induction false} LargePower(n: nat)
    ensures n >= 9 ==> Power(n) >= 512
  {
    if n > 9 {
      LargePower(n - 1);
    } else if n == 9 {
      assert Power(9) == 2 * Power(8) == 4 * Power(7) == 8 * Power(6) == 16 * Power(5) == 32 * Power(4);
      assert Power(4) == 2 * Power(3) == 4 * Power(2) == 8 * Power(1) == 16 * Power(0);
    }
  }

  /** Asked to wait longer it does, up to an hour, and it never waits less than unasked. */
  lemma AskedWait(n: nat, wait: int)
    ensures Pause(n, wait) >= Pause(n, 0)
    ensures wait <= 3_600_000_000_000 ==> Pause(n, wait) >= wait
    ensures wait > Pause(n, 0) ==> Pause(n, wait) == if wait < 3_600_000_000_000 then wait else 3_600_000_000_000
    ensures wait <= Pause(n, 0) ==> Pause(n, wait) == Pause(n, 0)
  {
    hide Power;
    PowerPositive(Min(n, 20));
  }

  /** How many attempts on the head have ended in a retry since the last that did not. */
  function RetriesInARow(moves: seq<Move>): nat {
    if moves == [] then 0
    else
      var front, m := moves[..|moves| - 1], moves[|moves| - 1];
      if !Trace(front).at.Posting? || !m.Post? then RetriesInARow(front)
      else if Trace(front).at.dsn && m.outcome == Retry then RetriesInARow(front) + 1
      else 0
  }

  lemma {:induction false} FailuresCount(moves: seq<Move>)
    ensures Trace(moves).failures == RetriesInARow(moves)
  {
    hide Next, Pause;
    if moves != [] {
      var front, m := moves[..|moves| - 1], moves[|moves| - 1];
      FailuresCount(front);
      OneMove(Trace(front), m);
    }
  }

  lemma OneMove(s: State, m: Move)
    ensures Next(s, m).failures ==
      if !s.at.Posting? || !m.Post? then s.failures
      else if s.at.dsn && m.outcome == Retry then s.failures + 1
      else 0
  {
    hide Pause;
  }

  /** In any history a retry sleeps for a wait that has doubled with every retry in a row before it. */
  lemma {:induction false} RetryWaits(moves: seq<Move>, wait: int)
    requires Trace(moves).at.Posting? && Trace(moves).at.dsn
    ensures var s, s' := Trace(moves), Next(Trace(moves), Post(Retry, wait));
      && s'.waits == s.waits + [Pause(RetriesInARow(moves), wait)]
      && s'.at == Sleeping(Pause(RetriesInARow(moves), wait)) && s'.queue == s.queue
  {
    hide Trace, Pause, RetriesInARow;
    FailuresCount(moves);
  }

  // ---- Order ----

  /** The event being posted, or settled, is the oldest there is: nothing still queued was accepted before it. */
  lemma {:induction false} OldestFirst(moves: seq<Move>, e: Event)
    requires Trace(moves).at.Posting? || Trace(moves).at.Settling?
    requires e in Trace(moves).queue
    ensures Trace(moves).at.head <= e
  {
    TraceKeeps(moves);
    hide Trace;
  }

  /** A free goroutine takes the head of the queue. */
  lemma TakesHead(s: State)
    requires s.at == Idle && !s.closed && s.queue != []
    ensures Next(s, Take) == s.(at := Posting(s.queue[0], s.configured))
  {
  }

  /** A send goes last; the oldest event makes room only in a queue of a hundred. */
  lemma SendGoesLast(s: State)
    ensures !s.closed && |s.queue| < 100 ==> Next(s, Send).queue == s.queue + [s.accepted]
    ensures !s.closed && |s.queue| >= 100 ==> Next(s, Send).queue == s.queue[1..] + [s.accepted]
    ensures !s.closed ==> Next(s, Send).accepted == s.accepted + 1
    ensures s.closed ==> Next(s, Send) == s
  {
  }

  /** A flush pass tries what was queued when it began, newest first: what is left is older than what it tries. */
  lemma {:induction false} NewestFirst(moves: seq<Move>, outcome: Outcome)
    requires var s := Trace(moves); s.at.Flushing? && s.at.left > 0 && !s.closed
    ensures var s, s' := Trace(moves), Next(Trace(moves), FlushPost(outcome));
      var snap, left := s.at.snap, s.at.left;
      && left <= |snap| && s'.log == s.log + [Entry(snap[left - 1], Tried(outcome))]
      && (forall k | 0 <= k < left - 1 :: snap[k] < snap[left - 1])
      && (outcome == Retry ==> s'.at == Flushing(snap, left - 1, s.at.d))
      && (outcome != Retry ==> s'.at == Removing(snap, left - 1, snap[left - 1], s.at.d))
  {
    TraceKeeps(moves);
    hide Trace;
  }

  /** A flush cuts a wait short only with a destination, and then takes in the whole queue. */
  lemma FlushBegins(s: State)
    requires s.at.Sleeping?
    ensures s.configured ==> Next(s, Kick).at == Flushing(s.queue, |s.queue|, s.at.d)
    ensures !s.configured ==> Next(s, Kick) == s.(waits := s.waits + [s.at.d])
  {
  }

  /** A pass that is over, or cut off by close, starts its wait again; a wait that is over frees the goroutine. */
  lemma PassEnds(s: State)
    ensures s.at.Flushing? && (s.at.left == 0 || s.closed) ==>
              Next(s, FlushEnd) == s.(at := Sleeping(s.at.d), waits := s.waits + [s.at.d])
    ensures s.at.Flushing? && s.at.left > 0 && !s.closed ==> Next(s, FlushEnd) == s
    ensures s.at.Sleeping? ==> Next(s, Wake) == s.(at := Idle)
  {
  }

  // ---- Closing ----

  function InHand(s: State): nat {
    if s.at.Posting? then 1 else 0
  }

  lemma {:induction false} ClosedMove(s: State, m: Move)
    requires s.closed
    ensures var s' := Next(s, m);
      s'.closed && s'.accepted == s.accepted && |s'.log| + InHand(s') <= |s.log| + InHand(s)
      && forall e | e in s'.queue :: e in s.queue
  {
    hide Pause;
    if s.at.Removing? {
      NothingAdded(s.queue, s.at.e);
    }
  }

  lemma {:induction false} NothingAdded(queue: seq<Event>, e: Event)
    ensures forall x | x in Without(queue, e) :: x in queue
  {
    if queue != [] {
      NothingAdded(queue[1..], e);
    }
  }

  /** Once closed, nothing is accepted or queued any more, and at most the attempt then under way is still made. */
  lemma {:induction false} AfterClose(moves: seq<Move>, more: seq<Move>)
    requires Trace(moves).closed
    ensures var s, s' := Trace(moves), Trace(moves + more);
      && s'.closed && s'.accepted == s.accepted && (forall e | e in s'.queue :: e in s.queue)
      && |s'.log| + InHand(s') <= |s.log| + InHand(s) <= |s.log| + 1
    decreases |more|
  {
    hide Next, InHand;
    if more == [] {
      assert moves + more == moves;
      InHandOnce(Trace(moves));
    } else {
      var front, m := more[..|more| - 1], more[|more| - 1];
      AfterClose(moves, front);
      assert (moves + more)[..|moves + more| - 1] == moves + front;
      ClosedMove(Trace(moves + front), m);
    }
  }

  lemma InHandOnce(s: State)
    ensures InHand(s) <= 1
  {
  }
}
