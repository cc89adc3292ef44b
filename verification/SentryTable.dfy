/**
 The auth sentry's resend table: one event per fingerprint per hour, in bounded memory.
 A map from fingerprint to admission time and a queue of admissions refine a rule on the
 plain history of admissions.
 */
module SentryTable {

  /** Nanoseconds. */
  const RESEND_WINDOW := 3_600_000_000_000
  const MEMO_SIZE := 256
  const SENT_CAP := 4 * MEMO_SIZE

  /** A fingerprint, its parts joined. */
  type Fingerprint = string

  datatype Admission = Admission(key: Fingerprint, at: int)

  // ---- The rule ----

  /** The n-th admission is one of the last `SENT_CAP` and less than an hour old. */
  predicate Counts(history: seq<Admission>, n: int, now: int)
    requires 0 <= n < |history|
  {
    |history| - SENT_CAP <= n && now - history[n].at < RESEND_WINDOW
  }

  predicate RecentlyAdmitted(history: seq<Admission>, key: Fingerprint, now: int) {
    exists n :: 0 <= n < |history| && history[n].key == key && Counts(history, n, now)
  }

  /** What a series of calls admits. */
  function Admitted(calls: seq<Admission>): seq<Admission> {
    if calls == [] then []
    else
      var before, call := Admitted(calls[..|calls| - 1]), calls[|calls| - 1];
      if RecentlyAdmitted(before, call.key, call.at) then before else before + [call]
  }

  predicate InTime(s: seq<Admission>) {
    forall m, n | 0 <= m < n < |s| :: s[m].at <= s[n].at
  }

  /**
   Two admissions of one fingerprint are an hour apart, or more than 1024 admissions lie between their places.
   */
  lemma {:induction false} AdmissionsAreSpaced(calls: seq<Admission>, m: nat, n: nat)
    requires m < n < |Admitted(calls)| && Admitted(calls)[m].key == Admitted(calls)[n].key
    ensures Admitted(calls)[n].at - Admitted(calls)[m].at >= 3_600_000_000_000 || n - m > 1024
  {
    var before, call := Admitted(calls[..|calls| - 1]), calls[|calls| - 1];
    if n < |before| {
      AdmissionsAreSpaced(calls[..|calls| - 1], m, n);
    } else {
      assert before[m].key == call.key;
      assert !Counts(before, m, call.at);
    }
  }

  /**
   Nothing goes unreported: each call was admitted itself, or its fingerprint was admitted within the hour
   before it.
   */
  lemma {:induction false} EveryCallIsCovered(calls: seq<Admission>, n: nat) returns (m: nat)
    requires n < |calls| && InTime(calls)
    ensures m < |Admitted(calls)| && Admitted(calls)[m].key == calls[n].key
    ensures Admitted(calls)[m].at <= calls[n].at < Admitted(calls)[m].at + 3_600_000_000_000
  {
    var front := calls[..|calls| - 1];
    var before, call := Admitted(front), calls[|calls| - 1];
    if n < |front| {
      m := EveryCallIsCovered(front, n);
    } else if RecentlyAdmitted(before, call.key, call.at) {
      m :| 0 <= m < |before| && before[m].key == call.key && Counts(before, m, call.at);
      AdmittedBefore(front, m);
      var k :| 0 <= k < |front| && front[k] == before[m];
      assert calls[k].at <= call.at;
    } else {
      m := |before|;
    }
  }

  lemma {:induction false} AdmittedBefore(calls: seq<Admission>, m: nat)
    requires m < |Admitted(calls)|
    ensures Admitted(calls)[m] in calls
  {
    var front := calls[..|calls| - 1];
    if m < |Admitted(front)| {
      AdmittedBefore(front, m);
      assert Admitted(calls)[m] in front;
    }
  }

  /** The time of the last call. */
  function Clock(calls: seq<Admission>): int {
    if calls == [] then 0 else calls[|calls| - 1].at
  }

  lemma AdmittedFromCalls(calls: seq<Admission>)
    ensures Admitted(calls) != [] ==> calls != []
  {
  }

  lemma AdmittedGrows(calls: seq<Admission>, call: Admission)
    ensures Admitted(calls + [call])
         == if RecentlyAdmitted(Admitted(calls), call.key, call.at) then Admitted(calls) else Admitted(calls) + [call]
  {
    assert (calls + [call])[..|calls|] == calls;
  }

  // ---- Map and queue against the history ----

  /** The queue is the tail of the history, and what fell off it no longer counts. */
  ghost predicate Tail(order: seq<Admission>, history: seq<Admission>, clock: int) {
    && |order| <= |history| && order == history[|history| - |order|..]
    && forall n | 0 <= n < |history| - |order| :: n < |history| - SENT_CAP || clock - history[n].at >= RESEND_WINDOW
  }

  /** The tail of the history with a place free in it for the next admission. */
  ghost predicate RoomMade(order: seq<Admission>, history: seq<Admission>, now: int) {
    && |order| <= |history| && order == history[|history| - |order|..]
    && forall n | 0 <= n < |history| - |order| :: n <= |history| - SENT_CAP || now - history[n].at >= RESEND_WINDOW
  }

  ghost predicate NoneLater(order: seq<Admission>, now: int) {
    forall a | a in order :: a.at <= now
  }

  ghost predicate DistinctKeys(order: seq<Admission>) {
    forall m, n | 0 <= m < n < |order| :: order[m].key != order[n].key
  }

  ghost predicate Queued(sent: map<Fingerprint, int>, order: seq<Admission>) {
    forall k | k in sent :: Admission(k, sent[k]) in order
  }

  ghost predicate Mapped(sent: map<Fingerprint, int>, order: seq<Admission>) {
    forall a | a in order :: a.key in sent && sent[a.key] == a.at
  }

  /** The map and the queue hold the same admissions, one per fingerprint, oldest first. */
  ghost predicate Agree(sent: map<Fingerprint, int>, order: seq<Admission>) {
    && Queued(sent, order) && Mapped(sent, order)
    && DistinctKeys(order) && InTime(order) && |sent| == |order|
  }

  lemma InTail(order: seq<Admission>, history: seq<Admission>, a: Admission) returns (n: nat)
    requires |order| <= |history| && order == history[|history| - |order|..] && a in order
    ensures |history| - |order| <= n < |history| && history[n] == a
  {
    var k :| 0 <= k < |order| && order[k] == a;
    n := |history| - |order| + k;
  }

  /** The map answers the rule on the history. */
  lemma MapAnswers(sent: map<Fingerprint, int>, order: seq<Admission>, history: seq<Admission>, clock: int,
                   key: Fingerprint, now: int)
    requires Agree(sent, order) && Tail(order, history, clock) && |order| <= SENT_CAP
        && (history != [] ==> clock <= now)
    ensures RecentlyAdmitted(history, key, now) <==> key in sent && now - sent[key] < RESEND_WINDOW
  {
    hide DistinctKeys, InTime;
    var cut := |history| - |order|;
    if RecentlyAdmitted(history, key, now) {
      var n :| 0 <= n < |history| && history[n].key == key && Counts(history, n, now);
      assert n >= cut;
      assert order[n - cut] == history[n];
    }
    if key in sent && now - sent[key] < RESEND_WINDOW {
      var n := InTail(order, history, Admission(key, sent[key]));
      assert Counts(history, n, now);
    }
  }

  lemma RestDiffers(order: seq<Admission>)
    requires DistinctKeys(order) && InTime(order) && |order| > 0
    ensures DistinctKeys(order[1..]) && InTime(order[1..])
    ensures forall a | a in order[1..] :: a in order && a.key != order[0].key
  {
    forall a | a in order[1..] ensures a in order && a.key != order[0].key {
      var n :| 1 <= n < |order| && order[n] == a;
      assert order[0].key != order[n].key;
    }
  }

  lemma DropQueued(sent: map<Fingerprint, int>, order: seq<Admission>)
    requires Queued(sent, order) && |order| > 0
    ensures Queued(sent - {order[0].key}, order[1..])
  {
    var sent', rest := sent - {order[0].key}, order[1..];
    forall k | k in sent' ensures Admission(k, sent'[k]) in rest {
      var n :| 0 <= n < |order| && order[n] == Admission(k, sent[k]);
      assert rest[n - 1] == order[n];
    }
  }

  lemma DropMapped(sent: map<Fingerprint, int>, order: seq<Admission>)
    requires Mapped(sent, order) && |order| > 0 && forall a | a in order[1..] :: a in order && a.key != order[0].key
    ensures order[0].key in sent && sent[order[0].key] == order[0].at
    ensures Mapped(sent - {order[0].key}, order[1..])
  {
    assert order[0] in order;
  }

  lemma DropOldest(sent: map<Fingerprint, int>, order: seq<Admission>)
    requires Agree(sent, order) && |order| > 0
    ensures order[0].key in sent && sent[order[0].key] == order[0].at
    ensures Agree(sent - {order[0].key}, order[1..])
  {
    RestDiffers(order);
    DropQueued(sent, order);
    DropMapped(sent, order);
    hide Queued, Mapped, DistinctKeys, InTime;
    var sent' := sent - {order[0].key};
    assert sent.Keys == sent'.Keys + {order[0].key};
    assert |sent.Keys| == |sent'.Keys| + 1;
  }

  lemma NotHeld(sent: map<Fingerprint, int>, order: seq<Admission>, key: Fingerprint, now: int)
    requires Agree(sent, order) && (order == [] || now - order[0].at < RESEND_WINDOW)
    requires key in sent ==> now - sent[key] >= RESEND_WINDOW
    ensures key !in sent
  {
    forall a | a in order ensures now - a.at < RESEND_WINDOW {
      var n :| 0 <= n < |order| && order[n] == a;
      assert n == 0 || order[0].at <= order[n].at;
    }
  }

  lemma NewestDiffers(order: seq<Admission>, a: Admission)
    requires DistinctKeys(order) && InTime(order)
    requires forall x | x in order :: x.key != a.key && x.at <= a.at
    ensures DistinctKeys(order + [a]) && InTime(order + [a])
  {
    assert forall n | 0 <= n < |order| :: order[n] in order;
  }

  lemma NewestMapped(sent: map<Fingerprint, int>, order: seq<Admission>, a: Admission)
    requires Queued(sent, order) && Mapped(sent, order) && a.key !in sent
    ensures Queued(sent[a.key := a.at], order + [a]) && Mapped(sent[a.key := a.at], order + [a])
  {
  }

  lemma AddNewest(sent: map<Fingerprint, int>, order: seq<Admission>, key: Fingerprint, now: int)
    requires Agree(sent, order) && key !in sent && forall a | a in order :: a.at <= now
    ensures Agree(sent[key := now], order + [Admission(key, now)])
  {
    hide DistinctKeys, InTime, Queued;
    assert sent[key := now].Keys == sent.Keys + {key};
    NewestMapped(sent, order, Admission(key, now));
    NewestDiffers(order, Admission(key, now));
  }

  /** What the table keeps about the calls it has answered. */
  ghost predicate Refines(sent: map<Fingerprint, int>, order: seq<Admission>, calls: seq<Admission>) {
    && InTime(calls) && Agree(sent, order) && Tail(order, Admitted(calls), Clock(calls)) && |order| <= SENT_CAP
    && NoneLater(order, Clock(calls))
  }

  lemma RefinesParts(sent: map<Fingerprint, int>, order: seq<Admission>, calls: seq<Admission>)
    requires Refines(sent, order, calls)
    ensures InTime(calls) && Agree(sent, order) && Tail(order, Admitted(calls), Clock(calls)) && |order| <= SENT_CAP
    ensures NoneLater(order, Clock(calls))
  {
    hide InTime, Agree, Tail, Admitted, Clock, NoneLater;
  }

  lemma RefusedKeeps(sent: map<Fingerprint, int>, order: seq<Admission>, calls: seq<Admission>, call: Admission)
    requires Refines(sent, order, calls) && (calls != [] ==> Clock(calls) <= call.at)
    requires RecentlyAdmitted(Admitted(calls), call.key, call.at)
    ensures Refines(sent, order, calls + [call])
  {
    hide RecentlyAdmitted, Agree, InTime, Tail, Admitted, Clock;
    AdmittedGrows(calls, call);
    StillInTime(calls, call);
    AdmittedFromCalls(calls);
    TailAges(order, Admitted(calls), Clock(calls), call.at);
  }

  lemma AdmittedKeeps(sent: map<Fingerprint, int>, order: seq<Admission>, calls: seq<Admission>, call: Admission)
    requires InTime(calls) && (calls != [] ==> Clock(calls) <= call.at)
    requires !RecentlyAdmitted(Admitted(calls), call.key, call.at)
    requires Agree(sent, order) && call.key !in sent && |order| < SENT_CAP && NoneLater(order, call.at)
    requires RoomMade(order, Admitted(calls), call.at)
    ensures Refines(sent[call.key := call.at], order + [call], calls + [call])
  {
    hide RecentlyAdmitted, Agree, InTime, Tail, Admitted, Clock;
    AdmittedGrows(calls, call);
    StillInTime(calls, call);
    AddNewest(sent, order, call.key, call.at);
    TailGrows(order, Admitted(calls), call);
  }

  lemma NothingYet()
    ensures Refines(map[], [], [])
  {
    var history := Admitted([]);
    assert history == [] && history[0..] == [];
    assert Tail([], history, 0);
    assert Agree(map[], []);
    hide Tail, Agree, Admitted;
  }

  lemma TimesKnown(order: seq<Admission>, calls: seq<Admission>, now: int)
    requires NoneLater(order, Clock(calls)) && Tail(order, Admitted(calls), Clock(calls))
        && (calls != [] ==> Clock(calls) <= now)
    ensures NoneLater(order, now)
  {
  }

  lemma RoomAtFirst(order: seq<Admission>, history: seq<Admission>, now: int)
    requires Tail(order, history, now)
    ensures RoomMade(order, history, now)
  {
  }

  lemma RoomAfterDrop(order: seq<Admission>, history: seq<Admission>, now: int)
    requires RoomMade(order, history, now) && |order| > 0
    requires now - order[0].at >= RESEND_WINDOW || |order| >= SENT_CAP
    ensures RoomMade(order[1..], history, now)
  {
  }

  lemma EndNotLater(order: seq<Admission>, from: nat, now: int)
    requires NoneLater(order, now) && from <= |order|
    ensures NoneLater(order[from..], now)
  {
  }

  // ---- The table ----

  class Table {
    var sent: map<Fingerprint, int>
    var sentOrder: seq<Admission>
    ghost var calls: seq<Admission>

    ghost predicate Valid()
      reads this
    {
      Refines(sent, sentOrder, calls)
    }

    constructor ()
      ensures Valid() && calls == []
    {
      hide Refines;
      sent, sentOrder, calls := map[], [], [];
      NothingYet();
    }

    /** Expired admissions leave first, then the oldest. */
    method Evict(now: int, ghost history: seq<Admission>)
      requires Agree(sent, sentOrder) && Tail(sentOrder, history, now) && |sentOrder| <= SENT_CAP
      modifies this`sent, this`sentOrder
      ensures Agree(sent, sentOrder) && |sentOrder| < SENT_CAP
      ensures sentOrder == [] || now - sentOrder[0].at < RESEND_WINDOW
      ensures sent.Keys <= old(sent).Keys && forall k | k in sent :: sent[k] == old(sent)[k]
      ensures |sentOrder| <= |old(sentOrder)| && sentOrder == old(sentOrder)[|old(sentOrder)| - |sentOrder|..]
      ensures RoomMade(sentOrder, history, now)
    {
      hide Agree, RoomMade, Tail;
      RoomAtFirst(sentOrder, history, now);
      while |sentOrder| > 0 && (now - sentOrder[0].at >= RESEND_WINDOW || |sentOrder| >= SENT_CAP)
        invariant Agree(sent, sentOrder) && |sentOrder| <= SENT_CAP
        invariant sent.Keys <= old(sent).Keys && forall k | k in sent :: sent[k] == old(sent)[k]
        invariant |sentOrder| <= |old(sentOrder)| && sentOrder == old(sentOrder)[|old(sentOrder)| - |sentOrder|..]
        invariant RoomMade(sentOrder, history, now)
        decreases |sentOrder|
      {
        var oldest := sentOrder[0];
        DropOldest(sent, sentOrder);
        RoomAfterDrop(sentOrder, history, now);
        sentOrder := sentOrder[1..];
        if oldest.key in sent && sent[oldest.key] == oldest.at {
          sent := sent - {oldest.key};
        }
      }
    }

    /** Admits exactly when the fingerprint was not recently admitted, the clock never having gone back. */
    method Allow(key: Fingerprint, now: int) returns (admitted: bool)
      requires Valid() && (calls != [] ==> Clock(calls) <= now)
      modifies this
      ensures Valid() && calls == old(calls) + [Admission(key, now)]
      ensures admitted <==> !RecentlyAdmitted(Admitted(old(calls)), key, now)
    {
      hide Refines, Admitted, RecentlyAdmitted, Agree, InTime, Tail, Clock, RoomMade, NoneLater;
      RefinesParts(sent, sentOrder, calls);
      AdmittedFromCalls(calls);
      MapAnswers(sent, sentOrder, Admitted(calls), Clock(calls), key, now);
      TimesKnown(sentOrder, calls, now);
      if key in sent && now - sent[key] < RESEND_WINDOW {
        RefusedKeeps(sent, sentOrder, calls, Admission(key, now));
        calls := calls + [Admission(key, now)];
        return false;
      }
      TailAges(sentOrder, Admitted(calls), Clock(calls), now);
      ghost var before := sentOrder;
      Evict(now, Admitted(calls));
      EndNotLater(before, |before| - |sentOrder|, now);
      NotHeld(sent, sentOrder, key, now);
      AdmittedKeeps(sent, sentOrder, calls, Admission(key, now));
      sent := sent[key := now];
      sentOrder := sentOrder + [Admission(key, now)];
      calls := calls + [Admission(key, now)];
      return true;
    }
  }

  lemma TailAges(order: seq<Admission>, history: seq<Admission>, clock: int, now: int)
    requires Tail(order, history, clock) && (history != [] ==> clock <= now)
    ensures Tail(order, history, now)
  {
  }

  lemma TailGrows(order: seq<Admission>, history: seq<Admission>, a: Admission)
    requires RoomMade(order, history, a.at)
    ensures Tail(order + [a], history + [a], a.at)
  {
  }

  lemma StillInTime(calls: seq<Admission>, call: Admission)
    requires InTime(calls) && (calls != [] ==> Clock(calls) <= call.at)
    ensures InTime(calls + [call]) && Clock(calls + [call]) == call.at
  {
  }
}
