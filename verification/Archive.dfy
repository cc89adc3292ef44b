/**
 The evidence bundle: rows of the chosen invoices streamed out batch by batch, and the
 preview that counts them without writing them, both on one snapshot of the tables.
 */
module Archive {
  import opened Domain

  const BATCH := 500

  /**
   A stored row: its invoice, its place in the read order within the invoice, its own id, and an exchange's
   bodies.
   */
  datatype Row = Row(invoice: InvoiceId, key: nat, id: nat, request: Option<string>, response: Option<string>)

  /** A table listed by invoice, then by key. */
  predicate Listed(rows: seq<Row>) {
    forall i, j | 0 <= i < j < |rows| ::
      rows[i].invoice < rows[j].invoice || (rows[i].invoice == rows[j].invoice && rows[i].key < rows[j].key)
  }

  /** The rows of the given invoices, in the table's order. */
  function Select(rows: seq<Row>, ids: seq<InvoiceId>): seq<Row> {
    if rows == [] then []
    else (if rows[0].invoice in ids then [rows[0]] else []) + Select(rows[1..], ids)
  }

  // ---- Batches ----

  function Chunks(ids: seq<InvoiceId>, size: nat): seq<seq<InvoiceId>>
    requires size > 0
  {
    if ids == [] then []
    else if |ids| <= size then [ids]
    else [ids[..size]] + Chunks(ids[size..], size)
  }

  function Join(batches: seq<seq<InvoiceId>>): seq<InvoiceId> {
    if batches == [] then [] else batches[0] + Join(batches[1..])
  }

  method Chunk(ids: seq<InvoiceId>, size: nat) returns (out: seq<seq<InvoiceId>>)
    requires size > 0
    ensures out == Chunks(ids, size)
  {
    out := [];
    var i := 0;
    while i < |ids|
      invariant i >= 0
      invariant out + Chunks(if i <= |ids| then ids[i..] else [], size) == Chunks(ids, size)
    {
      var end := i + size;
      if end > |ids| {
        end := |ids|;
      }
      var rest := ids[i..];
      assert ids[i..end] == if |rest| <= size then rest else rest[..size];
      if i + size <= |ids| {
        assert ids[i + size..] == rest[size..];
      }
      out := out + [ids[i..end]];
      i := i + size;
    }
  }

  /** The batches hold the ids in order, none lost or repeated, each of at most the given size. */
  lemma {:induction false} ChunksExact(ids: seq<InvoiceId>, size: nat)
    requires size > 0
    ensures Join(Chunks(ids, size)) == ids
    ensures forall batch | batch in Chunks(ids, size) :: 0 < |batch| <= size
    decreases |ids|
  {
    if |ids| > size {
      ChunksExact(ids[size..], size);
      assert ids == ids[..size] + ids[size..];
    } else if ids != [] {
      assert Join([ids]) == ids + Join([]);
    }
  }

  /** What reading batch by batch writes. */
  function Stream(rows: seq<Row>, batches: seq<seq<InvoiceId>>): seq<Row> {
    if batches == [] then [] else Select(rows, batches[0]) + Stream(rows, batches[1..])
  }

  // ---- Reading in batches against reading at once ----

  lemma {:induction false} SelectExact(rows: seq<Row>, ids: seq<InvoiceId>)
    ensures forall r :: r in Select(rows, ids) <==> r in rows && r.invoice in ids
  {
    if rows != [] {
      SelectExact(rows[1..], ids);
      assert rows == [rows[0]] + rows[1..];
    }
  }

  /** Reading keeps the table's order and multiplicity: two stretches of the table are read one after the other. */
  lemma {:induction false} SelectAppends(a: seq<Row>, b: seq<Row>, ids: seq<InvoiceId>)
    ensures Select(a + b, ids) == Select(a, ids) + Select(b, ids)
  {
    hide Select, Bodies;
    if a == [] {
      NothingRead(ids);
      assert a + b == b;
    } else {
      SelectAppends(a[1..], b, ids);
      assert (a + b)[1..] == a[1..] + b;
      OneMore(a, ids);
      OneMore(a + b, ids);
      assert [a[0]] + (Select(a[1..], ids) + Select(b, ids)) == ([a[0]] + Select(a[1..], ids)) + Select(b, ids);
    }
  }

  lemma {:induction false} SelectListed(rows: seq<Row>, ids: seq<InvoiceId>)
    requires Listed(rows)
    ensures Listed(Select(rows, ids))
  {
    if rows != [] {
      SelectListed(rows[1..], ids);
      SelectExact(rows[1..], ids);
      var rest := Select(rows[1..], ids);
      forall k | 0 <= k < |rest|
        ensures || rows[0].invoice < rest[k].invoice
                || (rows[0].invoice == rest[k].invoice && rows[0].key < rest[k].key)
      {
        assert rest[k] in rest && rest[k] in rows[1..];
      }
    }
  }

  predicate Apart(a: seq<InvoiceId>, b: seq<InvoiceId>) {
    forall x | x in a :: x !in b
  }

  lemma OneMore(rows: seq<Row>, ids: seq<InvoiceId>)
    requires rows != []
    ensures var rest := Select(rows[1..], ids);
      Select(rows, ids) == if rows[0].invoice in ids then [rows[0]] + rest else rest
  {
    assert [] + Select(rows[1..], ids) == Select(rows[1..], ids);
  }

  /** Two batches with no invoice in common read the same rows as the two at once, and hold the same bodies. */
  lemma {:induction false} SelectSplits(rows: seq<Row>, a: seq<InvoiceId>, b: seq<InvoiceId>)
    requires Apart(a, b)
    ensures multiset(Select(rows, a + b)) == multiset(Select(rows, a)) + multiset(Select(rows, b))
    ensures Bodies(Select(rows, a + b)) == Bodies(Select(rows, a)) + Bodies(Select(rows, b))
  {
    hide Select, Bodies;
    if rows == [] {
      NothingRead(a + b);
      NothingRead(a);
      NothingRead(b);
    } else {
      SelectSplits(rows[1..], a, b);
      OneMore(rows, a);
      OneMore(rows, b);
      OneMore(rows, a + b);
      assert rows[0].invoice in a + b <==> rows[0].invoice in a || rows[0].invoice in b;
      HeadAdds(rows[0], Select(rows[1..], a + b));
      HeadAdds(rows[0], Select(rows[1..], a));
      HeadAdds(rows[0], Select(rows[1..], b));
    }
  }

  lemma NothingRead(ids: seq<InvoiceId>)
    ensures Select([], ids) == [] && Bodies([]) == 0
  {
  }

  lemma HeadAdds(r: Row, rest: seq<Row>)
    ensures multiset([r] + rest) == multiset{r} + multiset(rest)
    ensures Bodies([r] + rest) == BodiesOf(r) + Bodies(rest)
  {
    BodiesAppend([r], rest);
  }

  /** Reading distinct ids batch by batch yields exactly their rows, each once, and exactly their bodies. */
  lemma {:induction false} StreamExact(rows: seq<Row>, ids: seq<InvoiceId>, size: nat)
    requires size > 0 && Distinct(ids)
    ensures multiset(Stream(rows, Chunks(ids, size))) == multiset(Select(rows, ids))
    ensures Bodies(Stream(rows, Chunks(ids, size))) == Bodies(Select(rows, ids))
    decreases |ids|
  {
    if ids == [] {
      NothingSelected(rows);
    } else if |ids| <= size {
      assert Stream(rows, [ids]) == Select(rows, ids) + Stream(rows, []);
      assert Select(rows, ids) + [] == Select(rows, ids);
    } else {
      var a, b := ids[..size], ids[size..];
      assert a + b == ids;
      StreamExact(rows, b, size);
      assert Apart(a, b);
      SelectSplits(rows, a, b);
      BodiesAppend(Select(rows, a), Stream(rows, Chunks(b, size)));
      assert Chunks(ids, size)[1..] == Chunks(b, size);
    }
  }

  lemma {:induction false} NothingSelected(rows: seq<Row>)
    ensures Select(rows, []) == []
  {
    if rows != [] {
      NothingSelected(rows[1..]);
    }
  }

  lemma SameSize(a: seq<Row>, b: seq<Row>)
    requires multiset(a) == multiset(b)
    ensures |a| == |b|
  {
    assert |multiset(a)| == |multiset(b)|;
  }

  // ---- Body files ----

  function BodiesOf(r: Row): nat {
    (if r.request.Some? then 1 else 0) + (if r.response.Some? then 1 else 0)
  }

  function Bodies(rows: seq<Row>): nat {
    if rows == [] then 0 else BodiesOf(rows[0]) + Bodies(rows[1..])
  }

  lemma {:induction false} BodiesAppend(a: seq<Row>, b: seq<Row>)
    ensures Bodies(a + b) == Bodies(a) + Bodies(b)
  {
    if a == [] {
      assert a + b == b;
    } else {
      BodiesAppend(a[1..], b);
      assert (a + b)[1..] == a[1..] + b;
    }
  }

  // ---- The preview ----

  datatype Counts = Counts(lineItems: nat, transitions: nat, submissions: nat, attempts: nat, bodyFiles: nat)

  /** The counts, batch by batch: exactly the rows and bodies of the chosen invoices. */
  method CountChildren(lines: seq<Row>, history: seq<Row>, jobs: seq<Row>, exchange: seq<Row>, ids: seq<InvoiceId>)
    returns (c: Counts)
    requires Distinct(ids)
    ensures c == Counts(|Select(lines, ids)|, |Select(history, ids)|, |Select(jobs, ids)|, |Select(exchange, ids)|,
                        Bodies(Select(exchange, ids)))
  {
    hide Select, Bodies;
    var batches := Chunk(ids, BATCH);
    c := Counts(0, 0, 0, 0, 0);
    for k := 0 to |batches|
      invariant c.lineItems + |Stream(lines, batches[k..])| == |Stream(lines, batches)|
      invariant c.transitions + |Stream(history, batches[k..])| == |Stream(history, batches)|
      invariant c.submissions + |Stream(jobs, batches[k..])| == |Stream(jobs, batches)|
      invariant c.attempts + |Stream(exchange, batches[k..])| == |Stream(exchange, batches)|
      invariant c.bodyFiles + Bodies(Stream(exchange, batches[k..])) == Bodies(Stream(exchange, batches))
    {
      assert batches[k..][0] == batches[k] && batches[k..][1..] == batches[k + 1..];
      BodiesAppend(Select(exchange, batches[k]), Stream(exchange, batches[k + 1..]));
      c := Counts(c.lineItems + |Select(lines, batches[k])|,
                  c.transitions + |Select(history, batches[k])|,
                  c.submissions + |Select(jobs, batches[k])|,
                  c.attempts + |Select(exchange, batches[k])|,
                  c.bodyFiles + Bodies(Select(exchange, batches[k])));
    }
    NothingRead(ids);
    CountExact(lines, ids);
    CountExact(history, ids);
    CountExact(jobs, ids);
    CountExact(exchange, ids);
  }

  lemma CountExact(rows: seq<Row>, ids: seq<InvoiceId>)
    requires Distinct(ids)
    ensures |Stream(rows, Chunks(ids, BATCH))| == |Select(rows, ids)|
    ensures Bodies(Stream(rows, Chunks(ids, BATCH))) == Bodies(Select(rows, ids))
  {
    hide Select, Stream, Chunks, Bodies, Distinct;
    StreamExact(rows, ids, BATCH);
    SameSize(Stream(rows, Chunks(ids, BATCH)), Select(rows, ids));
  }

  // ---- Status history ----

  datatype HistoryRecord = HistoryRecord(row: Row, seqNo: nat)

  function RowsOf(out: seq<HistoryRecord>): seq<Row> {
    seq(|out|, k requires 0 <= k < |out| => out[k].row)
  }

  function Occurrences(rows: seq<Row>, i: InvoiceId): nat {
    if rows == [] then 0
    else Occurrences(rows[..|rows| - 1], i) + (if rows[|rows| - 1].invoice == i then 1 else 0)
  }

  /** Each record's number is how many records of its invoice have been written so far, itself included. */
  ghost predicate Numbered(out: seq<HistoryRecord>) {
    forall k | 0 <= k < |out| :: out[k].seqNo == Occurrences(RowsOf(out)[..k], out[k].row.invoice) + 1
  }

  /** The rows of one invoice are never interrupted by those of another. */
  predicate Grouped(rows: seq<Row>) {
    forall i, j, k | 0 <= i < j < k < |rows| && rows[i].invoice == rows[k].invoice :: rows[j].invoice == rows[i].invoice
  }

  lemma {:induction false} NoneBefore(rows: seq<Row>, i: InvoiceId)
    requires forall k | 0 <= k < |rows| :: rows[k].invoice != i
    ensures Occurrences(rows, i) == 0
  {
    if rows != [] {
      NoneBefore(rows[..|rows| - 1], i);
    }
  }

  lemma GroupedAppend(a: seq<Row>, b: seq<Row>)
    requires Grouped(a) && Grouped(b) && forall x, y | x in a && y in b :: x.invoice != y.invoice
    ensures Grouped(a + b)
  {
    var rows := a + b;
    forall i, k | 0 <= i < |a| <= k < |rows| ensures rows[i].invoice != rows[k].invoice {
      assert a[i] in a && b[k - |a|] in b;
    }
  }

  lemma {:induction false} StreamGrouped(rows: seq<Row>, ids: seq<InvoiceId>, size: nat)
    requires size > 0 && Distinct(ids) && Listed(rows)
    ensures Grouped(Stream(rows, Chunks(ids, size)))
    ensures forall r | r in Stream(rows, Chunks(ids, size)) :: r.invoice in ids
    decreases |ids|
  {
    if ids != [] && |ids| <= size {
      SelectListed(rows, ids);
      SelectExact(rows, ids);
      assert Stream(rows, [ids]) == Select(rows, ids) + Stream(rows, []);
      assert Select(rows, ids) + [] == Select(rows, ids);
    } else if ids != [] {
      var a, b := ids[..size], ids[size..];
      StreamGrouped(rows, b, size);
      SelectListed(rows, a);
      SelectExact(rows, a);
      assert Apart(a, b);
      assert Chunks(ids, size)[1..] == Chunks(b, size);
      GroupedAppend(Select(rows, a), Stream(rows, Chunks(b, size)));
      assert forall x | x in b :: x in ids;
      assert forall x | x in a :: x in ids;
    }
  }

  lemma NextInStream(a: seq<Row>, rows: seq<Row>, stream: seq<Row>, n: nat)
    requires a + rows <= stream && n < |rows|
    ensures a + rows[..n] == stream[..|a| + n] && |a| + n < |stream| && stream[|a| + n] == rows[n]
    ensures a + rows[..n + 1] == (a + rows[..n]) + [rows[n]]
  {
    assert (a + rows)[|a| + n] == rows[n];
  }

  /** One batch's records, numbered on from what the earlier batches carried over. */
  method NumberBatch(before: seq<HistoryRecord>, rows: seq<Row>, last: Option<InvoiceId>, number: nat,
                     ghost stream: seq<Row>)
    returns (out: seq<HistoryRecord>, last': Option<InvoiceId>, number': nat)
    requires Grouped(stream) && RowsOf(before) + rows <= stream && Numbered(before) && Carried(before, last, number)
    ensures RowsOf(out) == RowsOf(before) + rows && Numbered(out) && Carried(out, last', number')
  {
    hide Numbered, Grouped;
    out, last', number' := before, last, number;
    for n := 0 to |rows|
      invariant RowsOf(out) == RowsOf(before) + rows[..n]
      invariant Numbered(out) && Carried(out, last', number')
    {
      if last' != Some(rows[n].invoice) {
        number' := 0;
        last' := Some(rows[n].invoice);
      }
      number' := number' + 1;
      NextInStream(RowsOf(before), rows, stream, n);
      NumberedGrows(stream, out, rows[n], number');
      out := out + [HistoryRecord(rows[n], number')];
    }
    assert rows[..|rows|] == rows;
  }

  /** The number restarts with each invoice and runs on across batches. */
  method WriteHistory(history: seq<Row>, ids: seq<InvoiceId>) returns (out: seq<HistoryRecord>)
    requires Distinct(ids) && Listed(history)
    ensures RowsOf(out) == Stream(history, Chunks(ids, BATCH))
    ensures |out| == |Select(history, ids)| && multiset(RowsOf(out)) == multiset(Select(history, ids))
    ensures Numbered(out)
  {
    hide Grouped, Select, Chunks, Listed, Distinct, Numbered;
    StreamGrouped(history, ids, BATCH);
    StreamExact(history, ids, BATCH);
    SameSize(Stream(history, Chunks(ids, BATCH)), Select(history, ids));
    out := [];
    NumberedAtFirst();
    var batches := Chunk(ids, BATCH);
    ghost var stream := Stream(history, batches);
    var last: Option<InvoiceId>, number := None, 0;
    for k := 0 to |batches|
      invariant RowsOf(out) + Stream(history, batches[k..]) == stream
      invariant Numbered(out) && Carried(out, last, number)
    {
      assert batches[k..][0] == batches[k] && batches[k..][1..] == batches[k + 1..];
      var rows := Select(history, batches[k]);
      Regroup(RowsOf(out), rows, Stream(history, batches[k + 1..]));
      out, last, number := NumberBatch(out, rows, last, number, stream);
    }
    assert RowsOf(out) + [] == RowsOf(out);
  }

  lemma NumberedAtFirst()
    ensures Numbered([])
  {
  }

  lemma Regroup<T>(a: seq<T>, b: seq<T>, c: seq<T>)
    ensures a + (b + c) == (a + b) + c && a + b <= a + (b + c)
  {
  }

  /** What is carried from record to record: the last invoice and how many of its records are out. */
  ghost predicate Carried(out: seq<HistoryRecord>, last: Option<InvoiceId>, number: nat) {
    match last
    case None => out == []
    case Some(i) => |out| > 0 && out[|out| - 1].row.invoice == i && number == Occurrences(RowsOf(out), i)
  }

  lemma NumberedGrows(stream: seq<Row>, out: seq<HistoryRecord>, r: Row, number: nat)
    requires Grouped(stream) && |out| < |stream| && RowsOf(out) == stream[..|out|] && stream[|out|] == r
        && Numbered(out)
    requires var sameInvoice := |out| > 0 && out[|out| - 1].row.invoice == r.invoice;
      number == if sameInvoice then Occurrences(RowsOf(out), r.invoice) + 1 else 1
    ensures var out' := out + [HistoryRecord(r, number)];
      RowsOf(out') == RowsOf(out) + [r] && Numbered(out') && Carried(out', Some(r.invoice), number)
  {
    hide Occurrences, Grouped;
    var out' := out + [HistoryRecord(r, number)];
    assert RowsOf(out') == RowsOf(out) + [r];
    assert RowsOf(out')[..|out|] == RowsOf(out);
    NewInvoice(stream, out, r);
    forall k | 0 <= k < |out'| ensures out'[k].seqNo == Occurrences(RowsOf(out')[..k], out'[k].row.invoice) + 1 {
      assert RowsOf(out')[..k] == RowsOf(out)[..k];
    }
    OneMoreOccurrence(RowsOf(out), r);
  }

  lemma OneMoreOccurrence(rows: seq<Row>, r: Row)
    ensures Occurrences(rows + [r], r.invoice) == Occurrences(rows, r.invoice) + 1
  {
    assert (rows + [r])[..|rows|] == rows;
  }

  /** Where an invoice's records begin, none of them is out yet. */
  lemma NewInvoice(stream: seq<Row>, out: seq<HistoryRecord>, r: Row)
    requires Grouped(stream) && |out| < |stream| && RowsOf(out) == stream[..|out|] && stream[|out|] == r
    ensures !(|out| > 0 && out[|out| - 1].row.invoice == r.invoice) ==> Occurrences(RowsOf(out), r.invoice) == 0
  {
    if !(|out| > 0 && out[|out| - 1].row.invoice == r.invoice) {
      forall k | 0 <= k < |out| ensures RowsOf(out)[k].invoice != r.invoice {
        assert stream[k] == RowsOf(out)[k] && stream[|out| - 1] == RowsOf(out)[|out| - 1];
      }
      NoneBefore(RowsOf(out), r.invoice);
    }
  }

  lemma NumberedFront(out: seq<HistoryRecord>)
    requires Numbered(out) && |out| > 0
    ensures var front := out[..|out| - 1];
      RowsOf(front) == RowsOf(out)[..|out| - 1] && Numbered(front)
  {
    var front := out[..|out| - 1];
    assert RowsOf(front) == RowsOf(out)[..|out| - 1];
    forall k | 0 <= k < |front| ensures front[k].seqNo == Occurrences(RowsOf(front)[..k], front[k].row.invoice) + 1 {
      assert RowsOf(front)[..k] == RowsOf(out)[..k] && front[k] == out[k];
    }
  }

  /** Later records of one invoice carry larger numbers. */
  lemma NumbersIncrease(out: seq<HistoryRecord>, j: nat, k: nat)
    requires Numbered(out) && j < k < |out| && out[j].row.invoice == out[k].row.invoice
    ensures out[j].seqNo < out[k].seqNo
  {
    var before := RowsOf(out)[..k];
    Earlier(before, j, out[j].row.invoice);
    assert before[..j] == RowsOf(out)[..j];
  }

  /** The records of one invoice read 1, 2, ... up to how many it has. */
  lemma {:induction false} NumbersRun(out: seq<HistoryRecord>, i: InvoiceId, n: nat) returns (k: nat)
    requires Numbered(out) && 1 <= n <= Occurrences(RowsOf(out), i)
    ensures k < |out| && out[k].row.invoice == i && out[k].seqNo == n
    decreases |out|
  {
    var last := |out| - 1;
    var front := out[..last];
    NumberedFront(out);
    assert out[last].seqNo == Occurrences(RowsOf(out)[..last], out[last].row.invoice) + 1;
    if n <= Occurrences(RowsOf(front), i) {
      hide Numbered, Occurrences;
      k := NumbersRun(front, i, n);
    } else {
      k := last;
    }
  }

  lemma {:induction false} Earlier(rows: seq<Row>, j: nat, i: InvoiceId)
    requires j < |rows| && rows[j].invoice == i
    ensures Occurrences(rows[..j], i) < Occurrences(rows, i)
  {
    var front := rows[..|rows| - 1];
    if j < |front| {
      Earlier(front, j, i);
      assert front[..j] == rows[..j];
    }
  }

  lemma {:induction false} OccurrencesSplit(a: seq<Row>, b: seq<Row>, i: InvoiceId)
    ensures Occurrences(a + b, i) == Occurrences(a, i) + Occurrences(b, i)
  {
    if b == [] {
      assert a + b == a;
    } else {
      assert (a + b)[..|a + b| - 1] == a + b[..|b| - 1];
      OccurrencesSplit(a, b[..|b| - 1], i);
    }
  }

  lemma TakenOut(b: seq<Row>, k: nat, i: InvoiceId)
    requires k < |b|
    ensures var rest := b[..k] + b[k + 1..];
      && multiset(b) == multiset{b[k]} + multiset(rest)
      && Occurrences(b, i) == Occurrences([b[k]], i) + Occurrences(rest, i)
  {
    var rest := [b[k]] + b[k + 1..];
    assert b == b[..k] + rest;
    assert multiset(b) == multiset(b[..k]) + multiset(rest);
    OccurrencesSplit(b[..k], b[k + 1..], i);
    OccurrencesSplit(b[..k], rest, i);
    OccurrencesSplit([b[k]], b[k + 1..], i);
  }

  lemma Cancelled(r: Row, p: multiset<Row>, q: multiset<Row>)
    requires multiset{r} + p == multiset{r} + q
    ensures p == q
  {
    assert p == (multiset{r} + p) - multiset{r};
    assert q == (multiset{r} + q) - multiset{r};
  }

  lemma {:induction false} OccurrencesPermute(a: seq<Row>, b: seq<Row>, i: InvoiceId)
    requires multiset(a) == multiset(b)
    ensures Occurrences(a, i) == Occurrences(b, i)
    decreases |a|
  {
    hide Occurrences;
    SameSize(a, b);
    if a != [] {
      assert a[0] in multiset(b);
      var k :| 0 <= k < |b| && b[k] == a[0];
      TakenOut(a, 0, i);
      TakenOut(b, k, i);
      assert a[..0] + a[1..] == a[1..];
      Cancelled(a[0], multiset(a[1..]), multiset(b[..k] + b[k + 1..]));
      OccurrencesPermute(a[1..], b[..k] + b[k + 1..], i);
    }
  }

  lemma {:induction false} SelectKeepsAll(rows: seq<Row>, ids: seq<InvoiceId>, i: InvoiceId)
    requires i in ids
    ensures Occurrences(Select(rows, ids), i) == Occurrences(rows, i)
  {
    if rows != [] {
      SelectKeepsAll(rows[1..], ids, i);
      assert rows == [rows[0]] + rows[1..];
      OccurrencesSplit([rows[0]], rows[1..], i);
      OccurrencesSplit(if rows[0].invoice in ids then [rows[0]] else [], Select(rows[1..], ids), i);
      hide Select;
      OneMore(rows, ids);
      assert Occurrences([rows[0]], i) == if rows[0].invoice == i then 1 else 0;
    }
  }

  /** In the download each chosen invoice's history is numbered exactly 1 to the number of rows it has stored. */
  lemma HistoryFullyNumbered(history: seq<Row>, ids: seq<InvoiceId>, out: seq<HistoryRecord>, i: InvoiceId, n: nat)
      returns (k: nat)
    requires Numbered(out) && multiset(RowsOf(out)) == multiset(Select(history, ids)) && i in ids
    requires 1 <= n <= Occurrences(history, i)
    ensures k < |out| && out[k].row.invoice == i && out[k].seqNo == n
    ensures forall j | 0 <= j < |out| && out[j].row.invoice == i :: 1 <= out[j].seqNo <= Occurrences(history, i)
  {
    SelectKeepsAll(history, ids, i);
    OccurrencesPermute(RowsOf(out), Select(history, ids), i);
    k := NumbersRun(out, i, n);
    forall j | 0 <= j < |out| && out[j].row.invoice == i ensures 1 <= out[j].seqNo <= Occurrences(history, i) {
      Earlier(RowsOf(out), j, i);
    }
  }

  // ---- Line items ----

  predicate Ascending(ids: seq<InvoiceId>) {
    forall i, j | 0 <= i < j < |ids| :: ids[i] <= ids[j]
  }

  function InsertId(sorted: seq<InvoiceId>, i: InvoiceId): seq<InvoiceId> {
    if sorted == [] || i <= sorted[0] then [i] + sorted else [sorted[0]] + InsertId(sorted[1..], i)
  }

  /** The library sort on ids. */
  function SortIds(ids: seq<InvoiceId>): seq<InvoiceId> {
    if ids == [] then [] else InsertId(SortIds(ids[1..]), ids[0])
  }

  lemma {:induction false} InsertIdCounts(sorted: seq<InvoiceId>, i: InvoiceId)
    ensures multiset(InsertId(sorted, i)) == multiset(sorted) + multiset{i}
  {
    if sorted != [] && i > sorted[0] {
      InsertIdCounts(sorted[1..], i);
      assert sorted == [sorted[0]] + sorted[1..];
    }
  }

  lemma LeadAscends(h: InvoiceId, rest: seq<InvoiceId>)
    requires Ascending(rest) && forall x | x in rest :: h <= x
    ensures Ascending([h] + rest)
  {
    assert forall k | 0 <= k < |rest| :: rest[k] in rest;
  }

  lemma {:induction false} InsertIdExact(sorted: seq<InvoiceId>, i: InvoiceId)
    requires Ascending(sorted)
    ensures Ascending(InsertId(sorted, i)) && forall x :: x in InsertId(sorted, i) <==> x in sorted || x == i
  {
    if sorted != [] && i > sorted[0] {
      assert Ascending(sorted[1..]) && forall x | x in sorted[1..] :: sorted[0] <= x;
      assert forall x :: x in sorted <==> x == sorted[0] || x in sorted[1..];
      hide Ascending;
      InsertIdExact(sorted[1..], i);
      LeadAscends(sorted[0], InsertId(sorted[1..], i));
    } else {
      assert forall x | x in sorted :: i <= x;
      LeadAscends(i, sorted);
    }
  }

  lemma {:induction false} SortIdsExact(ids: seq<InvoiceId>)
    ensures Ascending(SortIds(ids)) && multiset(SortIds(ids)) == multiset(ids)
  {
    if ids != [] {
      SortIdsExact(ids[1..]);
      InsertIdExact(SortIds(ids[1..]), ids[0]);
      InsertIdCounts(SortIds(ids[1..]), ids[0]);
      assert ids == [ids[0]] + ids[1..];
    }
  }

  /** The same ids in another order select the same rows in the same order. */
  lemma {:induction false} SelectIgnoresOrder(rows: seq<Row>, a: seq<InvoiceId>, b: seq<InvoiceId>)
    requires forall x :: x in a <==> x in b
    ensures Select(rows, a) == Select(rows, b)
  {
    if rows != [] {
      SelectIgnoresOrder(rows[1..], a, b);
    }
  }

  lemma HeadFirst(rows: seq<Row>, a: seq<InvoiceId>, b: seq<InvoiceId>)
    requires Listed(rows) && rows != [] && rows[0].invoice in b && forall x, y | x in a && y in b :: x < y
    ensures Select(rows[1..], a) == []
  {
    forall r | r in rows[1..] ensures r.invoice !in a {
      var k :| 1 <= k < |rows| && rows[k] == r;
      assert rows[0].invoice <= rows[k].invoice;
    }
    NoneOf(rows[1..], a);
  }

  /** Batches that are apart and in id order concatenate in the table's order. */
  lemma {:induction false} SelectConcatenates(rows: seq<Row>, a: seq<InvoiceId>, b: seq<InvoiceId>)
    requires Listed(rows) && forall x, y | x in a && y in b :: x < y
    ensures Select(rows, a) + Select(rows, b) == Select(rows, a + b)
  {
    if rows != [] {
      assert Listed(rows[1..]);
      if rows[0].invoice in b {
        HeadFirst(rows, a, b);
      }
      hide Select, Listed;
      SelectConcatenates(rows[1..], a, b);
      OneMore(rows, a);
      OneMore(rows, b);
      OneMore(rows, a + b);
      Regroup([rows[0]], Select(rows[1..], a), Select(rows[1..], b));
      assert rows[0].invoice in a + b <==> rows[0].invoice in a || rows[0].invoice in b;
    }
  }

  lemma {:induction false} NoneOf(rows: seq<Row>, ids: seq<InvoiceId>)
    requires forall r | r in rows :: r.invoice !in ids
    ensures Select(rows, ids) == []
  {
    if rows != [] {
      assert rows[0] in rows;
      NoneOf(rows[1..], ids);
    }
  }

  lemma {:induction false} SortedStream(rows: seq<Row>, ids: seq<InvoiceId>, size: nat)
    requires size > 0 && Listed(rows) && Distinct(ids) && Ascending(ids)
    ensures Stream(rows, Chunks(ids, size)) == Select(rows, ids)
    decreases |ids|
  {
    if ids == [] {
      NothingSelected(rows);
    } else if |ids| <= size {
      assert Stream(rows, [ids]) == Select(rows, ids) + Stream(rows, []);
    } else {
      var a, b := ids[..size], ids[size..];
      SortedStream(rows, b, size);
      forall x, y | x in a && y in b ensures x < y {
        var i :| 0 <= i < size && ids[i] == x;
        var j :| size <= j < |ids| && ids[j] == y;
        assert ids[i] <= ids[j] && ids[i] != ids[j];
      }
      SelectConcatenates(rows, a, b);
      assert a + b == ids;
      assert Chunks(ids, size)[1..] == Chunks(b, size);
    }
  }

  lemma {:induction false} DistinctCount(ids: seq<InvoiceId>)
    ensures Distinct(ids) <==> forall x | x in ids :: multiset(ids)[x] == 1
  {
    if ids != [] {
      var rest := ids[1..];
      DistinctCount(rest);
      assert ids == [ids[0]] + rest;
      if forall x | x in ids :: multiset(ids)[x] == 1 {
        assert ids[0] in ids && multiset(rest)[ids[0]] == 0;
        forall x | x in rest ensures multiset(rest)[x] == 1 {
          assert x in ids && x != ids[0];
        }
      }
      if Distinct(ids) {
        assert ids[0] !in rest;
        assert Distinct(rest);
      }
    }
  }

  lemma SortedDistinct(ids: seq<InvoiceId>)
    requires Distinct(ids)
    ensures Distinct(SortIds(ids)) && Ascending(SortIds(ids)) && forall x :: x in SortIds(ids) <==> x in ids
  {
    SortIdsExact(ids);
    DistinctCount(ids);
    DistinctCount(SortIds(ids));
    forall x ensures x in SortIds(ids) <==> x in ids {
      assert x in SortIds(ids) <==> x in multiset(SortIds(ids));
    }
  }

  /** Line items leave in one global order, whatever the order of the ids and wherever the batches fall. */
  method WriteLineItems(lines: seq<Row>, ids: seq<InvoiceId>) returns (out: seq<Row>)
    requires Distinct(ids) && Listed(lines)
    ensures out == Select(lines, ids)
    ensures Listed(out)
  {
    out := [];
    var sorted := SortIds(ids);
    SortedDistinct(ids);
    var batches := Chunk(sorted, BATCH);
    for k := 0 to |batches|
      invariant out + Stream(lines, batches[k..]) == Stream(lines, batches)
    {
      assert batches[k..][0] == batches[k] && batches[k..][1..] == batches[k + 1..];
      var rows := Select(lines, batches[k]);
      assert out + (rows + Stream(lines, batches[k + 1..])) == (out + rows) + Stream(lines, batches[k + 1..]);
      out := out + rows;
    }
    SortedStream(lines, sorted, BATCH);
    SelectIgnoresOrder(lines, sorted, ids);
    SelectListed(lines, ids);
  }

  // ---- Submissions ----

  /** One record per stored submission of the chosen invoices, batch by batch. */
  method WriteSubmissions(jobs: seq<Row>, ids: seq<InvoiceId>) returns (out: seq<Row>)
    requires Distinct(ids)
    ensures out == Stream(jobs, Chunks(ids, BATCH))
    ensures |out| == |Select(jobs, ids)| && multiset(out) == multiset(Select(jobs, ids))
  {
    hide Select, Chunks;
    out := [];
    var batches := Chunk(ids, BATCH);
    for k := 0 to |batches|
      invariant out + Stream(jobs, batches[k..]) == Stream(jobs, batches)
    {
      assert batches[k..][0] == batches[k] && batches[k..][1..] == batches[k + 1..];
      var rows := Select(jobs, batches[k]);
      Regroup(out, rows, Stream(jobs, batches[k + 1..]));
      out := out + rows;
    }
    assert out + [] == out;
    StreamExact(jobs, ids, BATCH);
    SameSize(out, Select(jobs, ids));
  }

  // ---- Row ids ----

  /** The id is the table's primary key. */
  predicate Keyed(rows: seq<Row>) {
    forall i, j | 0 <= i < j < |rows| :: rows[i].id != rows[j].id
  }

  lemma SameIdSameRow(rows: seq<Row>, x: Row, y: Row)
    requires Keyed(rows) && x in rows && y in rows && x.id == y.id
    ensures x == y
  {
    var i :| 0 <= i < |rows| && rows[i] == x;
    var j :| 0 <= j < |rows| && rows[j] == y;
  }

  lemma KeyedAppend(a: seq<Row>, b: seq<Row>)
    requires Keyed(a) && Keyed(b) && forall x, y | x in a && y in b :: x.id != y.id
    ensures Keyed(a + b)
  {
    forall i, k | 0 <= i < |a| <= k < |a + b| ensures (a + b)[i].id != (a + b)[k].id {
      assert a[i] in a && b[k - |a|] in b;
    }
  }

  lemma {:induction false} SelectKeyed(rows: seq<Row>, ids: seq<InvoiceId>)
    requires Keyed(rows)
    ensures Keyed(Select(rows, ids))
  {
    if rows != [] {
      SelectKeyed(rows[1..], ids);
      SelectExact(rows[1..], ids);
      forall y | y in Select(rows[1..], ids) ensures rows[0].id != y.id {
        var k :| 1 <= k < |rows| && rows[k] == y;
      }
      if rows[0].invoice in ids {
        KeyedAppend([rows[0]], Select(rows[1..], ids));
      } else {
        assert [] + Select(rows[1..], ids) == Select(rows[1..], ids);
      }
    }
  }

  lemma {:induction false} ApartKeyed(rows: seq<Row>, a: seq<Row>, b: seq<Row>)
    requires Keyed(rows) && Keyed(a) && Keyed(b)
    requires (forall x | x in a :: x in rows) && (forall y | y in b :: y in rows)
    requires forall x, y | x in a && y in b :: x.invoice != y.invoice
    ensures Keyed(a + b)
  {
    forall x, y | x in a && y in b ensures x.id != y.id {
      if x.id == y.id {
        SameIdSameRow(rows, x, y);
      }
    }
    KeyedAppend(a, b);
  }

  /** No row is written twice, so the written rows keep distinct ids. */
  lemma {:induction false} StreamKeyed(rows: seq<Row>, ids: seq<InvoiceId>, size: nat)
    requires size > 0 && Distinct(ids) && Keyed(rows)
    ensures Keyed(Stream(rows, Chunks(ids, size)))
    ensures forall r | r in Stream(rows, Chunks(ids, size)) :: r in rows && r.invoice in ids
    decreases |ids|
  {
    if ids != [] && |ids| <= size {
      SelectKeyed(rows, ids);
      SelectExact(rows, ids);
      assert Stream(rows, [ids]) == Select(rows, ids) + Stream(rows, []);
      assert Select(rows, ids) + [] == Select(rows, ids);
    } else if ids != [] {
      var a, b := ids[..size], ids[size..];
      StreamKeyed(rows, b, size);
      SelectKeyed(rows, a);
      SelectExact(rows, a);
      assert Apart(a, b);
      assert Chunks(ids, size)[1..] == Chunks(b, size);
      hide Keyed, Select;
      ApartKeyed(rows, Select(rows, a), Stream(rows, Chunks(b, size)));
      assert forall x | x in b :: x in ids;
      assert forall x | x in a :: x in ids;
    }
  }

  // ---- Exchange attempts ----

  datatype Side = Request | Response

  datatype BodyFile = BodyFile(exchange: nat, side: Side, body: string)

  datatype ExchangeRecord = ExchangeRecord(row: Row, requestFile: Option<(nat, Side)>,
                                           responseFile: Option<(nat, Side)>)

  function FilesOf(r: Row): seq<BodyFile> {
    (if r.request.Some? then [BodyFile(r.id, Request, r.request.value)] else [])
    + (if r.response.Some? then [BodyFile(r.id, Response, r.response.value)] else [])
  }

  function Files(rows: seq<Row>): seq<BodyFile> {
    if rows == [] then [] else Files(rows[..|rows| - 1]) + FilesOf(rows[|rows| - 1])
  }

  function RecordOf(r: Row): ExchangeRecord {
    ExchangeRecord(r, if r.request.Some? then Some((r.id, Request)) else None,
                   if r.response.Some? then Some((r.id, Response)) else None)
  }

  lemma {:induction false} FileCount(rows: seq<Row>)
    ensures |Files(rows)| == Bodies(rows)
  {
    if rows != [] {
      var last := |rows| - 1;
      FileCount(rows[..last]);
      assert rows == rows[..last] + [rows[last]];
      BodiesAppend(rows[..last], [rows[last]]);
    }
  }

  /** Every body file is named by its exchange and side, and holds that body. */
  lemma {:induction false} FilesExact(rows: seq<Row>)
    ensures forall f | f in Files(rows) :: exists r :: r in rows && f in FilesOf(r)
    ensures forall r | r in rows :: forall f | f in FilesOf(r) :: f in Files(rows)
  {
    if rows != [] {
      var last := |rows| - 1;
      FilesExact(rows[..last]);
      assert rows == rows[..last] + [rows[last]];
      assert Files(rows) == Files(rows[..last]) + FilesOf(rows[last]);
      forall f | f in Files(rows) ensures exists r :: r in rows && f in FilesOf(r) {
        if f in FilesOf(rows[last]) {
          assert rows[last] in rows;
        } else {
          var r :| r in rows[..last] && f in FilesOf(r);
          assert r in rows;
        }
      }
    }
  }

  lemma {:induction false} FilesAppend(a: seq<Row>, b: seq<Row>)
    ensures Files(a + b) == Files(a) + Files(b)
  {
    if b == [] {
      assert a + b == a;
    } else {
      var last := |b| - 1;
      FilesAppend(a, b[..last]);
      assert (a + b)[..|a + b| - 1] == a + b[..last];
      assert Files(a) + (Files(b[..last]) + FilesOf(b[last])) == (Files(a) + Files(b[..last])) + FilesOf(b[last]);
    }
  }

  predicate Recorded(out: seq<ExchangeRecord>, rows: seq<Row>) {
    |out| == |rows| && forall k | 0 <= k < |out| :: out[k] == RecordOf(rows[k])
  }

  /** No two body files share a name. */
  ghost predicate NamesDistinct(files: seq<BodyFile>) {
    forall i, j | 0 <= i < j < |files| :: files[i].exchange != files[j].exchange || files[i].side != files[j].side
  }

  lemma NamesAppend(a: seq<BodyFile>, b: seq<BodyFile>)
    requires NamesDistinct(a) && NamesDistinct(b)
    requires forall f, g | f in a && g in b :: f.exchange != g.exchange
    ensures NamesDistinct(a + b)
  {
    forall i, k | 0 <= i < |a| <= k < |a + b| ensures (a + b)[i].exchange != (a + b)[k].exchange {
      assert a[i] in a && b[k - |a|] in b;
    }
  }

  lemma FilesApart(rows: seq<Row>, r: Row)
    requires forall x | x in rows :: x.id != r.id
    ensures forall f, g | f in Files(rows) && g in FilesOf(r) :: f.exchange != g.exchange
  {
    FilesExact(rows);
    forall f, g | f in Files(rows) && g in FilesOf(r) ensures f.exchange != g.exchange {
      var x :| x in rows && f in FilesOf(x);
    }
  }

  lemma LastDiffers(rows: seq<Row>)
    requires Keyed(rows) && rows != []
    ensures Keyed(rows[..|rows| - 1]) && forall x | x in rows[..|rows| - 1] :: x.id != rows[|rows| - 1].id
  {
  }

  /** Distinct exchange ids give distinct file names. */
  lemma {:induction false} FileNamesDistinct(rows: seq<Row>)
    requires Keyed(rows)
    ensures NamesDistinct(Files(rows))
  {
    if rows != [] {
      var last := |rows| - 1;
      LastDiffers(rows);
      FileNamesDistinct(rows[..last]);
      FilesApart(rows[..last], rows[last]);
      assert NamesDistinct(FilesOf(rows[last]));
      hide Keyed, NamesDistinct, FilesOf;
      NamesAppend(Files(rows[..last]), FilesOf(rows[last]));
    }
  }

  /** The file a record names: it exists exactly when the row has that body, and it alone has that name. */
  ghost predicate NamesItsBody(name: Option<(nat, Side)>, body: Option<string>, files: seq<BodyFile>) {
    && (name.Some? <==> body.Some?)
    && (name.Some? ==>
          && BodyFile(name.value.0, name.value.1, body.value) in files
          && forall f | f in files && f.exchange == name.value.0 && f.side == name.value.1 :: f.body == body.value)
  }

  lemma NamedOnce(files: seq<BodyFile>, f: BodyFile, g: BodyFile)
    requires NamesDistinct(files) && f in files && g in files && f.exchange == g.exchange && f.side == g.side
    ensures f == g
  {
    var i :| 0 <= i < |files| && files[i] == f;
    var j :| 0 <= j < |files| && files[j] == g;
  }

  /** Each record names exactly the files that hold its row's bodies. */
  lemma {:induction false} RecordsNameBodies(rows: seq<Row>, k: nat)
    requires Keyed(rows) && k < |rows|
    ensures NamesItsBody(RecordOf(rows[k]).requestFile, rows[k].request, Files(rows))
    ensures NamesItsBody(RecordOf(rows[k]).responseFile, rows[k].response, Files(rows))
  {
    hide NamesDistinct, Files, Keyed;
    var r := rows[k];
    if r.request.Some? {
      assert FilesOf(r)[0] == BodyFile(r.id, Request, r.request.value);
      FileIsAlone(rows, k, BodyFile(r.id, Request, r.request.value));
    }
    if r.response.Some? {
      assert FilesOf(r)[|FilesOf(r)| - 1] == BodyFile(r.id, Response, r.response.value);
      FileIsAlone(rows, k, BodyFile(r.id, Response, r.response.value));
    }
  }

  lemma FileIsAlone(rows: seq<Row>, k: nat, f: BodyFile)
    requires Keyed(rows) && k < |rows| && f in FilesOf(rows[k])
    ensures f in Files(rows)
    ensures forall g | g in Files(rows) && g.exchange == f.exchange && g.side == f.side :: g == f
  {
    hide NamesDistinct, Files, FilesOf, Keyed;
    FileNamesDistinct(rows);
    FilesExact(rows);
    assert rows[k] in rows;
    forall g | g in Files(rows) && g.exchange == f.exchange && g.side == f.side ensures g == f {
      NamedOnce(Files(rows), f, g);
    }
  }

  /** One batch: each row's present bodies become files, and its record names exactly those files. */
  method WriteAttempts(rows: seq<Row>) returns (out: seq<ExchangeRecord>, files: seq<BodyFile>)
    ensures Recorded(out, rows) && files == Files(rows)
  {
    out, files := [], [];
    for n := 0 to |rows|
      invariant Recorded(out, rows[..n]) && files == Files(rows[..n])
    {
      var r := rows[n];
      assert rows[..n + 1][..n] == rows[..n];
      var requestFile, responseFile := None, None;
      if r.request.Some? {
        requestFile := Some((r.id, Request));
        files := files + [BodyFile(r.id, Request, r.request.value)];
      }
      if r.response.Some? {
        responseFile := Some((r.id, Response));
        files := files + [BodyFile(r.id, Response, r.response.value)];
      }
      out := out + [ExchangeRecord(r, requestFile, responseFile)];
    }
    assert rows[..|rows|] == rows;
  }

  /** The exchange csv and its body files: as many records and files as the preview counts. */
  method WriteExchange(exchange: seq<Row>, ids: seq<InvoiceId>) returns (out: seq<ExchangeRecord>, files: seq<BodyFile>)
    requires Distinct(ids) && Keyed(exchange)
    ensures |out| == |Select(exchange, ids)| && |files| == Bodies(Select(exchange, ids))
    ensures var rows := Stream(exchange, Chunks(ids, BATCH));
      Recorded(out, rows) && files == Files(rows) && multiset(rows) == multiset(Select(exchange, ids))
    ensures NamesDistinct(files)
    ensures forall k | 0 <= k < |out| ::
      && NamesItsBody(out[k].requestFile, out[k].row.request, files)
      && NamesItsBody(out[k].responseFile, out[k].row.response, files)
  {
    StreamExact(exchange, ids, BATCH);
    out, files := [], [];
    var batches := Chunk(ids, BATCH);
    ghost var stream := Stream(exchange, batches);
    SameSize(stream, Select(exchange, ids));
    FileCount(stream);
    hide Select, Files, Bodies, Recorded;
    ghost var done: seq<Row> := [];
    NothingWritten();
    for k := 0 to |batches|
      invariant done + Stream(exchange, batches[k..]) == stream
      invariant Recorded(out, done) && files == Files(done)
    {
      assert batches[k..][0] == batches[k] && batches[k..][1..] == batches[k + 1..];
      var rows := Select(exchange, batches[k]);
      var records, bodies := WriteAttempts(rows);
      Regroup(done, rows, Stream(exchange, batches[k + 1..]));
      FilesAppend(done, rows);
      RecordedAppend(out, done, records, rows);
      out, files, done := out + records, files + bodies, done + rows;
    }
    assert done + [] == done;
    Named(exchange, ids, out, files);
  }

  lemma {:induction false} Named(exchange: seq<Row>, ids: seq<InvoiceId>, out: seq<ExchangeRecord>,
                                 files: seq<BodyFile>)
    requires Distinct(ids) && Keyed(exchange)
    requires Recorded(out, Stream(exchange, Chunks(ids, BATCH))) && files == Files(Stream(exchange, Chunks(ids, BATCH)))
    ensures NamesDistinct(files)
    ensures forall k | 0 <= k < |out| ::
      && NamesItsBody(out[k].requestFile, out[k].row.request, files)
      && NamesItsBody(out[k].responseFile, out[k].row.response, files)
  {
    var rows := Stream(exchange, Chunks(ids, BATCH));
    StreamKeyed(exchange, ids, BATCH);
    hide Stream, Chunks, Files, NamesItsBody, NamesDistinct, Keyed;
    FileNamesDistinct(rows);
    forall k | 0 <= k < |out|
      ensures NamesItsBody(out[k].requestFile, out[k].row.request, files)
      ensures NamesItsBody(out[k].responseFile, out[k].row.response, files)
    {
      RecordsNameBodies(rows, k);
    }
  }

  lemma NothingWritten()
    ensures Files([]) == [] && Recorded([], [])
  {
  }

  lemma RecordedAppend(out: seq<ExchangeRecord>, rows: seq<Row>, more: seq<ExchangeRecord>, moreRows: seq<Row>)
    requires Recorded(out, rows) && Recorded(more, moreRows)
    ensures Recorded(out + more, rows + moreRows)
  {
  }

  // ---- Preview against download ----

  /** On one snapshot the preview's counts are those of the download, file by file. */
  method PreviewAndDownload(lines: seq<Row>, history: seq<Row>, jobs: seq<Row>, exchange: seq<Row>,
                            ids: seq<InvoiceId>)
    returns (c: Counts, items: seq<Row>, transitions: seq<HistoryRecord>, submissions: seq<Row>,
             attempts: seq<ExchangeRecord>, bodies: seq<BodyFile>)
    requires Distinct(ids) && Listed(lines) && Listed(history) && Keyed(exchange)
    ensures c == Counts(|items|, |transitions|, |submissions|, |attempts|, |bodies|)
  {
    c := CountChildren(lines, history, jobs, exchange, ids);
    items := WriteLineItems(lines, ids);
    transitions := WriteHistory(history, ids);
    submissions := WriteSubmissions(jobs, ids);
    attempts, bodies := WriteExchange(exchange, ids);
  }
}
