/** One pass of the polling loop of `main`: fetch a batch, and for each
    request whose id the ledger does not hold, try to notify and then insert
    it. Notification failures are swallowed, so the insert follows every
    attempt; a KeyError outside the notifier ends the pass. */
module Poll {
  import opened Requests
  import opened Message
  import opened Storage
  import opened Fetch

  /** What `send_request_to_telegram` did with one request. Neither case
      raises: a formatting KeyError and a notifier failure are both logged
      and swallowed. */
  datatype SendResult =
    | NotFormatted(missing: string)        // KeyError while building the text
    | Sent(text: string, delivered: bool)  // handed to the notifier, which succeeded or failed

  /** One call of `send_request_to_telegram`, for the request with this id. */
  datatype Attempt = Attempt(id: int, result: SendResult)

  /** How a pass ended: after the whole batch, or on an exception escaping
      at the request with index `at`. */
  datatype Outcome = Completed | Aborted(at: nat, fault: Fault)

  /** The ledger rows after a pass, the attempts it made in order, and how it ended. */
  datatype Cycle = Cycle(rows: map<int, Row>, attempts: seq<Attempt>, outcome: Outcome)

  /** `send_request_to_telegram`, with the notifier's answer to this call as
      `delivered`. */
  function SendRequest(r: Record, delivered: bool): (res: SendResult)
    ensures res.Sent? <==> ReadRow(r).Ok?
    ensures res.NotFormatted? ==> IsFirstMissing(r.fields, res.missing)
    ensures res.Sent? ==> FormatMessage(r) == Ok(res.text) && res.delivered == delivered
  {
    match FormatMessage(r)
    case Err(k) => NotFormatted(k)
    case Ok(text) => Sent(text, delivered)
  }

  /** Notifier calls made so far, after one more attempt. */
  function CallsAfter(calls: nat, a: Attempt): nat
  {
    if a.result.Sent? then calls + 1 else calls
  }

  /** The pass over `batch`, starting from ledger rows `rows`. `delivers(n)`
      is the notifier's answer to its n-th call in this pass; `calls` calls
      were made before, and `batch[0]` has index `at` in the fetched list. */
  function Process(rows: map<int, Row>, batch: seq<Record>, delivers: nat -> bool,
                   calls: nat, at: nat): Cycle
    decreases |batch|
  {
    if batch == [] then Cycle(rows, [], Completed)
    else
      var r := batch[0];
      match r.id
      case None => Cycle(rows, [], Aborted(at, MissingKey("id")))
      case Some(id) =>
        if !FitsInteger(id) then Cycle(rows, [], Aborted(at, IdOverflow(id)))
        else if id in rows then Process(rows, batch[1..], delivers, calls, at + 1)
        else
          var a := Attempt(id, SendRequest(r, delivers(calls)));
          match Insert(rows, r)
          case Err(f) => Cycle(rows, [a], Aborted(at, f))
          case Ok(next) =>
            var rest := Process(next, batch[1..], delivers, CallsAfter(calls, a), at + 1);
            Cycle(rest.rows, [a] + rest.attempts, rest.outcome)
  }

  /** A whole pass over a fetched batch. */
  function RunCycle(rows: map<int, Row>, batch: seq<Record>, delivers: nat -> bool): Cycle
  {
    Process(rows, batch, delivers, 0, 0)
  }

  function Prepend(attempts: seq<Attempt>, c: Cycle): Cycle
  {
    Cycle(c.rows, attempts + c.attempts, c.outcome)
  }

  /** The ids present in a batch. */
  function IdsOf(batch: seq<Record>): set<int>
  {
    set i | 0 <= i < |batch| && batch[i].id.Some? :: batch[i].id.value
  }

  /** Reference definition: the ids of `batch`, in order, keeping only the
      first occurrence of each id and dropping those in `seen`. */
  function FirstUnseen(seen: set<int>, batch: seq<Record>): seq<int>
    requires forall i :: 0 <= i < |batch| ==> batch[i].id.Some?
    decreases |batch|
  {
    if batch == [] then []
    else if batch[0].id.value in seen then FirstUnseen(seen, batch[1..])
    else [batch[0].id.value] + FirstUnseen(seen + {batch[0].id.value}, batch[1..])
  }

  function AttemptIds(attempts: seq<Attempt>): seq<int>
  {
    seq(|attempts|, i requires 0 <= i < |attempts| => attempts[i].id)
  }

  lemma IdsOfTail(batch: seq<Record>)
    requires batch != []
    ensures IdsOf(batch) == IdsOf(batch[1..]) + (if batch[0].id.Some? then {batch[0].id.value} else {})
  {
    var tail := batch[1..];
    forall x | x in IdsOf(batch)
      ensures x in IdsOf(tail) + (if batch[0].id.Some? then {batch[0].id.value} else {})
    {
      var i :| 0 <= i < |batch| && batch[i].id.Some? && batch[i].id.value == x;
      if i > 0 {
        assert tail[i - 1] == batch[i];
      }
    }
    forall x | x in IdsOf(tail) ensures x in IdsOf(batch) {
      var i :| 0 <= i < |tail| && tail[i].id.Some? && tail[i].id.value == x;
      assert batch[i + 1] == tail[i];
    }
  }

  /** The ledger only grows during a pass: every row present before is still
      there, unchanged, and every new row has the id of a batch record. */
  lemma {:induction false} ProcessGrows(rows: map<int, Row>, batch: seq<Record>, delivers: nat -> bool,
                                        calls: nat, at: nat)
    ensures var c := Process(rows, batch, delivers, calls, at);
      && (forall k :: k in rows ==> k in c.rows && c.rows[k] == rows[k])
      && c.rows.Keys <= rows.Keys + IdsOf(batch)
    decreases |batch|
  {
    if batch != [] {
      IdsOfTail(batch);
      var r := batch[0];
      if r.id.Some? && FitsInteger(r.id.value) {
        var id := r.id.value;
        if id in rows {
          ProcessGrows(rows, batch[1..], delivers, calls, at + 1);
        } else {
          var a := Attempt(id, SendRequest(r, delivers(calls)));
          if Insert(rows, r).Ok? {
            ProcessGrows(Insert(rows, r).value, batch[1..], delivers, CallsAfter(calls, a), at + 1);
          }
        }
      }
    }
  }

  /** No attempt is for an id in `rows`. */
  ghost predicate AttemptsFresh(rows: map<int, Row>, attempts: seq<Attempt>)
  {
    forall i :: 0 <= i < |attempts| ==> attempts[i].id !in rows
  }

  /** No id is attempted twice. */
  ghost predicate DistinctIds(attempts: seq<Attempt>)
  {
    forall i, j :: 0 <= i < j < |attempts| ==> attempts[i].id != attempts[j].id
  }

  /** Every text handed to the notifier has its id stored, and the stored
      row renders to that text (`SentFromBatch` names the request itself). */
  ghost predicate SentAreStored(c: Cycle)
  {
    forall i :: 0 <= i < |c.attempts| && c.attempts[i].result.Sent? ==>
      c.attempts[i].id in c.rows && c.attempts[i].result.text == Render(c.rows[c.attempts[i].id])
  }

  /** An attempt that could not be formatted is the last one, and the pass
      ends with the same KeyError. */
  ghost predicate UnformattedEnds(c: Cycle)
  {
    forall i :: 0 <= i < |c.attempts| && c.attempts[i].result.NotFormatted? ==>
      i == |c.attempts| - 1 && c.outcome.Aborted? && c.outcome.fault == MissingKey(c.attempts[i].result.missing)
  }

  /** Every attempt of a pass is for an id the ledger did not hold when the
      pass began, and no id is attempted twice in one pass. */
  lemma {:induction false} AttemptsAreNew(rows: map<int, Row>, batch: seq<Record>, delivers: nat -> bool,
                                          calls: nat, at: nat)
    ensures AttemptsFresh(rows, Process(rows, batch, delivers, calls, at).attempts)
    ensures DistinctIds(Process(rows, batch, delivers, calls, at).attempts)
    decreases |batch|
  {
    if batch != [] {
      var r := batch[0];
      var tail := batch[1..];
      if r.id.Some? && FitsInteger(r.id.value) {
        var id := r.id.value;
        var c := Process(rows, batch, delivers, calls, at);
        if id in rows {
          AttemptsAreNew(rows, tail, delivers, calls, at + 1);
          assert c == Process(rows, tail, delivers, calls, at + 1);
        } else if Insert(rows, r).Ok? {
          var a := Attempt(id, SendRequest(r, delivers(calls)));
          var next := Insert(rows, r).value;
          var n := CallsAfter(calls, a);
          var rest := Process(next, tail, delivers, n, at + 1);
          AttemptsAreNew(next, tail, delivers, n, at + 1);
          assert c.attempts == [a] + rest.attempts;
          forall i | 0 <= i < |c.attempts|
            ensures c.attempts[i].id !in rows
          {
            if i > 0 { assert c.attempts[i] == rest.attempts[i - 1]; }
          }
          forall i, j | 0 <= i < j < |c.attempts|
            ensures c.attempts[i].id != c.attempts[j].id
          {
            assert c.attempts[j] == rest.attempts[j - 1];
            if i > 0 { assert c.attempts[i] == rest.attempts[i - 1]; }
          }
        }
      }
    }
  }

  /** Every attempt that reached the notifier, delivered or not, has its id
      stored, and the stored row renders to that text (`SentIsFromBatch`
      names the request the row was read from); an attempt that could not be
      formatted is the last one and ends the pass with the same KeyError. */
  lemma {:induction false} SentIsStored(rows: map<int, Row>, batch: seq<Record>, delivers: nat -> bool,
                                        calls: nat, at: nat)
    ensures SentAreStored(Process(rows, batch, delivers, calls, at))
    ensures UnformattedEnds(Process(rows, batch, delivers, calls, at))
    decreases |batch|
  {
    if batch != [] {
      var r := batch[0];
      var tail := batch[1..];
      if r.id.Some? && FitsInteger(r.id.value) {
        var id := r.id.value;
        var c := Process(rows, batch, delivers, calls, at);
        if id in rows {
          SentIsStored(rows, tail, delivers, calls, at + 1);
          assert c == Process(rows, tail, delivers, calls, at + 1);
        } else if Insert(rows, r).Ok? {
          var a := Attempt(id, SendRequest(r, delivers(calls)));
          var next := Insert(rows, r).value;
          var n := CallsAfter(calls, a);
          var rest := Process(next, tail, delivers, n, at + 1);
          SentIsStored(next, tail, delivers, n, at + 1);
          ProcessGrows(next, tail, delivers, n, at + 1);
          assert c == Cycle(rest.rows, [a] + rest.attempts, rest.outcome);
          assert a.result == Sent(Render(ReadRow(r).value), delivers(calls));
          assert id in rest.rows && rest.rows[id] == ReadRow(r).value;
          forall i | 0 <= i < |c.attempts| && c.attempts[i].result.Sent?
            ensures c.attempts[i].id in c.rows && c.attempts[i].result.text == Render(c.rows[c.attempts[i].id])
          {
            if i > 0 { assert c.attempts[i] == rest.attempts[i - 1]; }
          }
          forall i | 0 <= i < |c.attempts| && c.attempts[i].result.NotFormatted?
            ensures i == |c.attempts| - 1 && c.outcome.Aborted? && c.outcome.fault == MissingKey(c.attempts[i].result.missing)
          {
            assert i > 0 && c.attempts[i] == rest.attempts[i - 1];
          }
        } else {
          var a := Attempt(id, SendRequest(r, delivers(calls)));
          assert c == Cycle(rows, [a], Aborted(at, Insert(rows, r).error));
        }
      }
    }
  }

  /** `k` is the first index of `batch` whose request has id `id`. */
  ghost predicate FirstWithId(batch: seq<Record>, k: int, id: int)
  {
    0 <= k < |batch| && batch[k].id == Some(id) && forall m :: 0 <= m < k ==> batch[m].id != Some(id)
  }

  /** Attempt `a` handed the notifier the text of `batch[k]`, and `rows`
      stores the row read from that request under its id. */
  ghost predicate MadeFrom(a: Attempt, rows: map<int, Row>, batch: seq<Record>, k: int)
  {
    && FirstWithId(batch, k, a.id) && ReadRow(batch[k]).Ok?
    && a.id in rows && rows[a.id] == ReadRow(batch[k]).value
    && a.result.Sent? && a.result.text == Render(ReadRow(batch[k]).value)
  }

  /** Every text handed to the notifier was made from a request of the batch. */
  ghost predicate SentFromBatch(c: Cycle, batch: seq<Record>)
  {
    forall i :: 0 <= i < |c.attempts| && c.attempts[i].result.Sent? ==>
      exists k :: MadeFrom(c.attempts[i], c.rows, batch, k)
  }

  lemma MadeFromTail(a: Attempt, rows: map<int, Row>, batch: seq<Record>, k: int)
    requires batch != [] && batch[0].id != Some(a.id)
    requires MadeFrom(a, rows, batch[1..], k)
    ensures MadeFrom(a, rows, batch, k + 1)
  {
    assert batch[k + 1] == batch[1..][k];
    forall m | 0 < m < k + 1 ensures batch[m].id != Some(a.id) {
      assert batch[m] == batch[1..][m - 1];
    }
  }

  /** Every text handed to the notifier, delivered or not, was made from the
      first request of the batch with that id, and the ledger stores the row
      read from that very request under the id. */
  lemma {:induction false} SentIsFromBatch(rows: map<int, Row>, batch: seq<Record>, delivers: nat -> bool,
                                           calls: nat, at: nat)
    ensures SentFromBatch(Process(rows, batch, delivers, calls, at), batch)
    decreases |batch|
  {
    if batch != [] {
      var r := batch[0];
      var tail := batch[1..];
      if r.id.Some? && FitsInteger(r.id.value) {
        var id := r.id.value;
        var c := Process(rows, batch, delivers, calls, at);
        if id in rows {
          SentIsFromBatch(rows, tail, delivers, calls, at + 1);
          AttemptsAreNew(rows, tail, delivers, calls, at + 1);
          assert c == Process(rows, tail, delivers, calls, at + 1);
          forall i | 0 <= i < |c.attempts| && c.attempts[i].result.Sent?
            ensures exists k :: MadeFrom(c.attempts[i], c.rows, batch, k)
          {
            var k :| MadeFrom(c.attempts[i], c.rows, tail, k);
            MadeFromTail(c.attempts[i], c.rows, batch, k);
          }
        } else if Insert(rows, r).Ok? {
          var a := Attempt(id, SendRequest(r, delivers(calls)));
          var next := Insert(rows, r).value;
          var n := CallsAfter(calls, a);
          var rest := Process(next, tail, delivers, n, at + 1);
          SentIsFromBatch(next, tail, delivers, n, at + 1);
          AttemptsAreNew(next, tail, delivers, n, at + 1);
          ProcessGrows(next, tail, delivers, n, at + 1);
          assert c == Cycle(rest.rows, [a] + rest.attempts, rest.outcome);
          assert a.result == Sent(Render(ReadRow(r).value), delivers(calls));
          assert MadeFrom(a, c.rows, batch, 0);
          forall i | 0 <= i < |c.attempts| && c.attempts[i].result.Sent?
            ensures exists k :: MadeFrom(c.attempts[i], c.rows, batch, k)
          {
            if i > 0 {
              assert c.attempts[i] == rest.attempts[i - 1];
              var k :| MadeFrom(c.attempts[i], c.rows, tail, k);
              MadeFromTail(c.attempts[i], c.rows, batch, k);
            }
          }
        }
      }
    }
  }

  /** A pass stops early only on a KeyError or on an id SQLite cannot bind,
      never on the PRIMARY KEY or a missing table: ids already stored are
      skipped before any insert. The index of the stopping request lies
      within the batch, and a pass that completes met a bindable id in every
      request. */
  lemma {:induction false} AbortIsBadRecord(rows: map<int, Row>, batch: seq<Record>, delivers: nat -> bool,
                                             calls: nat, at: nat)
    ensures var c := Process(rows, batch, delivers, calls, at);
      && (c.outcome.Aborted? ==> (c.outcome.fault.MissingKey? || c.outcome.fault.IdOverflow?)
                                 && at <= c.outcome.at < at + |batch|)
      && (c.outcome.Completed? ==> forall i :: 0 <= i < |batch| ==> batch[i].id.Some? && FitsInteger(batch[i].id.value))
    decreases |batch|
  {
    if batch != [] {
      var r := batch[0];
      if r.id.Some? && FitsInteger(r.id.value) {
        var id := r.id.value;
        var tail := batch[1..];
        if id in rows {
          AbortIsBadRecord(rows, tail, delivers, calls, at + 1);
          assert forall i :: 1 <= i < |batch| ==> batch[i] == tail[i - 1];
        } else {
          var a := Attempt(id, SendRequest(r, delivers(calls)));
          if Insert(rows, r).Ok? {
            AbortIsBadRecord(Insert(rows, r).value, tail, delivers, CallsAfter(calls, a), at + 1);
            assert forall i :: 1 <= i < |batch| ==> batch[i] == tail[i - 1];
          }
        }
      }
    }
  }

  /** A pass that stops at request `j` keeps the effects of the requests
      before it: those requests, processed alone, complete with the same
      ledger, and their attempts begin the pass's attempts, followed by at
      most the one attempt of the stopping request. */
  lemma {:induction false} AbortKeepsPrefix(rows: map<int, Row>, batch: seq<Record>, delivers: nat -> bool,
                                            calls: nat, at: nat)
    requires Process(rows, batch, delivers, calls, at).outcome.Aborted?
    ensures var c := Process(rows, batch, delivers, calls, at);
      var j := c.outcome.at;
      && at <= j < at + |batch|
      && var p := Process(rows, batch[..j - at], delivers, calls, at);
      && p.outcome == Completed && p.rows == c.rows
      && |p.attempts| <= |c.attempts| <= |p.attempts| + 1
      && c.attempts[..|p.attempts|] == p.attempts
    decreases |batch|
  {
    var c := Process(rows, batch, delivers, calls, at);
    var r := batch[0];
    var tail := batch[1..];
    assert batch[..0] == [];
    if r.id.Some? && FitsInteger(r.id.value) {
      var id := r.id.value;
      if id in rows {
        AbortKeepsPrefix(rows, tail, delivers, calls, at + 1);
        var pre := batch[..c.outcome.at - at];
        assert pre[0] == r && pre[1..] == tail[..c.outcome.at - (at + 1)];
      } else if Insert(rows, r).Ok? {
        var a := Attempt(id, SendRequest(r, delivers(calls)));
        var next := Insert(rows, r).value;
        var n := CallsAfter(calls, a);
        AbortKeepsPrefix(next, tail, delivers, n, at + 1);
        var pre := batch[..c.outcome.at - at];
        assert pre[0] == r && pre[1..] == tail[..c.outcome.at - (at + 1)];
        var c' := Process(next, tail, delivers, n, at + 1);
        var p' := Process(next, pre[1..], delivers, n, at + 1);
        assert c.attempts == [a] + c'.attempts;
        assert Process(rows, pre, delivers, calls, at) == Cycle(p'.rows, [a] + p'.attempts, p'.outcome);
      }
    }
  }

  /** A batch of well-formed requests always completes, the ledger gains
      exactly the batch's ids, and every attempt reaches the notifier. */
  lemma {:induction false} WellFormedBatch(rows: map<int, Row>, batch: seq<Record>, delivers: nat -> bool,
                                           calls: nat, at: nat)
    requires forall i :: 0 <= i < |batch| ==> WellFormed(batch[i])
    ensures var c := Process(rows, batch, delivers, calls, at);
      && c.outcome == Completed
      && c.rows.Keys == rows.Keys + IdsOf(batch)
      && forall i :: 0 <= i < |c.attempts| ==> c.attempts[i].result.Sent?
    decreases |batch|
  {
    if batch != [] {
      IdsOfTail(batch);
      var r := batch[0];
      var id := r.id.value;
      var tail := batch[1..];
      assert forall i :: 0 <= i < |tail| ==> tail[i] == batch[i + 1];
      var c := Process(rows, batch, delivers, calls, at);
      if id in rows {
        WellFormedBatch(rows, tail, delivers, calls, at + 1);
        assert c == Process(rows, tail, delivers, calls, at + 1);
      } else {
        var a := Attempt(id, SendRequest(r, delivers(calls)));
        var next := Insert(rows, r).value;
        var n := CallsAfter(calls, a);
        WellFormedBatch(next, tail, delivers, n, at + 1);
        var rest := Process(next, tail, delivers, n, at + 1);
        assert c == Cycle(rest.rows, [a] + rest.attempts, rest.outcome);
        forall i | 0 <= i < |c.attempts| ensures c.attempts[i].result.Sent? {
          if i > 0 { assert c.attempts[i] == rest.attempts[i - 1]; }
        }
      }
    }
  }

  /** For a batch of well-formed requests the notifier is called for the ids
      not stored before, in batch order, first occurrence only. */
  lemma {:induction false} WellFormedBatchOrder(rows: map<int, Row>, batch: seq<Record>, delivers: nat -> bool,
                                                calls: nat, at: nat)
    requires forall i :: 0 <= i < |batch| ==> WellFormed(batch[i])
    ensures forall i :: 0 <= i < |batch| ==> batch[i].id.Some?
    ensures AttemptIds(Process(rows, batch, delivers, calls, at).attempts) == FirstUnseen(rows.Keys, batch)
    decreases |batch|
  {
    if batch != [] {
      var r := batch[0];
      var id := r.id.value;
      var tail := batch[1..];
      assert forall i :: 0 <= i < |tail| ==> tail[i] == batch[i + 1];
      var c := Process(rows, batch, delivers, calls, at);
      if id in rows {
        WellFormedBatchOrder(rows, tail, delivers, calls, at + 1);
        assert c == Process(rows, tail, delivers, calls, at + 1);
      } else {
        var a := Attempt(id, SendRequest(r, delivers(calls)));
        var next := Insert(rows, r).value;
        var n := CallsAfter(calls, a);
        WellFormedBatchOrder(next, tail, delivers, n, at + 1);
        var rest := Process(next, tail, delivers, n, at + 1);
        assert next.Keys == rows.Keys + {id};
        assert c.attempts == [a] + rest.attempts;
        assert AttemptIds([a] + rest.attempts) == [id] + AttemptIds(rest.attempts);
      }
    }
  }

  /** Running the same batch again right after a pass changes nothing and
      calls the notifier for no one: every id the first pass inserted is now
      skipped. It stops where the first pass stopped, re-trying at most the
      request that could not be formatted; after a completed pass it makes
      no attempt at all. */
  lemma {:induction false} RerunIsQuiet(rows: map<int, Row>, batch: seq<Record>,
                                        delivers: nat -> bool, calls: nat,
                                        delivers2: nat -> bool, calls2: nat, at: nat)
    ensures var c := Process(rows, batch, delivers, calls, at);
      var c2 := Process(c.rows, batch, delivers2, calls2, at);
      && c2.rows == c.rows && c2.outcome == c.outcome
      && (forall i :: 0 <= i < |c2.attempts| ==> c2.attempts[i].result.NotFormatted?)
      && (c.outcome.Completed? ==> c2.attempts == [])
    decreases |batch|
  {
    if batch != [] {
      var r := batch[0];
      var tail := batch[1..];
      if r.id.Some? && FitsInteger(r.id.value) {
        var id := r.id.value;
        if id in rows {
          ProcessGrows(rows, tail, delivers, calls, at + 1);
          RerunIsQuiet(rows, tail, delivers, calls, delivers2, calls2, at);
          RerunIsQuiet(rows, tail, delivers, calls, delivers2, calls2, at + 1);
        } else {
          var a := Attempt(id, SendRequest(r, delivers(calls)));
          if Insert(rows, r).Ok? {
            var next := Insert(rows, r).value;
            ProcessGrows(next, tail, delivers, CallsAfter(calls, a), at + 1);
            RerunIsQuiet(next, tail, delivers, CallsAfter(calls, a), delivers2, calls2, at + 1);
          } else {
            assert ReadRow(r).Err?;
          }
        }
      }
    }
  }

  /** A request whose notification failed is still recorded as sent, so
      the next pass over the same batch does not try it again: with the
      code as written the notification is lost, not retried. */
  lemma UndeliveredIsNotRetried(rows: map<int, Row>, batch: seq<Record>,
                                delivers: nat -> bool, delivers2: nat -> bool, i: nat)
    requires var c := RunCycle(rows, batch, delivers);
      i < |c.attempts| && c.attempts[i].result.Sent? && !c.attempts[i].result.delivered
    ensures var c := RunCycle(rows, batch, delivers);
      && c.attempts[i].id in c.rows
      && forall k :: 0 <= k < |RunCycle(c.rows, batch, delivers2).attempts| ==>
           RunCycle(c.rows, batch, delivers2).attempts[k].result.NotFormatted?
  {
    SentIsStored(rows, batch, delivers, 0, 0);
    RerunIsQuiet(rows, batch, delivers, 0, delivers2, 0, 0);
  }

  /** The loop body of `main` over a fetched batch, on a ledger whose table
      exists. */
  method ProcessBatch(ledger: Ledger, batch: seq<Record>, delivers: nat -> bool)
      returns (attempts: seq<Attempt>, outcome: Outcome)
    requires ledger.created
    modifies ledger
    ensures ledger.created
    ensures Cycle(ledger.rows, attempts, outcome) == RunCycle(old(ledger.rows), batch, delivers)
  {
    attempts, outcome := [], Completed;
    var calls := 0;
    var i := 0;
    while i < |batch|
      invariant 0 <= i <= |batch|
      invariant ledger.created
      invariant RunCycle(old(ledger.rows), batch, delivers)
                == Prepend(attempts, Process(ledger.rows, batch[i..], delivers, calls, i))
    {
      var r := batch[i];
      assert batch[i..][0] == r && batch[i..][1..] == batch[i + 1..];
      if r.id.None? {
        outcome := Aborted(i, MissingKey("id"));
        return;
      }
      var id := r.id.value;
      var seen := ledger.IsRequestSent(id);
      if seen.Err? {
        outcome := Aborted(i, seen.error);
        return;
      }
      if !seen.value {
        var a := Attempt(id, SendRequest(r, delivers(calls)));
        ghost var done := attempts;
        attempts := attempts + [a];
        calls := CallsAfter(calls, a);
        var saved := ledger.SaveRequest(r);
        if saved.Err? {
          outcome := Aborted(i, saved.error);
          return;
        }
        ghost var rest := Process(ledger.rows, batch[i + 1..], delivers, calls, i + 1);
        assert done + ([a] + rest.attempts) == attempts + rest.attempts;
      }
      i := i + 1;
    }
  }

  /** One iteration of `main`'s loop: fetch, then process the batch. A
      failed fetch is a pass over nothing. */
  method PollOnce(ledger: Ledger, resp: Response, delivers: nat -> bool)
      returns (attempts: seq<Attempt>, outcome: Outcome)
    requires ledger.created
    modifies ledger
    ensures ledger.created
    ensures Cycle(ledger.rows, attempts, outcome) == RunCycle(old(ledger.rows), GetNewRequests(resp), delivers)
    ensures Failed(resp) ==> attempts == [] && outcome == Completed && ledger.rows == old(ledger.rows)
  {
    var batch := GetNewRequests(resp);
    attempts, outcome := ProcessBatch(ledger, batch, delivers);
  }

  /** What the outside world does in one iteration: the GET's outcome and
      the notifier's answers. */
  datatype Round = Round(response: Response, delivers: nat -> bool)

  /** The ledger rows after a run of `main`, every attempt of the run in
      order, the number of iterations started and how the last one ended. */
  datatype Run = Run(rows: map<int, Row>, log: seq<Attempt>, ran: nat, last: Outcome)

  /** The iterations of `main`'s loop over `rounds`, from ledger rows `rows`;
      an iteration that ends in an exception is the last one. */
  function RunRounds(rows: map<int, Row>, rounds: seq<Round>): Run
    decreases |rounds|
  {
    if rounds == [] then Run(rows, [], 0, Completed)
    else
      var c := RunCycle(rows, GetNewRequests(rounds[0].response), rounds[0].delivers);
      if c.outcome.Aborted? then Run(c.rows, c.attempts, 1, c.outcome)
      else
        var rest := RunRounds(c.rows, rounds[1..]);
        Run(rest.rows, c.attempts + rest.log, rest.ran + 1, rest.last)
  }

  /** A run after `log` and `ran` iterations already made. */
  function After(log: seq<Attempt>, ran: nat, r: Run): Run
  {
    Run(r.rows, log + r.log, ran + r.ran, r.last)
  }

  /** Every row of `before` is in `after`, unchanged. */
  ghost predicate Keeps(before: map<int, Row>, after: map<int, Row>)
  {
    forall k :: k in before ==> k in after && after[k] == before[k]
  }

  /** Every id handed to the notifier in `log` was absent from `before` and
      is present in `after`. */
  ghost predicate SentNewAndStored(log: seq<Attempt>, before: map<int, Row>, after: map<int, Row>)
  {
    forall i :: 0 <= i < |log| && log[i].result.Sent? ==> log[i].id !in before && log[i].id in after
  }

  /** No id is handed to the notifier twice in `log`. */
  ghost predicate SentOnce(log: seq<Attempt>)
  {
    forall i, j :: 0 <= i < j < |log| && log[i].result.Sent? && log[j].result.Sent? ==> log[i].id != log[j].id
  }

  /** Over any run of `main`: it starts at most one iteration per round and
      uses every round unless one ends in an exception; rows stored before
      are never changed or removed; no request reaches the notifier twice,
      none stored before the run reaches it at all, and each one that
      reached it is stored when the run ends (delivery at most once). */
  lemma {:induction false} RunAtMostOnce(rows: map<int, Row>, rounds: seq<Round>)
    ensures var r := RunRounds(rows, rounds);
      && r.ran <= |rounds| && (r.last.Completed? ==> r.ran == |rounds|)
      && Keeps(rows, r.rows) && SentNewAndStored(r.log, rows, r.rows) && SentOnce(r.log)
    decreases |rounds|
  {
    if rounds != [] {
      var batch := GetNewRequests(rounds[0].response);
      var d := rounds[0].delivers;
      var c := RunCycle(rows, batch, d);
      ProcessGrows(rows, batch, d, 0, 0);
      AttemptsAreNew(rows, batch, d, 0, 0);
      SentIsStored(rows, batch, d, 0, 0);
      if c.outcome.Completed? {
        var rest := RunRounds(c.rows, rounds[1..]);
        RunAtMostOnce(c.rows, rounds[1..]);
        var log := c.attempts + rest.log;
        assert RunRounds(rows, rounds) == Run(rest.rows, log, rest.ran + 1, rest.last);
        forall i | 0 <= i < |log| && log[i].result.Sent?
          ensures log[i].id !in rows && log[i].id in rest.rows
        {
          if i < |c.attempts| {
            assert log[i] == c.attempts[i];
          } else {
            assert log[i] == rest.log[i - |c.attempts|];
          }
        }
        forall i, j | 0 <= i < j < |log| && log[i].result.Sent? && log[j].result.Sent?
          ensures log[i].id != log[j].id
        {
          if j < |c.attempts| {
            assert log[i] == c.attempts[i] && log[j] == c.attempts[j];
          } else if i < |c.attempts| {
            assert log[i] == c.attempts[i] && log[j] == rest.log[j - |c.attempts|];
          } else {
            assert log[i] == rest.log[i - |c.attempts|] && log[j] == rest.log[j - |c.attempts|];
          }
        }
      }
    }
  }

  /** `main`: create the table if needed, then one iteration per round,
      until a round ends in an exception, which ends the polling task. `ran`
      counts the iterations started and `last` is how the last one ended.
      The log lists every attempt of the run in order; no request reaches
      the notifier twice, none that was stored before the run reaches it,
      and each one that reached it is stored when the run ends. */
  method RunPoller(ledger: Ledger, rounds: seq<Round>) returns (log: seq<Attempt>, ran: nat, last: Outcome)
    modifies ledger
    ensures ledger.created
    ensures Run(ledger.rows, log, ran, last) == RunRounds(old(ledger.rows), rounds)
    ensures ran <= |rounds|
    ensures last.Completed? ==> ran == |rounds|
    ensures forall k :: k in old(ledger.rows) ==> k in ledger.rows && ledger.rows[k] == old(ledger.rows)[k]
    ensures forall i :: 0 <= i < |log| && log[i].result.Sent? ==>
              log[i].id !in old(ledger.rows) && log[i].id in ledger.rows
    ensures forall i, j :: 0 <= i < j < |log| && log[i].result.Sent? && log[j].result.Sent? ==>
              log[i].id != log[j].id
  {
    ghost var initial := ledger.rows;
    RunAtMostOnce(initial, rounds);
    ledger.InitDb();
    log, ran, last := [], 0, Completed;
    while ran < |rounds|
      invariant ran <= |rounds|
      invariant ledger.created && last == Completed
      invariant RunRounds(initial, rounds) == After(log, ran, RunRounds(ledger.rows, rounds[ran..]))
    {
      var round := rounds[ran];
      assert rounds[ran..][0] == round && rounds[ran..][1..] == rounds[ran + 1..];
      ghost var spec := RunRounds(ledger.rows, rounds[ran..]);
      var attempts;
      attempts, last := PollOnce(ledger, round.response, round.delivers);
      ghost var prev := log;
      log := log + attempts;
      ran := ran + 1;
      if last.Aborted? {
        assert spec == Run(ledger.rows, attempts, 1, last);
        return;
      }
      ghost var rest := RunRounds(ledger.rows, rounds[ran..]);
      assert spec == After(attempts, 1, rest);
      assert prev + (attempts + rest.log) == log + rest.log;
    }
  }

  /** Two iterations that fetch the same one complete request: the notifier
      is called once in all, and the ledger holds the request afterwards. A
      third iteration whose GET fails changes nothing. */
  method TwoPollsScenario(r: Record, delivers: nat -> bool)
    requires WellFormed(r)
  {
    var ledger := new Ledger(Some(map[]));
    var resp := Answer(200, [r]);
    assert GetNewRequests(resp) == [r] && [r][1..] == [];
    assert Insert(map[], r).Ok?;
    RerunIsQuiet(map[], [r], delivers, 0, delivers, 0, 0);
    var first, out1 := PollOnce(ledger, resp, delivers);
    assert first == [Attempt(r.id.value, SendRequest(r, delivers(0)))];
    assert out1 == Completed && r.id.value in ledger.rows;
    var second, out2 := PollOnce(ledger, resp, delivers);
    assert second == [] && out2 == Completed;
    var rows := ledger.rows;
    var third, out3 := PollOnce(ledger, ClientFailure, delivers);
    assert third == [] && ledger.rows == rows;
  }
}
