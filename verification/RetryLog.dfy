/** The retrying log: entries streamed again after a lost connection are handed on only once. */
module RetryLog {
  import opened Bytes

  datatype LogEntry = LogEntry(rev: u64, data: seq<byte>)

  /** Whether an error counts as a lost connection, and whether it makes the session drop its connection. */
  datatype Failure = Failure(retryable: bool, drops: bool)

  datatype Outcome = Finished | Failed(failure: Failure)

  /** What the server would do on one attempt: the entries it sends, and how the command ends. */
  datatype Attempt = Attempt(entries: seq<LogEntry>, outcome: Outcome)

  // ----- what is handed on

  /** The entries without later repeats of a revision. */
  function Dedup(entries: seq<LogEntry>): seq<LogEntry> {
    if entries == [] then []
    else
      var before, last := entries[..|entries| - 1], entries[|entries| - 1];
      Dedup(before) + if last.rev in Revs(before) then [] else [last]
  }

  function Revs(entries: seq<LogEntry>): set<u64> {
    set e | e in entries :: e.rev
  }

  /** The revisions seen and the entries handed on so far. */
  datatype Heard = Heard(revs: set<u64>, got: seq<LogEntry>)

  const NOTHING_HEARD := Heard({}, [])

  /**
   The handler, as its answer to everything handed on so far, the newest entry last: nothing, or the
   error it returns. Any closure, with whatever state it keeps, behaves like this over a run.
   */
  type Answers = seq<LogEntry> -> Option<Failure>

  /** The entries of one attempt through the filter, up to the first the handler refuses. */
  function Hear(h: Heard, entries: seq<LogEntry>, answers: Answers): (Heard, Option<Failure>)
    decreases |entries|
  {
    if entries == [] then (h, None)
    else
      var e := entries[0];
      if e.rev in h.revs then Hear(h, entries[1..], answers)
      else
        var h' := Heard(h.revs + {e.rev}, h.got + [e]);
        match answers(h'.got)
        case None => Hear(h', entries[1..], answers)
        case Some(failure) => (h', Some(failure))
  }

  function Tried(h: Heard, a: Attempt, answers: Answers): (Heard, Outcome) {
    var (h', refusal) := Hear(h, a.entries, answers);
    (h', match refusal case None => a.outcome case Some(failure) => Failed(failure))
  }

  /** All attempts: what was heard, how it ended, and how many were made. */
  function Retried(h: Heard, attempts: seq<Attempt>, retries: nat, allow: bool, answers: Answers): (Heard, Outcome, nat)
    requires retries < |attempts|
    decreases retries
  {
    var (h', outcome) := Tried(h, attempts[0], answers);
    if outcome.Failed? && allow && outcome.failure.retryable && retries > 0 then
      var (h2, o2, used) := Retried(h', attempts[1..], retries - 1, allow, answers);
      (h2, o2, used + 1)
    else (h', outcome, 1)
  }

  // ----- the code

  /** The `on_entry` callback. */
  class Handler {
    var got: seq<LogEntry>
    const answers: Answers

    constructor (answers: Answers)
      ensures got == [] && this.answers == answers
    {
      got := [];
      this.answers := answers;
    }

    method OnEntry(e: LogEntry) returns (refusal: Option<Failure>)
      modifies this
      ensures got == old(got) + [e] && refusal == answers(got)
    {
      got := got + [e];
      refusal := answers(got);
    }
  }

  class RaSvnSession {
    var connected: bool
    const allowReconnect: bool
    const reconnectRetries: nat

    constructor (allowReconnect: bool, reconnectRetries: nat)
      ensures connected && this.allowReconnect == allowReconnect && this.reconnectRetries == reconnectRetries
    {
      connected := true;
      this.allowReconnect := allowReconnect;
      this.reconnectRetries := reconnectRetries;
    }

    /** One `log` command with the filter around the handler. */
    method LogEach(a: Attempt, seen0: set<u64>, handler: Handler) returns (seen: set<u64>, outcome: Outcome)
      modifies this, handler
      ensures (Heard(seen, handler.got), outcome) == Tried(Heard(seen0, old(handler.got)), a, handler.answers)
      ensures connected <==> outcome.Finished? || !outcome.failure.drops
    {
      connected := true;
      seen := seen0;
      var i := 0;
      assert a.entries[0..] == a.entries;
      while i < |a.entries|
        invariant i <= |a.entries| && connected
        invariant Hear(Heard(seen, handler.got), a.entries[i..], handler.answers)
               == Hear(Heard(seen0, old(handler.got)), a.entries, handler.answers)
      {
        var entry := a.entries[i];
        assert a.entries[i..][0] == entry && a.entries[i..][1..] == a.entries[i + 1..];
        if entry.rev !in seen {
          seen := seen + {entry.rev};
          var refusal := handler.OnEntry(entry);
          if refusal.Some? {
            connected := !refusal.value.drops;
            return seen, Failed(refusal.value);
          }
        }
        i := i + 1;
      }
      assert a.entries[i..] == [];
      outcome := a.outcome;
      if outcome.Failed? && outcome.failure.drops {
        connected := false;
      }
    }

    /** Restarts the command after a lost connection, up to the configured number of times. */
    method LogEachRetrying(attempts: seq<Attempt>, handler: Handler) returns (outcome: Outcome, used: nat)
      requires reconnectRetries < |attempts| && handler.got == []
      modifies this, handler
      ensures var r := Retried(NOTHING_HEARD, attempts, reconnectRetries, allowReconnect, handler.answers);
        handler.got == r.0.got && outcome == r.1 && used == r.2
      ensures connected <==> outcome.Finished? || !outcome.failure.drops
      ensures 1 <= used <= reconnectRetries + 1 && (used > 1 ==> allowReconnect)
      ensures outcome.Failed? && outcome.failure.retryable && allowReconnect ==> used == reconnectRetries + 1
    {
      hide Tried;
      var attempt := 0;
      var seen: set<u64> := {};
      ghost var whole := Retried(NOTHING_HEARD, attempts, reconnectRetries, allowReconnect, handler.answers);
      assert attempts[0..] == attempts;
      while true
        invariant attempt <= reconnectRetries && (attempt > 0 ==> allowReconnect)
        invariant var r := Retried(Heard(seen, handler.got), attempts[attempt..], reconnectRetries - attempt, allowReconnect, handler.answers);
          whole == (r.0, r.1, r.2 + attempt)
        decreases reconnectRetries - attempt
      {
        assert attempts[attempt..][0] == attempts[attempt] && attempts[attempt..][1..] == attempts[attempt + 1..];
        seen, outcome := LogEach(attempts[attempt], seen, handler);
        if outcome.Failed? && allowReconnect && outcome.failure.retryable && attempt < reconnectRetries {
          attempt := attempt + 1;
          connected := false;
        } else {
          return outcome, attempt + 1;
        }
      }
    }
  }

  // ----- what the handler sees

  /** A handler that takes everything. */
  ghost predicate TakesAll(answers: Answers) { forall got :: answers(got) == None }

  function Summary(entries: seq<LogEntry>): Heard {
    Heard(Revs(entries), Dedup(entries))
  }

  lemma {:induction false} HearAdds(done: seq<LogEntry>, entries: seq<LogEntry>, answers: Answers)
    requires TakesAll(answers)
    ensures Hear(Summary(done), entries, answers) == (Summary(done + entries), None)
    decreases |entries|
  {
    if entries == [] {
      assert done + entries == done;
    } else {
      var e := entries[0];
      assert (done + [e]) + entries[1..] == done + entries;
      SummaryStep(done, e);
      HearAdds(done + [e], entries[1..], answers);
    }
  }

  lemma SummaryStep(done: seq<LogEntry>, e: LogEntry)
    ensures Summary(done + [e])
         == if e.rev in Revs(done) then Summary(done) else Heard(Revs(done) + {e.rev}, Dedup(done) + [e])
  {
    assert (done + [e])[..|done|] == done;
    assert Revs(done + [e]) == Revs(done) + {e.rev};
  }

  function SentBy(attempts: seq<Attempt>): seq<LogEntry> {
    if attempts == [] then [] else attempts[0].entries + SentBy(attempts[1..])
  }

  /**
   Whatever the server sends and however attempts fail, the handler sees everything sent in the
   attempts made, in order, without later repeats of a revision; there are at most one more
   attempts than retries, and only the last one may have ended well. One more attempt is made just
   when the last one lost the connection, retrying is on and a retry is left.
   */
  lemma {:induction false} HandlerSeesAll(done: seq<LogEntry>, attempts: seq<Attempt>, retries: nat, allow: bool,
                                          answers: Answers)
    requires retries < |attempts| && TakesAll(answers)
    ensures var (heard, outcome, used) := Retried(Summary(done), attempts, retries, allow, answers);
      && 1 <= used <= retries + 1
      && heard == Summary(done + SentBy(attempts[..used]))
      && outcome == attempts[used - 1].outcome
      && (forall k :: 0 <= k < used - 1 ==> allow && attempts[k].outcome.Failed? && attempts[k].outcome.failure.retryable)
      && !(outcome.Failed? && outcome.failure.retryable && allow && used <= retries)
    decreases retries
  {
    hide Hear, Summary, TakesAll;
    var a := attempts[0];
    HearAdds(done, a.entries, answers);
    SentOne(attempts);
    if a.outcome.Failed? && allow && a.outcome.failure.retryable && retries > 0 {
      HandlerSeesAll(done + a.entries, attempts[1..], retries - 1, allow, answers);
      var used := Retried(Summary(done + a.entries), attempts[1..], retries - 1, allow, answers).2;
      SentMore(attempts, used);
      assert (done + a.entries) + SentBy(attempts[1..][..used]) == done + SentBy(attempts[..used + 1]);
      assert forall k :: 0 < k < used ==> attempts[k] == attempts[1..][k - 1];
    }
  }

  lemma SentOne(attempts: seq<Attempt>)
    requires attempts != []
    ensures SentBy(attempts[..1]) == attempts[0].entries
  {
    assert attempts[..1][1..] == [];
    assert SentBy(attempts[..1]) == attempts[0].entries + [];
  }

  lemma SentMore(attempts: seq<Attempt>, used: nat)
    requires used < |attempts|
    ensures SentBy(attempts[..used + 1]) == attempts[0].entries + SentBy(attempts[1..][..used])
  {
    assert attempts[..used + 1][1..] == attempts[1..][..used];
  }

  // ----- attempts at one log

  /** Hearing a prefix again changes nothing; hearing a longer one brings it up to date. */
  lemma SummaryOfPrefixes(log: seq<LogEntry>, q: nat, p: nat)
    requires q <= |log| && p <= |log|
    ensures Summary(log[..q] + log[..p]) == Summary(log[..if q < p then p else q])
  {
    hide Summary, Dedup, Revs;
    if p <= q {
      PrefixRevs(log, p, q);
      HeardAgain(log[..q], log[..p]);
    } else {
      PrefixRevs(log, q, q);
      HeardAgain(log[..q], log[..q]);
      var more := log[q..p];
      assert log[..p] == log[..q] + more;
      SameSummary(log[..q] + log[..q], log[..q], more);
      Regroup(log[..q], log[..q], more);
    }
  }

  lemma PrefixRevs(log: seq<LogEntry>, p: nat, q: nat)
    requires p <= q <= |log|
    ensures forall e :: e in log[..p] ==> e.rev in Revs(log[..q])
  {
    forall e | e in log[..p] ensures e.rev in Revs(log[..q]) {
      var k :| 0 <= k < p && log[k] == e;
      assert log[..q][k] == e;
    }
  }

  lemma {:induction false} HeardAgain(done: seq<LogEntry>, again: seq<LogEntry>)
    requires forall e :: e in again ==> e.rev in Revs(done)
    ensures Summary(done + again) == Summary(done)
    decreases |again|
  {
    if again == [] {
      assert done + again == done;
    } else {
      var before, e := again[..|again| - 1], again[|again| - 1];
      HeardAgain(done, before);
      assert done + again == (done + before) + [e];
      assert e in again && Revs(done + before) == Revs(done);
      SummaryStep(done + before, e);
    }
  }

  lemma {:induction false} SameSummary(a: seq<LogEntry>, b: seq<LogEntry>, more: seq<LogEntry>)
    requires Summary(a) == Summary(b)
    ensures Summary(a + more) == Summary(b + more)
    decreases |more|
  {
    if more == [] {
      assert a + more == a && b + more == b;
    } else {
      var before, e := more[..|more| - 1], more[|more| - 1];
      SameSummary(a, b, before);
      assert a + more == (a + before) + [e] && b + more == (b + before) + [e];
      SummaryStep(a + before, e);
      SummaryStep(b + before, e);
    }
  }

  /** The server sends the same log each time, and loses the connection before the last attempt. */
  ghost predicate SameLog(attempts: seq<Attempt>, log: seq<LogEntry>, last: nat) {
    && last < |attempts| && attempts[last] == Attempt(log, Finished)
    && forall k :: 0 <= k < last ==>
      attempts[k].entries <= log && attempts[k].outcome.Failed? && attempts[k].outcome.failure.retryable
  }

  lemma {:induction false} LogSeenFrom(log: seq<LogEntry>, heard: nat, attempts: seq<Attempt>, last: nat, retries: nat,
                                       answers: Answers)
    requires TakesAll(answers) && heard <= |log|
    requires SameLog(attempts, log, last) && last <= retries < |attempts|
    ensures Retried(Summary(log[..heard]), attempts, retries, true, answers) == (Summary(log), Finished, last + 1)
    decreases retries
  {
    hide Hear, Summary, TakesAll;
    var p := |attempts[0].entries|;
    assert attempts[0].entries == log[..p] by { if last == 0 { assert log[..|log|] == log; } }
    HearAdds(log[..heard], log[..p], answers);
    SummaryOfPrefixes(log, heard, p);
    if last > 0 {
      assert forall k :: 0 <= k < last - 1 ==> attempts[1..][k] == attempts[k + 1];
      LogSeenFrom(log, if heard < p then p else heard, attempts[1..], last - 1, retries - 1, answers);
    } else {
      assert log[..p] == log;
    }
  }

  /**
   When every attempt streams a front part of one log until the connection is lost, and one within
   the allowed retries streams it whole, the handler sees exactly that log without later repeats.
   */
  lemma LogSeenOnce(log: seq<LogEntry>, attempts: seq<Attempt>, last: nat, retries: nat, answers: Answers)
    requires TakesAll(answers) && SameLog(attempts, log, last) && last <= retries < |attempts|
    ensures var (heard, outcome, used) := Retried(NOTHING_HEARD, attempts, retries, true, answers);
      heard.got == Dedup(log) && outcome == Finished && used == last + 1
  {
    hide Dedup;
    assert log[..0] == [] && Summary([]) == NOTHING_HEARD by { NothingHeard(); }
    LogSeenFrom(log, 0, attempts, last, retries, answers);
  }

  lemma NothingHeard()
    ensures Summary([]) == NOTHING_HEARD
  {
  }

  /** Each revision is handed on once, at its first place. */
  lemma {:induction false} DedupFacts(entries: seq<LogEntry>)
    ensures DistinctRevs(Dedup(entries))
    ensures Revs(Dedup(entries)) == Revs(entries)
    ensures forall e :: e in Dedup(entries) ==> e in entries
    decreases |entries|
  {
    hide Revs, DistinctRevs, Dedup;
    DedupUnfold(entries);
    if entries == [] {
      NothingTwice();
    } else {
      var before, last := entries[..|entries| - 1], entries[|entries| - 1];
      assert entries == before + [last];
      DedupFacts(before);
      RevsSnoc(before, last);
      if last.rev !in Revs(before) {
        RevsSnoc(Dedup(before), last);
        DistinctGrows(Dedup(before), last);
      } else {
        assert Revs(before) + {last.rev} == Revs(before);
        assert Dedup(before) + [] == Dedup(before);
      }
    }
  }

  lemma DedupUnfold(entries: seq<LogEntry>)
    ensures entries == [] ==> Dedup(entries) == []
    ensures entries != [] ==>
      var before, last := entries[..|entries| - 1], entries[|entries| - 1];
      Dedup(entries) == Dedup(before) + if last.rev in Revs(before) then [] else [last]
  {
  }

  lemma NothingTwice()
    ensures DistinctRevs([])
  {
  }

  predicate DistinctRevs(got: seq<LogEntry>) {
    forall i, j :: 0 <= i < j < |got| ==> got[i].rev != got[j].rev
  }

  lemma DistinctGrows(got: seq<LogEntry>, e: LogEntry)
    requires DistinctRevs(got) && e.rev !in Revs(got)
    ensures DistinctRevs(got + [e])
  {
    hide Revs;
    forall i | 0 <= i < |got| ensures got[i].rev != e.rev {
      RevIn(got, i);
    }
  }

  lemma RevsSnoc(entries: seq<LogEntry>, last: LogEntry)
    ensures Revs(entries + [last]) == Revs(entries) + {last.rev}
  {
  }

  lemma RevIn(entries: seq<LogEntry>, i: nat)
    requires i < |entries|
    ensures entries[i].rev in Revs(entries)
  {
  }

  // ----- a handler that refuses

  ghost predicate AllAccepted(got: seq<LogEntry>, answers: Answers) {
    forall n :: 0 < n <= |got| ==> answers(got[..n]) == None
  }

  /** What has been handed on: no revision twice, and the filter knows them all. */
  ghost predicate Consistent(h: Heard) {
    h.revs == Revs(h.got) && DistinctRevs(h.got)
  }

  /** The handler can come to refuse an entry as if the connection were lost, having taken all before it. */
  ghost predicate Refusable(got: seq<LogEntry>, answers: Answers) {
    && got != [] && DistinctRevs(got)
    && AllAccepted(got[..|got| - 1], answers)
    && answers(got).Some? && answers(got).value.retryable
  }

  /** Whatever the server does, a log reported as finished has had every entry accepted. */
  ghost predicate FinishedMeansAccepted(retries: nat, allow: bool, answers: Answers) {
    forall attempts :: |attempts| > retries ==> EndsHonestly(Retried(NOTHING_HEARD, attempts, retries, allow, answers), answers)
  }

  ghost predicate EndsHonestly(r: (Heard, Outcome, nat), answers: Answers) {
    r.1 == Finished ==> AllAccepted(r.0.got, answers)
  }

  lemma HeardGrows(h: Heard, e: LogEntry)
    requires Consistent(h) && e.rev !in h.revs
    ensures Consistent(Heard(h.revs + {e.rev}, h.got + [e]))
  {
    hide Revs, DistinctRevs;
    RevsSnoc(h.got, e);
    DistinctGrows(h.got, e);
  }

  lemma AcceptedGrows(got: seq<LogEntry>, e: LogEntry, answers: Answers)
    requires AllAccepted(got, answers)
    ensures (got + [e])[..|got|] == got
    ensures answers(got + [e]) == None ==> AllAccepted(got + [e], answers)
  {
    var more := got + [e];
    forall n | 0 < n <= |more| && answers(more) == None ensures answers(more[..n]) == None {
      assert more[..n] == if n <= |got| then got[..n] else more;
    }
  }

  /** One attempt: all taken, or all but the last, which is the one refused. */
  lemma {:induction false} HeardHonestly(h: Heard, entries: seq<LogEntry>, answers: Answers)
    requires Consistent(h) && AllAccepted(h.got, answers)
    ensures var (h', refusal) := Hear(h, entries, answers);
      && Consistent(h')
      && (refusal.None? ==> AllAccepted(h'.got, answers))
      && (refusal.Some? ==> h'.got != [] && AllAccepted(h'.got[..|h'.got| - 1], answers) && answers(h'.got) == refusal)
    decreases |entries|
  {
    hide Consistent, AllAccepted;
    if entries != [] {
      var e := entries[0];
      if e.rev in h.revs {
        HeardHonestly(h, entries[1..], answers);
      } else {
        var h' := Heard(h.revs + {e.rev}, h.got + [e]);
        HeardGrows(h, e);
        AcceptedGrows(h.got, e, answers);
        if answers(h'.got) == None {
          HeardHonestly(h', entries[1..], answers);
        }
      }
    }
  }

  /** When no refusal leads to a retry, only what was accepted is behind a finished log. */
  lemma {:induction false} RefusalEnds(h: Heard, attempts: seq<Attempt>, retries: nat, allow: bool, answers: Answers)
    requires retries < |attempts| && Consistent(h) && AllAccepted(h.got, answers)
    requires allow && retries > 0 ==> forall got :: !Refusable(got, answers)
    ensures EndsHonestly(Retried(h, attempts, retries, allow, answers), answers)
    decreases retries
  {
    hide Hear, AllAccepted, Consistent;
    HeardHonestly(h, attempts[0].entries, answers);
    var (h', refusal) := Hear(h, attempts[0].entries, answers);
    var (_, outcome) := Tried(h, attempts[0], answers);
    if outcome.Failed? && allow && outcome.failure.retryable && retries > 0 {
      if refusal.Some? {
        RefusedIsRefusable(h', answers);
      }
      RefusalEnds(h', attempts[1..], retries - 1, allow, answers);
    }
  }

  lemma RefusedIsRefusable(h: Heard, answers: Answers)
    requires Consistent(h) && h.got != [] && AllAccepted(h.got[..|h.got| - 1], answers)
    requires answers(h.got).Some? && answers(h.got).value.retryable
    ensures Refusable(h.got, answers)
  {
  }

  /** Fresh entries, all but the last accepted, are handed on up to the last. */
  lemma {:induction false} HeardUpTo(got: seq<LogEntry>, n: nat, answers: Answers)
    requires Refusable(got, answers) && n < |got|
    ensures Hear(Heard(Revs(got[..n]), got[..n]), got[n..], answers) == (Heard(Revs(got), got), answers(got))
    decreases |got| - n
  {
    hide Revs, Refusable, Hear;
    RefusableAt(got, n, answers);
    assert got[n..] == [got[n]] + got[n + 1..] && got[..n + 1] == got[..n] + [got[n]];
    RevsSnoc(got[..n], got[n]);
    HearFresh(Heard(Revs(got[..n]), got[..n]), got[n], got[n + 1..], answers);
    if n + 1 == |got| {
      assert got[..n + 1] == got;
    } else {
      HeardUpTo(got, n + 1, answers);
    }
  }

  lemma RefusableAt(got: seq<LogEntry>, n: nat, answers: Answers)
    requires Refusable(got, answers) && n < |got|
    ensures got[n].rev !in Revs(got[..n])
    ensures answers(got).Some? && (n + 1 < |got| ==> answers(got[..n + 1]) == None)
  {
    FreshRev(got, n);
    var before := got[..|got| - 1];
    if n + 1 < |got| {
      assert before[..n + 1] == got[..n + 1];
    }
  }

  lemma HearFresh(h: Heard, e: LogEntry, rest: seq<LogEntry>, answers: Answers)
    requires e.rev !in h.revs
    ensures var h' := Heard(h.revs + {e.rev}, h.got + [e]);
      Hear(h, [e] + rest, answers)
      == match answers(h'.got) case None => Hear(h', rest, answers) case Some(failure) => (h', Some(failure))
  {
    assert ([e] + rest)[1..] == rest;
  }

  lemma FreshRev(got: seq<LogEntry>, n: nat)
    requires n < |got| && DistinctRevs(got)
    ensures got[n].rev !in Revs(got[..n])
  {
  }

  /** An entry refused as if the connection were lost is not offered again, and the log still ends well. */
  lemma RefusalForgotten(got: seq<LogEntry>, retries: nat, answers: Answers) returns (attempts: seq<Attempt>)
    requires Refusable(got, answers) && retries > 0
    ensures |attempts| > retries
    ensures var r := Retried(NOTHING_HEARD, attempts, retries, true, answers); r.0.got == got && r.1 == Finished
  {
    hide Revs, Refusable;
    attempts := [Attempt(got, Finished)] + seq(retries, _ => Attempt([], Finished));
    var more := attempts[1..];
    assert more[0] == Attempt([], Finished);
    RefusableFacts(got, answers);
    assert got[..0] == [] && got[0..] == got;
    assert Revs(got[..0]) == {} by { NothingHeard(); }
    HeardUpTo(got, 0, answers);
    var h := Heard(Revs(got), got);
    assert Tried(NOTHING_HEARD, attempts[0], answers) == (h, Failed(answers(got).value));
    assert Retried(h, more, retries - 1, true, answers) == (h, Finished, 1);
  }

  lemma RefusableFacts(got: seq<LogEntry>, answers: Answers)
    requires Refusable(got, answers)
    ensures got != [] && answers(got).Some? && answers(got).value.retryable
  {
  }

  /**
   For any handler, a finished log means that every entry was accepted, if and only if retrying is off
   or the handler never comes to refuse an entry as if the connection were lost.
   */
  lemma FinishedIffNotRetried(retries: nat, allow: bool, answers: Answers)
    ensures FinishedMeansAccepted(retries, allow, answers)
       <==> !(allow && retries > 0 && exists got :: Refusable(got, answers))
  {
    hide Retried, EndsHonestly, Refusable;
    if allow && retries > 0 && exists got :: Refusable(got, answers) {
      var got :| Refusable(got, answers);
      var attempts := RefusalForgotten(got, retries, answers);
      NotHonest(Retried(NOTHING_HEARD, attempts, retries, allow, answers), got, answers);
    } else {
      forall attempts | |attempts| > retries
        ensures EndsHonestly(Retried(NOTHING_HEARD, attempts, retries, allow, answers), answers)
      {
        RefusalEnds(NOTHING_HEARD, attempts, retries, allow, answers);
      }
    }
  }

  lemma NotHonest(r: (Heard, Outcome, nat), got: seq<LogEntry>, answers: Answers)
    requires Refusable(got, answers) && r.0.got == got && r.1 == Finished
    ensures !EndsHonestly(r, answers)
  {
    assert got[..|got|] == got;
  }
}
