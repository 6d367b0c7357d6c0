/** Errors come from outside: the protocol itself never answers a call with a database error,
    and the retry loop absorbs exactly the errors it is meant to absorb. */
module Failures {
  import opened LedgerTypes
  import opened SequentialLedger
  import opened Admission
  import opened Protocol
  import opened ProtocolInvariant
  import opened ProtocolCommit
  import opened ProtocolMoves
  import opened Guarantees
  import opened StaleReads

  /** An attempt of `sid` fails for a reason outside the protocol, or its confirmation is lost. */
  predicate IsFailureOf(l: Label, sid: nat) {
    (l.Fail? || l.LoseCommit?) && l.sid == sid
  }

  /** What a call meets in one step: nothing, or a failure that is retryable or not. */
  function Met(cfg: Config, s: State, l: Label, sid: nat): seq<bool> {
    if IsFailureOf(l, sid) && Enabled(cfg, s, l) then [l.retryable] else []
  }

  /** The failures that a call meets in a schedule, in order: which of them were retryable. */
  function FailuresOf(cfg: Config, s: State, schedule: seq<Label>, sid: nat): seq<bool>
    decreases |schedule|
  {
    if schedule == [] then []
    else
      Met(cfg, s, schedule[0], sid) + FailuresOf(cfg, Do(cfg, s, schedule[0]), schedule[1..], sid)
  }

  /** The last failure cannot be retried, or is the fourth. */
  predicate Fatal(failures: seq<bool>) {
    failures != [] && (!failures[|failures| - 1] || |failures| == 4)
  }

  predicate HasFailed(x: Session) {
    x.pc.Done? && x.pc.reply.answer.DatabaseError?
  }

  ghost predicate FailuresTell(s: State, sid: nat, failures: seq<bool>) {
    && |failures| <= 4
    && (forall i | 0 <= i < |failures| - 1 :: failures[i])
    && if sid < |s.sessions| then
         && (HasFailed(s.sessions[sid]) <==> Fatal(failures))
         && (!Fatal(failures) ==> s.sessions[sid].attempt == |failures|)
       else failures == []
  }

  // ----- a statement that completes never ends in a database error -----

  ghost predicate GoesOn(s: State, s': State, sid: nat)
    requires sid < |s.sessions|
  {
    sid < |s'.sessions| && !HasFailed(s'.sessions[sid]) && s'.sessions[sid].attempt == s.sessions[sid].attempt
  }

  lemma LookingNeverFails(cfg: Config, s: State, sid: nat, f: Fresh)
    requires sid < |s.sessions|
    requires var pc := s.sessions[sid].pc; pc.Lookup? || pc.Reread? || pc.FetchTxn? || pc.FetchEntries?
    ensures GoesOn(s, Advance(cfg, s, sid, f), sid)
  {
  }

  lemma ClaimingNeverFails(cfg: Config, s: State, sid: nat, f: Fresh)
    requires sid < |s.sessions|
    requires var pc := s.sessions[sid].pc; pc.Begin? || pc.Claim? || pc.Collided?
    ensures GoesOn(s, Advance(cfg, s, sid, f), sid)
  {
  }

  lemma RowsNeverFail(cfg: Config, s: State, sid: nat, f: Fresh)
    requires sid < |s.sessions|
    requires var pc := s.sessions[sid].pc; pc.Lock1? || pc.Lock2? || pc.AdjustFrom? || pc.AdjustTo?
    ensures GoesOn(s, Advance(cfg, s, sid, f), sid)
  {
  }

  lemma CheckNeverFails(cfg: Config, s: State, sid: nat)
    requires Inv(cfg, s) && sid < |s.sessions| && s.sessions[sid].pc.Check?
    ensures GoesOn(s, GoCheck(cfg, s, sid), sid)
  {
    AtCheck(cfg, s, sid);
  }

  lemma EntryNeverFails(cfg: Config, s: State, sid: nat, f: Fresh)
    requires Inv(cfg, s) && sid < |s.sessions|
    requires s.sessions[sid].pc.EntryFrom? || s.sessions[sid].pc.EntryTo?
    ensures GoesOn(s, Advance(cfg, s, sid, f), sid)
  {
    var x := s.sessions[sid];
    EntryInsertsSucceed(cfg, s, sid, CreditEntry(x.call, x.tx.drawn));
    EntryInsertsSucceed(cfg, s, sid, DebitEntry(x.call, x.tx.drawn));
  }

  lemma CommitNeverFails(cfg: Config, s: State, sid: nat)
    requires Inv(cfg, s) && Defended(cfg) && sid < |s.sessions| && s.sessions[sid].pc.Commit?
    ensures GoesOn(s, GoCommit(s, sid), sid)
  {
    DeferredChecksAlwaysPass(cfg, s, sid);
  }

  lemma GoNeverFails(cfg: Config, s: State, sid: nat, f: Fresh)
    requires Inv(cfg, s) && Defended(cfg) && sid < |s.sessions| && !s.sessions[sid].pc.Done?
    ensures GoesOn(s, Advance(cfg, s, sid, f), sid)
  {
    match s.sessions[sid].pc
    case Check => CheckNeverFails(cfg, s, sid);
    case EntryFrom => EntryNeverFails(cfg, s, sid, f);
    case EntryTo => EntryNeverFails(cfg, s, sid, f);
    case Commit => CommitNeverFails(cfg, s, sid);
    case Lock1 => RowsNeverFail(cfg, s, sid, f);
    case Lock2 => RowsNeverFail(cfg, s, sid, f);
    case AdjustFrom => RowsNeverFail(cfg, s, sid, f);
    case AdjustTo => RowsNeverFail(cfg, s, sid, f);
    case Begin => ClaimingNeverFails(cfg, s, sid, f);
    case Claim => ClaimingNeverFails(cfg, s, sid, f);
    case Collided => ClaimingNeverFails(cfg, s, sid, f);
    case _ => LookingNeverFails(cfg, s, sid, f);
  }

  // ----- the retry loop -----

  lemma FailureCounts(cfg: Config, s: State, l: Label, failures: seq<bool>)
    requires Inv(cfg, s) && (l.Fail? || l.LoseCommit?) && Enabled(cfg, s, l) && FailuresTell(s, l.sid, failures)
    ensures FailuresTell(Do(cfg, s, l), l.sid, failures + [l.retryable])
  {
    var x, x' := s.sessions[l.sid], Do(cfg, s, l).sessions[l.sid];
    assert x'.attempt == AfterError(x, l.retryable).attempt && x'.pc == AfterError(x, l.retryable).pc;
  }

  lemma OthersMoveApart(cfg: Config, s: State, l: Label, sid: nat)
    requires sid < |s.sessions| && !(IsSessionLabel(l) && l.sid == sid)
    ensures var s' := Do(cfg, s, l); sid < |s'.sessions| && s'.sessions[sid] == s.sessions[sid]
  {
    if IsSessionLabel(l) && Enabled(cfg, s, l) {
      SessionStepMoves(cfg, s, l);
    }
  }

  lemma StepTells(cfg: Config, s: State, l: Label, sid: nat, failures: seq<bool>)
    requires Inv(cfg, s) && Defended(cfg) && FailuresTell(s, sid, failures)
    ensures FailuresTell(Do(cfg, s, l), sid, failures + Met(cfg, s, l, sid))
  {
    assert failures + [] == failures;
    if !Enabled(cfg, s, l) {
    } else if IsFailureOf(l, sid) {
      FailureCounts(cfg, s, l, failures);
    } else if l.Go? && l.sid == sid {
      GoNeverFails(cfg, s, sid, l.drawn);
    } else if sid < |s.sessions| {
      OthersMoveApart(cfg, s, l, sid);
    } else if IsSessionLabel(l) {
      SessionStepMoves(cfg, s, l);
    }
  }

  lemma {:induction false} ScheduleTells(cfg: Config, s: State, schedule: seq<Label>, sid: nat, failures: seq<bool>)
    requires Inv(cfg, s) && Defended(cfg) && FailuresTell(s, sid, failures)
    ensures FailuresTell(After(cfg, s, schedule), sid, failures + FailuresOf(cfg, s, schedule, sid))
    decreases |schedule|
  {
    if schedule == [] {
      assert failures + [] == failures;
    } else {
      StepKeepsInv(cfg, s, schedule[0]);
      StepTells(cfg, s, schedule[0], sid, failures);
      ScheduleTells(cfg, Do(cfg, s, schedule[0]), schedule[1..], sid, failures + Met(cfg, s, schedule[0], sid));
      Regroup(failures, Met(cfg, s, schedule[0], sid), FailuresOf(cfg, Do(cfg, s, schedule[0]), schedule[1..], sid));
    }
  }

  lemma Regroup<T>(a: seq<T>, b: seq<T>, c: seq<T>)
    ensures a + b + c == a + (b + c)
  {
  }

  /** A call is answered with a database error exactly when a failure outside the protocol could
      not be retried, or was its fourth; every failure before that was retried, and nothing else
      starts another attempt. In particular a call that nothing outside disturbs never fails. */
  lemma ErrorsComeFromOutside(cfg: Config, schedule: seq<Label>, sid: nat)
    requires Defended(cfg) && sid < |After(cfg, INIT, schedule).sessions|
    ensures var x := After(cfg, INIT, schedule).sessions[sid]; var failures := FailuresOf(cfg, INIT, schedule, sid);
      && (x.pc.Done? && x.pc.reply.answer == DatabaseError <==>
            failures != [] && (!failures[|failures| - 1] || |failures| == 4))
      && |failures| <= 4 && (forall i | 0 <= i < |failures| - 1 :: failures[i])
      && (!(x.pc.Done? && x.pc.reply.answer == DatabaseError) ==> x.attempt == |failures|)
  {
    ScheduleTells(cfg, INIT, schedule, sid, []);
    assert [] + FailuresOf(cfg, INIT, schedule, sid) == FailuresOf(cfg, INIT, schedule, sid);
  }

  // ----- the answer belongs to the last attempt -----

  /** The length of the history when the latest attempt of the call began. */
  function AttemptBegan(cfg: Config, s: State, schedule: seq<Label>, sid: nat, began: nat): nat
    decreases |schedule|
  {
    if schedule == [] then began
    else AttemptBegan(cfg, Do(cfg, s, schedule[0]), schedule[1..], sid, BeganAfter(cfg, s, schedule[0], sid, began))
  }

  function BeganAfter(cfg: Config, s: State, l: Label, sid: nat, began: nat): nat {
    if (l.Arrive? && sid == |s.sessions|) || (IsFailureOf(l, sid) && Enabled(cfg, s, l)) then |Do(cfg, s, l).history|
    else began
  }

  ghost predicate DecidedSince(s: State, sid: nat, began: nat) {
    && began <= |s.history|
    && (sid < |s.sessions| && PointOf(s.sessions[sid].pc).Some? ==> PointOf(s.sessions[sid].pc).value >= began)
  }

  lemma StepDecidesLate(cfg: Config, s: State, l: Label, sid: nat, began: nat)
    requires DecidedSince(s, sid, began)
    ensures DecidedSince(Do(cfg, s, l), sid, BeganAfter(cfg, s, l, sid, began))
  {
    StepGrows(cfg, s, l);
    if IsFailureOf(l, sid) && Enabled(cfg, s, l) {
      assert PointOf(Do(cfg, s, l).sessions[sid].pc).None?;
    } else if sid < |s.sessions| {
      if l.Go? && l.sid == sid && Enabled(cfg, s, l) {
        SessionStepMoves(cfg, s, l);
      } else if !(IsSessionLabel(l) && l.sid == sid) {
        OthersMoveApart(cfg, s, l, sid);
      }
    } else if IsSessionLabel(l) && Enabled(cfg, s, l) {
      SessionStepMoves(cfg, s, l);
    }
  }

  lemma {:induction false} ScheduleDecidesLate(cfg: Config, s: State, schedule: seq<Label>, sid: nat, began: nat)
    requires DecidedSince(s, sid, began)
    ensures DecidedSince(After(cfg, s, schedule), sid, AttemptBegan(cfg, s, schedule, sid, began))
    decreases |schedule|
  {
    if schedule != [] {
      StepDecidesLate(cfg, s, schedule[0], sid, began);
      ScheduleDecidesLate(cfg, Do(cfg, s, schedule[0]), schedule[1..], sid, BeganAfter(cfg, s, schedule[0], sid, began));
    }
  }

  /** Unless its failures are fatal, a call that has returned was answered as it is due at a
      point inside its last attempt. */
  lemma LastAttemptIsAnswered(cfg: Config, schedule: seq<Label>, sid: nat)
    requires cfg.forUpdate && !Fatal(FailuresOf(cfg, INIT, schedule, sid))
    requires var s := After(cfg, INIT, schedule); sid < |s.sessions| && s.sessions[sid].pc.Done?
    ensures var s := After(cfg, INIT, schedule); var x := s.sessions[sid];
      exists at: nat, f: Fresh ::
        && AttemptBegan(cfg, INIT, schedule, sid, 0) <= at < |s.history|
        && Due(Replay(s.history[..at]), x.call, f, x.pc.reply.answer)
  {
    var s := After(cfg, INIT, schedule);
    var x := s.sessions[sid];
    ErrorsComeFromOutside(cfg, schedule, sid);
    EveryScheduleKeepsInv(cfg, schedule);
    ScheduleDecidesLate(cfg, INIT, schedule, sid, 0);
    ReplyOf(cfg, s, sid);
    var at := x.pc.reply.at.value;
    LegalAt(s.history, at);
    LegalStatesAreConsistent(s.history[..at]);
    AnswersAreDue(Replay(s.history[..at]), x.call, s.history[at].drawn, x.pc.reply.answer);
  }

  // ----- a key that is in use -----

  lemma {:induction false} RowsStay(h: seq<Event>, n: nat, row: TxnRow)
    requires Legal(h) && n <= |h| && row in Replay(h[..n]).txns
    ensures row in Replay(h).txns
    decreases |h|
  {
    if n == |h| {
      assert h[..n] == h;
    } else {
      var m := |h| - 1;
      assert h[..m][..n] == h[..n];
      RowsStay(h[..m], n, row);
      ApplyKeepsGroup(Replay(h[..m]), h[m], row);
    }
  }

  lemma ArrivedWithin(cfg: Config, schedule: seq<Label>, sid: nat)
    requires Defended(cfg) && sid < |After(cfg, INIT, schedule).sessions|
    ensures var s := After(cfg, INIT, schedule); s.sessions[sid].since <= |s.history|
  {
    EveryScheduleKeepsInv(cfg, schedule);
    Now(cfg, After(cfg, INIT, schedule), sid);
  }

  /** A key that is committed when a call arrives settles the call: unless its failures are
      fatal, it is a replay of the stored transaction if the digest agrees, and a conflict if
      it does not, whatever else it asks for. */
  lemma UsedKeySettlesTheCall(cfg: Config, schedule: seq<Label>, sid: nat, row: TxnRow)
    requires Defended(cfg) && !Fatal(FailuresOf(cfg, INIT, schedule, sid))
    requires var s := After(cfg, INIT, schedule);
      && sid < |s.sessions| && s.sessions[sid].pc.Done? && s.sessions[sid].since <= |s.history|
      && Stored(Replay(s.history[..s.sessions[sid].since]), s.sessions[sid].call, row)
    ensures var x := After(cfg, INIT, schedule).sessions[sid];
      x.pc.reply.answer == if row.digest == x.call.digest then Replayed(row.id) else KeyConflict
  {
    var s := After(cfg, INIT, schedule);
    var x, h := s.sessions[sid], s.history;
    ErrorsComeFromOutside(cfg, schedule, sid);
    EveryScheduleKeepsInv(cfg, schedule);
    ScheduleIsExplained(cfg, INIT, schedule);
    ReplyOf(cfg, s, sid);
    assert SessionExplained(s, sid);
    assert !StaleRefusal(x);
    var at := x.pc.reply.at.value;
    LegalAt(h, at);
    assert h[..at][..x.since] == h[..x.since];
    RowsStay(h[..at], x.since, row);
    LegalStatesAreConsistent(h[..at]);
    StoredIsFound(Replay(h[..at]), x.call, row);
  }

  // ----- a lost confirmation -----

  /** A COMMIT whose confirmation is lost has taken effect: the transfer is posted, and the next
      attempt of the same request is due a replay of it. */
  lemma LostCommitTakesEffect(cfg: Config, s: State, sid: nat, retryable: bool, g: Fresh)
    requires Inv(cfg, s) && Defended(cfg) && Enabled(cfg, s, LoseCommit(sid, retryable))
    ensures var x := s.sessions[sid]; var db' := Do(cfg, s, LoseCommit(sid, retryable)).db;
      && Decide(s.db, x.call, x.tx.drawn).Created? && db' == Post(s.db, x.call, x.tx.drawn)
      && Due(db', x.call, g, Replayed(x.tx.drawn.txn))
  {
    var x := s.sessions[sid];
    CommitIsPost(cfg, s, sid);
    LegalStatesAreConsistent(s.history);
    PostedIsReplayed(s.db, x.call, x.tx.drawn, g);
    PostKeepsUnique(s.db, x.call, x.tx.drawn);
    AnswersAreDue(Post(s.db, x.call, x.tx.drawn), x.call, g, Replayed(x.tx.drawn.txn));
  }
}
