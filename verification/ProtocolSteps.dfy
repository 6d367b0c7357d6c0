/** Each step keeps the invariant, one lemma a statement. */
module ProtocolSteps {
  import opened LedgerTypes
  import opened Schema
  import opened SequentialLedger
  import opened Protocol
  import opened ProtocolInvariant

  predicate IsRejection(a: Answer) {
    a.KeyConflict? || a.SelfTransfer? || a.NonPositiveAmount? || a.AccountNotFound? || a.CurrencyMismatch?
    || a.InsufficientFunds? || a.NumericOverflow?
  }

  lemma RejectKeepsSession(cfg: Config, s: State, sid: nat, answer: Answer)
    requires sid < |s.sessions| && SessionInv(cfg, s, sid) && IsRejection(answer)
    ensures var s' := Reject(s, sid, answer); SessionInv(cfg, s', sid) && OthersHold(s, s', sid)
  {
    FreeAll(s.claims, sid);
    FreeAll(s.locks, sid);
  }

  lemma RejectKeepsInv(cfg: Config, s: State, sid: nat, answer: Answer)
    requires Inv(cfg, s) && sid < |s.sessions| && IsRejection(answer)
    requires answer == Decide(s.db, s.sessions[sid].call, s.sessions[sid].tx.drawn)
    ensures Inv(cfg, Reject(s, sid, answer))
  {
    Now(cfg, s, sid);
    RejectKeepsSession(cfg, s, sid, answer);
    LegalSnoc(s.history, RequestEvent(s, sid, answer));
    QuietStep(cfg, s, Reject(s, sid, answer), sid);
  }

  /** Ending the database transaction without publishing anything. */
  lemma LeaveKeepsInv(cfg: Config, s: State, sid: nat, x: Session)
    requires Inv(cfg, s) && sid < |s.sessions| && !Validated(x.pc) && OutcomeHolds(cfg, s.db, s.history, sid, x)
    ensures Inv(cfg, Leave(s, sid, x))
  {
    Now(cfg, s, sid);
    FreeAll(s.claims, sid);
    FreeAll(s.locks, sid);
    SilentStep(cfg, s, Leave(s, sid, x), sid);
  }

  lemma GiveUpKeepsInv(cfg: Config, s: State, sid: nat, answer: Answer)
    requires Inv(cfg, s) && sid < |s.sessions|
    requires answer.DatabaseError? || (answer.InsufficientFunds? && !cfg.forUpdate)
    ensures Inv(cfg, GiveUp(s, sid, answer))
  {
    Now(cfg, s, sid);
    LeaveKeepsInv(cfg, s, sid, s.sessions[sid].(pc := Done(Reply(answer, None, None))));
  }

  lemma FailKeepsInv(cfg: Config, s: State, sid: nat, retryable: bool)
    requires Inv(cfg, s) && sid < |s.sessions|
    ensures Inv(cfg, Leave(s, sid, AfterError(s.sessions[sid], retryable)))
  {
    Now(cfg, s, sid);
    LeaveKeepsInv(cfg, s, sid, AfterError(s.sessions[sid], retryable));
  }

  lemma ArriveKeepsSessions(cfg: Config, s: State, call: Call, o: nat)
    requires Inv(cfg, s) && o <= |s.sessions|
    ensures SessionInv(cfg, Do(cfg, s, Arrive(call)), o)
  {
    if o < |s.sessions| {
      Now(cfg, s, o);
    }
  }

  lemma ArriveKeepsInv(cfg: Config, s: State, call: Call)
    requires Inv(cfg, s)
    ensures Inv(cfg, Do(cfg, s, Arrive(call)))
  {
    forall o | 0 <= o <= |s.sessions| ensures SessionInv(cfg, Do(cfg, s, Arrive(call)), o) {
      ArriveKeepsSessions(cfg, s, call, o);
    }
  }

  /** A key's row is found again by its id, because both are unique. */
  lemma FoundByKeyIsFoundById(ts: seq<TxnRow>, key: string)
    requires UniqueIds(ts) && FindByKey(ts, key).Some?
    ensures FindById(ts, FindByKey(ts, key).value.id) == FindByKey(ts, key)
  {
    var row := FindByKey(ts, key).value;
    var other := FindById(ts, row.id).value;
    var i :| 0 <= i < |ts| && ts[i] == row;
    var j :| 0 <= j < |ts| && ts[j] == other;
  }

  lemma ReplayHitKeepsSession(cfg: Config, s: State, sid: nat, row: TxnRow)
    requires sid < |s.sessions| && SessionInv(cfg, s, sid) && !InTx(s.sessions[sid].pc)
    requires Recorded(s.db, s.sessions[sid].call, row)
    ensures var s' := ReplayRow(s, sid, row); SessionInv(cfg, s', sid) && OthersHold(s, s', sid)
  {
  }

  lemma ReplayRowKeepsInv(cfg: Config, s: State, sid: nat, row: TxnRow)
    requires Inv(cfg, s) && sid < |s.sessions| && !InTx(s.sessions[sid].pc)
    requires FindByKey(s.db.txns, s.sessions[sid].call.key) == Some(row)
    ensures Inv(cfg, ReplayRow(s, sid, row))
  {
    var x := s.sessions[sid];
    if row.digest != x.call.digest {
      RejectKeepsInv(cfg, s, sid, KeyConflict);
    } else {
      LegalSnoc(s.history, RequestEvent(s, sid, Replayed(row.id)));
      LegalStatesAreConsistent(s.history);
      FoundByKeyIsFoundById(s.db.txns, x.call.key);
      Now(cfg, s, sid);
      ReplayHitKeepsSession(cfg, s, sid, row);
      QuietStep(cfg, s, ReplayRow(s, sid, row), sid);
    }
  }

  lemma PassesLookup(cfg: Config, s: State, sid: nat)
    requires sid < |s.sessions| && SessionInv(cfg, s, sid) && s.sessions[sid].pc.Lookup?
    requires s.sessions[sid].call.terms.from != s.sessions[sid].call.terms.to && s.sessions[sid].call.terms.amount > 0
    ensures var s' := Put(s, sid, s.sessions[sid].(pc := Begin)); SessionInv(cfg, s', sid) && OthersHold(s, s', sid)
  {
  }

  lemma LookupKeepsInv(cfg: Config, s: State, sid: nat)
    requires Inv(cfg, s) && sid < |s.sessions| && s.sessions[sid].pc.Lookup?
    ensures Inv(cfg, GoLookup(s, sid))
  {
    var x := s.sessions[sid];
    Now(cfg, s, sid);
    match FindByKey(s.db.txns, x.call.key)
    case Some(row) => ReplayRowKeepsInv(cfg, s, sid, row);
    case None =>
      if x.call.terms.from == x.call.terms.to {
        RejectKeepsInv(cfg, s, sid, SelfTransfer);
      } else if x.call.terms.amount <= 0 {
        RejectKeepsInv(cfg, s, sid, NonPositiveAmount);
      } else {
        PassesLookup(cfg, s, sid);
        SilentStep(cfg, s, GoLookup(s, sid), sid);
      }
  }

  lemma BeginKeepsSession(cfg: Config, s: State, sid: nat, f: Fresh)
    requires sid < |s.sessions| && SessionInv(cfg, s, sid) && s.sessions[sid].pc.Begin?
    requires FreshFor(s, f) && FreshIds(s.db, f)
    ensures var s' := GoBegin(s, sid, f); SessionInv(cfg, s', sid) && OthersHold(s, s', sid)
  {
  }

  lemma BeginKeepsInv(cfg: Config, s: State, sid: nat, f: Fresh)
    requires Inv(cfg, s) && sid < |s.sessions| && s.sessions[sid].pc.Begin? && FreshFor(s, f)
    ensures Inv(cfg, GoBegin(s, sid, f))
  {
    assert FreshIds(s.db, f) by {
      forall t | t in s.db.txns ensures t.id != f.txn {
        assert t.id in s.issued;
      }
    }
    Now(cfg, s, sid);
    BeginKeepsSession(cfg, s, sid, f);
    SilentStep(cfg, s, GoBegin(s, sid, f), sid);
  }

  lemma ClaimWonKeepsSession(cfg: Config, s: State, sid: nat)
    requires sid < |s.sessions| && SessionInv(cfg, s, sid) && s.sessions[sid].pc.Claim? && !Blocked(cfg, s, sid)
    requires FindByKey(s.db.txns, s.sessions[sid].call.key).None?
    ensures SessionInv(cfg, GoClaim(s, sid), sid) && OthersHold(s, GoClaim(s, sid), sid)
  {
    TakeOne(s.claims, s.sessions[sid].call.key, sid);
  }

  lemma CollisionKeepsSession(cfg: Config, s: State, sid: nat)
    requires sid < |s.sessions| && SessionInv(cfg, s, sid) && s.sessions[sid].pc.Claim?
    requires FindByKey(s.db.txns, s.sessions[sid].call.key).Some?
    ensures SessionInv(cfg, GoClaim(s, sid), sid) && OthersHold(s, GoClaim(s, sid), sid)
  {
  }

  lemma ClaimKeepsInv(cfg: Config, s: State, sid: nat)
    requires Inv(cfg, s) && sid < |s.sessions| && s.sessions[sid].pc.Claim? && !Blocked(cfg, s, sid)
    ensures Inv(cfg, GoClaim(s, sid))
  {
    Now(cfg, s, sid);
    if FindByKey(s.db.txns, s.sessions[sid].call.key).None? {
      ClaimWonKeepsSession(cfg, s, sid);
    } else {
      CollisionKeepsSession(cfg, s, sid);
    }
    SilentStep(cfg, s, GoClaim(s, sid), sid);
  }

  lemma CollidedKeepsInv(cfg: Config, s: State, sid: nat)
    requires Inv(cfg, s) && sid < |s.sessions| && s.sessions[sid].pc.Collided?
    ensures Inv(cfg, Leave(s, sid, s.sessions[sid].(pc := Reread)))
  {
    Now(cfg, s, sid);
    LeaveKeepsInv(cfg, s, sid, s.sessions[sid].(pc := Reread));
  }

  lemma RereadKeepsInv(cfg: Config, s: State, sid: nat)
    requires Inv(cfg, s) && sid < |s.sessions| && s.sessions[sid].pc.Reread?
    ensures Inv(cfg, GoReread(s, sid))
  {
    Now(cfg, s, sid);
    ReplayRowKeepsInv(cfg, s, sid, FindByKey(s.db.txns, s.sessions[sid].call.key).value);
  }

  predicate ReadsNext(x: Session, id: Uuid, next: Pc) {
    var t := x.call.terms;
    || (x.pc.Lock1? && id == FirstLock(t) && next == Lock2)
    || (x.pc.Lock2? && id == SecondLock(t) && next == Check)
  }

  lemma RowReadKeepsTx(cfg: Config, db: Db, issued: map<Uuid, nat>, sid: nat, x: Session, id: Uuid, next: Pc)
    requires TxHolds(cfg, db, issued, sid, x) && id in db.accounts && ReadsNext(x, id, next)
    ensures TxHolds(cfg, db, issued, sid, x.(pc := next, tx := x.tx.(read := x.tx.read[id := db.accounts[id]])))
  {
    var x' := x.(pc := next, tx := x.tx.(read := x.tx.read[id := db.accounts[id]]));
    assert RowsRead(x') == RowsRead(x) + {id};
  }

  lemma RowReadKeepsSession(cfg: Config, s: State, sid: nat, id: Uuid, next: Pc)
    requires sid < |s.sessions| && SessionInv(cfg, s, sid) && id in s.db.accounts
    requires cfg.forUpdate ==> !HeldByOther(s.locks, id, sid)
    requires ReadsNext(s.sessions[sid], id, next)
    ensures var s' := GoLock(cfg, s, sid, id, next); SessionInv(cfg, s', sid) && OthersHold(s, s', sid)
  {
    var x := s.sessions[sid];
    var s' := GoLock(cfg, s, sid, id, next);
    if cfg.forUpdate {
      TakeOne(s.locks, id, sid);
    }
    assert HeldLocks(cfg, s'.sessions[sid]) == if cfg.forUpdate then HeldLocks(cfg, x) + {id} else {};
    RowReadKeepsTx(cfg, s.db, s.issued, sid, x, id, next);
    InsideStep(cfg, s, s', sid);
  }

  lemma LockKeepsInv(cfg: Config, s: State, sid: nat)
    requires Inv(cfg, s) && sid < |s.sessions| && !Blocked(cfg, s, sid)
    requires s.sessions[sid].pc.Lock1? || s.sessions[sid].pc.Lock2?
    ensures Inv(cfg, Advance(cfg, s, sid, NO_DRAW))
  {
    var x := s.sessions[sid];
    Now(cfg, s, sid);
    var id := if x.pc.Lock1? then FirstLock(x.call.terms) else SecondLock(x.call.terms);
    if id !in s.db.accounts {
      RejectKeepsInv(cfg, s, sid, AccountNotFound(id));
    } else {
      RowReadKeepsSession(cfg, s, sid, id, if x.pc.Lock1? then Lock2 else Check);
      SilentStep(cfg, s, Advance(cfg, s, sid, NO_DRAW), sid);
    }
  }

  lemma CheckPassedKeepsSession(cfg: Config, s: State, sid: nat)
    requires sid < |s.sessions| && SessionInv(cfg, s, sid) && s.sessions[sid].pc.Check?
    requires ChecksHold(s.sessions[sid].tx.read, s.sessions[sid].call.terms)
    ensures SessionInv(cfg, GoCheck(cfg, s, sid), sid) && OthersHold(s, GoCheck(cfg, s, sid), sid)
  {
    InsideStep(cfg, s, GoCheck(cfg, s, sid), sid);
  }

  lemma CheckKeepsInv(cfg: Config, s: State, sid: nat)
    requires Inv(cfg, s) && sid < |s.sessions| && s.sessions[sid].pc.Check?
    ensures Inv(cfg, GoCheck(cfg, s, sid))
  {
    var x := s.sessions[sid];
    var t := x.call.terms;
    Now(cfg, s, sid);
    if x.tx.read[t.from].terms.currency != t.currency {
      RejectKeepsInv(cfg, s, sid, CurrencyMismatch(t.from));
    } else if x.tx.read[t.to].terms.currency != t.currency {
      RejectKeepsInv(cfg, s, sid, CurrencyMismatch(t.to));
    } else if !x.tx.read[t.from].terms.allowsNegative && x.tx.read[t.from].balance < t.amount {
      if cfg.forUpdate {
        RejectKeepsInv(cfg, s, sid, InsufficientFunds(t.from));
      } else {
        GiveUpKeepsInv(cfg, s, sid, InsufficientFunds(t.from));
      }
    } else {
      CheckPassedKeepsSession(cfg, s, sid);
      SilentStep(cfg, s, GoCheck(cfg, s, sid), sid);
    }
  }
}
