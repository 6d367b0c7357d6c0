/** Draining one account with any number of concurrent transfers: exactly as many succeed
    as there is money for. */
module Drain {
  import opened LedgerTypes
  import opened Schema
  import opened SequentialLedger
  import opened Protocol
  import opened ProtocolInvariant
  import opened ProtocolCommit
  import opened ProtocolMoves

  /** Every call takes `amount` out of `account`. */
  datatype Plan = Plan(account: Uuid, amount: Units, currency: Currency)

  ghost predicate PlannedCall(db: Db, p: Plan, call: Call) {
    var t := call.terms;
    && t.from == p.account && t.amount == p.amount && t.currency == p.currency
    && t.to != t.from && t.to in db.accounts && db.accounts[t.to].terms.currency == p.currency
  }

  /** The account can be drained: it is an ordinary account of that currency. */
  ghost predicate Drainable(db: Db, p: Plan) {
    && p.amount > 0
    && p.account in db.accounts
    && db.accounts[p.account].terms.currency == p.currency
    && !db.accounts[p.account].terms.allowsNegative
  }

  ghost predicate UnusedKey(s: State, n: nat, key: string) {
    && FindByKey(s.db.txns, key).None?
    && forall o | n <= o < |s.sessions| :: s.sessions[o].call.key != key
  }

  /** Nothing but planned calls with keys of their own arrives, and no statement fails from outside. */
  ghost predicate PlannedRun(cfg: Config, s: State, n: nat, p: Plan, run: seq<Label>)
    decreases |run|
  {
    run == []
    || (&& (run[0].Go? || (run[0].Arrive? && PlannedCall(s.db, p, run[0].call) && UnusedKey(s, n, run[0].call.key)))
        && PlannedRun(cfg, Do(cfg, s, run[0]), n, p, run[1..]))
  }

  /** The call has moved its money. */
  predicate Paid(pc: Pc) {
    match pc
    case FetchTxn(_, replayed, _) => !replayed
    case FetchEntries(_, replayed, _) => !replayed
    case Done(r) => r.answer.Created?
    case _ => false
  }

  predicate Refused(pc: Pc) {
    pc.Done? && pc.reply.answer.InsufficientFunds?
  }

  /** Where a planned call can be. */
  predicate OnPlan(pc: Pc) {
    match pc
    case Collided => false
    case Reread => false
    case Done(r) => r.answer.Created? || r.answer.InsufficientFunds? || r.answer.NumericOverflow?
    case FetchTxn(_, replayed, _) => !replayed
    case FetchEntries(_, replayed, _) => !replayed
    case _ => true
  }

  function CountPaid(xs: seq<Session>): nat {
    if xs == [] then 0 else (if Paid(xs[0].pc) then 1 else 0) + CountPaid(xs[1..])
  }

  lemma {:induction false} CountAfterUpdate(xs: seq<Session>, i: nat, y: Session)
    requires i < |xs|
    ensures CountPaid(xs[i := y]) - (if Paid(y.pc) then 1 else 0) == CountPaid(xs) - (if Paid(xs[i].pc) then 1 else 0)
  {
    if i > 0 {
      assert xs[i := y][1..] == xs[1..][i - 1 := y];
      CountAfterUpdate(xs[1..], i - 1, y);
    } else {
      assert xs[i := y][1..] == xs[1..];
    }
  }

  lemma {:induction false} CountAfterAppend(xs: seq<Session>, y: Session)
    requires !Paid(y.pc)
    ensures CountPaid(xs + [y]) == CountPaid(xs)
  {
    if xs != [] {
      assert (xs + [y])[1..] == xs[1..] + [y];
      CountAfterAppend(xs[1..], y);
    }
  }

  lemma {:induction false} CountWithin(xs: seq<Session>)
    ensures CountPaid(xs) <= |xs|
    ensures (forall x | x in xs :: Paid(x.pc)) ==> CountPaid(xs) == |xs|
  {
    if xs != [] {
      CountWithin(xs[1..]);
    }
  }

  // ----- one step of a planned call -----

  /** What one completed statement of an unpaid planned call amounts to. */
  ghost predicate PlannedOutcome(s: State, s': State, sid: nat, p: Plan)
    requires sid < |s.sessions| && p.account in s.db.accounts
  {
    && sid < |s'.sessions| && OnPlan(s'.sessions[sid].pc)
    && (Refused(s'.sessions[sid].pc) ==> s.db.accounts[p.account].balance < p.amount)
    && (Paid(s'.sessions[sid].pc) <==> s.sessions[sid].pc.Commit?)
  }

  lemma ClaimingStep(cfg: Config, s: State, sid: nat, f: Fresh, p: Plan)
    requires sid < |s.sessions| && Drainable(s.db, p) && PlannedCall(s.db, p, s.sessions[sid].call)
    requires FindByKey(s.db.txns, s.sessions[sid].call.key).None?
    requires s.sessions[sid].pc.Lookup? || s.sessions[sid].pc.Begin? || s.sessions[sid].pc.Claim?
    ensures PlannedOutcome(s, Advance(cfg, s, sid, f), sid, p)
  {
  }

  lemma LockingStep(cfg: Config, s: State, sid: nat, f: Fresh, p: Plan)
    requires Inv(cfg, s) && cfg.forUpdate && sid < |s.sessions|
    requires Drainable(s.db, p) && PlannedCall(s.db, p, s.sessions[sid].call)
    requires s.sessions[sid].pc.Lock1? || s.sessions[sid].pc.Lock2?
    ensures PlannedOutcome(s, Advance(cfg, s, sid, f), sid, p)
  {
  }

  lemma CheckingStep(cfg: Config, s: State, sid: nat, f: Fresh, p: Plan)
    requires Inv(cfg, s) && cfg.forUpdate && sid < |s.sessions| && s.sessions[sid].pc.Check?
    requires Drainable(s.db, p) && PlannedCall(s.db, p, s.sessions[sid].call)
    ensures PlannedOutcome(s, Advance(cfg, s, sid, f), sid, p)
  {
    Now(cfg, s, sid);
  }

  lemma AdjustFromStep(cfg: Config, s: State, sid: nat, p: Plan)
    requires Inv(cfg, s) && cfg.forUpdate && sid < |s.sessions| && s.sessions[sid].pc.AdjustFrom?
    requires Drainable(s.db, p) && PlannedCall(s.db, p, s.sessions[sid].call)
    ensures PlannedOutcome(s, GoAdjust(cfg, s, sid, p.account, -p.amount, AdjustTo), sid, p)
  {
    CheckedFacts(cfg, s, sid);
    NothingPendingYet(cfg, s, sid);
  }

  lemma AdjustToStep(cfg: Config, s: State, sid: nat, p: Plan)
    requires Inv(cfg, s) && cfg.forUpdate && sid < |s.sessions| && s.sessions[sid].pc.AdjustTo?
    requires Drainable(s.db, p) && PlannedCall(s.db, p, s.sessions[sid].call)
    ensures PlannedOutcome(s, GoAdjust(cfg, s, sid, s.sessions[sid].call.terms.to, p.amount, EntryFrom), sid, p)
  {
    CheckedFacts(cfg, s, sid);
    NothingPendingYet(cfg, s, sid);
  }

  lemma NothingPendingYet(cfg: Config, s: State, sid: nat)
    requires Inv(cfg, s) && sid < |s.sessions|
    ensures var x := s.sessions[sid]; var t := x.call.terms;
      (x.pc.AdjustFrom? ==> t.from !in x.tx.writes) && (x.pc.AdjustTo? ==> t.to !in x.tx.writes)
  {
    Now(cfg, s, sid);
  }

  lemma WritingStep(cfg: Config, s: State, sid: nat, f: Fresh, p: Plan)
    requires Inv(cfg, s) && cfg.forUpdate && sid < |s.sessions| && p.account in s.db.accounts
    requires s.sessions[sid].pc.EntryFrom? || s.sessions[sid].pc.EntryTo? || s.sessions[sid].pc.Commit?
    ensures PlannedOutcome(s, Advance(cfg, s, sid, f), sid, p)
  {
    var x := s.sessions[sid];
    if x.pc.Commit? {
      DeferredChecksAlwaysPass(cfg, s, sid);
    } else {
      EntryInsertsSucceed(cfg, s, sid, CreditEntry(x.call, x.tx.drawn));
      EntryInsertsSucceed(cfg, s, sid, DebitEntry(x.call, x.tx.drawn));
    }
  }

  /** A paid call stays paid. */
  lemma PaidStep(cfg: Config, s: State, sid: nat, f: Fresh)
    requires Inv(cfg, s) && sid < |s.sessions| && Paid(s.sessions[sid].pc) && !s.sessions[sid].pc.Done?
    ensures Paid(Advance(cfg, s, sid, f).sessions[sid].pc) && OnPlan(Advance(cfg, s, sid, f).sessions[sid].pc)
  {
    Now(cfg, s, sid);
  }

  lemma UnpaidStep(cfg: Config, s: State, sid: nat, f: Fresh, p: Plan)
    requires Inv(cfg, s) && cfg.forUpdate && sid < |s.sessions| && Enabled(cfg, s, Go(sid, f))
    requires Drainable(s.db, p) && PlannedCall(s.db, p, s.sessions[sid].call)
    requires FindByKey(s.db.txns, s.sessions[sid].call.key).None?
    requires OnPlan(s.sessions[sid].pc) && !Paid(s.sessions[sid].pc)
    ensures PlannedOutcome(s, Advance(cfg, s, sid, f), sid, p)
  {
    var pc := s.sessions[sid].pc;
    if pc.Lookup? || pc.Begin? || pc.Claim? {
      ClaimingStep(cfg, s, sid, f, p);
    } else if pc.Lock1? || pc.Lock2? {
      LockingStep(cfg, s, sid, f, p);
    } else if pc.Check? {
      CheckingStep(cfg, s, sid, f, p);
    } else if pc.AdjustFrom? {
      AdjustFromStep(cfg, s, sid, p);
    } else if pc.AdjustTo? {
      AdjustToStep(cfg, s, sid, p);
    } else {
      WritingStep(cfg, s, sid, f, p);
    }
  }

  // ----- the whole run -----

  /** What holds of every planned call that has arrived. */
  ghost predicate CallsOnPlan(s: State, n: nat, p: Plan)
    requires p.account in s.db.accounts
  {
    && (forall o | n <= o < |s.sessions| ::
          && OnPlan(s.sessions[o].pc)
          && PlannedCall(s.db, p, s.sessions[o].call)
          && (!Paid(s.sessions[o].pc) ==> FindByKey(s.db.txns, s.sessions[o].call.key).None?)
          && (Refused(s.sessions[o].pc) ==> s.db.accounts[p.account].balance < p.amount))
    && (forall o, q | n <= o < q < |s.sessions| :: s.sessions[o].call.key != s.sessions[q].call.key)
  }

  /** `n` calls had returned before; the account then held `funds`. */
  ghost predicate Draining(s: State, n: nat, p: Plan, funds: int)
  {
    && n <= |s.sessions|
    && (forall o | 0 <= o < n :: s.sessions[o].pc.Done?)
    && Drainable(s.db, p)
    && s.db.accounts[p.account].balance == funds - p.amount * CountPaid(s.sessions[n..])
    && CallsOnPlan(s, n, p)
  }

  lemma ArrivalKeepsPlan(s: State, n: nat, p: Plan, x: Session)
    requires p.account in s.db.accounts && CallsOnPlan(s, n, p)
    requires PlannedCall(s.db, p, x.call) && UnusedKey(s, n, x.call.key) && x.pc.Lookup?
    ensures CallsOnPlan(s.(sessions := s.sessions + [x]), n, p)
  {
  }

  lemma ArrivalIsUnpaid(xs: seq<Session>, n: nat, x: Session)
    requires n <= |xs| && !Paid(x.pc)
    ensures CountPaid((xs + [x])[n..]) == CountPaid(xs[n..])
  {
    assert (xs + [x])[n..] == xs[n..] + [x];
    CountAfterAppend(xs[n..], x);
  }

  lemma ArrivalKeepsDraining(cfg: Config, s: State, n: nat, p: Plan, funds: int, call: Call)
    requires Draining(s, n, p, funds) && PlannedCall(s.db, p, call) && UnusedKey(s, n, call.key)
    ensures Draining(Do(cfg, s, Arrive(call)), n, p, funds)
  {
    var x := Session(call, |s.history|, 0, Lookup, NO_TX);
    ArrivalKeepsPlan(s, n, p, x);
    ArrivalIsUnpaid(s.sessions, n, x);
    assert Do(cfg, s, Arrive(call)) == s.(sessions := s.sessions + [x]);
  }

  /** A commit of a planned call takes exactly `amount` out of the account. */
  lemma PaymentEffect(db: Db, call: Call, f: Fresh, p: Plan)
    requires Drainable(db, p) && PlannedCall(db, p, call) && Decide(db, call, f).Created?
    ensures var db' := Post(db, call, f);
      && Drainable(db', p) && db'.accounts[p.account].balance == db.accounts[p.account].balance - p.amount
      && (forall c | PlannedCall(db, p, c) :: PlannedCall(db', p, c))
      && (forall key | key != call.key && FindByKey(db.txns, key).None? :: FindByKey(db'.txns, key).None?)
  {
  }

  lemma QuietStepStaysOnPlan(cfg: Config, s: State, sid: nat, f: Fresh, n: nat, p: Plan, funds: int)
    requires Inv(cfg, s) && cfg.forUpdate && Draining(s, n, p, funds) && Enabled(cfg, s, Go(sid, f))
    requires !s.sessions[sid].pc.Commit?
    ensures var s' := Advance(cfg, s, sid, f);
      && n <= sid && Moves(s, s', sid) && OnPlan(s'.sessions[sid].pc)
      && (Paid(s'.sessions[sid].pc) <==> Paid(s.sessions[sid].pc))
      && (Refused(s'.sessions[sid].pc) ==> s.db.accounts[p.account].balance < p.amount)
  {
    AdvanceMoves(cfg, s, sid, f);
    if Paid(s.sessions[sid].pc) {
      PaidStep(cfg, s, sid, f);
    } else {
      UnpaidStep(cfg, s, sid, f, p);
    }
  }

  lemma NoMorePaid(s: State, s': State, sid: nat, n: nat)
    requires n <= sid < |s.sessions| && Moves(s, s', sid)
    requires Paid(s'.sessions[sid].pc) <==> Paid(s.sessions[sid].pc)
    ensures CountPaid(s'.sessions[n..]) == CountPaid(s.sessions[n..])
  {
    assert s'.sessions[n..] == s.sessions[n..][sid - n := s'.sessions[sid]];
    CountAfterUpdate(s.sessions[n..], sid - n, s'.sessions[sid]);
  }

  lemma MoveKeepsPlan(s: State, s': State, sid: nat, n: nat, p: Plan)
    requires p.account in s.db.accounts && CallsOnPlan(s, n, p) && s'.db == s.db
    requires n <= sid < |s.sessions| && Moves(s, s', sid) && OnPlan(s'.sessions[sid].pc)
    requires Paid(s'.sessions[sid].pc) <==> Paid(s.sessions[sid].pc)
    requires Refused(s'.sessions[sid].pc) ==> s.db.accounts[p.account].balance < p.amount
    ensures CallsOnPlan(s', n, p)
  {
  }

  lemma QuietStepKeepsDraining(cfg: Config, s: State, sid: nat, f: Fresh, n: nat, p: Plan, funds: int)
    requires Inv(cfg, s) && cfg.forUpdate && Draining(s, n, p, funds) && Enabled(cfg, s, Go(sid, f))
    requires !s.sessions[sid].pc.Commit?
    ensures Draining(Do(cfg, s, Go(sid, f)), n, p, funds)
  {
    var s' := Advance(cfg, s, sid, f);
    QuietStepStaysOnPlan(cfg, s, sid, f, n, p, funds);
    NoMorePaid(s, s', sid, n);
    MoveKeepsPlan(s, s', sid, n, p);
  }

  lemma CommitPays(cfg: Config, s: State, sid: nat, f: Fresh, p: Plan)
    requires Inv(cfg, s) && cfg.forUpdate && sid < |s.sessions| && s.sessions[sid].pc.Commit?
    requires Drainable(s.db, p) && PlannedCall(s.db, p, s.sessions[sid].call)
    ensures var x := s.sessions[sid]; var s' := Advance(cfg, s, sid, f);
      && Moves(s, s', sid) && Paid(s'.sessions[sid].pc) && OnPlan(s'.sessions[sid].pc)
      && !Refused(s'.sessions[sid].pc)
      && Decide(s.db, x.call, x.tx.drawn).Created? && s'.db == Post(s.db, x.call, x.tx.drawn)
  {
    AdvanceMoves(cfg, s, sid, f);
    WritingStep(cfg, s, sid, f, p);
    CommitIsPost(cfg, s, sid);
    DeferredChecksAlwaysPass(cfg, s, sid);
  }

  lemma CommitKeepsDraining(cfg: Config, s: State, sid: nat, f: Fresh, n: nat, p: Plan, funds: int)
    requires Inv(cfg, s) && cfg.forUpdate && Draining(s, n, p, funds) && Enabled(cfg, s, Go(sid, f))
    requires s.sessions[sid].pc.Commit?
    ensures Draining(Do(cfg, s, Go(sid, f)), n, p, funds)
  {
    var s' := Advance(cfg, s, sid, f);
    CommitPays(cfg, s, sid, f, p);
    PaidKeepsDraining(s, s', sid, n, p, funds);
  }

  lemma OneMorePaid(s: State, s': State, sid: nat, n: nat, p: Plan, funds: int)
    requires n <= sid < |s.sessions| && Moves(s, s', sid) && !Paid(s.sessions[sid].pc) && Paid(s'.sessions[sid].pc)
    ensures funds - p.amount * CountPaid(s'.sessions[n..]) == funds - p.amount * CountPaid(s.sessions[n..]) - p.amount
  {
    assert s'.sessions[n..] == s.sessions[n..][sid - n := s'.sessions[sid]];
    CountAfterUpdate(s.sessions[n..], sid - n, s'.sessions[sid]);
    var k := CountPaid(s.sessions[n..]);
    assert CountPaid(s'.sessions[n..]) == k + 1;
    assert p.amount * (k + 1) == p.amount * k + p.amount;
  }

  lemma PaidKeepsDraining(s: State, s': State, sid: nat, n: nat, p: Plan, funds: int)
    requires Draining(s, n, p, funds) && n <= sid < |s.sessions| && !Paid(s.sessions[sid].pc)
    requires Moves(s, s', sid) && Paid(s'.sessions[sid].pc) && OnPlan(s'.sessions[sid].pc)
    requires !Refused(s'.sessions[sid].pc)
    requires var x := s.sessions[sid];
      Decide(s.db, x.call, x.tx.drawn).Created? && s'.db == Post(s.db, x.call, x.tx.drawn)
    ensures Draining(s', n, p, funds)
  {
    var x := s.sessions[sid];
    PaymentEffect(s.db, x.call, x.tx.drawn, p);
    OneMorePaid(s, s', sid, n, p, funds);
    assert forall o | n <= o < |s.sessions| && o != sid :: s.sessions[o].call.key != x.call.key;
  }

  lemma {:induction false} RunKeepsDraining(cfg: Config, s: State, n: nat, p: Plan, funds: int, run: seq<Label>)
    requires Inv(cfg, s) && cfg.forUpdate && Draining(s, n, p, funds) && PlannedRun(cfg, s, n, p, run)
    ensures Draining(After(cfg, s, run), n, p, funds)
    decreases |run|
  {
    if run != [] {
      var l := run[0];
      StepKeepsInv(cfg, s, l);
      if Enabled(cfg, s, l) {
        if l.Arrive? {
          ArrivalKeepsDraining(cfg, s, n, p, funds, l.call);
        } else if s.sessions[l.sid].pc.Commit? {
          CommitKeepsDraining(cfg, s, l.sid, l.drawn, n, p, funds);
        } else {
          QuietStepKeepsDraining(cfg, s, l.sid, l.drawn, n, p, funds);
        }
      }
      RunKeepsDraining(cfg, Do(cfg, s, l), n, p, funds, run[1..]);
    }
  }

  lemma {:induction false} Scale(a: int, x: int, y: int)
    requires a > 0 && x < y
    ensures a * x + a <= a * y
    decreases y - x
  {
    assert a * y == a * (y - 1) + a;
    if x < y - 1 {
      Scale(a, x, y - 1);
    }
  }

  lemma QuotientCovers(funds: int, amount: int, count: int)
    requires amount > 0 && 0 <= funds - amount * count
    ensures count <= funds / amount
    ensures funds - amount * count < amount ==> count == funds / amount
  {
    var q := funds / amount;
    assert funds == amount * q + funds % amount;
    if q < count {
      Scale(amount, q, count);
    } else if count < q {
      Scale(amount, count, q);
    }
  }

  function Min(a: int, b: int): int {
    if a < b then a else b
  }

  function CallsSince(s: State, n: nat): seq<Session> {
    if n <= |s.sessions| then s.sessions[n..] else []
  }

  /** Start from a moment when no call is running and `account` holds `funds`. Whatever planned
      calls then arrive, and however they interleave, once they have all returned and no
      receiver overflowed, exactly min(calls, funds / amount) of them were created. */
  lemma DrainIsExact(cfg: Config, before: seq<Label>, run: seq<Label>, p: Plan)
    requires cfg.forUpdate
    requires var s := After(cfg, INIT, before);
      && Drainable(s.db, p)
      && (forall x | x in s.sessions :: x.pc.Done?)
      && PlannedRun(cfg, s, |s.sessions|, p, run)
      && (forall x | x in After(cfg, s, run).sessions :: x.pc.Done?)
      && (forall x | x in CallsSince(After(cfg, s, run), |s.sessions|) :: !x.pc.reply.answer.NumericOverflow?)
    ensures var s := After(cfg, INIT, before); var s' := After(cfg, s, run);
      CountPaid(CallsSince(s', |s.sessions|))
        == Min(|s'.sessions| - |s.sessions|, s.db.accounts[p.account].balance / p.amount)
  {
    var s := After(cfg, INIT, before);
    var n, funds := |s.sessions|, s.db.accounts[p.account].balance;
    EveryScheduleKeepsInv(cfg, before);
    assert s.sessions[n..] == [];
    RunKeepsDraining(cfg, s, n, p, funds, run);
    ScheduleKeepsInv(cfg, s, run);
    DrainCount(cfg, After(cfg, s, run), n, p, funds);
  }

  lemma NeverOverdrawn(cfg: Config, s: State, p: Plan)
    requires Inv(cfg, s) && Drainable(s.db, p)
    ensures s.db.accounts[p.account].balance >= 0
  {
    LegalStatesAreConsistent(s.history);
  }

  lemma DrainCount(cfg: Config, s: State, n: nat, p: Plan, funds: int)
    requires Inv(cfg, s) && Draining(s, n, p, funds)
    requires forall x | x in s.sessions :: x.pc.Done?
    requires forall x | x in s.sessions[n..] :: !x.pc.reply.answer.NumericOverflow?
    ensures CountPaid(s.sessions[n..]) == Min(|s.sessions| - n, funds / p.amount)
  {
    var xs := s.sessions[n..];
    CountWithin(xs);
    NeverOverdrawn(cfg, s, p);
    QuotientCovers(funds, p.amount, CountPaid(xs));
    if x :| x in xs && Refused(x.pc) {
      var i :| 0 <= i < |xs| && xs[i] == x;
      assert s.sessions[n + i] == x;
    } else {
      forall x | x in xs ensures Paid(x.pc) {
        var i :| 0 <= i < |xs| && xs[i] == x;
        assert s.sessions[n + i] == x;
      }
    }
  }
}
