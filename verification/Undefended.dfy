/** What the row locks and the CHECK are for. With neither, two transfers that read the same
    balance both go through; without the ordered row locks, two opposite transfers deadlock. */
module Undefended {
  import opened LedgerTypes
  import opened Schema
  import opened SequentialLedger
  import opened Protocol
  import opened ProtocolCommit
  import opened Progress
  import opened Guarantees

  /** No row locks on the account reads; the CHECK as given. */
  function Bare(check: bool): Config {
    Config(check, false, 2)
  }

  ghost predicate Reaches(check: bool, s: State, s': State) {
    exists schedule :: After(Bare(check), s, schedule) == s'
  }

  lemma StepReaches(check: bool, s: State, l: Label)
    ensures Reaches(check, s, Do(Bare(check), s, l))
  {
    assert After(Bare(check), s, [l]) == Do(Bare(check), s, l);
  }

  lemma ReachesTransitive(check: bool, a: State, b: State, c: State)
    requires Reaches(check, a, b) && Reaches(check, b, c)
    ensures Reaches(check, a, c)
  {
    var p :| After(Bare(check), a, p) == b;
    var q :| After(Bare(check), b, q) == c;
    AfterConcat(Bare(check), a, p, q);
  }

  /** The next statement of a session. */
  function Next(check: bool, s: State, sid: nat, f: Fresh): State {
    Do(Bare(check), s, Go(sid, f))
  }

  lemma NextReaches(check: bool, a: State, s: State, sid: nat, f: Fresh)
    requires Reaches(check, a, s)
    ensures Reaches(check, a, Next(check, s, sid, f))
  {
    StepReaches(check, s, Go(sid, f));
    ReachesTransitive(check, a, s, Next(check, s, sid, f));
  }

  // ----- from arrival to the passed funds check -----

  /** The session holds its claim and has passed its checks on the rows as they are now. */
  function Checking(s: State, sid: nat, f: Fresh): State
    requires sid < |s.sessions|
    requires var t := s.sessions[sid].call.terms; t.from in s.db.accounts && t.to in s.db.accounts
  {
    var x := s.sessions[sid];
    var t := x.call.terms;
    var read := map[t.from := s.db.accounts[t.from], t.to := s.db.accounts[t.to]];
    s.(conns := s.conns + {sid},
       claims := s.claims[x.call.key := sid],
       issued := s.issued[f.txn := sid][f.credit := sid][f.debit := sid],
       nextXid := s.nextXid + 1,
       sessions := s.sessions[sid := x.(pc := AdjustFrom, tx := Tx(f, read, map[], []))])
  }

  lemma ReachesLocking(check: bool, s: State, sid: nat, f: Fresh)
    requires sid < |s.sessions| && s.sessions[sid].pc.Lookup?
    requires var c := s.sessions[sid].call;
      FindByKey(s.db.txns, c.key).None? && c.terms.from != c.terms.to && c.terms.amount > 0
    requires |s.conns| < Bare(check).pool && s.sessions[sid].call.key !in s.claims && FreshFor(s, f)
    ensures var x := s.sessions[sid];
      Reaches(check, s, s.(conns := s.conns + {sid},
                    claims := s.claims[x.call.key := sid],
                    issued := s.issued[f.txn := sid][f.credit := sid][f.debit := sid],
                    nextXid := s.nextXid + 1,
                    sessions := s.sessions[sid := x.(pc := Lock1, tx := Tx(f, map[], map[], []))]))
  {
    var x := s.sessions[sid];
    assert After(Bare(check), s, []) == s;
    var a := Next(check, s, sid, f);
    NextReaches(check, s, s, sid, f);
    assert a.sessions == s.sessions[sid := x.(pc := Begin)];
    var b := Next(check, a, sid, f);
    NextReaches(check, s, a, sid, f);
    assert b.sessions == s.sessions[sid := x.(pc := Claim, tx := Tx(f, map[], map[], []))];
    NextReaches(check, s, b, sid, f);
    assert Next(check, b, sid, f).sessions == s.sessions[sid := x.(pc := Lock1, tx := Tx(f, map[], map[], []))];
  }

  lemma LockingReaches(check: bool, s: State, sid: nat, f: Fresh)
    requires sid < |s.sessions| && s.sessions[sid].pc.Lock1? && s.sessions[sid].tx == Tx(f, map[], map[], [])
    requires Decide(s.db, s.sessions[sid].call, f).Created?
    ensures var x := s.sessions[sid]; var t := x.call.terms;
      var read := map[t.from := s.db.accounts[t.from], t.to := s.db.accounts[t.to]];
      Reaches(check, s, s.(sessions := s.sessions[sid := x.(pc := AdjustFrom, tx := Tx(f, read, map[], []))]))
  {
    var x := s.sessions[sid];
    var t := x.call.terms;
    var one, two := FirstLock(t), SecondLock(t);
    var read := map[one := s.db.accounts[one]];
    assert After(Bare(check), s, []) == s;
    var a := Next(check, s, sid, f);
    NextReaches(check, s, s, sid, f);
    assert a.sessions == s.sessions[sid := x.(pc := Lock2, tx := Tx(f, read, map[], []))];
    var b := Next(check, a, sid, f);
    NextReaches(check, s, a, sid, f);
    assert read[two := s.db.accounts[two]] == map[t.from := s.db.accounts[t.from], t.to := s.db.accounts[t.to]];
    assert b.sessions == s.sessions[sid := x.(pc := Check, tx := Tx(f, read[two := s.db.accounts[two]], map[], []))];
    NextReaches(check, s, b, sid, f);
    assert Next(check, b, sid, f).sessions
        == s.sessions[sid := x.(pc := AdjustFrom, tx := Tx(f, read[two := s.db.accounts[two]], map[], []))];
  }

  lemma ReachesChecking(check: bool, s: State, sid: nat, f: Fresh)
    requires sid < |s.sessions| && s.sessions[sid].pc.Lookup?
    requires Decide(s.db, s.sessions[sid].call, f).Created?
    requires |s.conns| < Bare(check).pool && s.sessions[sid].call.key !in s.claims && FreshFor(s, f)
    ensures Reaches(check, s, Checking(s, sid, f))
  {
    var x := s.sessions[sid];
    var s' := s.(conns := s.conns + {sid},
                 claims := s.claims[x.call.key := sid],
                 issued := s.issued[f.txn := sid][f.credit := sid][f.debit := sid],
                 nextXid := s.nextXid + 1,
                 sessions := s.sessions[sid := x.(pc := Lock1, tx := Tx(f, map[], map[], []))]);
    ReachesLocking(check, s, sid, f);
    LockingReaches(check, s', sid, f);
    var t := x.call.terms;
    var read := map[t.from := s.db.accounts[t.from], t.to := s.db.accounts[t.to]];
    assert s'.sessions[sid := s'.sessions[sid].(pc := AdjustFrom, tx := Tx(f, read, map[], []))]
        == Checking(s, sid, f).sessions;
    ReachesTransitive(check, s, s', Checking(s, sid, f));
  }

  // ----- from the passed check to COMMIT -----

  ghost predicate MayCommit(check: bool, s: State, sid: nat) {
    && sid < |s.sessions| && s.sessions[sid].pc.AdjustFrom? && s.locks == map[]
    && var x := s.sessions[sid]; var t := x.call.terms; var accounts := s.db.accounts;
    && x.tx.writes == map[] && x.tx.entries == [] && FreshIds(s.db, x.tx.drawn)
    && t.from != t.to && t.amount > 0 && t.from in accounts && t.to in accounts
    && accounts[t.from].terms.currency == accounts[t.to].terms.currency == t.currency
    && Fits(accounts[t.from].balance - t.amount) && Fits(accounts[t.to].balance + t.amount)
    && (check ==> BalanceAllowed(accounts[t.from].terms, accounts[t.from].balance - t.amount)
                  && BalanceAllowed(accounts[t.to].terms, accounts[t.to].balance + t.amount))
  }

  /** The transfer is committed, with no look at what the balances are by now. */
  function Committed(check: bool, s: State, sid: nat): State
    requires MayCommit(check, s, sid)
  {
    var x := s.sessions[sid];
    s.(db := Db(Moved(s.db.accounts, x.call.terms),
                s.db.txns + [NewRow(x.call, x.tx.drawn)],
                s.db.entries + [CreditEntry(x.call, x.tx.drawn), DebitEntry(x.call, x.tx.drawn)]),
       conns := s.conns - {sid},
       claims := Freed(s.claims, sid),
       sessions := s.sessions[sid := x.(pc := FetchTxn(x.tx.drawn.txn, false, |s.history|), tx := NO_TX)],
       history := s.history + [RequestEvent(s, sid, Created(x.tx.drawn.txn))])
  }

  /** The session at its COMMIT. */
  function Prepared(check: bool, s: State, sid: nat): State
    requires MayCommit(check, s, sid)
  {
    var x := s.sessions[sid];
    var t := x.call.terms;
    var writes: map<Uuid, Units> :=
      map[t.from := s.db.accounts[t.from].balance - t.amount, t.to := s.db.accounts[t.to].balance + t.amount];
    var pair := [CreditEntry(x.call, x.tx.drawn), DebitEntry(x.call, x.tx.drawn)];
    s.(locks := map[t.from := sid, t.to := sid],
       sessions := s.sessions[sid := x.(pc := Commit, tx := x.tx.(writes := writes, entries := pair))])
  }

  /** Both balances are updated, and nothing is posted yet. */
  function Adjusting(check: bool, s: State, sid: nat): State
    requires MayCommit(check, s, sid)
  {
    var p := Prepared(check, s, sid);
    p.(sessions := p.sessions[sid := p.sessions[sid].(pc := EntryFrom, tx := p.sessions[sid].tx.(entries := []))])
  }

  /** The sender's row is locked and updated. */
  function Crediting(check: bool, s: State, sid: nat): State
    requires MayCommit(check, s, sid)
  {
    var x := s.sessions[sid];
    var t := x.call.terms;
    var writes: map<Uuid, Units> := map[t.from := s.db.accounts[t.from].balance - t.amount];
    s.(locks := map[t.from := sid], sessions := s.sessions[sid := x.(pc := AdjustTo, tx := x.tx.(writes := writes))])
  }

  lemma NextIsCrediting(check: bool, s: State, sid: nat)
    requires MayCommit(check, s, sid)
    ensures Next(check, s, sid, s.sessions[sid].tx.drawn) == Crediting(check, s, sid)
  {
    var x := s.sessions[sid];
    var a := Next(check, s, sid, x.tx.drawn);
    assert a.sessions[sid].tx.writes == Crediting(check, s, sid).sessions[sid].tx.writes;
  }

  lemma NextIsAdjusting(check: bool, s: State, sid: nat)
    requires MayCommit(check, s, sid)
    ensures Next(check, Crediting(check, s, sid), sid, s.sessions[sid].tx.drawn) == Adjusting(check, s, sid)
  {
    var x := s.sessions[sid];
    var b := Next(check, Crediting(check, s, sid), sid, x.tx.drawn);
    assert b.sessions[sid].tx.writes == Adjusting(check, s, sid).sessions[sid].tx.writes;
    assert b.sessions == Adjusting(check, s, sid).sessions;
    assert b.locks == Adjusting(check, s, sid).locks;
  }

  lemma ReachesAdjusting(check: bool, s: State, sid: nat)
    requires MayCommit(check, s, sid)
    ensures Reaches(check, s, Adjusting(check, s, sid))
  {
    var x := s.sessions[sid];
    NextIsCrediting(check, s, sid);
    NextIsAdjusting(check, s, sid);
    StepReaches(check, s, Go(sid, x.tx.drawn));
    NextReaches(check, s, Crediting(check, s, sid), sid, x.tx.drawn);
  }

  lemma ReachesPrepared(check: bool, s: State, sid: nat)
    requires MayCommit(check, s, sid)
    ensures Reaches(check, s, Prepared(check, s, sid))
  {
    var x := s.sessions[sid];
    var f := x.tx.drawn;
    var a := Adjusting(check, s, sid);
    ReachesAdjusting(check, s, sid);
    var b := Next(check, a, sid, f);
    NextReaches(check, s, a, sid, f);
    assert [] + [CreditEntry(x.call, f)] == [CreditEntry(x.call, f)];
    assert b == GoEntry(a, sid, CreditEntry(x.call, f), EntryTo);
    assert b.sessions[sid].tx.entries == [CreditEntry(x.call, f)];
    NextReaches(check, s, b, sid, f);
    assert [CreditEntry(x.call, f)] + [DebitEntry(x.call, f)] == [CreditEntry(x.call, f), DebitEntry(x.call, f)];
    assert Next(check, b, sid, f).sessions == Prepared(check, s, sid).sessions;
  }

  lemma PreparedPasses(check: bool, s: State, sid: nat)
    requires MayCommit(check, s, sid)
    ensures DeferredChecksPass(Prepared(check, s, sid), sid)
  {
    var x := s.sessions[sid];
    PostGroups(s.db, x.call, x.tx.drawn, x.tx.drawn.txn);
    PairIsAccepted([CreditEntry(x.call, x.tx.drawn), DebitEntry(x.call, x.tx.drawn)]);
  }

  lemma ReachesCommitted(check: bool, s: State, sid: nat)
    requires MayCommit(check, s, sid)
    ensures Reaches(check, s, Committed(check, s, sid))
  {
    var x := s.sessions[sid];
    var p := Prepared(check, s, sid);
    ReachesPrepared(check, s, sid);
    NextReaches(check, s, p, sid, x.tx.drawn);
    NextIsCommitted(check, s, sid);
  }

  lemma NextIsCommitted(check: bool, s: State, sid: nat)
    requires MayCommit(check, s, sid)
    ensures Next(check, Prepared(check, s, sid), sid, s.sessions[sid].tx.drawn) == Committed(check, s, sid)
  {
    var x := s.sessions[sid];
    var p := Prepared(check, s, sid);
    PreparedPasses(check, s, sid);
    var s' := Next(check, p, sid, x.tx.drawn);
    assert Written(s.db.accounts, p.sessions[sid].tx.writes) == Moved(s.db.accounts, x.call.terms);
    assert s'.sessions == Committed(check, s, sid).sessions;
    assert s'.locks == map[];
  }

  // ----- the race -----

  const BANK: Uuid := 0
  const SAVER: Uuid := 1

  function Opening(allowsNegative: bool): AccountRow {
    AccountRow(AccountTerms("", "USD", allowsNegative, 0), 0)
  }

  function Ask(key: string, from: Uuid, to: Uuid): Call {
    Call(key, Terms(from, to, 5, "USD", []), [])
  }

  const DEPOSIT: Call := Ask("deposit", BANK, SAVER)
  const ONE: Call := Ask("one", SAVER, BANK)
  const TWO: Call := Ask("two", SAVER, BANK)

  /** The other way round. */
  const BACK: Call := Ask("back", BANK, SAVER)

  function Draw(n: nat): Fresh
    requires n < 3
  {
    Fresh(3 * n, 3 * n + 1, 3 * n + 2, n, 0)
  }

  /** One deposit, one withdrawal, and a third call. */
  function Arrived(third: Call): State {
    INIT.(db := Db(map[BANK := Opening(true), SAVER := Opening(false)], [], []),
          sessions := [Session(DEPOSIT, 2, 0, Lookup, NO_TX), Session(ONE, 2, 0, Lookup, NO_TX),
                       Session(third, 2, 0, Lookup, NO_TX)],
          history := [Opened(BANK, Opening(true)), Opened(SAVER, Opening(false))])
  }

  lemma ArrivedIsReached(check: bool, third: Call)
    ensures Reaches(check, INIT, Arrived(third))
  {
    var a := Do(Bare(check), INIT, OpenAccount(BANK, Opening(true)));
    StepReaches(check, INIT, OpenAccount(BANK, Opening(true)));
    var b := Do(Bare(check), a, OpenAccount(SAVER, Opening(false)));
    StepReaches(check, a, OpenAccount(SAVER, Opening(false)));
    ReachesTransitive(check, INIT, a, b);
    assert b.db.accounts == Arrived(third).db.accounts;
    var c := Do(Bare(check), b, Arrive(DEPOSIT));
    StepReaches(check, b, Arrive(DEPOSIT));
    ReachesTransitive(check, INIT, b, c);
    var d := Do(Bare(check), c, Arrive(ONE));
    StepReaches(check, c, Arrive(ONE));
    ReachesTransitive(check, INIT, c, d);
    StepReaches(check, d, Arrive(third));
    ReachesTransitive(check, INIT, d, Do(Bare(check), d, Arrive(third)));
    assert Do(Bare(check), d, Arrive(third)) == Arrived(third);
  }

  /** The deposit is in. */
  lemma Funded(check: bool, third: Call) returns (s: State)
    ensures Reaches(check, INIT, s)
    ensures s.db.accounts == map[BANK := Opening(true).(balance := -5), SAVER := Opening(false).(balance := 5)]
    ensures s.db.txns == [NewRow(DEPOSIT, Draw(0))]
    ensures s.db.entries == [CreditEntry(DEPOSIT, Draw(0)), DebitEntry(DEPOSIT, Draw(0))]
    ensures s.conns == {} && s.claims == map[] && s.locks == map[] && s.issued.Keys == {0, 1, 2} && s.nextXid == 1
    ensures |s.sessions| == 3
    ensures s.sessions[1].call == ONE && s.sessions[1].pc == Lookup
    ensures s.sessions[2].call == third && s.sessions[2].pc == Lookup
  {
    ArrivedIsReached(check, third);
    var a := Arrived(third);
    ReachesChecking(check, a, 0, Draw(0));
    var c := Checking(a, 0, Draw(0));
    ReachesCommitted(check, c, 0);
    s := Committed(check, c, 0);
    ReachesTransitive(check, a, c, s);
    ReachesTransitive(check, INIT, a, s);
  }

  /** The withdrawal has read both balances, and found its own sufficient. */
  lemma OneChecked(check: bool, third: Call) returns (s: State)
    ensures Reaches(check, INIT, s)
    ensures s.db.accounts == map[BANK := Opening(true).(balance := -5), SAVER := Opening(false).(balance := 5)]
    ensures s.db.txns == [NewRow(DEPOSIT, Draw(0))]
    ensures s.db.entries == [CreditEntry(DEPOSIT, Draw(0)), DebitEntry(DEPOSIT, Draw(0))]
    ensures s.conns == {1} && s.claims == map[ONE.key := 1] && s.locks == map[]
    ensures s.issued.Keys == {0, 1, 2, 3, 4, 5} && s.nextXid == 2 && |s.sessions| == 3
    ensures s.sessions[2].call == third && s.sessions[2].pc == Lookup
    ensures var x := s.sessions[1];
      x.pc == AdjustFrom && x.call == ONE && x.tx.drawn == Draw(1) && x.tx.writes == map[] && x.tx.entries == []
  {
    var a := Funded(check, third);
    ReachesChecking(check, a, 1, Draw(1));
    s := Checking(a, 1, Draw(1));
    ReachesTransitive(check, INIT, a, s);
  }

  /** Both later calls have read the same balances, and found them sufficient. */
  lemma Racing(check: bool, third: Call) returns (s: State)
    requires third == TWO || third == BACK
    ensures Reaches(check, INIT, s)
    ensures s.db.accounts == map[BANK := Opening(true).(balance := -5), SAVER := Opening(false).(balance := 5)]
    ensures s.db.txns == [NewRow(DEPOSIT, Draw(0))]
    ensures s.db.entries == [CreditEntry(DEPOSIT, Draw(0)), DebitEntry(DEPOSIT, Draw(0))]
    ensures s.locks == map[] && |s.sessions| == 3
    ensures forall i | 1 <= i <= 2 :: var x := s.sessions[i];
      && x.pc == AdjustFrom && x.call == (if i == 1 then ONE else third)
      && x.tx.drawn == Draw(i) && x.tx.writes == map[] && x.tx.entries == []
  {
    var a := OneChecked(check, third);
    ReachesChecking(check, a, 2, Draw(2));
    s := Checking(a, 2, Draw(2));
    ReachesTransitive(check, INIT, a, s);
  }

  lemma BothCommit()
    ensures exists s :: Reaches(false, INIT, s) && !NoOverdraft(s.db.accounts)
  {
    var a := Racing(false, TWO);
    ReachesCommitted(false, a, 1);
    var b := Committed(false, a, 1);
    ReachesTransitive(false, INIT, a, b);
    assert b.db.accounts[SAVER] == Opening(false);
    ReachesCommitted(false, b, 2);
    var c := Committed(false, b, 2);
    ReachesTransitive(false, INIT, b, c);
    assert c.db.accounts[SAVER].balance == -5;
  }

  /** Overdraft is excluded, for every number of connections and every schedule, exactly when
      one of the defences is in place: neither can be dropped once the other is gone. */
  lemma OverdraftExactlyWhenUndefended(check: bool, forUpdate: bool)
    ensures (forall pool, schedule :: NoOverdraft(After(Config(check, forUpdate, pool), INIT, schedule).db.accounts))
       <==> check || forUpdate
  {
    if check || forUpdate {
      forall pool, schedule ensures NoOverdraft(After(Config(check, forUpdate, pool), INIT, schedule).db.accounts) {
        EitherDefencePreventsOverdraft(Config(check, forUpdate, pool), schedule);
      }
    } else {
      BothCommit();
      var s :| Reaches(false, INIT, s) && !NoOverdraft(s.db.accounts);
      var schedule :| After(Bare(false), INIT, schedule) == s;
      assert !NoOverdraft(After(Config(check, forUpdate, 2), INIT, schedule).db.accounts);
    }
  }

  // ----- the deadlock -----

  /** Each call on the path waits for the next, and the last is the first again. */
  ghost predicate ClosedWait(cfg: Config, s: State, path: seq<nat>) {
    && |path| >= 2 && path[0] == path[|path| - 1]
    && forall i | 0 <= i < |path| - 1 :: WaitsFor(cfg, s, path[i], path[i + 1])
  }

  /** The withdrawal has updated its sender, and wants the bank's row next. */
  lemma OneUpdated(check: bool) returns (s: State)
    ensures Reaches(check, INIT, s) && s.locks == map[SAVER := 1] && |s.sessions| == 3
    ensures s.db.accounts == map[BANK := Opening(true).(balance := -5), SAVER := Opening(false).(balance := 5)]
    ensures s.sessions[1].call == ONE && s.sessions[1].pc == AdjustTo
    ensures s.sessions[2].call == BACK && s.sessions[2].pc == AdjustFrom && s.sessions[2].tx.writes == map[]
  {
    var a := Racing(check, BACK);
    NextIsCrediting(check, a, 1);
    s := Crediting(check, a, 1);
    NextReaches(check, INIT, a, 1, a.sessions[1].tx.drawn);
  }

  /** Opposite transfers each update their sender, and then wait for the other's. */
  lemma OppositeTransfersDeadlock(check: bool)
    ensures exists s :: Reaches(check, INIT, s) && ClosedWait(Bare(check), s, [1, 2, 1])
  {
    var a := OneUpdated(check);
    var b := Next(check, a, 2, Draw(2));
    NextReaches(check, INIT, a, 2, Draw(2));
    assert b.locks == map[SAVER := 1, BANK := 2] && b.sessions[1] == a.sessions[1] && b.sessions[2].pc.AdjustTo?;
    assert WaitsFor(Bare(check), b, 1, 2) && WaitsFor(Bare(check), b, 2, 1);
    assert ClosedWait(Bare(check), b, [1, 2, 1]);
  }

  ghost predicate DeadlockFree(cfg: Config) {
    forall schedule, path :: !ClosedWait(cfg, After(cfg, INIT, schedule), path)
  }

  /** With or without the CHECK, no chain of waits of any length ever closes, whatever the
      pool and the schedule, exactly when the row locks are taken. */
  lemma DeadlockExactlyWithoutRowLocks(check: bool, forUpdate: bool)
    ensures (forall pool :: DeadlockFree(Config(check, forUpdate, pool))) <==> forUpdate
  {
    if forUpdate {
      forall pool, schedule, path
        ensures !ClosedWait(Config(check, forUpdate, pool), After(Config(check, forUpdate, pool), INIT, schedule), path)
      {
        RowLocksPreventDeadlock(Config(check, forUpdate, pool), schedule, path);
      }
    } else {
      OppositeTransfersDeadlock(check);
      var s :| Reaches(check, INIT, s) && ClosedWait(Bare(check), s, [1, 2, 1]);
      var schedule :| After(Bare(check), INIT, schedule) == s;
      assert ClosedWait(Bare(check), After(Bare(check), INIT, schedule), [1, 2, 1]);
      assert !DeadlockFree(Config(check, forUpdate, 2));
    }
  }

  lemma RowLocksPreventDeadlock(cfg: Config, schedule: seq<Label>, path: seq<nat>)
    requires cfg.forUpdate
    ensures !ClosedWait(cfg, After(cfg, INIT, schedule), path)
  {
    EveryScheduleKeepsInv(cfg, schedule);
    if ClosedWait(cfg, After(cfg, INIT, schedule), path) {
      WaitsNeverFormACycle(cfg, After(cfg, INIT, schedule), path);
    }
  }
}
