/** What callers and auditors may rely on, for every schedule of every set of calls. */
module Guarantees {
  import opened LedgerTypes
  import opened Schema
  import opened OrderedRead
  import opened SequentialLedger
  import opened Conservation
  import opened Sweep
  import opened Protocol
  import opened ProtocolInvariant
  import opened ProtocolCommit
  import opened ProtocolMoves

  /** The session has returned; `answer` is what it returned. */
  predicate Returned(s: State, sid: nat, answer: Answer) {
    sid < |s.sessions| && s.sessions[sid].pc.Done? && s.sessions[sid].pc.reply.answer == answer
  }

  predicate Succeeded(s: State, sid: nat) {
    && sid < |s.sessions| && s.sessions[sid].pc.Done?
    && (s.sessions[sid].pc.reply.answer.Created? || s.sessions[sid].pc.reply.answer.Replayed?)
  }

  lemma ReplyOf(cfg: Config, s: State, sid: nat)
    requires Inv(cfg, s) && sid < |s.sessions| && s.sessions[sid].pc.Done?
    ensures ReplyHolds(cfg, s.db, s.history, sid, s.sessions[sid], s.sessions[sid].pc.reply)
  {
    Now(cfg, s, sid);
  }

  // ----- linearizability -----

  /** The committed tables are the sequential ledger's after the history, and every answer
      other than a database error is the sequential ledger's at a point inside the call. */
  lemma Linearizable(cfg: Config, schedule: seq<Label>, sid: nat, answer: Answer)
    requires cfg.forUpdate
    requires Returned(After(cfg, INIT, schedule), sid, answer) && !answer.DatabaseError?
    ensures var s := After(cfg, INIT, schedule);
      && Legal(s.history) && Replay(s.history) == s.db
      && exists at: nat ::
           && s.sessions[sid].since <= at < |s.history|
           && s.history[at].Request? && s.history[at].session == sid && s.history[at].call == s.sessions[sid].call
           && answer == Decide(Replay(s.history[..at]), s.sessions[sid].call, s.history[at].drawn)
  {
    var s := After(cfg, INIT, schedule);
    EveryScheduleKeepsInv(cfg, schedule);
    ReplyOf(cfg, s, sid);
    var at := s.sessions[sid].pc.reply.at.value;
    LegalAt(s.history, at);
  }

  /** Steps only append to the history, never touch a call that has returned, and stamp
      new calls with the history they found. */
  ghost predicate Grows(s: State, s': State) {
    && s.history <= s'.history
    && |s.sessions| <= |s'.sessions|
    && (forall o | 0 <= o < |s.sessions| :: s'.sessions[o].call == s.sessions[o].call)
    && (forall o | 0 <= o < |s.sessions| :: s'.sessions[o].since == s.sessions[o].since)
    && (forall o | 0 <= o < |s.sessions| && s.sessions[o].pc.Done? :: s'.sessions[o] == s.sessions[o])
    && (forall o | |s.sessions| <= o < |s'.sessions| :: s'.sessions[o].since >= |s.history|)
  }

  lemma StepGrows(cfg: Config, s: State, l: Label)
    ensures Grows(s, Do(cfg, s, l))
  {
    if IsSessionLabel(l) && Enabled(cfg, s, l) {
      SessionStepMoves(cfg, s, l);
    }
  }

  lemma {:induction false} ScheduleGrows(cfg: Config, s: State, schedule: seq<Label>)
    ensures Grows(s, After(cfg, s, schedule))
    decreases |schedule|
  {
    if schedule != [] {
      StepGrows(cfg, s, schedule[0]);
      ScheduleGrows(cfg, Do(cfg, s, schedule[0]), schedule[1..]);
    }
  }

  lemma NewcomersAreLate(cfg: Config, s: State, s': State, b: nat)
    requires Inv(cfg, s') && Grows(s, s') && cfg.forUpdate
    requires |s.sessions| <= b < |s'.sessions| && s'.sessions[b].pc.Done?
    requires !s'.sessions[b].pc.reply.answer.DatabaseError?
    ensures s'.sessions[b].pc.reply.at.Some? && s'.sessions[b].pc.reply.at.value >= |s.history|
  {
    ReplyOf(cfg, s', b);
  }

  /** The points respect real time: a call that returned before another arrived is decided before it. */
  lemma RealTimeOrder(cfg: Config, before: seq<Label>, after: seq<Label>, a: nat, b: nat)
    requires cfg.forUpdate
    requires var s := After(cfg, INIT, before); var s' := After(cfg, INIT, before + after);
      && a < |s.sessions| && s.sessions[a].pc.Done? && !s.sessions[a].pc.reply.answer.DatabaseError?
      && |s.sessions| <= b < |s'.sessions| && s'.sessions[b].pc.Done? && !s'.sessions[b].pc.reply.answer.DatabaseError?
    ensures var s' := After(cfg, INIT, before + after);
      && s'.sessions[a].pc.Done? && s'.sessions[a].pc.reply.at.Some? && s'.sessions[b].pc.reply.at.Some?
      && s'.sessions[a].pc.reply.at.value < s'.sessions[b].pc.reply.at.value
  {
    var s := After(cfg, INIT, before);
    AfterConcat(cfg, INIT, before, after);
    ScheduleGrows(cfg, s, after);
    EveryScheduleKeepsInv(cfg, before);
    EveryScheduleKeepsInv(cfg, before + after);
    ReplyOf(cfg, s, a);
    NewcomersAreLate(cfg, s, After(cfg, s, after), b);
  }

  // ----- exactly once -----

  lemma CreatedKeyIsFound(db: Db, e: Event)
    requires e.Request? && e.answer.Created? && Correct(db, e)
    ensures FindByKey(Apply(db, e).txns, e.call.key).Some?
  {
    assert NewRow(e.call, e.drawn) in Apply(db, e).txns;
  }

  lemma ApplyKeepsKey(db: Db, e: Event, key: string)
    requires FindByKey(db.txns, key).Some?
    ensures FindByKey(Apply(db, e).txns, key).Some?
  {
    assert FindByKey(db.txns, key).value in Apply(db, e).txns;
  }

  /** A key that a history has already recorded is never created again. */
  lemma {:induction false} RecordedKeyStays(h: seq<Event>, i: nat)
    requires Legal(h) && i < |h| && h[i].Request? && h[i].answer.Created?
    ensures FindByKey(Replay(h).txns, h[i].call.key).Some?
    decreases |h|
  {
    var m := |h| - 1;
    if i == m {
      CreatedKeyIsFound(Replay(h[..m]), h[m]);
    } else {
      RecordedKeyStays(h[..m], i);
      ApplyKeepsKey(Replay(h[..m]), h[m], h[i].call.key);
    }
  }

  lemma CreatedOncePerKey(h: seq<Event>, i: nat, j: nat)
    requires Legal(h) && i < j < |h|
    requires h[i].Request? && h[j].Request? && h[i].call.key == h[j].call.key && h[i].answer.Created?
    ensures !h[j].answer.Created?
  {
    LegalAt(h, j);
    RecordedKeyStays(h[..j], i);
  }

  /** Same-key races, retries and lost responses included: a key has at most one transaction,
      with exactly its two entries; at most one call answers Created; and all successful
      answers for the key carry the same transaction and the same entries. */
  lemma ExactlyOnce(cfg: Config, schedule: seq<Label>, a: nat, b: nat)
    requires Defended(cfg)
    requires var s := After(cfg, INIT, schedule);
      Succeeded(s, a) && Succeeded(s, b) && s.sessions[a].call.key == s.sessions[b].call.key
    ensures var s := After(cfg, INIT, schedule);
      && UniqueKeys(s.db.txns) && TransactionsPaired(s.db)
      && s.sessions[a].pc.reply.answer.id == s.sessions[b].pc.reply.answer.id
      && s.sessions[a].pc.reply.detail.Some? && s.sessions[a].pc.reply.detail == s.sessions[b].pc.reply.detail
      && (a != b ==> !(s.sessions[a].pc.reply.answer.Created? && s.sessions[b].pc.reply.answer.Created?))
  {
    var s := After(cfg, INIT, schedule);
    EveryScheduleKeepsInv(cfg, schedule);
    LegalStatesAreConsistent(s.history);
    ReplyOf(cfg, s, a);
    ReplyOf(cfg, s, b);
    var ra, rb := s.sessions[a].pc.reply, s.sessions[b].pc.reply;
    if a != b && ra.answer.Created? && rb.answer.Created? {
      var i, j := ra.at.value, rb.at.value;
      CreatedOncePerKey(s.history, if i < j then i else j, if i < j then j else i);
    }
  }

  lemma ApplyKeepsGroup(db: Db, e: Event, row: TxnRow)
    requires Correct(db, e) && row in db.txns
    ensures row in Apply(db, e).txns
    ensures Group(Apply(db, e).entries, TxnOf, row.id) == Group(db.entries, TxnOf, row.id)
  {
    if e.Request? && Decide(db, e.call, e.drawn).Created? {
      PostGroups(db, e.call, e.drawn, row.id);
    }
  }

  lemma {:induction false} PostedRowsStay(h: seq<Event>, i: nat)
    requires Legal(h) && i < |h| && h[i].Request? && h[i].answer.Created?
    ensures NewRow(h[i].call, h[i].drawn) in Replay(h).txns && h[i].answer.id == h[i].drawn.txn
    ensures Group(Replay(h).entries, TxnOf, h[i].drawn.txn)
         == [CreditEntry(h[i].call, h[i].drawn), DebitEntry(h[i].call, h[i].drawn)]
    decreases |h|
  {
    var m := |h| - 1;
    if i == m {
      PostGroups(Replay(h[..m]), h[m].call, h[m].drawn, h[m].drawn.txn);
    } else {
      PostedRowsStay(h[..m], i);
      ApplyKeepsGroup(Replay(h[..m]), h[m], NewRow(h[i].call, h[i].drawn));
    }
  }

  /** What a request posted reads back, from then on, as what the request asked for. */
  lemma PostedStays(h: seq<Event>, i: nat)
    requires Legal(h) && i < |h| && h[i].Request? && h[i].answer.Created?
    ensures var d := DetailOf(Replay(h), h[i].answer.id);
      d.Some? && ShowsPosting(d.value, h[i].call, h[i].drawn)
  {
    PostedRowsStay(h, i);
    LegalStatesAreConsistent(h);
    StoredPostingReadsBack(Replay(h), h[i].call, h[i].drawn);
  }

  /** A call that was answered Created has moved what it asked for, and got it back: its key,
      digest and description, and the credit of its sender and the debit of its receiver with
      the amount and currency asked for, all under the ids and the time drawn for it. */
  lemma CreatedMeansPosted(cfg: Config, schedule: seq<Label>, sid: nat)
    requires Defended(cfg)
    requires Succeeded(After(cfg, INIT, schedule), sid)
    requires After(cfg, INIT, schedule).sessions[sid].pc.reply.answer.Created?
    ensures var s := After(cfg, INIT, schedule); var x := s.sessions[sid]; var r := x.pc.reply;
      && r.detail.Some? && r.detail == DetailOf(s.db, r.answer.id) && r.detail.value.txn.id == r.answer.id
      && FindByKey(s.db.txns, x.call.key) == Some(r.detail.value.txn)
      && multiset(Group(s.db.entries, TxnOf, r.answer.id)) == multiset(r.detail.value.entries)
      && r.at.Some? && r.at.value < |s.history| && s.history[r.at.value].Request?
      && ShowsPosting(r.detail.value, x.call, s.history[r.at.value].drawn)
  {
    var s := After(cfg, INIT, schedule);
    EveryScheduleKeepsInv(cfg, schedule);
    ReplyOf(cfg, s, sid);
    PostedStays(s.history, s.sessions[sid].pc.reply.at.value);
    OrderedIsSorted(Group(s.db.entries, TxnOf, s.sessions[sid].pc.reply.answer.id));
  }

  // ----- reads never miss -----

  /** The "key collided but no transaction was found" and "transaction not found" answers are
      never given, and what a successful call returned stays readable unchanged forever. */
  lemma ReadsNeverMiss(cfg: Config, before: seq<Label>, after: seq<Label>, sid: nat)
    requires Defended(cfg)
    requires var s := After(cfg, INIT, before); sid < |s.sessions| && s.sessions[sid].pc.Done?
    ensures var r := After(cfg, INIT, before).sessions[sid].pc.reply;
      && !r.answer.CollisionWithoutRow? && !r.answer.TransactionNotFound?
      && (r.answer.Created? || r.answer.Replayed? ==>
            r.detail.Some? && DetailOf(After(cfg, INIT, before + after).db, r.answer.id) == r.detail)
  {
    var s := After(cfg, INIT, before);
    AfterConcat(cfg, INIT, before, after);
    ScheduleGrows(cfg, s, after);
    EveryScheduleKeepsInv(cfg, before);
    EveryScheduleKeepsInv(cfg, before + after);
    ReplyOf(cfg, s, sid);
    ReplyOf(cfg, After(cfg, s, after), sid);
  }

  // ----- no overdraft, and the sweep -----

  /** Either defence alone is enough: the CHECK without row locks, or row locks without the CHECK. */
  lemma EitherDefencePreventsOverdraft(cfg: Config, schedule: seq<Label>)
    requires cfg.check || cfg.forUpdate
    ensures NoOverdraft(After(cfg, INIT, schedule).db.accounts)
  {
    EveryScheduleKeepsInv(cfg, schedule);
    LegalStatesAreConsistent(After(cfg, INIT, schedule).history);
  }

  /** In every reachable state the cache agrees with the log, and money is conserved in every
      currency, both over entries and over balances. */
  lemma MoneyIsConserved(cfg: Config, schedule: seq<Label>, c: Currency)
    requires Defended(cfg)
    ensures var db := After(cfg, INIT, schedule).db;
      && CacheAgrees(db)
      && SignedSum(Group(db.entries, CurrencyOf, c)) == 0
      && SumOver(AccountsIn(db.accounts, c), BalanceIn(db.accounts)) == 0
  {
    var s := After(cfg, INIT, schedule);
    EveryScheduleKeepsInv(cfg, schedule);
    LegalStatesAreConsistent(s.history);
    EntriesNetToZero(s.db, c);
    BalancesSumToZero(s.db, c);
  }

  /** The tables at seven moments, one for each query of the sweep. */
  ghost function SeenAt(cfg: Config, moments: Name -> seq<Label>): Name -> Db {
    n => After(cfg, INIT, moments(n)).db
  }

  /** Whatever has run by the time each of its queries takes its snapshot, the sweep runs
      through and reports no problem. */
  lemma AuditIsClean(cfg: Config, moments: Name -> seq<Label>)
    requires Defended(cfg)
    ensures LedgerCheckInvariants(SeenAt(cfg, moments)).Some?
    ensures forall r | r in LedgerCheckInvariants(SeenAt(cfg, moments)).value :: r.ok
  {
    forall n ensures Consistent(SeenAt(cfg, moments)(n)) {
      EveryScheduleKeepsInv(cfg, moments(n));
      LegalStatesAreConsistent(After(cfg, INIT, moments(n)).history);
    }
    SweepIsGreen(SeenAt(cfg, moments));
  }

  /** While no funding account exists in a currency, its balances are all zero and no call
      in it has been answered Created. */
  lemma NoMoneyWithoutFunding(cfg: Config, schedule: seq<Label>, c: Currency, sid: nat)
    requires Defended(cfg) && NoFunding(After(cfg, INIT, schedule).db.accounts, c)
    ensures var s := After(cfg, INIT, schedule);
      && (forall a | a in AccountsIn(s.db.accounts, c) :: s.db.accounts[a].balance == 0)
      && (Succeeded(s, sid) && s.sessions[sid].call.terms.currency == c ==>
            !s.sessions[sid].pc.reply.answer.Created?)
  {
    var s := After(cfg, INIT, schedule);
    EveryScheduleKeepsInv(cfg, schedule);
    LegalStatesAreConsistent(s.history);
    WithoutFundingAllZero(s.db, c);
    if Succeeded(s, sid) && s.sessions[sid].call.terms.currency == c && s.sessions[sid].pc.reply.answer.Created? {
      Now(cfg, s, sid);
      NoFundingNoTransferEver(s.history, c, s.sessions[sid].pc.reply.at.value);
    }
  }

  // ----- a rejected attempt leaves no trace -----

  /** A session's step leaves the committed tables alone, unless it is a commit, which
      changes them as the sequential ledger would. */
  lemma OnlyCommitWrites(cfg: Config, s: State, l: Label)
    requires Inv(cfg, s) && Defended(cfg) && IsSessionLabel(l) && Enabled(cfg, s, l)
    ensures Do(cfg, s, l).db != s.db ==>
      && s.sessions[l.sid].pc.Commit?
      && Decide(s.db, s.sessions[l.sid].call, s.sessions[l.sid].tx.drawn).Created?
      && Do(cfg, s, l).db == Post(s.db, s.sessions[l.sid].call, s.sessions[l.sid].tx.drawn)
  {
    if s.sessions[l.sid].pc.Commit? {
      CommitIsPost(cfg, s, l.sid);
      CommitPublishesOrNothing(cfg, s, l);
    } else {
      SessionStepMoves(cfg, s, l);
    }
  }

  lemma CommitPublishesOrNothing(cfg: Config, s: State, l: Label)
    requires IsSessionLabel(l) && Enabled(cfg, s, l) && s.sessions[l.sid].pc.Commit?
    ensures Do(cfg, s, l).db in {s.db, Publish(s, l.sid).db}
  {
  }

  /** Whenever the database transaction of a call is over, however it ended, the call holds
      no connection, no key and no row lock, and nothing of its write set is left. */
  lemma NothingIsLeaked(cfg: Config, schedule: seq<Label>, sid: nat)
    requires Defended(cfg)
    requires var s := After(cfg, INIT, schedule); sid < |s.sessions| && !InTx(s.sessions[sid].pc)
    ensures var s := After(cfg, INIT, schedule);
      && sid !in s.conns && OwnedBy(s.claims, sid) == {} && OwnedBy(s.locks, sid) == {}
      && s.sessions[sid].tx == NO_TX
  {
    EveryScheduleKeepsInv(cfg, schedule);
    Now(cfg, After(cfg, INIT, schedule), sid);
  }

  /** The events that changed the tables. */
  function Effects(h: seq<Event>): seq<Event> {
    if h == [] then []
    else
      var e := h[|h| - 1];
      Effects(h[..|h| - 1]) + (if e.Opened? || e.answer.Created? then [e] else [])
  }

  /** Dropping every rejected attempt from a history changes nothing: the rest is still a
      legal history, with the same answers, and it ends in the same tables. */
  lemma {:induction false} RejectionsNeverHappened(h: seq<Event>)
    requires Legal(h)
    ensures Legal(Effects(h)) && Replay(Effects(h)) == Replay(h)
  {
    if h != [] {
      var m := |h| - 1;
      RejectionsNeverHappened(h[..m]);
      if h[m].Opened? || h[m].answer.Created? {
        LegalSnoc(Effects(h[..m]), h[m]);
      } else {
        assert Effects(h[..m]) + [] == Effects(h[..m]);
      }
    }
  }
}
