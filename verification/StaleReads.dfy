/** Linearizability when the account reads take no row locks. A refusal for lack of funds may
    then be out of date when it is given, but it was right when the sender's row was read. */
module StaleReads {
  import opened LedgerTypes
  import opened Schema
  import opened SequentialLedger
  import opened Conservation
  import opened Protocol
  import opened ProtocolInvariant
  import opened ProtocolCommit
  import opened ProtocolMoves
  import opened Guarantees

  /** At the point `at` of the history the sender's row was what the transaction has read of it. */
  ghost predicate ReadAt(h: seq<Event>, x: Session, at: nat) {
    && x.since <= at <= |h| && x.call.terms.from in x.tx.read
    && var t := x.call.terms; var accounts := Replay(h[..at]).accounts;
    && t.from in accounts && accounts[t.from] == x.tx.read[t.from]
    && (t.to < t.from ==> t.to in accounts)
  }

  /** A valid request whose sender is read before its receiver. */
  predicate SenderFirst(call: Call) {
    call.terms.from < call.terms.to && call.terms.amount > 0
  }

  /** If the sender is the first to be read, the receiver exists when the call arrives. */
  ghost predicate ReceiverSettled(h: seq<Event>, x: Session) {
    && x.since <= |h|
    && (SenderFirst(x.call) ==> x.call.terms.to in Replay(h[..x.since]).accounts)
  }

  /** The answer is the one the sequential ledger gives at the point `at`, between the arrival of
      the call and the end of the history. For a schedule that ends with the call's return, as
      any schedule can be cut to, that is a point inside the call. */
  ghost predicate RightAt(h: seq<Event>, x: Session, at: nat, f: Fresh) {
    x.pc.Done? && x.since <= at <= |h| && x.pc.reply.answer == Decide(Replay(h[..at]), x.call, f)
  }

  ghost predicate Explained(h: seq<Event>, x: Session) {
    exists at: nat, f: Fresh :: RightAt(h, x, at, f)
  }

  ghost predicate ReadsExplained(h: seq<Event>, x: Session) {
    && x.since <= |h|
    && (x.call.terms.from in x.tx.read ==> exists at: nat :: ReadAt(h, x, at))
    && (StaleRefusal(x) ==>
          && x.call.terms.from != x.call.terms.to && x.call.terms.amount > 0
          && FindByKey(Replay(h[..x.since]).txns, x.call.key).None?
          && (ReceiverSettled(h, x) ==> Explained(h, x)))
  }

  ghost predicate SessionExplained(s: State, sid: nat) {
    sid < |s.sessions| && ReadsExplained(s.history, s.sessions[sid])
  }

  ghost predicate AllReadsExplained(s: State) {
    forall o | 0 <= o < |s.sessions| :: SessionExplained(s, o)
  }

  // ----- histories only grow -----

  lemma PrefixOfPrefix(h: seq<Event>, h': seq<Event>, at: nat)
    requires h <= h' && at <= |h|
    ensures h'[..at] == h[..at]
  {
  }

  lemma ExplanationStays(h: seq<Event>, h': seq<Event>, x: Session)
    requires h <= h' && ReadsExplained(h, x)
    ensures ReadsExplained(h', x)
  {
    if x.call.terms.from in x.tx.read {
      var at: nat :| ReadAt(h, x, at);
      PrefixOfPrefix(h, h', at);
      assert ReadAt(h', x, at);
    }
    PrefixOfPrefix(h, h', x.since);
    if StaleRefusal(x) && ReceiverSettled(h', x) {
      var at: nat, f: Fresh :| RightAt(h, x, at, f);
      PrefixOfPrefix(h, h', at);
      assert RightAt(h', x, at, f);
    }
  }

  lemma {:induction false} KeyWasFree(h: seq<Event>, at: nat, key: string)
    requires Legal(h) && at <= |h| && FindByKey(Replay(h).txns, key).None?
    ensures FindByKey(Replay(h[..at]).txns, key).None?
    decreases |h|
  {
    if at == |h| {
      assert h[..at] == h;
    } else {
      var m := |h| - 1;
      if FindByKey(Replay(h[..m]).txns, key).Some? {
        ApplyKeepsKey(Replay(h[..m]), h[m], key);
      }
      assert h[..m][..at] == h[..at];
      KeyWasFree(h[..m], at, key);
    }
  }

  // ----- the read, and the refusal that rests on it -----

  /** An account read acts on the committed row of this moment. */
  lemma RowReadIsExplained(cfg: Config, s: State, sid: nat, id: Uuid, next: Pc)
    requires Inv(cfg, s) && sid < |s.sessions| && ReadsExplained(s.history, s.sessions[sid])
    requires || (s.sessions[sid].pc.Lock1? && id == FirstLock(s.sessions[sid].call.terms) && next == Lock2)
             || (s.sessions[sid].pc.Lock2? && id == SecondLock(s.sessions[sid].call.terms) && next == Check)
    ensures var s' := GoLock(cfg, s, sid, id, next); ReadsExplained(s'.history, s'.sessions[sid])
  {
    var x := s.sessions[sid];
    var x' := GoLock(cfg, s, sid, id, next).sessions[sid];
    Now(cfg, s, sid);
    if id in s.db.accounts {
      if id == x.call.terms.from {
        assert s.history[..|s.history|] == s.history;
        assert ReadAt(s.history, x', |s.history|);
      } else if x.call.terms.from in x.tx.read {
        var at: nat :| ReadAt(s.history, x, at);
        assert ReadAt(s.history, x', at);
      }
    }
  }

  /** What a session at its funds check may rely on. */
  lemma AtCheck(cfg: Config, s: State, sid: nat)
    requires Inv(cfg, s) && sid < |s.sessions| && s.sessions[sid].pc.Check?
    ensures var x := s.sessions[sid]; var t := x.call.terms; var accounts := s.db.accounts;
      && t.from != t.to && t.amount > 0 && FindByKey(s.db.txns, x.call.key).None?
      && t.from in x.tx.read && t.from in accounts && accounts[t.from].terms == x.tx.read[t.from].terms
      && t.to in x.tx.read && t.to in accounts && accounts[t.to].terms == x.tx.read[t.to].terms
  {
    Now(cfg, s, sid);
  }

  lemma ReceiverIsKept(h: seq<Event>, x: Session, at: nat)
    requires Legal(h) && ReceiverSettled(h, x) && ReadAt(h, x, at)
    requires x.call.terms.from != x.call.terms.to && x.call.terms.amount > 0
    ensures x.call.terms.to in Replay(h[..at]).accounts
  {
    if SenderFirst(x.call) {
      assert h[..at][..x.since] == h[..x.since];
      LegalPrefix(h, at);
      AccountsAreKept(h[..at], x.since, x.call.terms.to);
    }
  }

  /** The row that was read calls for the refusal where it was read. */
  lemma ReadCallsForRefusal(cfg: Config, s: State, sid: nat, at: nat, f: Fresh)
    requires Inv(cfg, s) && sid < |s.sessions| && s.sessions[sid].pc.Check?
    requires ReadAt(s.history, s.sessions[sid], at) && ReceiverSettled(s.history, s.sessions[sid])
    requires var x := s.sessions[sid]; var t := x.call.terms;
      && t.from in x.tx.read && t.to in x.tx.read
      && x.tx.read[t.from].terms.currency == t.currency && x.tx.read[t.to].terms.currency == t.currency
      && !x.tx.read[t.from].terms.allowsNegative && x.tx.read[t.from].balance < t.amount
    ensures var x := s.sessions[sid];
      Decide(Replay(s.history[..at]), x.call, f) == InsufficientFunds(x.call.terms.from)
  {
    var x := s.sessions[sid];
    var t := x.call.terms;
    AtCheck(cfg, s, sid);
    ReceiverIsKept(s.history, x, at);
    KeyWasFree(s.history, at, x.call.key);
    AccountsAreKept(s.history, at, t.to);
  }

  lemma CheckIsExplained(cfg: Config, s: State, sid: nat)
    requires Inv(cfg, s) && sid < |s.sessions| && s.sessions[sid].pc.Check?
    requires ReadsExplained(s.history, s.sessions[sid]) && StaleRefusal(GoCheck(cfg, s, sid).sessions[sid])
    ensures var s' := GoCheck(cfg, s, sid); ReadsExplained(s'.history, s'.sessions[sid])
  {
    var x, h := s.sessions[sid], s.history;
    var s' := GoCheck(cfg, s, sid);
    var x' := s'.sessions[sid];
    AtCheck(cfg, s, sid);
    KeyWasFree(h, x.since, x.call.key);
    assert s' == GiveUp(s, sid, InsufficientFunds(x.call.terms.from));
    if ReceiverSettled(h, x') {
      var at: nat :| ReadAt(h, x, at);
      ReadCallsForRefusal(cfg, s, sid, at, NO_DRAW);
      assert RightAt(h, x', at, NO_DRAW);
    }
  }

  // ----- every step, every schedule -----

  /** A step that neither reads a row nor refuses for lack of funds has nothing to explain. */
  lemma QuietMoveIsExplained(s: State, s': State, sid: nat)
    requires sid < |s.sessions| && Moves(s, s', sid) && ReadsExplained(s.history, s.sessions[sid])
    requires !StaleRefusal(s'.sessions[sid]) && s'.sessions[sid].tx.read in {s.sessions[sid].tx.read, map[]}
    ensures ReadsExplained(s'.history, s'.sessions[sid])
  {
    var x, x' := s.sessions[sid], s'.sessions[sid];
    ExplanationStays(s.history, s'.history, x);
    if x'.call.terms.from in x'.tx.read {
      assert x'.tx.read == x.tx.read;
      var at: nat :| ReadAt(s'.history, x, at);
      assert ReadAt(s'.history, x', at);
    }
  }

  lemma ReaderIsExplained(cfg: Config, s: State, sid: nat, f: Fresh)
    requires Inv(cfg, s) && SessionExplained(s, sid) && ReadsRow(s.sessions[sid].pc)
    ensures SessionExplained(Advance(cfg, s, sid, f), sid)
  {
    var t := s.sessions[sid].call.terms;
    if s.sessions[sid].pc.Lock1? {
      RowReadIsExplained(cfg, s, sid, FirstLock(t), Lock2);
    } else {
      RowReadIsExplained(cfg, s, sid, SecondLock(t), Check);
    }
  }

  lemma FailureForgetsReads(cfg: Config, s: State, l: Label)
    requires Enabled(cfg, s, l) && (l.Fail? || l.LoseCommit?)
    ensures var s' := Do(cfg, s, l); l.sid < |s'.sessions| && s'.sessions[l.sid].tx == NO_TX
  {
  }

  lemma MoverIsExplained(cfg: Config, s: State, l: Label)
    requires Inv(cfg, s) && IsSessionLabel(l) && Enabled(cfg, s, l) && SessionExplained(s, l.sid)
    ensures SessionExplained(Do(cfg, s, l), l.sid)
  {
    var s' := Do(cfg, s, l);
    SessionStepMoves(cfg, s, l);
    if l.Go? && ReadsRow(s.sessions[l.sid].pc) {
      ReaderIsExplained(cfg, s, l.sid, l.drawn);
    } else if StaleRefusal(s'.sessions[l.sid]) {
      CheckIsExplained(cfg, s, l.sid);
    } else {
      if !l.Go? {
        FailureForgetsReads(cfg, s, l);
      }
      QuietMoveIsExplained(s, s', l.sid);
    }
  }

  lemma StepIsExplained(cfg: Config, s: State, l: Label)
    requires Inv(cfg, s) && AllReadsExplained(s)
    ensures AllReadsExplained(Do(cfg, s, l))
  {
    var s' := Do(cfg, s, l);
    if Enabled(cfg, s, l) {
      if IsSessionLabel(l) {
        SessionStepMoves(cfg, s, l);
        MoverIsExplained(cfg, s, l);
      }
      forall o | 0 <= o < |s'.sessions| ensures SessionExplained(s', o) {
        assert o < |s.sessions| ==> SessionExplained(s, o);
        if o < |s.sessions| && !(IsSessionLabel(l) && o == l.sid) {
          ExplanationStays(s.history, s'.history, s.sessions[o]);
        }
      }
    }
  }

  lemma {:induction false} ScheduleIsExplained(cfg: Config, s: State, schedule: seq<Label>)
    requires Inv(cfg, s) && Defended(cfg) && AllReadsExplained(s)
    ensures AllReadsExplained(After(cfg, s, schedule))
    decreases |schedule|
  {
    if schedule != [] {
      StepKeepsInv(cfg, s, schedule[0]);
      StepIsExplained(cfg, s, schedule[0]);
      ScheduleIsExplained(cfg, Do(cfg, s, schedule[0]), schedule[1..]);
    }
  }

  /** The answer was given by the protocol, not by a failure outside it. */
  ghost predicate Answered(s: State, sid: nat) {
    sid < |s.sessions| && s.sessions[sid].pc.Done? && !s.sessions[sid].pc.reply.answer.DatabaseError?
  }

  /** Row locks or not, as long as one defence is in place: every answer is the sequential
      ledger's at a point inside the call, if the rows are locked, or the receiver exists when
      the call arrives, or the sender is not the first of the two to be read. */
  lemma EveryAnswerIsExplained(cfg: Config, schedule: seq<Label>, sid: nat)
    requires Defended(cfg) && Answered(After(cfg, INIT, schedule), sid)
    requires var s := After(cfg, INIT, schedule); cfg.forUpdate || ReceiverSettled(s.history, s.sessions[sid])
    ensures var s := After(cfg, INIT, schedule);
      Legal(s.history) && Replay(s.history) == s.db && Explained(s.history, s.sessions[sid])
  {
    var s := After(cfg, INIT, schedule);
    var x := s.sessions[sid];
    EveryScheduleKeepsInv(cfg, schedule);
    ScheduleIsExplained(cfg, INIT, schedule);
    ReplyOf(cfg, s, sid);
    if x.pc.reply.at.Some? {
      var at := x.pc.reply.at.value;
      LegalAt(s.history, at);
      assert RightAt(s.history, x, at, s.history[at].drawn);
    } else {
      assert SessionExplained(s, sid);
    }
  }

  /** The points respect real time without row locks, too: a call that returned before another
      arrived has a point no later than any point of the other. */
  lemma ExplanationsRespectRealTime(cfg: Config, before: seq<Label>, after: seq<Label>, a: nat, b: nat)
    requires Defended(cfg)
    requires var s := After(cfg, INIT, before); var s' := After(cfg, INIT, before + after);
      && Answered(s, a) && (cfg.forUpdate || ReceiverSettled(s.history, s.sessions[a]))
      && |s.sessions| <= b < |s'.sessions|
    ensures var s' := After(cfg, INIT, before + after);
      && a < |s'.sessions|
      && exists i: nat, f: Fresh ::
           && RightAt(s'.history, s'.sessions[a], i, f)
           && forall j: nat, g: Fresh :: RightAt(s'.history, s'.sessions[b], j, g) ==> i <= j
  {
    var s, s' := After(cfg, INIT, before), After(cfg, INIT, before + after);
    AfterConcat(cfg, INIT, before, after);
    ScheduleGrows(cfg, s, after);
    EveryAnswerIsExplained(cfg, before, a);
    var i: nat, f: Fresh :| RightAt(s.history, s.sessions[a], i, f);
    PrefixOfPrefix(s.history, s'.history, i);
    assert RightAt(s'.history, s'.sessions[a], i, f);
  }
}
