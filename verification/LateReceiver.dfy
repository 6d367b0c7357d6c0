/** The one way in which an answer without row locks has no point to stand on: the sender is
    read, then it is paid, then the receiver's account is opened, and only then it is read. */
module LateReceiver {
  import opened LedgerTypes
  import opened SequentialLedger
  import opened Conservation
  import opened Protocol
  import opened ProtocolInvariant
  import opened ProtocolCommit
  import opened StaleReads
  import opened Undefended

  // ----- the run -----

  function NewAccount(call: Call, allowsNegative: bool): AccountRow {
    AccountRow(AccountTerms("", call.terms.currency, allowsNegative, 0), 0)
  }

  /** An account that the call does not name. */
  function Funder(call: Call): Uuid {
    if call.terms.from != 0 then 0 else if call.terms.to != 1 then 1 else 2
  }

  /** What the sender lacks is paid in, under another key. */
  function TopUp(call: Call): Call {
    Call(call.key + "+", call.terms.(from := Funder(call), to := call.terms.from), [])
  }

  /** Both calls have arrived; the receiver has no account. */
  function Arrival(call: Call): State {
    var bank, sender := NewAccount(call, true), NewAccount(call, false);
    INIT.(db := Db(map[Funder(call) := bank, call.terms.from := sender], [], []),
          sessions := [Session(call, 2, 0, Lookup, NO_TX), Session(TopUp(call), 2, 0, Lookup, NO_TX)],
          history := [Opened(Funder(call), bank), Opened(call.terms.from, sender)])
  }

  lemma ArrivalIsReached(call: Call)
    requires SenderFirst(call)
    ensures Reaches(true, INIT, Arrival(call))
  {
    var open1 := OpenAccount(Funder(call), NewAccount(call, true));
    var a := Do(Bare(true), INIT, open1);
    StepReaches(true, INIT, open1);
    var open2 := OpenAccount(call.terms.from, NewAccount(call, false));
    var b := Do(Bare(true), a, open2);
    StepReaches(true, a, open2);
    ReachesTransitive(true, INIT, a, b);
    assert b.db.accounts == Arrival(call).db.accounts;
    var c := Do(Bare(true), b, Arrive(call));
    StepReaches(true, b, Arrive(call));
    ReachesTransitive(true, INIT, b, c);
    StepReaches(true, c, Arrive(TopUp(call)));
    ReachesTransitive(true, INIT, c, Do(Bare(true), c, Arrive(TopUp(call))));
    assert Do(Bare(true), c, Arrive(TopUp(call))) == Arrival(call);
  }

  /** What stays the same for the first call once it has read its sender. */
  ghost predicate SenderWasRead(call: Call, s: State) {
    && |s.sessions| == 2 && s.locks == map[] && s.conns == {0}
    && s.sessions[0] == Session(call, 2, 0, Lock2,
                                Tx(Draw(0), map[call.terms.from := NewAccount(call, false)], map[], []))
  }

  lemma SenderIsRead(call: Call) returns (s: State)
    requires SenderFirst(call)
    ensures Reaches(true, INIT, s) && SenderWasRead(call, s)
    ensures s.db == Arrival(call).db && s.history == Arrival(call).history
    ensures s.sessions[1] == Arrival(call).sessions[1]
    ensures s.claims == map[call.key := 0] && s.issued.Keys == {0, 1, 2} && s.nextXid == 1
  {
    var a := Arrival(call);
    var x := a.sessions[0];
    ArrivalIsReached(call);
    ReachesLocking(true, a, 0, Draw(0));
    var b := a.(conns := a.conns + {0},
                claims := a.claims[call.key := 0],
                issued := a.issued[0 := 0][1 := 0][2 := 0],
                nextXid := a.nextXid + 1,
                sessions := a.sessions[0 := x.(pc := Lock1, tx := Tx(Draw(0), map[], map[], []))]);
    ReachesTransitive(true, INIT, a, b);
    s := Next(true, b, 0, Draw(0));
    NextReaches(true, INIT, b, 0, Draw(0));
    assert s.sessions[0].tx.read == map[call.terms.from := NewAccount(call, false)];
  }

  lemma SenderIsPaid(call: Call) returns (s: State)
    requires SenderFirst(call)
    ensures Reaches(true, INIT, s) && SenderWasRead(call, s)
    ensures call.terms.from in s.db.accounts && call.terms.to !in s.db.accounts
    ensures s.db.accounts[call.terms.from].balance == call.terms.amount
    ensures |s.history| == 3
  {
    var a := SenderIsRead(call);
    ReachesChecking(true, a, 1, Draw(1));
    var b := Checking(a, 1, Draw(1));
    ReachesTransitive(true, INIT, a, b);
    ReachesCommitted(true, b, 1);
    s := Committed(true, b, 1);
    ReachesTransitive(true, INIT, b, s);
    assert s.conns == {0};
  }

  lemma SenderIsRefused(call: Call) returns (s: State)
    requires SenderFirst(call)
    ensures Reaches(true, INIT, s) && |s.sessions| == 2 && |s.history| == 4
    ensures s.history[3] == Opened(call.terms.to, NewAccount(call, false))
    ensures call.terms.from in s.db.accounts && s.db.accounts[call.terms.from].balance == call.terms.amount
    ensures var x := s.sessions[0];
      && x.call == call && x.since == 2
      && x.pc == Done(Reply(InsufficientFunds(call.terms.from), None, None))
  {
    var a := SenderIsPaid(call);
    var open := OpenAccount(call.terms.to, NewAccount(call, false));
    var b := Do(Bare(true), a, open);
    StepReaches(true, a, open);
    ReachesTransitive(true, INIT, a, b);
    var c := Next(true, b, 0, Draw(0));
    NextReaches(true, INIT, b, 0, Draw(0));
    assert c.sessions[0].pc.Check? && c.sessions[0].tx.read == b.sessions[0].tx.read[call.terms.to := NewAccount(call, false)];
    s := Next(true, c, 0, Draw(0));
    NextReaches(true, INIT, c, 0, Draw(0));
  }

  /** Before the opening the receiver is missing, and after it the sender can pay. */
  lemma NowhereRight(call: Call, s: State, at: nat, f: Fresh)
    requires SenderFirst(call) && Legal(s.history) && Replay(s.history) == s.db && |s.history| == 4
    requires s.history[3] == Opened(call.terms.to, NewAccount(call, false))
    requires call.terms.from in s.db.accounts && s.db.accounts[call.terms.from].balance == call.terms.amount
    requires at <= 4
    ensures Decide(Replay(s.history[..at]), call, f) != InsufficientFunds(call.terms.from)
  {
    var h := s.history;
    if at == 4 {
      assert h[..4] == h;
    } else {
      LegalAt(h, 3);
      assert h[..3][..at] == h[..at];
      if call.terms.to in Replay(h[..at]).accounts {
        AccountsAreKept(h[..3], at, call.terms.to);
      }
    }
  }

  /** Some run gives this call an answer that is right at no point inside it. */
  lemma LateReceiverIsUnexplained(call: Call) returns (schedule: seq<Label>)
    requires SenderFirst(call)
    ensures var s := After(Bare(true), INIT, schedule);
      Asked(s, 0, call, false) && !Explained(s.history, s.sessions[0])
  {
    var s := SenderIsRefused(call);
    schedule :| After(Bare(true), INIT, schedule) == s;
    EveryScheduleKeepsInv(Bare(true), schedule);
    forall at: nat, f: Fresh ensures !RightAt(s.history, s.sessions[0], at, f) {
      if at <= 4 {
        NowhereRight(call, s, at, f);
      }
    }
    LegalAt(s.history, 3);
    assert s.history[..3][..2] == s.history[..2];
    if call.terms.to in Replay(s.history[..2]).accounts {
      AccountsAreKept(s.history[..3], 2, call.terms.to);
    }
  }

  // ----- the exact condition -----

  /** The session runs `call`, has its answer, and found the receiver's account open or not when it arrived. */
  ghost predicate Asked(s: State, sid: nat, call: Call, open: bool) {
    && Answered(s, sid) && s.sessions[sid].call == call && s.sessions[sid].since <= |s.history|
    && (open <==> call.terms.to in Replay(s.history[..s.sessions[sid].since]).accounts)
  }

  ghost predicate AlwaysExplained(cfg: Config, call: Call, open: bool) {
    forall schedule, sid: nat ::
      var s := After(cfg, INIT, schedule);
      Asked(s, sid, call, open) ==> Explained(s.history, s.sessions[sid])
  }

  /** For any one call, with any pool and in any run, the answer is right at a point inside the
      call exactly when the rows are locked, or the receiver's account is open when the call
      arrives, or the sender is not read before the receiver, or the amount is refused anyway. */
  lemma LinearizableExactlyWhen(check: bool, forUpdate: bool, call: Call, open: bool)
    requires check || forUpdate
    ensures (forall pool :: AlwaysExplained(Config(check, forUpdate, pool), call, open))
       <==> forUpdate || open || !SenderFirst(call)
  {
    if forUpdate || open || !SenderFirst(call) {
      forall pool ensures AlwaysExplained(Config(check, forUpdate, pool), call, open) {
        NoLateReceiver(Config(check, forUpdate, pool), call, open);
      }
    } else {
      var schedule := LateReceiverIsUnexplained(call);
      assert !AlwaysExplained(Bare(true), call, open);
      assert Bare(true) == Config(check, forUpdate, 2);
    }
  }

  lemma NoLateReceiver(cfg: Config, call: Call, open: bool)
    requires Defended(cfg) && (cfg.forUpdate || open || !SenderFirst(call))
    ensures AlwaysExplained(cfg, call, open)
  {
    forall schedule, sid: nat
      ensures var s := After(cfg, INIT, schedule);
        Asked(s, sid, call, open) ==> Explained(s.history, s.sessions[sid])
    {
      if Asked(After(cfg, INIT, schedule), sid, call, open) {
        EveryAnswerIsExplained(cfg, schedule, sid);
      }
    }
  }
}
