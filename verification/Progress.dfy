/** Waiting never becomes deadlock, and every call returns. */
module Progress {
  import opened LedgerTypes
  import opened SequentialLedger
  import opened Protocol
  import opened ProtocolInvariant
  import opened ProtocolCommit
  import opened ProtocolMoves

  // ----- who waits for whom -----

  predicate HeldBy<K>(m: map<K, nat>, k: K, sid: nat) {
    k in m && m[k] == sid
  }

  /** `a` cannot move until `b` gives up a connection, a key or a row. */
  ghost predicate WaitsFor(cfg: Config, s: State, a: nat, b: nat) {
    && a < |s.sessions| && b < |s.sessions| && a != b
    && var x := s.sessions[a];
       match x.pc
       case Claim => HeldBy(s.claims, x.call.key, b)
       case Lock1 => cfg.forUpdate && HeldBy(s.locks, FirstLock(x.call.terms), b)
       case Lock2 => cfg.forUpdate && HeldBy(s.locks, SecondLock(x.call.terms), b)
       case AdjustFrom => HeldBy(s.locks, x.call.terms.from, b)
       case AdjustTo => HeldBy(s.locks, x.call.terms.to, b)
       case _ => NeedsConnection(x.pc) && |s.conns| >= cfg.pool && b in s.conns
  }

  datatype Rank = Rank(level: nat, id: int)

  predicate Below(a: Rank, b: Rank) {
    a.level < b.level || (a.level == b.level && a.id < b.id)
  }

  /** Connection waiters are lowest, then key waiters, then row waiters in the order of
      the row they want; a session that waits for nothing is on top. */
  function RankOf(x: Session): Rank {
    if NeedsConnection(x.pc) then Rank(0, 0)
    else if x.pc.Claim? then Rank(1, 0)
    else if x.pc.Lock1? then Rank(2, 0)
    else if x.pc.Lock2? then Rank(3, SecondLock(x.call.terms))
    else Rank(4, 0)
  }

  /** Whoever holds a connection is inside its transaction. */
  lemma ConnectionWaitAscends(cfg: Config, s: State, a: nat, b: nat)
    requires Inv(cfg, s) && WaitsFor(cfg, s, a, b) && NeedsConnection(s.sessions[a].pc)
    ensures Below(RankOf(s.sessions[a]), RankOf(s.sessions[b]))
  {
    Now(cfg, s, b);
    assert InTx(s.sessions[b].pc);
  }

  /** Whoever holds a key is past the claim. */
  lemma KeyWaitAscends(cfg: Config, s: State, a: nat, b: nat)
    requires Inv(cfg, s) && WaitsFor(cfg, s, a, b) && s.sessions[a].pc.Claim?
    ensures Below(RankOf(s.sessions[a]), RankOf(s.sessions[b]))
  {
    Now(cfg, s, b);
    assert s.sessions[a].call.key in OwnedBy(s.claims, b);
  }

  /** Whoever holds a row is past its first lock, and wants a greater row, or none. */
  lemma RowWaitAscends(cfg: Config, s: State, a: nat, b: nat, id: Uuid)
    requires Inv(cfg, s) && cfg.forUpdate && a < |s.sessions| && b < |s.sessions| && HeldBy(s.locks, id, b)
    requires var x := s.sessions[a];
      (x.pc.Lock1? && id == FirstLock(x.call.terms)) || (x.pc.Lock2? && id == SecondLock(x.call.terms))
    ensures Below(RankOf(s.sessions[a]), RankOf(s.sessions[b]))
  {
    Now(cfg, s, b);
    assert id in OwnedBy(s.locks, b);
  }

  /** A waiter ranks strictly below whoever it waits for. */
  lemma WaitsAscend(cfg: Config, s: State, a: nat, b: nat)
    requires Inv(cfg, s) && cfg.forUpdate && WaitsFor(cfg, s, a, b)
    ensures Below(RankOf(s.sessions[a]), RankOf(s.sessions[b]))
  {
    var t := s.sessions[a].call.terms;
    match s.sessions[a].pc
    case Claim => KeyWaitAscends(cfg, s, a, b);
    case Lock1 => RowWaitAscends(cfg, s, a, b, FirstLock(t));
    case Lock2 => RowWaitAscends(cfg, s, a, b, SecondLock(t));
    case AdjustFrom => RowIsOwn(cfg, s, a, b, t.from);
    case AdjustTo => RowIsOwn(cfg, s, a, b, t.to);
    case _ => ConnectionWaitAscends(cfg, s, a, b);
  }

  /** With the row locks in place a balance update never waits. */
  lemma RowIsOwn(cfg: Config, s: State, a: nat, b: nat, id: Uuid)
    requires Inv(cfg, s) && cfg.forUpdate && a < |s.sessions| && Locked(s.sessions[a].pc) && a != b
    requires id == s.sessions[a].call.terms.from || id == s.sessions[a].call.terms.to
    ensures !HeldBy(s.locks, id, b)
  {
    Now(cfg, s, a);
    assert id in HeldLocks(cfg, s.sessions[a]);
    assert id in OwnedBy(s.locks, a);
  }

  /** No chain of waits ever leads back to where it started. */
  lemma {:induction false} WaitsNeverFormACycle(cfg: Config, s: State, path: seq<nat>)
    requires Inv(cfg, s) && cfg.forUpdate && |path| >= 2
    requires forall i | 0 <= i < |path| - 1 :: WaitsFor(cfg, s, path[i], path[i + 1])
    ensures path[0] < |s.sessions| && path[|path| - 1] < |s.sessions|
    ensures Below(RankOf(s.sessions[path[0]]), RankOf(s.sessions[path[|path| - 1]]))
    ensures path[0] != path[|path| - 1]
  {
    var n := |path| - 1;
    assert WaitsFor(cfg, s, path[n - 1], path[n - 1 + 1]);
    WaitsAscend(cfg, s, path[n - 1], path[n]);
    if n > 1 {
      WaitsNeverFormACycle(cfg, s, path[..n]);
    }
  }

  // ----- the pool -----

  /** No connection is kept, but for the one that BEGIN waits for until it is free. */
  ghost predicate KeepsPool(cfg: Config, s: State, s': State, sid: nat) {
    s'.conns <= s.conns || (s'.conns == s.conns + {sid} && |s.conns| < cfg.pool)
  }

  lemma ReadsKeepPool(cfg: Config, s: State, sid: nat, f: Fresh)
    requires sid < |s.sessions| && !Blocked(cfg, s, sid)
    requires var pc := s.sessions[sid].pc;
      pc.Lookup? || pc.Begin? || pc.Claim? || pc.Collided? || pc.Reread? || pc.FetchTxn? || pc.FetchEntries?
    ensures KeepsPool(cfg, s, Advance(cfg, s, sid, f), sid)
  {
  }

  lemma WritesKeepPool(cfg: Config, s: State, sid: nat, f: Fresh)
    requires sid < |s.sessions|
    requires var pc := s.sessions[sid].pc;
      pc.Lock1? || pc.Lock2? || pc.Check? || pc.AdjustFrom? || pc.AdjustTo? || pc.EntryFrom? || pc.EntryTo? || pc.Commit?
    ensures KeepsPool(cfg, s, Advance(cfg, s, sid, f), sid)
  {
  }

  lemma ConnectionsOfStep(cfg: Config, s: State, l: Label)
    ensures Do(cfg, s, l).conns <= s.conns || (l.Go? && KeepsPool(cfg, s, Do(cfg, s, l), l.sid))
  {
    if l.Go? && Enabled(cfg, s, l) {
      var pc := s.sessions[l.sid].pc;
      if InTx(pc) && !pc.Claim? && !pc.Collided? {
        WritesKeepPool(cfg, s, l.sid, l.drawn);
      } else {
        ReadsKeepPool(cfg, s, l.sid, l.drawn);
      }
    }
  }

  lemma {:induction false} PoolStaysRespected(cfg: Config, s: State, schedule: seq<Label>)
    requires |s.conns| <= cfg.pool
    ensures |After(cfg, s, schedule).conns| <= cfg.pool
    decreases |schedule|
  {
    if schedule != [] {
      var s' := Do(cfg, s, schedule[0]);
      ConnectionsOfStep(cfg, s, schedule[0]);
      if s'.conns <= s.conns {
        SubsetSize(s'.conns, s.conns);
      }
      PoolStaysRespected(cfg, s', schedule[1..]);
    }
  }

  /** There are never more database transactions open than connections. */
  lemma PoolIsRespected(cfg: Config, schedule: seq<Label>)
    ensures |After(cfg, INIT, schedule).conns| <= cfg.pool
  {
    PoolStaysRespected(cfg, INIT, schedule);
  }

  // ----- somebody can always move -----

  /** The unfinished session of the highest rank among the first `n`. */
  lemma {:induction false} Topmost(s: State, n: nat, u: nat) returns (top: nat)
    requires u < n <= |s.sessions| && !s.sessions[u].pc.Done?
    ensures top < n && !s.sessions[top].pc.Done?
    ensures forall o | 0 <= o < n && !s.sessions[o].pc.Done? ::
              !Below(RankOf(s.sessions[top]), RankOf(s.sessions[o]))
  {
    top := u;
    var i := 0;
    while i < n
      invariant 0 <= i <= n
      invariant top < n && !s.sessions[top].pc.Done?
      invariant forall o | 0 <= o < i && !s.sessions[o].pc.Done? ::
                  !Below(RankOf(s.sessions[top]), RankOf(s.sessions[o]))
    {
      if !s.sessions[i].pc.Done? && Below(RankOf(s.sessions[top]), RankOf(s.sessions[i])) {
        top := i;
      }
      i := i + 1;
    }
  }

  lemma Member(s: set<nat>) returns (b: nat)
    requires |s| > 0
    ensures b in s
  {
    b :| b in s;
  }

  lemma HolderIsInside(cfg: Config, s: State, b: nat)
    requires Inv(cfg, s) && b < |s.sessions|
    requires b in s.conns || OwnedBy(s.claims, b) != {} || OwnedBy(s.locks, b) != {}
    ensures InTx(s.sessions[b].pc)
  {
    Now(cfg, s, b);
  }

  lemma KeyHolderIsInside(cfg: Config, s: State, key: string)
    requires Inv(cfg, s) && key in s.claims
    ensures s.claims[key] < |s.sessions| && InTx(s.sessions[s.claims[key]].pc)
  {
    assert key in OwnedBy(s.claims, s.claims[key]);
    HolderIsInside(cfg, s, s.claims[key]);
  }

  lemma RowHolderIsInside(cfg: Config, s: State, id: Uuid)
    requires Inv(cfg, s) && id in s.locks
    ensures s.locks[id] < |s.sessions| && InTx(s.sessions[s.locks[id]].pc)
  {
    assert id in OwnedBy(s.locks, s.locks[id]);
    HolderIsInside(cfg, s, s.locks[id]);
  }

  lemma OutsideHoldsNoConnection(cfg: Config, s: State, a: nat)
    requires Inv(cfg, s) && a < |s.sessions| && NeedsConnection(s.sessions[a].pc)
    ensures a !in s.conns
  {
    Now(cfg, s, a);
  }

  /** Whoever is blocked is blocked by a session that is still inside its transaction. */
  lemma BlockedBySomeone(cfg: Config, s: State, a: nat) returns (b: nat)
    requires Inv(cfg, s) && cfg.pool >= 1 && a < |s.sessions| && Blocked(cfg, s, a)
    ensures WaitsFor(cfg, s, a, b) && InTx(s.sessions[b].pc)
  {
    var x := s.sessions[a];
    var t := x.call.terms;
    if x.pc.Claim? {
      KeyHolderIsInside(cfg, s, x.call.key);
      b := s.claims[x.call.key];
    } else if NeedsConnection(x.pc) {
      b := Member(s.conns);
      OutsideHoldsNoConnection(cfg, s, a);
      HolderIsInside(cfg, s, b);
    } else {
      var id := if x.pc.Lock1? then FirstLock(t) else if x.pc.Lock2? then SecondLock(t)
                else if x.pc.AdjustFrom? then t.from else t.to;
      RowHolderIsInside(cfg, s, id);
      b := s.locks[id];
    }
  }

  /** With at least one connection and unused ids left, whenever some call has not returned,
      some call can take its next step: nothing is ever deadlocked. */
  lemma SomeCallCanStep(cfg: Config, s: State, u: nat, f: Fresh) returns (top: nat)
    requires Inv(cfg, s) && cfg.forUpdate && cfg.pool >= 1
    requires u < |s.sessions| && !s.sessions[u].pc.Done? && FreshFor(s, f)
    ensures Enabled(cfg, s, Go(top, f))
  {
    top := Topmost(s, |s.sessions|, u);
    if Blocked(cfg, s, top) {
      var b := BlockedBySomeone(cfg, s, top);
      WaitsAscend(cfg, s, top, b);
    }
  }

  // ----- unused ids -----

  function FirstIds(n: nat): set<Uuid>
    requires n <= UUID_LIMIT
  {
    if n == 0 then {} else FirstIds(n - 1) + {n - 1}
  }

  lemma {:induction false} CountBelow(n: nat)
    requires n <= UUID_LIMIT
    ensures |FirstIds(n)| == n && forall i | i in FirstIds(n) :: i < n
  {
    if n > 0 {
      CountBelow(n - 1);
    }
  }

  lemma UnusedId(used: set<Uuid>) returns (id: Uuid)
    requires |used| < UUID_LIMIT
    ensures id !in used
  {
    var candidates := FirstIds(|used| + 1);
    CountBelow(|used| + 1);
    if candidates <= used {
      SubsetSize(candidates, used);
    }
    id :| id in candidates && id !in used;
  }

  /** As long as fewer than 2^128 - 3 ids were ever issued, a transaction can be begun. */
  lemma FreshIdsExist(s: State) returns (f: Fresh)
    requires |s.issued| + 3 <= UUID_LIMIT
    ensures FreshFor(s, f)
  {
    var txn := UnusedId(s.issued.Keys);
    var credit := UnusedId(s.issued.Keys + {txn});
    var debit := UnusedId(s.issued.Keys + {txn} + {credit});
    f := Fresh(txn, credit, debit, s.nextXid, 0);
  }

  // ----- every call returns -----

  function TotalLeft(xs: seq<Session>): int {
    if xs == [] then 0 else StepsLeft(xs[0]) + TotalLeft(xs[1..])
  }

  lemma {:induction false} TotalAfterUpdate(xs: seq<Session>, i: nat, y: Session)
    requires i < |xs|
    ensures TotalLeft(xs[i := y]) == TotalLeft(xs) - StepsLeft(xs[i]) + StepsLeft(y)
  {
    if i > 0 {
      assert xs[i := y][1..] == xs[1..][i - 1 := y];
      TotalAfterUpdate(xs[1..], i - 1, y);
    } else {
      assert xs[i := y][1..] == xs[1..];
    }
  }

  lemma {:induction false} TotalIsNatural(xs: seq<Session>)
    requires forall x | x in xs :: x.attempt <= MAX_CONFLICT_RETRIES
    ensures TotalLeft(xs) >= 0
  {
    if xs != [] {
      assert xs[0] in xs;
      TotalIsNatural(xs[1..]);
    }
  }

  lemma AttemptsAreBounded(cfg: Config, s: State)
    requires Inv(cfg, s)
    ensures forall x | x in s.sessions :: x.attempt <= MAX_CONFLICT_RETRIES
  {
    forall x | x in s.sessions ensures x.attempt <= MAX_CONFLICT_RETRIES {
      var o :| 0 <= o < |s.sessions| && s.sessions[o] == x;
      Now(cfg, s, o);
    }
  }

  /** No call is ever attempted more than four times. */
  lemma AtMostFourAttempts(cfg: Config, schedule: seq<Label>, sid: nat)
    requires Defended(cfg) && sid < |After(cfg, INIT, schedule).sessions|
    ensures After(cfg, INIT, schedule).sessions[sid].attempt + 1 <= 4
  {
    EveryScheduleKeepsInv(cfg, schedule);
    Now(cfg, After(cfg, INIT, schedule), sid);
  }

  /** Every step of a call, completed or failed, uses up some of what is left to do. */
  lemma StepDescends(cfg: Config, s: State, l: Label)
    requires IsSessionLabel(l) && Enabled(cfg, s, l)
    ensures TotalLeft(Do(cfg, s, l).sessions) < TotalLeft(s.sessions)
  {
    var s' := Do(cfg, s, l);
    SessionStepMoves(cfg, s, l);
    TotalAfterUpdate(s.sessions, l.sid, s'.sessions[l.sid]);
  }

  /** No more calls arrive: each label opens an account, or is a step of some call that is
      enabled when its turn comes. */
  ghost predicate NoArrivals(cfg: Config, s: State, run: seq<Label>)
    decreases |run|
  {
    run == []
    || ((run[0].OpenAccount? || (IsSessionLabel(run[0]) && Enabled(cfg, s, run[0])))
        && NoArrivals(cfg, Do(cfg, s, run[0]), run[1..]))
  }

  /** The steps that calls take in a run. */
  function CallSteps(run: seq<Label>): nat {
    if run == [] then 0 else (if IsSessionLabel(run[0]) then 1 else 0) + CallSteps(run[1..])
  }

  lemma {:induction false} RunsAreBounded(cfg: Config, s: State, run: seq<Label>)
    requires Inv(cfg, s) && Defended(cfg) && NoArrivals(cfg, s, run)
    ensures CallSteps(run) <= TotalLeft(s.sessions)
    decreases |run|
  {
    if run == [] {
      AttemptsAreBounded(cfg, s);
      TotalIsNatural(s.sessions);
    } else {
      StepKeepsInv(cfg, s, run[0]);
      if IsSessionLabel(run[0]) {
        StepDescends(cfg, s, run[0]);
      }
      RunsAreBounded(cfg, Do(cfg, s, run[0]), run[1..]);
    }
  }

  /** Once no more calls arrive, the calls take no more steps than a bound known in advance,
      accounts being opened or not, and a run that no call can continue has answered every call. */
  lemma EveryCallReturns(cfg: Config, before: seq<Label>, run: seq<Label>)
    requires cfg.forUpdate && cfg.pool >= 1
    requires NoArrivals(cfg, After(cfg, INIT, before), run)
    requires |After(cfg, INIT, before + run).issued| + 3 <= UUID_LIMIT
    ensures CallSteps(run) <= TotalLeft(After(cfg, INIT, before).sessions)
    ensures var s' := After(cfg, INIT, before + run);
      (forall sid: nat, f: Fresh :: !Enabled(cfg, s', Go(sid, f))) ==>
        forall x | x in s'.sessions :: x.pc.Done?
  {
    var s' := After(cfg, INIT, before + run);
    EveryScheduleKeepsInv(cfg, before);
    RunsAreBounded(cfg, After(cfg, INIT, before), run);
    EveryScheduleKeepsInv(cfg, before + run);
    if u: nat :| u < |s'.sessions| && !s'.sessions[u].pc.Done? {
      var f := FreshIdsExist(s');
      var top := SomeCallCanStep(cfg, s', u, f);
    }
  }
}
