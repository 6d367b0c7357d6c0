/** What any step of one call does and does not touch, whatever state it is taken in. */
module ProtocolMoves {
  import opened LedgerTypes
  import opened Schema
  import opened SequentialLedger
  import opened Protocol

  predicate IsSessionLabel(l: Label) {
    l.Go? || l.Fail? || l.LoseCommit?
  }

  function PcSteps(pc: Pc): nat {
    match pc
    case Lookup => 15
    case Begin => 14
    case Claim => 13
    case Lock1 => 12
    case Lock2 => 11
    case Check => 10
    case AdjustFrom => 9
    case AdjustTo => 8
    case EntryFrom => 7
    case EntryTo => 6
    case Commit => 5
    case Collided => 4
    case Reread => 3
    case FetchTxn(_, _, _) => 2
    case FetchEntries(_, _, _) => 1
    case Done(_) => 0
  }

  /** Statements and retries a call has left at most. */
  function StepsLeft(x: Session): int {
    (MAX_CONFLICT_RETRIES - x.attempt) * 20 + PcSteps(x.pc)
  }

  /** The next statement reads an account row. */
  predicate ReadsRow(pc: Pc) {
    pc.Lock1? || pc.Lock2?
  }

  /** The call was refused for lack of funds without a point of the history being named. */
  predicate StaleRefusal(x: Session) {
    x.pc.Done? && x.pc.reply.answer.InsufficientFunds? && x.pc.reply.at.None?
  }

  /** The point of the history at which the call was decided, once it is. */
  function PointOf(pc: Pc): Option<nat> {
    match pc
    case FetchTxn(_, _, at) => Some(at)
    case FetchEntries(_, _, at) => Some(at)
    case Done(r) => r.at
    case _ => None
  }

  ghost predicate AddsOwnEvent(s: State, s': State, sid: nat)
    requires sid < |s.sessions|
  {
    && |s'.history| == |s.history| + 1 && s'.history[..|s.history|] == s.history
    && s'.history[|s.history|].Request?
    && s'.history[|s.history|].session == sid
    && s'.history[|s.history|].call == s.sessions[sid].call
  }

  /** A step of one call: it stays the same call and gets closer to its end, no other call
      is touched, the history is only appended to, and only a commit changes the tables. */
  ghost predicate Moves(s: State, s': State, sid: nat)
    requires sid < |s.sessions|
  {
    && (s'.history == s.history || AddsOwnEvent(s, s', sid))
    && |s'.sessions| == |s.sessions|
    && s'.sessions == s.sessions[sid := s'.sessions[sid]]
    && s'.sessions[sid].call == s.sessions[sid].call && s'.sessions[sid].since == s.sessions[sid].since
    && StepsLeft(s'.sessions[sid]) < StepsLeft(s.sessions[sid])
    && (!s.sessions[sid].pc.Commit? ==> s'.db == s.db)
    && (!ReadsRow(s.sessions[sid].pc) ==> s'.sessions[sid].tx.read in {s.sessions[sid].tx.read, map[]})
    && (StaleRefusal(s'.sessions[sid]) ==> s.sessions[sid].pc.Check?)
    && PointOf(s'.sessions[sid].pc) in {None, PointOf(s.sessions[sid].pc), Some(|s.history|)}
  }

  lemma RejectMoves(s: State, sid: nat, answer: Answer)
    requires sid < |s.sessions| && !s.sessions[sid].pc.Done?
    ensures Moves(s, Reject(s, sid, answer), sid)
    ensures !answer.InsufficientFunds? || s.sessions[sid].pc.Check? ==> Moves(s, GiveUp(s, sid, answer), sid)
  {
  }

  lemma ReplayRowMoves(s: State, sid: nat, row: TxnRow)
    requires sid < |s.sessions| && (s.sessions[sid].pc.Lookup? || s.sessions[sid].pc.Reread?)
    ensures Moves(s, ReplayRow(s, sid, row), sid)
  {
    RejectMoves(s, sid, KeyConflict);
  }

  lemma ReadStepMoves(cfg: Config, s: State, sid: nat, f: Fresh)
    requires sid < |s.sessions| && (s.sessions[sid].pc.Lookup? || s.sessions[sid].pc.Reread?)
    ensures Moves(s, Advance(cfg, s, sid, f), sid)
  {
    RejectMoves(s, sid, SelfTransfer);
    RejectMoves(s, sid, NonPositiveAmount);
    RejectMoves(s, sid, CollisionWithoutRow);
    match FindByKey(s.db.txns, s.sessions[sid].call.key)
    case Some(row) => ReplayRowMoves(s, sid, row);
    case None =>
  }

  lemma ClaimStepMoves(cfg: Config, s: State, sid: nat, f: Fresh)
    requires sid < |s.sessions|
    requires var pc := s.sessions[sid].pc; pc.Begin? || pc.Claim? || pc.Collided?
    ensures Moves(s, Advance(cfg, s, sid, f), sid)
  {
  }

  lemma LockStepMoves(cfg: Config, s: State, sid: nat, id: Uuid, next: Pc)
    requires sid < |s.sessions|
    requires (s.sessions[sid].pc.Lock1? && next == Lock2) || (s.sessions[sid].pc.Lock2? && next == Check)
    ensures Moves(s, GoLock(cfg, s, sid, id, next), sid)
  {
    RejectMoves(s, sid, AccountNotFound(id));
  }

  lemma CheckStepMoves(cfg: Config, s: State, sid: nat)
    requires sid < |s.sessions| && s.sessions[sid].pc.Check?
    ensures Moves(s, GoCheck(cfg, s, sid), sid)
  {
    var t := s.sessions[sid].call.terms;
    RejectMoves(s, sid, CurrencyMismatch(t.from));
    RejectMoves(s, sid, CurrencyMismatch(t.to));
    RejectMoves(s, sid, InsufficientFunds(t.from));
    RejectMoves(s, sid, DatabaseError);
  }

  lemma AdjustStepMoves(cfg: Config, s: State, sid: nat, id: Uuid, delta: int, next: Pc)
    requires sid < |s.sessions|
    requires || (s.sessions[sid].pc.AdjustFrom? && next == AdjustTo)
             || (s.sessions[sid].pc.AdjustTo? && next == EntryFrom)
    ensures Moves(s, GoAdjust(cfg, s, sid, id, delta, next), sid)
  {
    RejectMoves(s, sid, NumericOverflow);
    RejectMoves(s, sid, InsufficientFunds(id));
  }

  lemma EntryStepMoves(s: State, sid: nat, e: EntryRow, next: Pc)
    requires sid < |s.sessions|
    requires (s.sessions[sid].pc.EntryFrom? && next == EntryTo) || (s.sessions[sid].pc.EntryTo? && next == Commit)
    ensures Moves(s, GoEntry(s, sid, e, next), sid)
  {
    RejectMoves(s, sid, DatabaseError);
  }

  lemma CommitStepMoves(s: State, sid: nat)
    requires sid < |s.sessions| && s.sessions[sid].pc.Commit?
    ensures Moves(s, GoCommit(s, sid), sid)
  {
    RejectMoves(s, sid, DatabaseError);
  }

  lemma FetchStepMoves(cfg: Config, s: State, sid: nat, f: Fresh)
    requires sid < |s.sessions| && (s.sessions[sid].pc.FetchTxn? || s.sessions[sid].pc.FetchEntries?)
    ensures Moves(s, Advance(cfg, s, sid, f), sid)
  {
    if s.sessions[sid].pc.FetchTxn? {
      RejectMoves(s, sid, TransactionNotFound(s.sessions[sid].pc.id));
    }
  }

  lemma AdvanceMoves(cfg: Config, s: State, sid: nat, f: Fresh)
    requires sid < |s.sessions| && !s.sessions[sid].pc.Done?
    ensures Moves(s, Advance(cfg, s, sid, f), sid)
  {
    var x := s.sessions[sid];
    var t := x.call.terms;
    match x.pc
    case Lookup => ReadStepMoves(cfg, s, sid, f);
    case Begin => ClaimStepMoves(cfg, s, sid, f);
    case Claim => ClaimStepMoves(cfg, s, sid, f);
    case Collided => ClaimStepMoves(cfg, s, sid, f);
    case Reread => ReadStepMoves(cfg, s, sid, f);
    case Lock1 => LockStepMoves(cfg, s, sid, FirstLock(t), Lock2);
    case Lock2 => LockStepMoves(cfg, s, sid, SecondLock(t), Check);
    case Check => CheckStepMoves(cfg, s, sid);
    case AdjustFrom => AdjustStepMoves(cfg, s, sid, t.from, -t.amount, AdjustTo);
    case AdjustTo => AdjustStepMoves(cfg, s, sid, t.to, t.amount, EntryFrom);
    case EntryFrom => EntryStepMoves(s, sid, CreditEntry(x.call, x.tx.drawn), EntryTo);
    case EntryTo => EntryStepMoves(s, sid, DebitEntry(x.call, x.tx.drawn), Commit);
    case Commit => CommitStepMoves(s, sid);
    case FetchTxn(_, _, _) => FetchStepMoves(cfg, s, sid, f);
    case FetchEntries(_, _, _) => FetchStepMoves(cfg, s, sid, f);
  }

  lemma FailureMoves(cfg: Config, s: State, l: Label)
    requires (l.Fail? || l.LoseCommit?) && Enabled(cfg, s, l)
    ensures Moves(s, Do(cfg, s, l), l.sid)
  {
  }

  lemma SessionStepMoves(cfg: Config, s: State, l: Label)
    requires IsSessionLabel(l) && Enabled(cfg, s, l)
    ensures Moves(s, Do(cfg, s, l), l.sid)
  {
    if l.Go? {
      AdvanceMoves(cfg, s, l.sid, l.drawn);
    } else {
      FailureMoves(cfg, s, l);
    }
  }
}
