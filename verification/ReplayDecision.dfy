/** Replay or conflict: a key that was used before replays its transaction exactly when the
    request is the same request. */
module ReplayDecision {
  import opened LedgerTypes
  import opened Schema
  import opened OrderedRead
  import opened SequentialLedger
  import opened Protocol
  import opened ProtocolInvariant
  import opened ProtocolCommit
  import opened ProtocolMoves
  import opened Guarantees
  import opened Fingerprint

  // ----- histories speak of calls that arrived -----

  ghost predicate EventsFromCalls(s: State) {
    forall i | 0 <= i < |s.history| && s.history[i].Request? ::
      s.history[i].session < |s.sessions| && s.history[i].call == s.sessions[s.history[i].session].call
  }

  lemma MoveKeepsEvents(s: State, s': State, sid: nat)
    requires sid < |s.sessions| && Moves(s, s', sid) && EventsFromCalls(s)
    ensures EventsFromCalls(s')
  {
    forall i | 0 <= i < |s'.history| && s'.history[i].Request?
      ensures s'.history[i].session < |s'.sessions| && s'.history[i].call == s'.sessions[s'.history[i].session].call
    {
      if i < |s.history| {
        assert s'.history[i] == s.history[i];
      }
    }
  }

  ghost predicate CallsFrom(s: State, schedule: seq<Label>) {
    forall x | x in s.sessions :: Arrive(x.call) in schedule
  }

  lemma StepKeepsOrigin(cfg: Config, s: State, l: Label, all: seq<Label>)
    requires EventsFromCalls(s) && CallsFrom(s, all) && l in all
    ensures EventsFromCalls(Do(cfg, s, l)) && CallsFrom(Do(cfg, s, l), all)
  {
    if Enabled(cfg, s, l) && IsSessionLabel(l) {
      SessionStepMoves(cfg, s, l);
      MoveKeepsEvents(s, Do(cfg, s, l), l.sid);
      assert s.sessions[l.sid] in s.sessions;
    }
  }

  lemma {:induction false} ScheduleKeepsOrigin(cfg: Config, s: State, schedule: seq<Label>, all: seq<Label>)
    requires EventsFromCalls(s) && CallsFrom(s, all) && forall l | l in schedule :: l in all
    ensures EventsFromCalls(After(cfg, s, schedule)) && CallsFrom(After(cfg, s, schedule), all)
    decreases |schedule|
  {
    if schedule != [] {
      assert schedule[0] in schedule && forall l | l in schedule[1..] :: l in schedule;
      StepKeepsOrigin(cfg, s, schedule[0], all);
      ScheduleKeepsOrigin(cfg, Do(cfg, s, schedule[0]), schedule[1..], all);
    }
  }

  // ----- every stored row was created by a request -----

  ghost predicate CreatedBy(e: Event, row: TxnRow) {
    e.Request? && e.answer.Created? && NewRow(e.call, e.drawn) == row
  }

  lemma {:induction false} RowHasCreator(h: seq<Event>, row: TxnRow) returns (i: nat)
    requires Legal(h) && row in Replay(h).txns
    ensures i < |h| && CreatedBy(h[i], row)
  {
    var m := |h| - 1;
    if row in Replay(h[..m]).txns {
      i := RowHasCreator(h[..m], row);
    } else {
      i := m;
    }
  }

  // ----- digests of honest calls -----

  ghost predicate MadeFrom(call: Call, i: Intent, sha256: seq<Byte> -> seq<Byte>) {
    call == CallOf(call.key, i, sha256)
  }

  /** Every call carries the digest of its own request, and the hash does not collide on the
      pre-images that occur. */
  ghost predicate Honest(schedule: seq<Label>, sha256: seq<Byte> -> seq<Byte>) {
    && (forall l | l in schedule && l.Arrive? :: exists i :: MadeFrom(l.call, i, sha256))
    && (forall k, l, i, j | k in schedule && l in schedule && k.Arrive? && l.Arrive?
                            && MadeFrom(k.call, i, sha256) && MadeFrom(l.call, j, sha256)
                            && sha256(PreImage(i)) == sha256(PreImage(j)) ::
          PreImage(i) == PreImage(j))
  }

  lemma DigestsTellTermsApart(schedule: seq<Label>, sha256: seq<Byte> -> seq<Byte>, a: Call, b: Call)
    requires Honest(schedule, sha256) && Arrive(a) in schedule && Arrive(b) in schedule
    ensures a.digest == b.digest <==> a.terms == b.terms
  {
    var k, l := Arrive(a), Arrive(b);
    var i :| MadeFrom(k.call, i, sha256);
    var j :| MadeFrom(l.call, j, sha256);
    DigestIdentifiesTerms(i, j, sha256);
  }

  // ----- the theorem -----

  predicate ReusedKey(a: Answer) {
    a.Replayed? || a.KeyConflict?
  }

  /** In a history, the digest decides against the request that created the row. */
  lemma HistoryReplays(h: seq<Event>, at: nat) returns (j: nat)
    requires Legal(h) && at < |h| && h[at].Request? && ReusedKey(h[at].answer)
    ensures j < at && h[j].Request? && h[j].answer.Created? && h[j].call.key == h[at].call.key
    ensures h[at].answer.Replayed? <==> h[j].call.digest == h[at].call.digest
    ensures h[at].answer.Replayed? ==> h[at].answer.id == h[j].answer.id
  {
    LegalAt(h, at);
    var row := FindByKey(Replay(h[..at]).txns, h[at].call.key).value;
    j := RowHasCreator(h[..at], row);
    LegalAt(h, j);
    assert h[j] == h[..at][j];
  }

  /** The event at which a call was decided, and its creator, belong to calls that arrived. */
  lemma EventCallsArrived(cfg: Config, schedule: seq<Label>, i: nat)
    requires var s := After(cfg, INIT, schedule); i < |s.history| && s.history[i].Request?
    ensures Arrive(After(cfg, INIT, schedule).history[i].call) in schedule
  {
    var s := After(cfg, INIT, schedule);
    ScheduleKeepsOrigin(cfg, INIT, schedule, schedule);
    assert s.sessions[s.history[i].session] in s.sessions;
  }

  /** When a call is answered Replayed or with a conflict, an earlier request created a
      transaction under its key; the answer is Replayed, naming that transaction, exactly when
      the earlier request asked for the same transfer. */
  lemma ReplayIffSameRequest(cfg: Config, schedule: seq<Label>, sha256: seq<Byte> -> seq<Byte>, sid: nat, answer: Answer)
    returns (j: nat)
    requires Defended(cfg) && Honest(schedule, sha256)
    requires Returned(After(cfg, INIT, schedule), sid, answer) && ReusedKey(answer)
    ensures var s := After(cfg, INIT, schedule); var x := s.sessions[sid];
      && x.pc.reply.at.Some? && j < x.pc.reply.at.value < |s.history|
      && s.history[j].Request? && s.history[j].answer.Created? && s.history[j].call.key == x.call.key
      && (answer.Replayed? <==> s.history[j].call.terms == x.call.terms)
      && (answer.Replayed? ==> answer.id == s.history[j].answer.id)
  {
    var s := After(cfg, INIT, schedule);
    j := CreatorOf(cfg, schedule, sid, answer);
    EventCallsArrived(cfg, schedule, s.sessions[sid].pc.reply.at.value);
    EventCallsArrived(cfg, schedule, j);
    DigestsTellTermsApart(schedule, sha256, s.history[j].call, s.sessions[sid].call);
  }

  /** Every successful answer, first or replayed, returns the transfer that was asked for, with
      this request's own key and description, sender and receiver, amount and currency. */
  lemma SuccessShowsTheRequest(cfg: Config, schedule: seq<Label>, sha256: seq<Byte> -> seq<Byte>, sid: nat)
    requires Defended(cfg) && Honest(schedule, sha256)
    requires Succeeded(After(cfg, INIT, schedule), sid)
    ensures var s := After(cfg, INIT, schedule); var x := s.sessions[sid]; var r := x.pc.reply;
      && r.detail.Some? && r.detail == DetailOf(s.db, r.answer.id) && r.detail.value.txn.id == r.answer.id
      && FindByKey(s.db.txns, x.call.key) == Some(r.detail.value.txn)
      && multiset(Group(s.db.entries, TxnOf, r.answer.id)) == multiset(r.detail.value.entries)
      && exists f: Fresh :: ShowsPosting(r.detail.value, x.call, f)
  {
    var s := After(cfg, INIT, schedule);
    var x := s.sessions[sid];
    var r := x.pc.reply;
    EveryScheduleKeepsInv(cfg, schedule);
    ReplyOf(cfg, s, sid);
    OrderedIsSorted(Group(s.db.entries, TxnOf, r.answer.id));
    if r.answer.Created? {
      PostedStays(s.history, r.at.value);
    } else {
      var j := CreatorOf(cfg, schedule, sid, r.answer);
      EventCallsArrived(cfg, schedule, r.at.value);
      EventCallsArrived(cfg, schedule, j);
      DigestsTellTermsApart(schedule, sha256, s.history[j].call, x.call);
      PostedStays(s.history, j);
      assert s.history[j].call == x.call;
    }
  }

  /** The request that created what a call is answered with. */
  lemma CreatorOf(cfg: Config, schedule: seq<Label>, sid: nat, answer: Answer) returns (j: nat)
    requires Defended(cfg) && Returned(After(cfg, INIT, schedule), sid, answer) && ReusedKey(answer)
    ensures var s := After(cfg, INIT, schedule); var x := s.sessions[sid];
      && x.pc.reply.at.Some? && j < x.pc.reply.at.value < |s.history|
      && s.history[x.pc.reply.at.value].Request? && s.history[x.pc.reply.at.value].call == x.call
      && s.history[j].Request? && s.history[j].answer.Created? && s.history[j].call.key == x.call.key
      && (answer.Replayed? <==> s.history[j].call.digest == x.call.digest)
      && (answer.Replayed? ==> answer.id == s.history[j].answer.id)
  {
    var s := After(cfg, INIT, schedule);
    EveryScheduleKeepsInv(cfg, schedule);
    ReplyOf(cfg, s, sid);
    j := HistoryReplays(s.history, s.sessions[sid].pc.reply.at.value);
  }
}
