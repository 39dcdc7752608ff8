/** The group-commit sequencer: clients queue writes, one committer applies them
    in batches, readers are pinned to the committed sequence number
    (python/nedb/concurrent.py). */
module Sequencer {
  import opened Hashing
  import opened Ops
  import opened MvccStore
  import opened RelationGraph
  import opened FieldIndexes
  import opened Engine
  import opened Query
  import opened Trace
  import opened TimeQueries
  import opened Database
  import OpLog

  // ---- the protocol as steps ----

  /** Where the committer stands in its loop. */
  datatype Phase = Applying | Synced | Published

  /** `sent` are all writes ever queued, in queue order; the committer has taken
      the first `taken`, applied the first `pos` and woken the first `woken`. */
  datatype Server = Server(sent: seq<Intent>, taken: nat, pos: nat, woken: nat, phase: Phase,
                           session: Session, data: Data, replies: seq<Reply>, flushed: nat, committed: int)

  datatype Step = Enqueue(it: Intent) | Drain(n: nat) | ApplyOne | Flush | Publish | Wake

  /** Between batches nothing is taken that is not answered. */
  predicate Idle(s: Server) { s.phase == Applying && s.pos == s.taken == s.woken }

  ghost predicate Next(h: Hash, canon: OpLog.Canon, maxBatch: nat, s: Server, e: Step, s': Server) {
    match e
    case Enqueue(it) => s' == s.(sent := s.sent + [it])
    case Drain(n) => Idle(s) && 1 <= n <= maxBatch && s.taken + n <= |s.sent| && s' == s.(taken := s.taken + n)
    case ApplyOne =>
      && s.phase == Applying && s.pos < s.taken <= |s.sent| && OpLog.TableInRange(s.session.log)
      && s' == Applied(h, canon, s, s.sent[s.pos])
    case Flush => s.phase == Applying && s.pos == s.taken && s.woken < s.taken && s' == s.(phase := Synced, flushed := |s.session.log.ops|)
    case Publish => s.phase == Synced && s' == s.(phase := Published, committed := |s.session.log.ops| - 1)
    case Wake => s.phase == Published && s.woken < s.taken && s' == Woken(s)
  }

  function Applied(h: Hash, canon: OpLog.Canon, s: Server, it: Intent): Server
    requires OpLog.TableInRange(s.session.log)
  {
    var (session, reply) := RunIntent(h, canon, s.session, it);
    s.(session := session, data := DataAfter(s.data, reply), replies := s.replies + [reply], pos := s.pos + 1)
  }

  /** The last one woken ends the batch. */
  function Woken(s: Server): Server {
    s.(woken := s.woken + 1, phase := if s.woken + 1 == s.taken then Applying else Published)
  }

  // ---- what every interleaving keeps ----

  /** One after the other, without a queue, from the session the store opened with. */
  function RunIntents(h: Hash, canon: OpLog.Canon, base: Session, its: seq<Intent>): (r: (Session, seq<Reply>))
    requires OpLog.TableInRange(base.log)
    ensures OpLog.TableInRange(r.0.log)
  {
    if its == [] then (base, [])
    else
      var (s, replies) := RunIntents(h, canon, base, its[..|its| - 1]);
      var (s', reply) := RunIntent(h, canon, s, its[|its| - 1]);
      (s', replies + [reply])
  }

  /** The ops of the accepted writes, in order. */
  function AcceptedOps(replies: seq<Reply>): seq<Op> {
    if replies == [] then []
    else
      var front, r := AcceptedOps(replies[..|replies| - 1]), replies[|replies| - 1];
      if r.Accepted? then front + [r.op] else front
  }

  ghost predicate ServerOk(h: Hash, canon: OpLog.Canon, base: Session, s: Server) {
    && s.woken <= s.pos <= s.taken <= |s.sent|
    && OpLog.TableInRange(base.log) && (s.session, s.replies) == RunIntents(h, canon, base, s.sent[..s.pos])
    && OpLog.ValidState(h, canon, s.session.log)
    && s.data == Fold(s.session.log.ops)
    && s.session.log.ops == base.log.ops + AcceptedOps(s.replies)
    && s.committed < |s.session.log.ops| && s.flushed <= |s.session.log.ops|
    && s.committed + 1 <= s.flushed
    && (s.phase == Synced ==> s.flushed == |s.session.log.ops|)
    && (s.phase != Applying ==> s.pos == s.taken)
    && (s.phase == Published ==> s.committed + 1 == |s.session.log.ops|)
    && WokenServed(s)
  }

  /** A woken writer's op is on disk and published. */
  ghost predicate WokenServed(s: Server) {
    forall i :: 0 <= i < s.woken && i < |s.replies| && s.replies[i].Accepted? ==>
      s.replies[i].op.body.seqNo < s.flushed && s.replies[i].op.body.seqNo <= s.committed
  }

  lemma RunIntentKeeps(h: Hash, canon: OpLog.Canon, s: Session, it: Intent)
    requires OpLog.ValidState(h, canon, s.log)
    ensures OpLog.TableInRange(s.log)
    ensures var (s', r) := RunIntent(h, canon, s, it);
            && OpLog.ValidState(h, canon, s'.log)
            && s'.log.ops == s.log.ops + (if r.Accepted? then [r.op] else [])
            && (r.Accepted? ==> r.op.body.seqNo == |s.log.ops|)
  {
    hide OpLog.TablesMean, OpLog.Disciplined, OpLog.Verifies, OpLog.LoadOf;
    InRangeOf(h, canon, s.log);
    if it.Submit? {
      OpLog.AppendKeepsValid(h, canon, s.log, RequestOf(s.auto, it));
      hide OpLog.ValidState, Logged;
    } else {
      assert s.log.ops + [] == s.log.ops;
    }
  }

  lemma InRangeOf(h: Hash, canon: OpLog.Canon, s: OpLog.State)
    requires OpLog.ValidState(h, canon, s)
    ensures OpLog.TableInRange(s)
  {}

  lemma ValidNumbered(h: Hash, canon: OpLog.Canon, s: OpLog.State)
    requires OpLog.ValidState(h, canon, s)
    ensures Numbered(s.ops, 0) && OpLog.TableInRange(s)
  {}

  lemma FoldNext(ops: seq<Op>, op: Op)
    ensures Fold(ops + [op]) == ApplyTo(Fold(ops), op)
  {
    assert (ops + [op])[..|ops|] == ops;
  }

  lemma AcceptedNext(replies: seq<Reply>, r: Reply)
    ensures AcceptedOps(replies + [r]) == AcceptedOps(replies) + (if r.Accepted? then [r.op] else [])
  {
    assert (replies + [r])[..|replies|] == replies;
  }

  lemma RunNext(h: Hash, canon: OpLog.Canon, base: Session, sent: seq<Intent>, pos: nat)
    requires pos < |sent| && OpLog.TableInRange(base.log)
    ensures var (s, replies) := RunIntents(h, canon, base, sent[..pos]);
            var (s', r) := RunIntent(h, canon, s, sent[pos]);
            RunIntents(h, canon, base, sent[..pos + 1]) == (s', replies + [r])
  {
    assert sent[..pos + 1][..pos] == sent[..pos];
  }

  lemma ApplyOneKeeps(h: Hash, canon: OpLog.Canon, base: Session, s: Server)
    requires ServerOk(h, canon, base, s) && s.phase == Applying && s.pos < s.taken
    ensures OpLog.TableInRange(s.session.log) && ServerOk(h, canon, base, Applied(h, canon, s, s.sent[s.pos]))
  {
    hide OpLog.ValidState, Fold, RunIntents, AcceptedOps, RunIntent, OpLog.TableInRange;
    RunIntentKeeps(h, canon, s.session, s.sent[s.pos]);
    RunNext(h, canon, base, s.sent, s.pos);
    var (session, reply) := RunIntent(h, canon, s.session, s.sent[s.pos]);
    AcceptedNext(s.replies, reply);
    RepliesCount(h, canon, base, s.sent[..s.pos]);
    if reply.Accepted? { FoldNext(s.session.log.ops, reply.op); }
    assert s.session.log.ops + [] == s.session.log.ops;
  }

  lemma {:induction false} RepliesCount(h: Hash, canon: OpLog.Canon, base: Session, its: seq<Intent>)
    requires OpLog.TableInRange(base.log)
    ensures |RunIntents(h, canon, base, its).1| == |its|
  {
    if its != [] { RepliesCount(h, canon, base, its[..|its| - 1]); }
  }

  /** Accepted ops are the log, so their numbers are below its length. */
  lemma {:induction false} AcceptedBelow(replies: seq<Reply>, i: nat)
    requires i < |replies| && replies[i].Accepted?
    ensures replies[i].op in AcceptedOps(replies)
  {
    if i < |replies| - 1 {
      AcceptedBelow(replies[..|replies| - 1], i);
    }
  }

  lemma ReplyBelow(h: Hash, canon: OpLog.Canon, base: Session, s: Server, i: nat)
    requires ServerOk(h, canon, base, s) && i < |s.replies| && s.replies[i].Accepted?
    ensures s.replies[i].op.body.seqNo < |s.session.log.ops|
    ensures s.session.log.ops[s.replies[i].op.body.seqNo] == s.replies[i].op
  {
    hide OpLog.ValidState, Fold, RunIntents;
    AcceptedBelow(s.replies, i);
    assert s.replies[i].op in base.log.ops + AcceptedOps(s.replies);
    var j :| 0 <= j < |s.session.log.ops| && s.session.log.ops[j] == s.replies[i].op;
    ValidNumbered(h, canon, s.session.log);
  }

  lemma WakeKeeps(h: Hash, canon: OpLog.Canon, base: Session, s: Server)
    requires ServerOk(h, canon, base, s) && s.phase == Published && s.woken < s.taken
    ensures ServerOk(h, canon, base, Woken(s))
  {
    hide OpLog.ValidState, Fold, RunIntents, AcceptedOps;
    RepliesCount(h, canon, base, s.sent[..s.pos]);
    if s.woken < |s.replies| && s.replies[s.woken].Accepted? {
      ReplyBelow(h, canon, base, s, s.woken);
    }
  }

  /** Every step of every interleaving keeps the server in order. */
  lemma NextKeeps(h: Hash, canon: OpLog.Canon, base: Session, maxBatch: nat, s: Server, e: Step, s': Server)
    requires ServerOk(h, canon, base, s) && Next(h, canon, maxBatch, s, e, s')
    ensures ServerOk(h, canon, base, s')
  {
    hide OpLog.ValidState, Fold, RunIntents, AcceptedOps, RunIntent, Applied;
    match e
    case Enqueue(it) => assert s'.sent[..s.pos] == s.sent[..s.pos];
    case Drain(n) =>
    case ApplyOne => ApplyOneKeeps(h, canon, base, s);
    case Flush =>
    case Publish =>
    case Wake => WakeKeeps(h, canon, base, s);
  }

  /** The sequencer of a database just opened. */
  function Opened(base: Session): Server {
    Server([], 0, 0, 0, Applying, base, Fold(base.log.ops), [], |base.log.ops|, |base.log.ops| - 1)
  }

  lemma OpenedOk(h: Hash, canon: OpLog.Canon, base: Session)
    requires OpLog.ValidState(h, canon, base.log)
    ensures ServerOk(h, canon, base, Opened(base))
  {
    InRangeOf(h, canon, base.log);
    hide Fold, OpLog.ValidState;
    assert base.log.ops + [] == base.log.ops;
  }

  ghost predicate IsServerRun(h: Hash, canon: OpLog.Canon, base: Session, maxBatch: nat, ss: seq<Server>, es: seq<Step>) {
    && OpLog.ValidState(h, canon, base.log) && |ss| == |es| + 1 && ss[0] == Opened(base)
    && forall i :: 0 <= i < |es| ==> Next(h, canon, maxBatch, ss[i], es[i], ss[i + 1])
  }

  /** In every interleaving of clients and committer: the log holds exactly the
      accepted writes, once each, in queue order, as if they had been submitted
      one after the other; the state is its fold; and a woken writer's op is on
      disk and published. */
  lemma {:induction false} EveryServerOk(h: Hash, canon: OpLog.Canon, base: Session, maxBatch: nat, ss: seq<Server>, es: seq<Step>, i: nat)
    requires IsServerRun(h, canon, base, maxBatch, ss, es) && i < |ss|
    ensures ServerOk(h, canon, base, ss[i])
  {
    hide Next, ServerOk, Opened, OpLog.ValidState;
    if i > 0 {
      EveryServerOk(h, canon, base, maxBatch, ss, es, i - 1);
      assert Next(h, canon, maxBatch, ss[i - 1], es[i - 1], ss[i - 1 + 1]);
      NextKeeps(h, canon, base, maxBatch, ss[i - 1], es[i - 1], ss[i]);
    } else {
      OpenedOk(h, canon, base);
    }
  }

  // ---- progress is never taken back ----

  ghost predicate Later(s: Server, s': Server) {
    s.committed <= s'.committed && s.flushed <= s'.flushed && s.woken <= s'.woken
    && s.sent <= s'.sent && s.replies <= s'.replies && s.session.log.ops <= s'.session.log.ops
  }

  lemma NextLater(h: Hash, canon: OpLog.Canon, base: Session, maxBatch: nat, s: Server, e: Step, s': Server)
    requires ServerOk(h, canon, base, s) && Next(h, canon, maxBatch, s, e, s')
    ensures Later(s, s')
  {
    hide *;
    match e
    case ApplyOne =>
      AppliedLater(h, canon, base, maxBatch, s, s');
    case _ =>
      OtherLater(h, canon, base, maxBatch, s, e, s');
  }

  lemma AppliedLater(h: Hash, canon: OpLog.Canon, base: Session, maxBatch: nat, s: Server, s': Server)
    requires ServerOk(h, canon, base, s) && Next(h, canon, maxBatch, s, ApplyOne, s')
    ensures Later(s, s')
  {
    hide WokenServed, Fold, RunIntents, AcceptedOps, RunIntent, OpLog.ValidState, OpLog.TableInRange, DataAfter;
    RunIntentKeeps(h, canon, s.session, s.sent[s.pos]);
  }

  lemma OtherLater(h: Hash, canon: OpLog.Canon, base: Session, maxBatch: nat, s: Server, e: Step, s': Server)
    requires ServerOk(h, canon, base, s) && Next(h, canon, maxBatch, s, e, s') && !e.ApplyOne?
    ensures Later(s, s')
  {
    hide WokenServed, OpLog.TableInRange, OpLog.ValidState, Fold, RunIntents, AcceptedOps, Applied;
  }

  /** What is committed, flushed, woken, answered or logged stays so. */
  lemma {:induction false} ServerOnlyGrows(h: Hash, canon: OpLog.Canon, base: Session, maxBatch: nat, ss: seq<Server>, es: seq<Step>, i: nat, j: nat)
    requires IsServerRun(h, canon, base, maxBatch, ss, es) && i <= j < |ss|
    ensures Later(ss[i], ss[j])
    decreases j
  {
    hide Next, ServerOk, Later;
    if i < j {
      ServerOnlyGrows(h, canon, base, maxBatch, ss, es, i, j - 1);
      EveryServerOk(h, canon, base, maxBatch, ss, es, j - 1);
      assert Next(h, canon, maxBatch, ss[j - 1], es[j - 1], ss[j - 1 + 1]);
      NextLater(h, canon, base, maxBatch, ss[j - 1], es[j - 1], ss[j]);
      LaterTwice(ss[i], ss[j - 1], ss[j]);
    } else {
      LaterSelf(ss[i]);
    }
  }

  lemma LaterTwice(a: Server, b: Server, c: Server)
    requires Later(a, b) && Later(b, c)
    ensures Later(a, c)
  {}

  lemma LaterSelf(a: Server)
    ensures Later(a, a)
  {}

  // ---- snapshot isolation ----

  /** A read at a sequence number the log has reached sees the replay of the ops
      up to it, however much of a batch has been applied since. */
  lemma PinnedView(h: Hash, canon: OpLog.Canon, base: Session, s: Server, n: int)
    requires ServerOk(h, canon, base, s)
    ensures ViewAt(s.data, Some(n)) == ViewAt(Fold(OpLog.Prefix(s.session.log.ops, n)), None)
  {
    hide OpLog.ValidState, RunIntents, AcceptedOps, Fold, ViewAt;
    ValidNumbered(h, canon, s.session.log);
    TimeTravel(s.session.log.ops, n);
  }

  /** Snapshot isolation: a reader that pinned the committed number at one moment
      and reads at any later one sees the replay of the ops committed then. */
  lemma PinnedReads(h: Hash, canon: OpLog.Canon, base: Session, maxBatch: nat, ss: seq<Server>, es: seq<Step>, i: nat, j: nat)
    requires IsServerRun(h, canon, base, maxBatch, ss, es) && i <= j < |ss|
    ensures ViewAt(ss[j].data, Some(ss[i].committed)) == ViewAt(Fold(OpLog.Prefix(ss[i].session.log.ops, ss[i].committed)), None)
  {
    hide ServerOk, Next, Fold, ViewAt, IsServerRun;
    EveryServerOk(h, canon, base, maxBatch, ss, es, i);
    EveryServerOk(h, canon, base, maxBatch, ss, es, j);
    ServerOnlyGrows(h, canon, base, maxBatch, ss, es, i, j);
    PinnedView(h, canon, base, ss[j], ss[i].committed);
    SamePrefix(ss[i].session.log.ops, ss[j].session.log.ops, ss[i].committed);
    CommittedBelow(h, canon, base, ss[i]);
  }

  lemma CommittedBelow(h: Hash, canon: OpLog.Canon, base: Session, s: Server)
    requires ServerOk(h, canon, base, s)
    ensures s.committed < |s.session.log.ops|
  {}

  lemma SamePrefix(a: seq<Op>, b: seq<Op>, n: int)
    requires a <= b
    ensures n < |a| ==> OpLog.Prefix(a, n) == OpLog.Prefix(b, n)
  {}

  /** The log of a later moment holds the ops committed at the earlier one, and its
      fold is the data read then. */
  lemma PinnedLog(h: Hash, canon: OpLog.Canon, base: Session, maxBatch: nat, ss: seq<Server>, es: seq<Step>, i: nat, j: nat)
    requires IsServerRun(h, canon, base, maxBatch, ss, es) && i <= j < |ss|
    ensures Numbered(ss[j].session.log.ops, 0) && ss[j].data == Fold(ss[j].session.log.ops)
    ensures OpLog.Prefix(ss[j].session.log.ops, ss[i].committed) == OpLog.Prefix(ss[i].session.log.ops, ss[i].committed)
  {
    hide ServerOk, Next, Fold, IsServerRun;
    EveryServerOk(h, canon, base, maxBatch, ss, es, i);
    EveryServerOk(h, canon, base, maxBatch, ss, es, j);
    ServerOnlyGrows(h, canon, base, maxBatch, ss, es, i, j);
    SamePrefix(ss[i].session.log.ops, ss[j].session.log.ops, ss[i].committed);
    CommittedBelow(h, canon, base, ss[i]);
    DataIsFold(h, canon, base, ss[j]);
  }

  lemma DataIsFold(h: Hash, canon: OpLog.Canon, base: Session, s: Server)
    requires ServerOk(h, canon, base, s)
    ensures Numbered(s.session.log.ops, 0) && s.data == Fold(s.session.log.ops)
  {
    hide Fold, RunIntents, AcceptedOps;
    ValidNumbered(h, canon, s.session.log);
  }

  /** Snapshot isolation for executions: a plan pinned to the number committed at
      one moment and executed at any later one has the answers it has on a database
      that replayed the ops committed then, whatever equality indexes either has,
      unless one of that database's is asked for null while a matching document
      lacks the field; for a bare plan exactly then. */
  lemma PinnedQueries(h: Hash, canon: OpLog.Canon, base: Session, maxBatch: nat, ss: seq<Server>, es: seq<Step>, i: nat, j: nat,
                      tk: Tokenizer, mentions: Mentions, plan: Plan, names: set<string>, names': set<string>, fields: set<string>)
    requires IsServerRun(h, canon, base, maxBatch, ss, es) && i <= j < |ss|
    requires plan.asOf.None? && (!Searching(plan) || fields == {})
    ensures var n, replayed := ss[i].committed, Fold(OpLog.Prefix(ss[i].session.log.ops, ss[i].committed));
            && (NullSafe(tk, mentions, Heads(replayed.store), plan, names', fields) ==>
                  SameAnswers(tk, mentions, ss[j].data, names, plan.(asOf := Some(n)), replayed, names', plan, fields))
            && (Bare(plan) && SameAnswers(tk, mentions, ss[j].data, names, plan.(asOf := Some(n)), replayed, names', plan, fields) ==>
                  NullSafe(tk, mentions, Heads(replayed.store), plan, names', fields))
  {
    hide IsServerRun, Fold, NullSafe, SameAnswers, Heads, OpLog.Prefix;
    PinnedLog(h, canon, base, maxBatch, ss, es, i, j);
    var pinned := plan.(asOf := Some(ss[i].committed));
    assert pinned.(asOf := None) == plan;
    QueryTimeTravel(tk, mentions, ss[j].session.log.ops, ss[i].committed, pinned, names, names', fields);
  }

  /** Snapshot isolation for searches through the full-text indexes holds, whatever
      the text, if the documents in question are filed at the later moment under the
      tokens the committed ops had left them; for a bare plan exactly then. */
  lemma PinnedSearches(h: Hash, canon: OpLog.Canon, base: Session, maxBatch: nat, ss: seq<Server>, es: seq<Step>, i: nat, j: nat,
                       tk: Tokenizer, mentions: Mentions, plan: Plan, names: set<string>, names': set<string>, fields: set<string>)
    requires IsServerRun(h, canon, base, maxBatch, ss, es) && i <= j < |ss|
    requires plan.asOf == Some(ss[i].committed) && fields != {} && Tokenizes(tk)
    ensures var n, ops, before := ss[i].committed, ss[j].session.log.ops, OpLog.Prefix(ss[i].session.log.ops, ss[i].committed);
            var agree := forall k :: LeftEligible(ss[i].session.log.ops, n, plan, k) ==>
                           DocTokens(tk, LastLeft(before, k), fields) == DocTokens(tk, LastLeft(ops, k), fields);
            && ss[j].data == Fold(ops)
            && (agree ==> SearchesTravel(tk, mentions, ops, n, plan, names, names', fields))
            && (Bare(plan) && SearchesTravel(tk, mentions, ops, n, plan, names, names', fields) ==> agree)
  {
    hide IsServerRun, Fold, SearchesTravel, DocTokens, LastLeft, OpLog.Prefix, Passes, Bare;
    PinnedLog(h, canon, base, maxBatch, ss, es, i, j);
    SearchTimeTravel(tk, mentions, ss[j].session.log.ops, ss[i].committed, plan, names, names', fields);
    forall k ensures LeftEligible(ss[i].session.log.ops, ss[i].committed, plan, k) <==> LeftEligible(ss[j].session.log.ops, ss[i].committed, plan, k) {}
    hide LeftEligible;
  }

  /** Read your writes: once a writer is woken, its op is in the log at its own
      number, on disk, and part of every snapshot pinned from then on. */
  lemma ReadYourWrites(h: Hash, canon: OpLog.Canon, base: Session, maxBatch: nat, ss: seq<Server>, es: seq<Step>, i: nat, j: nat, k: nat)
    requires IsServerRun(h, canon, base, maxBatch, ss, es) && i <= j < |ss|
    requires k < ss[i].woken && k < |ss[i].replies| && ss[i].replies[k].Accepted?
    ensures var op := ss[i].replies[k].op;
            && op.body.seqNo < ss[j].flushed && op.body.seqNo <= ss[j].committed < |ss[j].session.log.ops|
            && ss[j].session.log.ops[op.body.seqNo] == op
            && op in OpLog.Prefix(ss[j].session.log.ops, ss[j].committed)
  {
    hide Next, Fold, IsServerRun, RunIntents, OpLog.ValidState;
    EveryServerOk(h, canon, base, maxBatch, ss, es, i);
    EveryServerOk(h, canon, base, maxBatch, ss, es, j);
    ServerOnlyGrows(h, canon, base, maxBatch, ss, es, i, j);
    ReplyBelow(h, canon, base, ss[i], k);
    var op := ss[i].replies[k].op;
    assert OpLog.Prefix(ss[j].session.log.ops, ss[j].committed)[op.body.seqNo] == op;
  }

  // ---- the committer ----

  /** Applying the writes from pos up to n, one after the other. */
  function AppliedUpTo(h: Hash, canon: OpLog.Canon, s: Server, n: nat): (t: Server)
    requires OpLog.TableInRange(s.session.log) && s.pos <= n <= |s.sent|
    ensures OpLog.TableInRange(t.session.log)
    decreases n - s.pos
  {
    if s.pos == n then s else
      var s' := Applied(h, canon, s, s.sent[s.pos]);
      AppliedUpTo(h, canon, s', n)
  }

  /** A whole batch of n writes. */
  function AfterBatch(h: Hash, canon: OpLog.Canon, s: Server, n: nat): Server
    requires OpLog.TableInRange(s.session.log) && s.pos <= s.taken && s.taken + n <= |s.sent|
  {
    Finished(AppliedUpTo(h, canon, s.(taken := s.taken + n), s.taken + n))
  }

  ghost predicate Reaches(h: Hash, canon: OpLog.Canon, maxBatch: nat, s: Server, es: seq<Step>, s': Server)
    decreases |es|
  {
    if es == [] then s' == s else exists m :: Next(h, canon, maxBatch, s, es[0], m) && Reaches(h, canon, maxBatch, m, es[1..], s')
  }

  lemma {:induction false} ReachesThrough(h: Hash, canon: OpLog.Canon, maxBatch: nat, s: Server, a: seq<Step>, m: Server, b: seq<Step>, s': Server)
    requires Reaches(h, canon, maxBatch, s, a, m) && Reaches(h, canon, maxBatch, m, b, s')
    ensures Reaches(h, canon, maxBatch, s, a + b, s')
    decreases |a|
  {
    if a == [] {
      assert a + b == b;
    } else {
      var x :| Next(h, canon, maxBatch, s, a[0], x) && Reaches(h, canon, maxBatch, x, a[1..], m);
      ReachesThrough(h, canon, maxBatch, x, a[1..], m, b, s');
      assert (a + b)[0] == a[0] && (a + b)[1..] == a[1..] + b;
    }
  }

  lemma ReachesOne(h: Hash, canon: OpLog.Canon, maxBatch: nat, s: Server, e: Step, s': Server)
    requires Next(h, canon, maxBatch, s, e, s')
    ensures Reaches(h, canon, maxBatch, s, [e], s')
  {
    hide Next;
    assert [e][1..] == [];
    assert Reaches(h, canon, maxBatch, s', [], s');
  }

  function Repeat(e: Step, n: nat): seq<Step> { if n == 0 then [] else [e] + Repeat(e, n - 1) }

  /** Applying changes the session, the state, the replies and the position only. */
  lemma {:induction false} AppliedKeepsRest(h: Hash, canon: OpLog.Canon, s: Server, n: nat)
    requires OpLog.TableInRange(s.session.log) && s.pos <= n <= |s.sent|
    ensures var t := AppliedUpTo(h, canon, s, n);
            t.sent == s.sent && t.taken == s.taken && t.pos == n && t.woken == s.woken && t.phase == s.phase
            && t.flushed == s.flushed && t.committed == s.committed
    decreases n - s.pos
  {
    if s.pos < n { AppliedKeepsRest(h, canon, Applied(h, canon, s, s.sent[s.pos]), n); }
  }

  lemma ApplyIsStep(h: Hash, canon: OpLog.Canon, base: Session, maxBatch: nat, s: Server)
    requires ServerOk(h, canon, base, s) && s.phase == Applying && s.pos < s.taken
    ensures OpLog.TableInRange(s.session.log)
    ensures var s' := Applied(h, canon, s, s.sent[s.pos]);
            && Next(h, canon, maxBatch, s, ApplyOne, s') && ServerOk(h, canon, base, s')
            && s'.phase == Applying && s'.pos == s.pos + 1 && s'.taken == s.taken && s'.sent == s.sent
  {
    ApplyOneKeeps(h, canon, base, s);
    hide ServerOk, RunIntent;
  }

  lemma {:induction false} ApplySteps(h: Hash, canon: OpLog.Canon, base: Session, maxBatch: nat, s: Server, n: nat)
    requires ServerOk(h, canon, base, s) && s.phase == Applying && s.pos <= n <= s.taken <= |s.sent|
    ensures OpLog.TableInRange(s.session.log)
    ensures Reaches(h, canon, maxBatch, s, Repeat(ApplyOne, n - s.pos), AppliedUpTo(h, canon, s, n))
    decreases n - s.pos
  {
    hide *;
    InRange(h, canon, base, s);
    AppliedUnfolds(h, canon, s, n);
    RepeatUnfolds(ApplyOne, n - s.pos);
    if s.pos < n {
      ApplyIsStep(h, canon, base, maxBatch, s);
      var s' := Applied(h, canon, s, s.sent[s.pos]);
      ApplySteps(h, canon, base, maxBatch, s', n);
      ReachesPrepends(h, canon, maxBatch, s, ApplyOne, s', Repeat(ApplyOne, n - s'.pos), AppliedUpTo(h, canon, s, n));
    } else {
      ReachesNone(h, canon, maxBatch, s);
    }
  }

  lemma AppliedUnfolds(h: Hash, canon: OpLog.Canon, s: Server, n: nat)
    requires OpLog.TableInRange(s.session.log) && s.pos <= n <= |s.sent|
    ensures s.pos == n ==> AppliedUpTo(h, canon, s, n) == s
    ensures s.pos < n ==> AppliedUpTo(h, canon, s, n) == AppliedUpTo(h, canon, Applied(h, canon, s, s.sent[s.pos]), n)
  {
    hide RunIntent;
  }

  lemma RepeatUnfolds(e: Step, n: nat)
    ensures Repeat(e, n) == if n == 0 then [] else [e] + Repeat(e, n - 1)
  {}

  lemma ReachesNone(h: Hash, canon: OpLog.Canon, maxBatch: nat, s: Server)
    ensures Reaches(h, canon, maxBatch, s, [], s)
  {}

  lemma ReachesPrepends(h: Hash, canon: OpLog.Canon, maxBatch: nat, s: Server, e: Step, m: Server, es: seq<Step>, s': Server)
    requires Next(h, canon, maxBatch, s, e, m) && Reaches(h, canon, maxBatch, m, es, s')
    ensures Reaches(h, canon, maxBatch, s, [e] + es, s')
  {
    hide Next;
    assert ([e] + es)[1..] == es;
  }

  lemma InRange(h: Hash, canon: OpLog.Canon, base: Session, s: Server)
    requires ServerOk(h, canon, base, s)
    ensures OpLog.TableInRange(s.session.log)
  {
    ValidNumbered(h, canon, s.session.log);
  }

  function WokenUpTo(s: Server, n: nat): Server
    requires s.woken <= n <= s.taken
  {
    s.(woken := n, phase := if n == s.taken then Applying else s.phase)
  }

  lemma {:induction false} WakeSteps(h: Hash, canon: OpLog.Canon, maxBatch: nat, s: Server)
    requires s.phase == Published && s.woken < s.taken
    ensures Reaches(h, canon, maxBatch, s, Repeat(Wake, s.taken - s.woken), WokenUpTo(s, s.taken))
    decreases s.taken - s.woken
  {
    var s' := Woken(s);
    assert Next(h, canon, maxBatch, s, Wake, s');
    RepeatUnfolds(Wake, s.taken - s.woken);
    RepeatUnfolds(Wake, 0);
    hide Reaches, Next, Repeat;
    if s'.woken == s.taken {
      ReachesNone(h, canon, maxBatch, s');
    } else {
      WakeSteps(h, canon, maxBatch, s');
    }
    ReachesPrepends(h, canon, maxBatch, s, Wake, s', Repeat(Wake, s.taken - s'.woken), WokenUpTo(s, s.taken));
  }

  /** A batch is a run of the protocol: drain, apply each, flush once, publish,
      wake each. */
  lemma BatchIsRun(h: Hash, canon: OpLog.Canon, base: Session, maxBatch: nat, s: Server, n: nat)
    requires ServerOk(h, canon, base, s) && Idle(s) && 1 <= n <= maxBatch && s.taken + n <= |s.sent|
    ensures OpLog.TableInRange(s.session.log)
    ensures Reaches(h, canon, maxBatch, s, [Drain(n)] + Repeat(ApplyOne, n) + [Flush] + [Publish] + Repeat(Wake, n), AfterBatch(h, canon, s, n))
  {
    hide *;
    var s1 := s.(taken := s.taken + n);
    DrainStep(h, canon, base, maxBatch, s, n);
    ApplySteps(h, canon, base, maxBatch, s1, s1.taken);
    AppliedKeepsRest(h, canon, s1, s1.taken);
    var s2 := AppliedUpTo(h, canon, s1, s1.taken);
    FinishBatch(h, canon, maxBatch, s2, n);
    ReachesThrough(h, canon, maxBatch, s, [Drain(n)], s1, Repeat(ApplyOne, n), s2);
    ReachesThrough(h, canon, maxBatch, s, [Drain(n)] + Repeat(ApplyOne, n), s2, [Flush] + [Publish] + Repeat(Wake, n), Finished(s2));
    Reassociate([Drain(n)] + Repeat(ApplyOne, n), [Flush], [Publish], Repeat(Wake, n));
    BatchIs(h, canon, s, n);
  }

  lemma BatchIs(h: Hash, canon: OpLog.Canon, s: Server, n: nat)
    requires OpLog.TableInRange(s.session.log) && s.pos <= s.taken && s.taken + n <= |s.sent|
    ensures AfterBatch(h, canon, s, n) == Finished(AppliedUpTo(h, canon, s.(taken := s.taken + n), s.taken + n))
  {
    hide OpLog.TableInRange, AppliedUpTo;
  }

  lemma DrainStep(h: Hash, canon: OpLog.Canon, base: Session, maxBatch: nat, s: Server, n: nat)
    requires ServerOk(h, canon, base, s) && Idle(s) && 1 <= n <= maxBatch && s.taken + n <= |s.sent|
    ensures var s1 := s.(taken := s.taken + n);
            && Reaches(h, canon, maxBatch, s, [Drain(n)], s1) && ServerOk(h, canon, base, s1) && OpLog.TableInRange(s.session.log)
            && s.phase == Applying && s.pos == s.taken == s.woken
  {
    hide ServerOk, Reaches;
    InRange(h, canon, base, s);
    var s1 := s.(taken := s.taken + n);
    NextKeeps(h, canon, base, maxBatch, s, Drain(n), s1);
    ReachesOne(h, canon, maxBatch, s, Drain(n), s1);
  }

  lemma Reassociate(a: seq<Step>, b: seq<Step>, c: seq<Step>, d: seq<Step>)
    ensures a + (b + c + d) == a + b + c + d
  {}

  /** Flushed, published and everyone woken. */
  function Finished(t: Server): Server {
    t.(flushed := |t.session.log.ops|, committed := |t.session.log.ops| - 1, woken := t.taken, phase := Applying)
  }

  lemma FinishBatch(h: Hash, canon: OpLog.Canon, maxBatch: nat, s: Server, n: nat)
    requires s.phase == Applying && s.pos == s.taken && n >= 1 && s.woken + n == s.taken
    ensures Reaches(h, canon, maxBatch, s, [Flush] + [Publish] + Repeat(Wake, n), Finished(s))
  {
    hide Reaches;
    var s3 := s.(phase := Synced, flushed := |s.session.log.ops|);
    ReachesOne(h, canon, maxBatch, s, Flush, s3);
    var s4 := s3.(phase := Published, committed := |s3.session.log.ops| - 1);
    ReachesOne(h, canon, maxBatch, s3, Publish, s4);
    WakeSteps(h, canon, maxBatch, s4);
    ReachesThrough(h, canon, maxBatch, s, [Flush], s3, [Publish], s4);
    ReachesThrough(h, canon, maxBatch, s, [Flush] + [Publish], s4, Repeat(Wake, n), WokenUpTo(s4, s4.taken));
  }

  lemma {:induction false} AppliedLast(h: Hash, canon: OpLog.Canon, s: Server, n: nat)
    requires OpLog.TableInRange(s.session.log) && s.pos <= n < |s.sent|
    ensures AppliedUpTo(h, canon, s, n + 1) == Applied(h, canon, AppliedUpTo(h, canon, s, n), s.sent[n])
    decreases n - s.pos
  {
    AppliedUnfolds(h, canon, s, n);
    AppliedUnfolds(h, canon, s, n + 1);
    hide AppliedUpTo, RunIntent;
    if s.pos < n {
      AppliedLast(h, canon, Applied(h, canon, s, s.sent[s.pos]), n);
    } else {
      AppliedUnfolds(h, canon, Applied(h, canon, s, s.sent[n]), n + 1);
    }
  }

  // ---- the indexes along the batches ----

  /** The collection is plainly named. */
  predicate NamedIntent(it: Intent) {
    match it
    case CreateIndex(coll, _, _) => Plain(coll)
    case Submit(_, _, Put(coll, _, _), _, _, _, _, _) => Plain(coll)
    case Submit(_, _, Delete(coll, _), _, _, _, _, _) => Plain(coll)
    case _ => true
  }

  /** What an answered intent does to the indexes. */
  function EventOf(it: Intent, r: Reply): seq<Event> {
    if it.CreateIndex? then [if it.search then CreateSearch(it.coll, it.field) else CreateEq(it.coll, it.field)]
    else if r.Accepted? then [Write(r.op)] else []
  }

  function EventsOf(its: seq<Intent>, replies: seq<Reply>): seq<Event>
    requires |its| == |replies|
  {
    if its == [] then []
    else
      var n := |its| - 1;
      EventsOf(its[..n], replies[..n]) + EventOf(its[n], replies[n])
  }

  ghost predicate ReachedBy(tk: Tokenizer, es: seq<Event>, db: Db) { exists dbs :: IsDbRun(tk, dbs, es) && dbs[|es|] == db }

  /** The database is what the answered intents make of an empty one. */
  ghost predicate Built(tk: Tokenizer, its: seq<Intent>, replies: seq<Reply>, db: Db) {
    |its| == |replies| && ((forall it :: it in its ==> NamedIntent(it)) ==> ReachedBy(tk, EventsOf(its, replies), db))
  }

  /** One intent, answered, took the database from db to db'. */
  ghost predicate Took(tk: Tokenizer, db: Db, it: Intent, r: Reply, db': Db) {
    NamedIntent(it) ==> if EventOf(it, r) == [] then db' == db else DbStep(tk, db, EventOf(it, r)[0], db')
  }

  lemma ReachedNext(tk: Tokenizer, es: seq<Event>, db: Db, e: Event, db': Db)
    requires ReachedBy(tk, es, db) && DbStep(tk, db, e, db')
    ensures ReachedBy(tk, es + [e], db')
  {
    hide DbStep;
    var dbs :| IsDbRun(tk, dbs, es) && dbs[|es|] == db;
    var dbs', es' := dbs + [db'], es + [e];
    forall i | 0 <= i < |es'| ensures DbStep(tk, dbs'[i], es'[i], dbs'[i + 1]) {
      if i < |es| { assert DbStep(tk, dbs[i], es[i], dbs[i + 1]); }
    }
    assert IsDbRun(tk, dbs', es');
  }

  lemma BuiltNone(tk: Tokenizer)
    ensures Built(tk, [], [], BLANK)
  {
    assert IsDbRun(tk, [BLANK], []);
  }

  lemma BuiltNext(tk: Tokenizer, its: seq<Intent>, replies: seq<Reply>, db: Db, it: Intent, r: Reply, db': Db)
    requires Built(tk, its, replies, db) && Took(tk, db, it, r, db')
    ensures Built(tk, its + [it], replies + [r], db')
  {
    hide DbStep, ReachedBy, NamedIntent;
    var more, answers, n := its + [it], replies + [r], |its|;
    assert more[..n] == its && answers[..n] == replies;
    if forall i :: i in more ==> NamedIntent(i) {
      assert it in more && forall i :: i in its ==> i in more;
      var es := EventsOf(its, replies);
      if EventOf(it, r) == [] {
        assert es + [] == es;
      } else {
        ReachedNext(tk, es, db, EventOf(it, r)[0], db');
        assert EventOf(it, r) == [EventOf(it, r)[0]];
      }
    }
  }

  lemma {:induction false} BackfilledKeys<K>(rows: Rows<K>, t: Terms<K>, docs: map<string, Doc>, coll: string, keys: seq<string>)
    requires forall k :: k in keys ==> k in docs
    ensures Backfill(rows, t, docs, coll, keys).Keys == rows.Keys
  {
    if keys != [] { BackfilledKeys(rows, t, docs, coll, keys[..|keys| - 1]); }
  }

  /** A step adds the name it creates, and no other. */
  lemma StepNames(tk: Tokenizer, db: Db, e: Event, db': Db)
    requires DbStep(tk, db, e, db')
    ensures db'.eq.Keys == db.eq.Keys + (if e.CreateEq? then {NameOf(e.coll, e.field)} else {})
    ensures db'.inv.Keys == db.inv.Keys + (if e.CreateSearch? then {NameOf(e.coll, e.field)} else {})
  {
    hide Backfill, IndexOp, NamedPlainly, Plain, LiveKeys, ApplyTo, Heads, NameOf;
    match e
    case Write(op) =>
      RefiledKeys(db.eq, EqTerms, Heads(db.data.store), op);
      RefiledKeys(db.inv, ByText(tk), Heads(db.data.store), op);
    case CreateEq(coll, field) =>
      var keys :| Backfilled(tk, db, Ensure(db.eq, NameOf(coll, field)), db.inv, coll, keys, db');
      BackfilledKeys(Ensure(db.eq, NameOf(coll, field)), EqTerms, Heads(db.data.store), coll, keys);
      BackfilledKeys(db.inv, ByText(tk), Heads(db.data.store), coll, keys);
    case CreateSearch(coll, field) =>
      var keys :| Backfilled(tk, db, db.eq, Ensure(db.inv, NameOf(coll, field)), coll, keys, db');
      BackfilledKeys(db.eq, EqTerms, Heads(db.data.store), coll, keys);
      BackfilledKeys(Ensure(db.inv, NameOf(coll, field)), ByText(tk), Heads(db.data.store), coll, keys);
  }

  /** The names a run creates. */
  function EqNames(es: seq<Event>): set<string> { set e | e in es && e.CreateEq? :: NameOf(e.coll, e.field) }

  function SearchNames(es: seq<Event>): set<string> { set e | e in es && e.CreateSearch? :: NameOf(e.coll, e.field) }

  lemma {:induction false} RunNames(tk: Tokenizer, dbs: seq<Db>, es: seq<Event>, n: nat)
    requires IsDbRun(tk, dbs, es) && n <= |es|
    ensures dbs[n].eq.Keys == EqNames(es[..n]) && dbs[n].inv.Keys == SearchNames(es[..n])
  {
    hide DbStep, NameOf;
    if n > 0 {
      RunNames(tk, dbs, es, n - 1);
      assert DbStep(tk, dbs[n - 1], es[n - 1], dbs[n - 1 + 1]);
      StepNames(tk, dbs[n - 1], es[n - 1], dbs[n]);
      assert es[..n] == es[..n - 1] + [es[n - 1]];
      NamesNext(es[..n - 1], es[n - 1]);
    }
  }

  lemma NamesNext(es: seq<Event>, e: Event)
    ensures EqNames(es + [e]) == EqNames(es) + (if e.CreateEq? then {NameOf(e.coll, e.field)} else {})
    ensures SearchNames(es + [e]) == SearchNames(es) + (if e.CreateSearch? then {NameOf(e.coll, e.field)} else {})
  {
    hide NameOf;
  }

  lemma {:induction false} EventsHave(its: seq<Intent>, replies: seq<Reply>, coll: string, field: string, search: bool)
    requires |its| == |replies|
    ensures (if search then CreateSearch(coll, field) else CreateEq(coll, field)) in EventsOf(its, replies) <==> CreateIndex(coll, field, search) in its
  {
    if its != [] {
      var n := |its| - 1;
      EventsHave(its[..n], replies[..n], coll, field, search);
      assert its == its[..n] + [its[n]];
    }
  }

  /** After any batches of plainly named intents, the indexes there are are exactly
      those asked for, each of the kind asked for, and every one says exactly what
      the live documents say; which is what an execution asks of them. */
  lemma IndexesServed(tk: Tokenizer, its: seq<Intent>, replies: seq<Reply>, db: Db, name: string)
    requires Built(tk, its, replies, db) && forall it :: it in its ==> NamedIntent(it)
    ensures Faithful(db.eq, EqTerms, Heads(db.data.store)) && Faithful(db.inv, ByText(tk), Heads(db.data.store)) && PlainKeys(Heads(db.data.store))
    ensures name in db.eq <==> exists coll, field :: CreateIndex(coll, field, false) in its && name == NameOf(coll, field)
    ensures name in db.inv <==> exists coll, field :: CreateIndex(coll, field, true) in its && name == NameOf(coll, field)
  {
    var es := EventsOf(its, replies);
    var dbs :| IsDbRun(tk, dbs, es) && dbs[|es|] == db;
    EveryIndexFaithful(tk, dbs, es, |es|);
    RunNames(tk, dbs, es, |es|);
    assert es[..|es|] == es;
    hide IsDbRun, Faithful, PlainKeys, Heads, EventsOf, NameOf, NamedIntent;
    forall coll, field ensures CreateEq(coll, field) in es <==> CreateIndex(coll, field, false) in its { EventsHave(its, replies, coll, field, false); }
    forall coll, field ensures CreateSearch(coll, field) in es <==> CreateIndex(coll, field, true) in its { EventsHave(its, replies, coll, field, true); }
    if name in db.eq {
      var e :| e in es && e.CreateEq? && name == NameOf(e.coll, e.field);
      assert CreateEq(e.coll, e.field) in es;
    }
    if name in db.inv {
      var e :| e in es && e.CreateSearch? && name == NameOf(e.coll, e.field);
      assert CreateSearch(e.coll, e.field) in es;
    }
  }

  // ---- nonces the database picks ----

  /** Over every run of writes that leave the nonce to the database, each without an
      idempotency key is accepted. */
  lemma {:induction false} AutoRun(h: Hash, canon: OpLog.Canon, base: Session, its: seq<Intent>)
    requires OpLog.TableInRange(base.log) && AutoAhead(base) && forall it :: it in its ==> (it.Submit? ==> it.nonce.None?)
    ensures AutoAhead(RunIntents(h, canon, base, its).0) && |RunIntents(h, canon, base, its).1| == |its|
    ensures forall i :: 0 <= i < |its| && its[i].Submit? && its[i].idem.None? ==> RunIntents(h, canon, base, its).1[i].Accepted?
  {
    if its != [] {
      hide RunIntent, AutoAhead, OpLog.TableInRange;
      var n := |its| - 1;
      AutoRun(h, canon, base, its[..n]);
      var s := RunIntents(h, canon, base, its[..n]).0;
      assert its[n] in its && forall it :: it in its[..n] ==> it in its;
      AutoStaysAhead(h, canon, s, its[n]);
      if its[n].Submit? && its[n].idem.None? {
        PlainWriteAccepted(h, canon, s, its[n]);
        AheadFor(s, its[n].client);
      }
    }
  }

  lemma AheadFor(s: Session, client: string)
    requires AutoAhead(s)
    ensures OpLog.LastNonce(s.log.lastNonce, client) <= (if client in s.auto then s.auto[client] else 0)
  {}

  lemma EmptyAhead()
    ensures AutoAhead(Session(OpLog.EMPTY, map[])) && OpLog.TableInRange(OpLog.EMPTY)
  {}

  class Sequencer {
    const db: Database
    const maxBatch: nat
    var queue: seq<Intent>
    var committed: int
    var replies: seq<Reply>
    var woken: nat
    /** Every write ever queued. */
    ghost var sent: seq<Intent>

    /** Between batches. */
    ghost predicate Valid()
      reads this, db, db.log, db.store, db.relations, db.indexes
    {
      && db.Valid() && maxBatch >= 1 && woken == |replies|
      && |sent| == woken + |queue| && sent[woken..] == queue
      && Built(db.indexes.tk, sent[..woken], replies, db.AbsDb())
    }

    ghost function Abs(): Server
      reads this, db, db.log, db.store, db.relations
    {
      Server(sent, woken, woken, woken, Applying, db.AbsSession(), db.AbsData(), replies, db.flushed, committed)
    }

    constructor (h: Hash, canon: OpLog.Canon, tk: Tokenizer, maxBatch: nat)
      requires maxBatch >= 1
      ensures Valid() && Abs() == Opened(Session(OpLog.EMPTY, map[])) && this.maxBatch == maxBatch
      ensures db.log.h == h && db.log.canon == canon
    {
      db := new Database(h, canon, tk);
      this.maxBatch := maxBatch;
      queue, committed, replies, woken, sent := [], -1, [], 0, [];
      BuiltNone(tk);
    }

    /** Queue a write. */
    method Enqueue(it: Intent)
      requires Valid()
      modifies this
      ensures Valid() && Abs() == old(Abs()).(sent := old(sent) + [it])
    {
      hide Built;
      assert (sent + [it])[..woken] == sent[..woken];
      queue := queue + [it];
      sent := sent + [it];
    }

    /** Carry out one write of a batch. */
    method ApplyOne(it: Intent) returns (reply: Reply)
      requires db.Valid()
      modifies db`auto, db`causeMap, db.log, db.store, db.relations, db.indexes
      ensures db.Valid()
      ensures (db.AbsSession(), reply) == RunIntent(db.log.h, db.log.canon, old(db.AbsSession()), it)
      ensures db.AbsData() == DataAfter(old(db.AbsData()), reply)
      ensures Took(db.indexes.tk, old(db.AbsDb()), it, reply, db.AbsDb())
    {
      hide TableOk, Paired, OpLog.TableInRange, Backfill, Took, CauseMap, Faithful, LiveKeys;
      ghost var before := db.AbsDb();
      if it.CreateIndex? {
        if it.search {
          CreateSearchIndex(db.store, db.indexes, it.coll, it.field);
        } else {
          CreateEqIndex(db.store, db.indexes, it.coll, it.field);
        }
        IndexTook(db.indexes.tk, before, it, db.AbsDb());
        return Indexed;
      }
      reply := db.Apply(it);
      WriteTook(db.log.h, db.log.canon, db.indexes.tk, old(db.AbsSession()), before, it, reply, db.AbsDb());
    }

    /** Take the queued writes, up to maxBatch. */
    method Drain() returns (batch: seq<Intent>)
      requires queue != [] && maxBatch >= 1
      modifies this`queue
      ensures batch + queue == old(queue)
      ensures |batch| == if |old(queue)| < maxBatch then |old(queue)| else maxBatch
    {
      batch := [queue[0]];
      queue := queue[1..];
      while |batch| < maxBatch && queue != []
        invariant batch + queue == old(queue) && 1 <= |batch| <= maxBatch
        decreases |queue|
      {
        batch := batch + [queue[0]];
        queue := queue[1..];
      }
    }

    /** Wake the writers of the batch, in order. */
    method WakeAll()
      requires woken <= |replies|
      modifies this`woken
      ensures woken == |replies|
    {
      while woken < |replies|
        invariant woken <= |replies|
      {
        woken := woken + 1;
      }
    }

    /** Drain up to maxBatch writes, apply each, flush once, publish, wake. */
    method CommitBatch()
      requires Valid() && queue != []
      modifies this, db, db.log, db.store, db.relations, db.indexes
      ensures Valid()
      ensures Abs() == AfterBatch(db.log.h, db.log.canon, old(Abs()), if |old(queue)| < maxBatch then |old(queue)| else maxBatch)
    {
      hide *;
      ValidParts();
      ghost var s0 := Abs();
      AbsIs();
      ghost var before := sent[..woken];
      var batch := Drain();
      ghost var n := |batch|;
      ghost var s1 := s0.(taken := s0.taken + n);
      SentSplits(sent, woken, batch, queue);
      ApplyBatch(batch, s1, before);
      db.Flush();
      committed := |db.log.ops| - 1;
      WakeAll();
      MakeValid();
      AbsIs();
      AppliedKeepsRest(db.log.h, db.log.canon, s1, s1.taken);
      FinishedIs(AppliedUpTo(db.log.h, db.log.canon, s1, s1.taken));
      BatchIs(db.log.h, db.log.canon, s0, n);
    }

    lemma ValidParts()
      requires Valid()
      ensures db.Valid() && maxBatch >= 1 && woken == |replies| && |sent| == woken + |queue| && sent[woken..] == queue
      ensures Built(db.indexes.tk, sent[..woken], replies, db.AbsDb()) && OpLog.TableInRange(Abs().session.log)
    {
      hide Built;
    }

    lemma MakeValid()
      requires db.Valid() && maxBatch >= 1 && woken == |replies| && |sent| == woken + |queue| && sent[woken..] == queue
      requires Built(db.indexes.tk, sent[..woken], replies, db.AbsDb())
      ensures Valid()
    {
      hide Built;
    }

    lemma AbsIs()
      ensures Abs() == Server(sent, woken, woken, woken, Applying, db.AbsSession(), db.AbsData(), replies, db.flushed, committed)
      ensures Abs().session.log.ops == db.log.ops
    {}

    /** Apply the writes of a batch in order. */
    method ApplyBatch(batch: seq<Intent>, ghost s1: Server, ghost before: seq<Intent>)
      requires db.Valid() && OpLog.TableInRange(s1.session.log) && s1.pos + |batch| <= |s1.sent| && batch == s1.sent[s1.pos..s1.pos + |batch|]
      requires s1.session == db.AbsSession() && s1.data == db.AbsData() && s1.replies == replies
      requires Built(db.indexes.tk, before, replies, db.AbsDb())
      modifies this`replies, db`auto, db`causeMap, db.log, db.store, db.relations, db.indexes
      ensures db.Valid()
      ensures var t := AppliedUpTo(db.log.h, db.log.canon, s1, s1.pos + |batch|);
              t.session == db.AbsSession() && t.data == db.AbsData() && t.replies == replies
      ensures |replies| == old(|replies|) + |batch|
      ensures Built(db.indexes.tk, before + batch, replies, db.AbsDb())
    {
      hide *;
      assert before + batch[..0] == before;
      AppliedUnfolds(db.log.h, db.log.canon, s1, s1.pos);
      for i := 0 to |batch|
        invariant db.Valid() && |replies| == old(|replies|) + i
        invariant Built(db.indexes.tk, before + batch[..i], replies, db.AbsDb())
        invariant var t := AppliedUpTo(db.log.h, db.log.canon, s1, s1.pos + i);
                  t.session == db.AbsSession() && t.data == db.AbsData() && t.replies == replies
      {
        ghost var t := AppliedUpTo(db.log.h, db.log.canon, s1, s1.pos + i);
        AppliedLast(db.log.h, db.log.canon, s1, s1.pos + i);
        AppliedParts(db.log.h, db.log.canon, t, batch[i]);
        ghost var was := db.AbsDb();
        var reply := ApplyOne(batch[i]);
        BuiltNext(db.indexes.tk, before + batch[..i], replies, was, batch[i], reply, db.AbsDb());
        assert before + batch[..i + 1] == before + batch[..i] + [batch[i]];
        replies := replies + [reply];
      }
      assert batch[..|batch|] == batch;
    }

    /** A query, pinned to the committed number unless it names one. */
    method Query(mentions: Mentions, plan: Plan) returns (result: Result)
      requires Valid() && Plain(plan.coll) && forall it :: it in sent[..woken] ==> NamedIntent(it)
      ensures var pinned := if plan.asOf.None? then plan.(asOf := Some(committed)) else plan;
              CanAnswer(db.indexes.tk, mentions, db.AbsData(), db.indexes.eq.Keys, SearchFieldsOf(db.indexes.inv, plan.coll), pinned, result)
    {
      hide Built, CanAnswer, Faithful, PlainKeys, Heads, NamedIntent;
      IndexesServed(db.indexes.tk, sent[..woken], replies, db.AbsDb(), "");
      result := Execute(db.store, db.relations, db.indexes, mentions, if plan.asOf.None? then plan.(asOf := Some(committed)) else plan);
    }
  }

  lemma FinishedIs(t: Server)
    ensures Finished(t) == t.(flushed := |t.session.log.ops|, committed := |t.session.log.ops| - 1, woken := t.taken, phase := Applying)
  {}

  /** Taking the next intents off the queue. */
  lemma SentSplits(sent: seq<Intent>, woken: nat, batch: seq<Intent>, rest: seq<Intent>)
    requires woken <= |sent| && sent[woken..] == batch + rest
    ensures |sent| == woken + |batch| + |rest| && batch == sent[woken..woken + |batch|]
    ensures sent[..woken + |batch|] == sent[..woken] + batch && sent[woken + |batch|..] == rest
  {
    assert |sent[woken..]| == |batch| + |rest|;
    assert sent == sent[..woken] + (batch + rest);
  }

  lemma IndexTook(tk: Tokenizer, db: Db, it: Intent, db': Db)
    requires it.CreateIndex? && db'.data == db.data
    requires exists keys :: LiveKeys(db.data.store, it.coll, keys) && (forall k :: k in keys ==> k in Heads(db.data.store))
               && db'.eq == Backfill(if it.search then db.eq else Ensure(db.eq, NameOf(it.coll, it.field)), EqTerms, Heads(db.data.store), it.coll, keys)
               && db'.inv == Backfill(if it.search then Ensure(db.inv, NameOf(it.coll, it.field)) else db.inv, ByText(tk), Heads(db.data.store), it.coll, keys)
    ensures Took(tk, db, it, Indexed, db')
  {
    hide Backfill, LiveKeys, Heads, NameOf, Ensure, Plain;
    var keys :| LiveKeys(db.data.store, it.coll, keys) && (forall k :: k in keys ==> k in Heads(db.data.store))
                && db'.eq == Backfill(if it.search then db.eq else Ensure(db.eq, NameOf(it.coll, it.field)), EqTerms, Heads(db.data.store), it.coll, keys)
                && db'.inv == Backfill(if it.search then Ensure(db.inv, NameOf(it.coll, it.field)) else db.inv, ByText(tk), Heads(db.data.store), it.coll, keys);
    assert Backfilled(tk, db, if it.search then db.eq else Ensure(db.eq, NameOf(it.coll, it.field)),
                      if it.search then Ensure(db.inv, NameOf(it.coll, it.field)) else db.inv, it.coll, keys, db');
  }

  lemma WriteTook(h: Hash, canon: OpLog.Canon, tk: Tokenizer, s: Session, db: Db, it: Intent, r: Reply, db': Db)
    requires it.Submit? && OpLog.TableInRange(s.log) && r == RunIntent(h, canon, s, it).1
    requires !r.Accepted? ==> db' == db
    requires r.Accepted? && NamedPlainly(r.op) ==> DbStep(tk, db, Write(r.op), db')
    ensures Took(tk, db, it, r, db')
  {
    hide DbStep, OpLog.TableInRange, Dressed, Plain;
  }

  lemma AppliedParts(h: Hash, canon: OpLog.Canon, t: Server, it: Intent)
    requires OpLog.TableInRange(t.session.log)
    ensures var (session, reply) := RunIntent(h, canon, t.session, it);
            var t' := Applied(h, canon, t, it);
            t'.session == session && t'.data == DataAfter(t.data, reply) && t'.replies == t.replies + [reply]
  {
    hide RunIntent, DataAfter;
  }
}
