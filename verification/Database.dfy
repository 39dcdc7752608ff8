/** The database object: resolve a write, append it to the log, fold it
    (python/nedb/engine.py). */
module Database {
  import opened Hashing
  import opened Ops
  import opened MvccStore
  import opened RelationGraph
  import opened FieldIndexes
  import opened Engine
  import opened Trace
  import OpLog

  /** A write as a client hands it in; without a nonce the database picks one. */
  datatype Intent =
    | Submit(client: string, nonce: Option<int>, action: Action, ts: int, idem: Option<string>,
             causedBy: Option<seq<nat>>, validFrom: Option<string>, validTo: Option<string>)
    | CreateIndex(coll: string, field: string, search: bool)

  /** What the client is answered. */
  datatype Reply = Accepted(op: Op) | Known(op: Op) | Refused | Indexed

  /** The log and the table nonces are picked from. */
  datatype Session = Session(log: OpLog.State, auto: map<string, int>)

  function SetIf(doc: Doc, f: string, v: Option<Value>): Doc { if v.Some? then doc[f := v.value] else doc }

  function Text(s: Option<string>): Option<Value> { if s.Some? then Some(Str(s.value)) else None }

  /** The stored document: its id, and the provenance and valid time mirrored in. */
  function Dressed(doc: Doc, id: string, causedBy: Option<seq<nat>>, validFrom: Option<string>, validTo: Option<string>): Doc {
    var d1 := if "_id" in doc then doc else doc["_id" := Str(id)];
    var d2 := SetIf(d1, "_caused_by", if causedBy.Some? then Some(Seqs(causedBy.value)) else None);
    SetIf(SetIf(d2, "_valid_from", Text(validFrom)), "_valid_to", Text(validTo))
  }

  /** The action that is logged. */
  function Logged(it: Intent): Action
    requires it.Submit?
  {
    match it.action
    case Put(coll, id, doc) => Put(coll, id, Dressed(doc, id, it.causedBy, it.validFrom, it.validTo))
    case a => a
  }

  function NextNonce(auto: map<string, int>, client: string): int { (if client in auto then auto[client] else 0) + 1 }

  function NonceOf(auto: map<string, int>, it: Intent): int
    requires it.Submit?
  {
    if it.nonce.Some? then it.nonce.value else NextNonce(auto, it.client)
  }

  function AutoAfter(auto: map<string, int>, it: Intent): map<string, int> {
    if it.Submit? && it.nonce.None? then auto[it.client := NextNonce(auto, it.client)] else auto
  }

  function RequestOf(auto: map<string, int>, it: Intent): Request
    requires it.Submit?
  {
    Request(it.client, NonceOf(auto, it), Logged(it), it.ts, it.idem, it.causedBy, it.validFrom, it.validTo)
  }

  function ReplyOf(o: OpLog.Outcome): Reply {
    match o
    case Appended(op) => Accepted(op)
    case Duplicate(op) => Known(op)
    case Stale => Refused
  }

  /** One write, start to finish. */
  function RunIntent(h: Hash, canon: OpLog.Canon, s: Session, it: Intent): (Session, Reply)
    requires OpLog.TableInRange(s.log)
  {
    if it.CreateIndex? then (s, Indexed)
    else
      var (log', o) := OpLog.AppendTo(h, canon, s.log, RequestOf(s.auto, it));
      (Session(log', AutoAfter(s.auto, it)), ReplyOf(o))
  }

  function DataAfter(d: Data, r: Reply): Data { if r.Accepted? then ApplyTo(d, r.op) else d }

  /** The logged document: what was handed in, but for its id, the provenance
      TRACE relies on, and the valid time. */
  lemma DressedMeans(it: Intent, f: string)
    requires it.Submit? && it.action.Put?
    ensures var given, doc := it.action.doc, Logged(it).doc;
            && (f !in {"_id", "_caused_by", "_valid_from", "_valid_to"} ==> (f in doc <==> f in given) && (f in given ==> doc[f] == given[f]))
            && "_id" in doc && doc["_id"] == (if "_id" in given then given["_id"] else Str(it.action.id))
            && (it.causedBy.Some? ==> "_caused_by" in doc && doc["_caused_by"] == Seqs(it.causedBy.value))
            && (it.validFrom.Some? ==> "_valid_from" in doc && doc["_valid_from"] == Str(it.validFrom.value))
            && (it.validTo.Some? ==> "_valid_to" in doc && doc["_valid_to"] == Str(it.validTo.value))
  {
    assert |"_id"| != |"_caused_by"| && |"_valid_from"| != |"_valid_to"|;
  }

  /** How a write is answered, said of the log alone: a known idempotency key is
      answered with the op that carries it; a nonce that is not positive or that the
      client has reached is refused; anything else is logged as a new op. */
  lemma ReplyMeans(h: Hash, canon: OpLog.Canon, s: Session, it: Intent)
    requires OpLog.ValidState(h, canon, s.log) && it.Submit?
    ensures OpLog.TableInRange(s.log)
    ensures var (s', r) := RunIntent(h, canon, s, it);
            var n := if it.nonce.Some? then it.nonce.value else (if it.client in s.auto then s.auto[it.client] else 0) + 1;
            var known := it.idem.Some? && exists i :: 0 <= i < |s.log.ops| && s.log.ops[i].body.req.idem == it.idem;
            var reached := n <= 0 || exists i :: 0 <= i < |s.log.ops| && s.log.ops[i].body.req.client == it.client
                                                 && s.log.ops[i].body.req.nonce >= n;
            && (r.Known? <==> known) && (known ==> r.op in s.log.ops && r.op.body.req.idem == it.idem)
            && (r.Refused? <==> !known && reached)
            && (r.Accepted? ==> s'.log.ops == s.log.ops + [r.op] && r.op.body.seqNo == |s.log.ops| && r.op.body.req.client == it.client
                                && r.op.body.req.nonce == n && r.op.body.req.idem == it.idem)
            && (!r.Accepted? ==> s'.log == s.log)
  {
    OpLog.OutcomeMeans(h, canon, s.log, RequestOf(s.auto, it));
    hide OpLog.ValidState, OpLog.AppendTo, Logged;
  }

  /** The table nonces are picked from is not behind the log. */
  ghost predicate AutoAhead(s: Session) {
    forall client: string :: OpLog.LastNonce(s.log.lastNonce, client) <= (if client in s.auto then s.auto[client] else 0)
  }

  /** A write with neither nonce nor idempotency key is accepted exactly if that
      table is not behind for its client. */
  lemma PlainWriteAccepted(h: Hash, canon: OpLog.Canon, s: Session, it: Intent)
    requires OpLog.TableInRange(s.log) && it.Submit? && it.nonce.None? && it.idem.None?
    ensures RunIntent(h, canon, s, it).1.Accepted? <==>
              OpLog.LastNonce(s.log.lastNonce, it.client) <= (if it.client in s.auto then s.auto[it.client] else 0)
  {}

  /** Writes that leave the nonce to the database keep the table ahead. */
  lemma AutoStaysAhead(h: Hash, canon: OpLog.Canon, s: Session, it: Intent)
    requires OpLog.TableInRange(s.log) && AutoAhead(s) && (it.Submit? ==> it.nonce.None?)
    ensures AutoAhead(RunIntent(h, canon, s, it).0)
  {
    hide Logged, OpLog.ChainInput;
  }

  /** The provenance handed in is what both traversals of it read: the op's causes and
      those the stored document tells. */
  lemma ProvenanceIsKept(auto: map<string, int>, it: Intent, seqNo: nat, prev: Digest, hash: Digest)
    requires it.Submit? && it.action.Put? && it.causedBy.Some?
    ensures var op := Op(Body(seqNo, RequestOf(auto, it)), prev, hash);
            op.body.req.action.Put? && CausesOf(op) == it.causedBy.value && DocCauses(OpDoc(op)) == it.causedBy.value
  {
    DressedMeans(it, "_caused_by");
    hide Dressed;
    StoredMeans(Logged(it).doc, seqNo, "_caused_by");
  }

  class Database {
    const log: OpLog.Log
    const store: Store
    const relations: Relations
    const indexes: Indexes
    var auto: map<string, int>
    /** cause to the ops that cite it. */
    var causeMap: map<nat, seq<nat>>
    /** How many ops are on disk. */
    var flushed: nat

    ghost predicate Valid()
      reads this, log, store
    {
      OpLog.TableInRange(log.Abs()) && store.Valid() && TableOk(store.v, |log.ops|) && causeMap == CauseMap(log.ops)
    }

    ghost function AbsSession(): Session
      reads this, log
    {
      Session(log.Abs(), auto)
    }

    ghost function AbsData(): Data
      reads store, relations
    {
      Data(store.v, relations.Abs())
    }

    ghost function AbsDb(): Db
      reads store, relations, indexes
    {
      Db(AbsData(), indexes.eq, indexes.inv)
    }

    constructor (h: Hash, canon: OpLog.Canon, tk: Tokenizer)
      ensures Valid() && AbsSession() == Session(OpLog.EMPTY, map[]) && AbsDb() == BLANK && flushed == 0
      ensures log.h == h && log.canon == canon && indexes.tk == tk
      ensures fresh(log) && fresh(store) && fresh(relations) && fresh(indexes)
    {
      log := new OpLog.Log(h, canon);
      store := new Store();
      relations := new Relations();
      indexes := new Indexes(tk);
      auto, causeMap := map[], map[];
      flushed := 0;
    }

    /** Submit one write: a new op is logged and folded, a known or stale one
        changes nothing but the nonce table. */
    method Apply(it: Intent) returns (reply: Reply)
      requires Valid() && it.Submit?
      modifies this`auto, this`causeMap, log, store, relations, indexes
      ensures Valid()
      ensures (AbsSession(), reply) == RunIntent(log.h, log.canon, old(AbsSession()), it)
      ensures AbsData() == DataAfter(old(AbsData()), reply)
      ensures !reply.Accepted? ==> AbsDb() == old(AbsDb())
      ensures reply.Accepted? && NamedPlainly(reply.op) ==> DbStep(indexes.tk, old(AbsDb()), Write(reply.op), AbsDb())
    {
      hide DbStep, StoreOp, GraphOp, IndexOp, TableOk, Paired, OpLog.TableInRange, Logged, Heads, NamedPlainly, CauseMap;
      var nonce := if it.nonce.Some? then it.nonce.value else NextNonce(auto, it.client);
      if it.nonce.None? {
        auto := auto[it.client := nonce];
      }
      var r := Request(it.client, nonce, Logged(it), it.ts, it.idem, it.causedBy, it.validFrom, it.validTo);
      ghost var before, n := AbsDb(), |log.ops|;
      var out := log.Append(r);
      match out {
        case Appended(op) =>
          ApplyOp(store, relations, indexes, op);
          causeMap := NoteCauses(causeMap, old(log.ops), op);
          TableGrows(before.data.store, op);
          StepHolds(indexes.tk, before, op);
          reply := Accepted(op);
        case Duplicate(op) => reply := Known(op);
        case Stale => reply := Refused;
      }
    }

    /** Make everything appended so far durable. */
    method Flush()
      requires Valid()
      modifies this`flushed
      ensures Valid() && flushed == |log.ops|
      ensures AbsSession() == old(AbsSession()) && AbsDb() == old(AbsDb()) && AbsData() == old(AbsData())
    {
      hide TableOk, OpLog.TableInRange, CauseMap;
      flushed := |log.ops|;
    }
  }

  lemma TableGrows(t: Table, op: Op)
    requires TableOk(t, op.body.seqNo)
    ensures TableOk(StoreOp(t, op), op.body.seqNo + 1)
  {
    hide TableOk, Append;
    TableLater(t, op.body.seqNo);
    match op.body.req.action
    case Put(coll, id, doc) => AppendTable(t, KeyOf(coll, id), Version(op.body.seqNo, Some(Stored(doc, op.body.seqNo))));
    case Delete(coll, id) => AppendTable(t, KeyOf(coll, id), Version(op.body.seqNo, None));
    case _ =>
  }

  lemma StepHolds(tk: Tokenizer, db: Db, op: Op)
    ensures NamedPlainly(op) ==>
              DbStep(tk, db, Write(op), Db(ApplyTo(db.data, op), IndexOp(db.eq, EqTerms, Heads(db.data.store), op),
                                           IndexOp(db.inv, ByText(tk), Heads(db.data.store), op)))
  {
    hide NamedPlainly, ApplyTo, IndexOp;
  }
}
