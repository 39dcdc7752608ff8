/** The append-only, hash-chained, nonce-enforced, idempotent log (python/nedb/log.py). */
module OpLog {
  import opened Hashing
  import opened Ops

  const GENESIS: Digest := 0

  /** Canonical encoding of an op body; foreign code, so a parameter. */
  type Canon = Body -> Bytes

  function Encode(canon: Canon, b: Body): Bytes { canon(b) }

  /** The string `append` and `verify` hash for one op. */
  function ChainInput(canon: Canon, prev: Digest, b: Body): Bytes {
    HexOf(prev) + Encode(canon, b)
  }

  function HeadOf(ops: seq<Op>): Digest {
    if ops == [] then GENESIS else ops[|ops| - 1].hash
  }

  datatype State = State(ops: seq<Op>, lastNonce: map<string, int>, idem: map<string, nat>, head: Digest)

  datatype Outcome = Appended(op: Op) | Duplicate(op: Op) | Stale

  function LastNonce(t: map<string, int>, client: string): int {
    if client in t then t[client] else 0
  }

  /** The idempotency table points into the log. */
  predicate TableInRange(s: State) {
    forall k :: k in s.idem ==> s.idem[k] < |s.ops|
  }

  function AppendTo(h: Hash, canon: Canon, s: State, r: Request): (res: (State, Outcome))
    requires TableInRange(s)
  {
    if r.idem.Some? && r.idem.value in s.idem then
      (s, Duplicate(s.ops[s.idem[r.idem.value]]))
    else if r.nonce <= LastNonce(s.lastNonce, r.client) then
      (s, Stale)
    else
      var body := Body(|s.ops|, r);
      var op := Op(body, s.head, Blake(h, ChainInput(canon, s.head, body)));
      (State(s.ops + [op], s.lastNonce[r.client := r.nonce],
             if r.idem.Some? then s.idem[r.idem.value := |s.ops|] else s.idem, op.hash),
       Appended(op))
  }

  // ---- what `load` rebuilds from the ops alone ----

  function NoncesOf(ops: seq<Op>): map<string, int> {
    if ops == [] then map[]
    else
      var t, r := NoncesOf(ops[..|ops| - 1]), ops[|ops| - 1].body.req;
      if r.nonce > LastNonce(t, r.client) then t[r.client := r.nonce] else t
  }

  function IdemsOf(ops: seq<Op>): map<string, nat> {
    if ops == [] then map[]
    else
      var t, b := IdemsOf(ops[..|ops| - 1]), ops[|ops| - 1].body;
      if b.req.idem.Some? && b.req.idem.value !in t then t[b.req.idem.value := b.seqNo] else t
  }

  function LoadOf(ops: seq<Op>): State {
    State(ops, NoncesOf(ops), IdemsOf(ops), HeadOf(ops))
  }

  // ---- the chain ----

  /** One op is hashed over its predecessor's hash and its own body. */
  predicate Linked(h: Hash, canon: Canon, prev: Digest, o: Op) {
    o.prevHash == prev && o.hash == Blake(h, ChainInput(canon, prev, o.body))
  }

  /** What `verify` re-walks: an unbroken chain from the genesis value. */
  ghost predicate Verifies(h: Hash, canon: Canon, ops: seq<Op>) {
    ops == [] ||
    var front, last := ops[..|ops| - 1], ops[|ops| - 1];
    Verifies(h, canon, front) && Linked(h, canon, HeadOf(front), last)
  }

  /** What replay protection, idempotency and sequencing promise of a log. */
  ghost predicate Disciplined(ops: seq<Op>) {
    && (forall i :: 0 <= i < |ops| ==> ops[i].body.seqNo == i && ops[i].body.req.nonce > 0)
    && (forall i, j :: 0 <= i < j < |ops| && ops[i].body.req.client == ops[j].body.req.client
          ==> ops[i].body.req.nonce < ops[j].body.req.nonce)
    && (forall i, j :: 0 <= i < j < |ops| && ops[i].body.req.idem.Some?
          ==> ops[i].body.req.idem != ops[j].body.req.idem)
  }

  /** The two tables say what the ops say. */
  ghost predicate TablesMean(s: State) {
    && (forall i :: 0 <= i < |s.ops| ==> s.ops[i].body.req.nonce <= LastNonce(s.lastNonce, s.ops[i].body.req.client))
    && (forall k :: k in s.lastNonce ==> s.lastNonce[k] > 0)
    && (forall k :: k in s.idem ==> s.idem[k] < |s.ops| && s.ops[s.idem[k]].body.req.idem == Some(k))
    && (forall i :: 0 <= i < |s.ops| && s.ops[i].body.req.idem.Some? ==> s.ops[i].body.req.idem.value in s.idem)
  }

  ghost predicate ValidState(h: Hash, canon: Canon, s: State) {
    s == LoadOf(s.ops) && TablesMean(s) && Disciplined(s.ops) && Verifies(h, canon, s.ops)
  }

  const EMPTY: State := State([], map[], map[], GENESIS)

  lemma AppendKeepsTables(h: Hash, canon: Canon, s: State, r: Request)
    requires TablesMean(s) && (forall i :: 0 <= i < |s.ops| ==> s.ops[i].body.req.nonce > 0)
    ensures TablesMean(AppendTo(h, canon, s, r).0)
  {
  }

  lemma AppendKeepsDiscipline(h: Hash, canon: Canon, s: State, r: Request)
    requires TablesMean(s) && Disciplined(s.ops)
    ensures Disciplined(AppendTo(h, canon, s, r).0.ops)
  {
    hide ChainInput;
    var (s', out) := AppendTo(h, canon, s, r);
    if out.Appended? {
      assert s'.ops == s.ops + [out.op] && out.op.body == Body(|s.ops|, r);
      hide AppendTo;
      LastNonceSigned(s, r.client);
      NewRequest(s, r);
      hide TablesMean, LastNonce;
      DisciplineExtends(s.ops, out.op);
    }
  }

  /** The request repeats no nonce its client used, and no idempotency key. */
  lemma NewRequest(s: State, r: Request)
    requires TablesMean(s) && r.nonce > LastNonce(s.lastNonce, r.client) && !(r.idem.Some? && r.idem.value in s.idem)
    ensures forall i :: 0 <= i < |s.ops| && s.ops[i].body.req.client == r.client ==> s.ops[i].body.req.nonce < r.nonce
    ensures forall i :: 0 <= i < |s.ops| && s.ops[i].body.req.idem.Some? ==> s.ops[i].body.req.idem != r.idem
  {}

  lemma DisciplineExtends(ops: seq<Op>, op: Op)
    requires Disciplined(ops) && op.body.seqNo == |ops| && op.body.req.nonce > 0
    requires forall i :: 0 <= i < |ops| && ops[i].body.req.client == op.body.req.client ==> ops[i].body.req.nonce < op.body.req.nonce
    requires forall i :: 0 <= i < |ops| && ops[i].body.req.idem.Some? ==> ops[i].body.req.idem != op.body.req.idem
    ensures Disciplined(ops + [op])
  {}

  lemma LastNonceSigned(s: State, client: string)
    requires TablesMean(s)
    ensures LastNonce(s.lastNonce, client) >= 0
  {}

  lemma AppendIsReloaded(h: Hash, canon: Canon, s: State, r: Request)
    requires TableInRange(s) && s == LoadOf(s.ops) && Verifies(h, canon, s.ops)
    ensures AppendTo(h, canon, s, r).0 == LoadOf(AppendTo(h, canon, s, r).0.ops)
    ensures Verifies(h, canon, AppendTo(h, canon, s, r).0.ops)
  {
    assert AppendTo(h, canon, s, r).0.ops[..|s.ops|] == s.ops;
  }

  lemma AppendKeepsValid(h: Hash, canon: Canon, s: State, r: Request)
    requires ValidState(h, canon, s)
    ensures ValidState(h, canon, AppendTo(h, canon, s, r).0)
  {
    AppendKeepsTables(h, canon, s, r);
    AppendKeepsDiscipline(h, canon, s, r);
    AppendIsReloaded(h, canon, s, r);
  }

  lemma {:induction false} NonceAttained(ops: seq<Op>, client: string)
    requires client in NoncesOf(ops)
    ensures exists i :: 0 <= i < |ops| && ops[i].body.req.client == client
                        && ops[i].body.req.nonce == NoncesOf(ops)[client]
  {
    var front, o := ops[..|ops| - 1], ops[|ops| - 1];
    if client in NoncesOf(front) && NoncesOf(front)[client] == NoncesOf(ops)[client] {
      NonceAttained(front, client);
      var i :| 0 <= i < |front| && front[i].body.req.client == client && front[i].body.req.nonce == NoncesOf(front)[client];
      assert ops[i] == front[i];
    } else {
      assert ops[|ops| - 1] == o && o.body.req.client == client && o.body.req.nonce == NoncesOf(ops)[client];
    }
  }

  lemma KnownIs(s: State, idem: Option<string>)
    requires TablesMean(s)
    ensures idem.Some? && idem.value in s.idem <==> idem.Some? && exists i :: 0 <= i < |s.ops| && s.ops[i].body.req.idem == idem
    ensures idem.Some? && idem.value in s.idem ==> s.idem[idem.value] < |s.ops| && s.ops[s.idem[idem.value]].body.req.idem == idem
  {
    hide LastNonce;
  }

  lemma ReachedIs(s: State, client: string, nonce: int)
    requires TablesMean(s) && s.lastNonce == NoncesOf(s.ops)
    ensures nonce <= LastNonce(s.lastNonce, client) <==>
              nonce <= 0 || exists i :: 0 <= i < |s.ops| && s.ops[i].body.req.client == client && s.ops[i].body.req.nonce >= nonce
  {
    if client in s.lastNonce { NonceAttained(s.ops, client); }
    hide NoncesOf;
  }

  /** When a request is answered how, said of the log alone: a known idempotency
      key returns the op that carries it; otherwise a nonce that the client has
      reached (or that is not positive) is stale; otherwise the op is appended. */
  lemma OutcomeMeans(h: Hash, canon: Canon, s: State, r: Request)
    requires ValidState(h, canon, s)
    ensures var (s', out) := AppendTo(h, canon, s, r);
            var known := r.idem.Some? && exists i :: 0 <= i < |s.ops| && s.ops[i].body.req.idem == r.idem;
            var reached := r.nonce <= 0 || exists i :: 0 <= i < |s.ops| && s.ops[i].body.req.client == r.client
                                                       && s.ops[i].body.req.nonce >= r.nonce;
            && (out.Duplicate? <==> known)
            && (out.Duplicate? ==> out.op in s.ops && out.op.body.req.idem == r.idem)
            && (out.Stale? <==> !known && reached)
            && (out.Appended? ==> s'.ops == s.ops + [out.op] && out.op.body == Body(|s.ops|, r))
            && (!out.Appended? ==> s' == s)
  {
    KnownIs(s, r.idem);
    ReachedIs(s, r.client, r.nonce);
    hide ChainInput, Verifies, NoncesOf, IdemsOf, HeadOf, Disciplined, TablesMean, LastNonce;
  }

  // ---- runs ----

  function RunAll(h: Hash, canon: Canon, s: State, rs: seq<Request>): (State, seq<Outcome>)
    requires TableInRange(s)
    decreases |rs|
  {
    if rs == [] then (s, [])
    else
      var (s1, o) := AppendTo(h, canon, s, rs[0]);
      var (s2, os) := RunAll(h, canon, s1, rs[1..]);
      (s2, [o] + os)
  }

  lemma {:induction false} RunKeepsValid(h: Hash, canon: Canon, s: State, rs: seq<Request>)
    requires ValidState(h, canon, s)
    ensures ValidState(h, canon, RunAll(h, canon, s, rs).0)
    decreases |rs|
  {
    if rs != [] {
      AppendKeepsValid(h, canon, s, rs[0]);
      RunKeepsValid(h, canon, AppendTo(h, canon, s, rs[0]).0, rs[1..]);
    }
  }

  /** A restart between two runs changes no outcome and no later state, and the
      log it leaves is disciplined and verifies. */
  lemma RestartInvisible(h: Hash, canon: Canon, before: seq<Request>, after: seq<Request>)
    ensures
      var s := RunAll(h, canon, EMPTY, before).0;
      && ValidState(h, canon, s)
      && RunAll(h, canon, LoadOf(s.ops), after) == RunAll(h, canon, s, after)
      && Disciplined(RunAll(h, canon, LoadOf(s.ops), after).0.ops)
      && Verifies(h, canon, RunAll(h, canon, LoadOf(s.ops), after).0.ops)
  {
    RunKeepsValid(h, canon, EMPTY, before);
    var s := RunAll(h, canon, EMPTY, before).0;
    RunKeepsValid(h, canon, s, after);
  }

  // ---- the head commits to the whole log ----

  function HashedBy(canon: Canon, ops: seq<Op>): set<Bytes> {
    set i | 0 <= i < |ops| :: ChainInput(canon, ops[i].prevHash, ops[i].body)
  }

  /** Some string the log hashes is a preimage of the genesis value. */
  ghost predicate GenesisPreimage(h: Hash, xs: set<Bytes>) {
    exists x :: x in xs && Blake(h, x) == GENESIS
  }

  /** Two different bodies of the two logs are encoded alike. */
  ghost predicate CanonClash(canon: Canon, a: seq<Op>, b: seq<Op>) {
    exists i, j :: 0 <= i < |a| && 0 <= j < |b| && a[i].body != b[j].body
                   && Encode(canon, a[i].body) == Encode(canon, b[j].body)
  }

  ghost predicate HistoryBroken(h: Hash, canon: Canon, a: seq<Op>, b: seq<Op>) {
    || CollisionBetween(h, HashedBy(canon, a), HashedBy(canon, b))
    || GenesisPreimage(h, HashedBy(canon, a) + HashedBy(canon, b))
    || CanonClash(canon, a, b)
  }

  lemma HashedByGrows(canon: Canon, a: seq<Op>, n: nat)
    requires n <= |a|
    ensures HashedBy(canon, a[..n]) <= HashedBy(canon, a)
  {
    forall x | x in HashedBy(canon, a[..n]) ensures x in HashedBy(canon, a) {
      var i :| 0 <= i < n && x == ChainInput(canon, a[..n][i].prevHash, a[..n][i].body);
      assert a[i] == a[..n][i];
    }
  }

  lemma BrokenGrows(h: Hash, canon: Canon, a: seq<Op>, b: seq<Op>, m: nat, n: nat)
    requires m <= |a| && n <= |b| && HistoryBroken(h, canon, a[..m], b[..n])
    ensures HistoryBroken(h, canon, a, b)
  {
    HashedByGrows(canon, a, m);
    HashedByGrows(canon, b, n);
    if CollisionBetween(h, HashedBy(canon, a[..m]), HashedBy(canon, b[..n])) {
      CollisionGrows(h, HashedBy(canon, a[..m]), HashedBy(canon, b[..n]), HashedBy(canon, a), HashedBy(canon, b));
    } else if CanonClash(canon, a[..m], b[..n]) {
      var i, j :| 0 <= i < m && 0 <= j < n && a[..m][i].body != b[..n][j].body
                  && Encode(canon, a[..m][i].body) == Encode(canon, b[..n][j].body);
      assert a[i] == a[..m][i] && b[j] == b[..n][j];
    }
  }

  lemma {:induction false} VerifiesPrefix(h: Hash, canon: Canon, ops: seq<Op>, n: nat)
    requires Verifies(h, canon, ops) && n <= |ops|
    ensures Verifies(h, canon, ops[..n])
  {
    if n == |ops| {
      assert ops[..n] == ops;
    } else {
      VerifiesPrefix(h, canon, ops[..|ops| - 1], n);
      assert ops[..|ops| - 1][..n] == ops[..n];
    }
  }

  lemma EmptyVerifies(h: Hash, canon: Canon)
    ensures Verifies(h, canon, []) && HeadOf([]) == GENESIS
  {}

  /** One step of the walk over a chain that is unbroken so far. */
  lemma VerifyStep(h: Hash, canon: Canon, ops: seq<Op>, i: nat)
    requires i < |ops| && Verifies(h, canon, ops[..i])
    ensures Verifies(h, canon, ops[..i + 1]) <==> Linked(h, canon, HeadOf(ops[..i]), ops[i])
    ensures HeadOf(ops[..i + 1]) == ops[i].hash
  {
    hide Linked;
    assert ops[..i + 1][..i] == ops[..i];
  }

  /** The hash of op i is that of the text of the hash before it (64 zeros for the
      first) followed by the encoded body. */
  predicate LinkedAt(h: Hash, canon: Canon, ops: seq<Op>, i: nat)
    requires i < |ops|
  {
    var prev: Digest := if i == 0 then 0 else ops[i - 1].hash;
    ops[i].prevHash == prev && ops[i].hash == Blake(h, HexOf(prev) + Encode(canon, ops[i].body))
  }

  /** What an unbroken chain is, op by op. */
  lemma {:induction false} VerifiesMeans(h: Hash, canon: Canon, ops: seq<Op>)
    ensures Verifies(h, canon, ops) <==> forall i: nat :: i < |ops| ==> LinkedAt(h, canon, ops, i)
  {
    if ops != [] {
      var n := |ops| - 1;
      VerifiesMeans(h, canon, ops[..n]);
      forall i: nat | i < n ensures LinkedAt(h, canon, ops[..n], i) <==> LinkedAt(h, canon, ops, i) {
        hide Blake, HexOf, Encode;
      }
      assert LinkedAt(h, canon, ops, n) <==> Linked(h, canon, HeadOf(ops[..n]), ops[n]);
      hide LinkedAt, Linked;
    }
  }

  /** The last ops of two chains with one head are equal, or the hash is broken. */
  lemma LastBinds(h: Hash, canon: Canon, a: seq<Op>, b: seq<Op>)
    requires Verifies(h, canon, a) && Verifies(h, canon, b) && HeadOf(a) == HeadOf(b)
    requires a != [] && b != []
    ensures a[|a| - 1] == b[|b| - 1] || HistoryBroken(h, canon, a, b)
  {
    var x, y := a[|a| - 1], b[|b| - 1];
    var i, j := ChainInput(canon, x.prevHash, x.body), ChainInput(canon, y.prevHash, y.body);
    assert i in HashedBy(canon, a) && j in HashedBy(canon, b);
    if i == j {
      ConcatSplits(HexOf(x.prevHash), Encode(canon, x.body), HexOf(y.prevHash), Encode(canon, y.body));
      HexOfInjective(x.prevHash, y.prevHash);
    } else {
      assert Collides(h, i, j);
    }
  }

  /** Two logs that verify with one head are equal op for op, or the data at
      hand breaks the hash: a collision, a preimage of the genesis value, or two
      bodies with one encoding. */
  lemma {:induction false} HeadCommits(h: Hash, canon: Canon, a: seq<Op>, b: seq<Op>)
    requires Verifies(h, canon, a) && Verifies(h, canon, b) && HeadOf(a) == HeadOf(b)
    ensures a == b || HistoryBroken(h, canon, a, b)
    decreases |a|
  {
    if a != [] && b != [] {
      var m, n := |a| - 1, |b| - 1;
      LastBinds(h, canon, a, b);
      if a[m] == b[n] {
        HeadCommits(h, canon, a[..m], b[..n]);
        if a[..m] == b[..n] {
          assert a == a[..m] + [a[m]] && b == b[..n] + [b[n]];
        } else {
          BrokenGrows(h, canon, a, b, m, n);
        }
      }
    } else if a != b {
      var c := if a == [] then b else a;
      var x := c[|c| - 1];
      assert ChainInput(canon, x.prevHash, x.body) in HashedBy(canon, c);
    }
  }

  // ---- the log object ----

  class Log {
    const h: Hash
    const canon: Canon
    var ops: seq<Op>
    var lastNonce: map<string, int>
    var idem: map<string, nat>
    var head: Digest

    ghost function Abs(): State
      reads this
    {
      State(ops, lastNonce, idem, head)
    }

    constructor (h: Hash, canon: Canon)
      ensures this.h == h && this.canon == canon
      ensures Abs() == EMPTY
    {
      this.h := h;
      this.canon := canon;
      ops, lastNonce, idem, head := [], map[], map[], GENESIS;
    }

    method Append(r: Request) returns (out: Outcome)
      requires TableInRange(Abs())
      modifies this
      ensures (Abs(), out) == AppendTo(h, canon, old(Abs()), r) && TableInRange(Abs())
    {
      if r.idem.Some? && r.idem.value in idem {
        return Duplicate(ops[idem[r.idem.value]]);
      }
      var last := if r.client in lastNonce then lastNonce[r.client] else 0;
      if r.nonce <= last {
        return Stale;
      }
      var body := Body(|ops|, r);
      var hash := Blake(h, ChainInput(canon, head, body));
      var rec := Op(body, head, hash);
      ops := ops + [rec];
      lastNonce := lastNonce[r.client := r.nonce];
      if r.idem.Some? {
        idem := idem[r.idem.value := body.seqNo];
      }
      head := hash;
      return Appended(rec);
    }

    /** Rehydrate from persisted ops without recomputing a hash. */
    method Load(saved: seq<Op>)
      modifies this
      ensures Abs() == LoadOf(saved)
    {
      ops, lastNonce, idem := saved, map[], map[];
      for i := 0 to |ops|
        invariant ops == saved
        invariant lastNonce == NoncesOf(saved[..i]) && idem == IdemsOf(saved[..i])
      {
        assert saved[..i + 1][..i] == saved[..i];
        var o := ops[i].body;
        if o.req.nonce > (if o.req.client in lastNonce then lastNonce[o.req.client] else 0) {
          lastNonce := lastNonce[o.req.client := o.req.nonce];
        }
        if o.req.idem.Some? && o.req.idem.value !in idem {
          idem := idem[o.req.idem.value := o.seqNo];
        }
      }
      assert saved[..|saved|] == saved;
      head := if ops != [] then ops[|ops| - 1].hash else GENESIS;
    }

    /** Re-walk the chain. */
    method Verify() returns (ok: bool)
      ensures ok <==> Verifies(h, canon, ops)
    {
      hide ChainInput, Verifies, HeadOf;
      var prev := GENESIS;
      EmptyVerifies(h, canon);
      assert ops[..0] == [];
      for i := 0 to |ops|
        invariant prev == HeadOf(ops[..i])
        invariant Verifies(h, canon, ops[..i])
      {
        var o := ops[i];
        VerifyStep(h, canon, ops, i);
        if o.prevHash != prev || o.hash != Blake(h, ChainInput(canon, prev, o.body)) {
          if Verifies(h, canon, ops) { VerifiesPrefix(h, canon, ops, i + 1); }
          return false;
        }
        prev := o.hash;
      }
      assert ops[..|ops|] == ops;
      return true;
    }

    /** The ops whose number is at most `asOf`, in order. */
    method SliceUntil(asOf: int) returns (out: seq<Op>)
      ensures out == UpTo(ops, asOf)
    {
      out := [];
      for i := 0 to |ops|
        invariant out == UpTo(ops[..i], asOf)
      {
        assert ops[..i + 1][..i] == ops[..i];
        if ops[i].body.seqNo <= asOf {
          out := out + [ops[i]];
        }
      }
      assert ops[..|ops|] == ops;
    }
  }

  /** The ops numbered at most `asOf`. */
  function UpTo(ops: seq<Op>, asOf: int): seq<Op> {
    if ops == [] then []
    else
      var front, last := UpTo(ops[..|ops| - 1], asOf), ops[|ops| - 1];
      if last.body.seqNo <= asOf then front + [last] else front
  }

  /** On a log numbered by position the ops numbered at most `asOf` are a prefix. */
  lemma {:induction false} UpToIsPrefix(ops: seq<Op>, asOf: int)
    requires forall i :: 0 <= i < |ops| ==> ops[i].body.seqNo == i
    ensures UpTo(ops, asOf) == Prefix(ops, asOf)
  {
    if ops != [] {
      UpToIsPrefix(ops[..|ops| - 1], asOf);
    }
  }

  /** The log up to and including position `asOf`. */
  function Prefix<T>(ops: seq<T>, asOf: int): seq<T> {
    if asOf < 0 then [] else if asOf >= |ops| then ops else ops[..asOf + 1]
  }
}
