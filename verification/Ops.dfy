/** The vocabulary of the operation log (python/nedb/log.py, engine.py). */
module Ops {
  import opened Hashing

  /** A document field. `Seqs` is the list kept under "_caused_by". */
  datatype Value = Null | Num(n: int) | Str(s: string) | Seqs(seqs: seq<nat>)

  type Doc = map<string, Value>

  datatype Action =
    | Put(coll: string, id: string, doc: Doc)
    | Delete(coll: string, id: string)
    | Link(frm: string, rel: string, to: string)
    | Unlink(frm: string, rel: string, to: string)
    | PutFile(name: string, version: nat, root: Digest)
    | Checkpoint

  /** What a client asks the log to append. */
  datatype Request = Request(client: string, nonce: int, action: Action, ts: int,
                             idem: Option<string>, causedBy: Option<seq<nat>>,
                             validFrom: Option<string>, validTo: Option<string>)

  /** The hashed part of an op: its position and the request. */
  datatype Body = Body(seqNo: nat, req: Request)

  datatype Op = Op(body: Body, prevHash: Digest, hash: Digest)
}
