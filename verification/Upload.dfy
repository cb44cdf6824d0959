/**
  The chunk loop of `checkImport` in `packages/documents-accept/src/checks.ts`,
  against an upload server that keeps the rules of the chunk route
  (`packages/api-client/src/openapi.d.ts`).
*/
module Upload {
  type Byte = bv8

  /** The largest chunk an upload takes. */
  const CHUNK: nat := 768 * 1024

  /** A chunk the server has: where it starts, its bytes, the hash it came under. */
  datatype Chunk = Chunk(offset: nat, body: seq<Byte>, hash: string)

  /** What the server says of an upload. */
  datatype Answer = Upload(id: string, total: nat, sha: string, received: nat, complete: bool) | Refused(status: nat)

  function Bytes(chunks: seq<Chunk>): seq<Byte> {
    if chunks == [] then [] else Bytes(chunks[..|chunks| - 1]) + chunks[|chunks| - 1].body
  }

  /** The chunks follow on each other, are of allowed size, and each is under the hash of its bytes. */
  ghost predicate InOrder(chunks: seq<Chunk>, sha256: seq<Byte> -> string) {
    forall k :: 0 <= k < |chunks| ==>
      && chunks[k].offset == |Bytes(chunks[..k])|
      && 0 < |chunks[k].body| <= CHUNK
      && chunks[k].hash == sha256(chunks[k].body)
  }

  class UploadServer {
    const id: string
    const total: nat
    const sha: string
    const sha256: seq<Byte> -> string
    var chunks: seq<Chunk>

    constructor (id: string, total: nat, sha: string, sha256: seq<Byte> -> string)
      ensures this.id == id && this.total == total && this.sha == sha && this.sha256 == sha256 && chunks == [] && Valid()
    {
      this.id, this.total, this.sha, this.sha256, chunks := id, total, sha, sha256, [];
    }

    ghost predicate Valid()
      reads this
    {
      InOrder(chunks, sha256) && |Bytes(chunks)| <= total
    }

    function State(): Answer
      reads this
    {
      Upload(id, total, sha, |Bytes(chunks)|, 0 < |Bytes(chunks)| == total)
    }

    /** The rules of the route, in the order it checks them. Nothing received is ever changed. */
    method Append(to: string, offset: nat, body: seq<Byte>, hash: string) returns (answer: Answer)
      requires Valid()
      modifies this`chunks
      ensures Valid() && old(chunks) <= chunks
      ensures chunks == old(chunks) || chunks == old(chunks) + [Chunk(offset, body, hash)]
      ensures chunks != old(chunks) <==>
              (to == id && |body| <= CHUNK && offset == |Bytes(old(chunks))| && 0 < |body| <= total - offset && hash == sha256(body))
      ensures answer.Upload? ==> answer == State() && to == id
      ensures chunks != old(chunks) ==> answer == State()
      ensures to == id && |body| <= CHUNK && (exists c :: c in old(chunks) && c == Chunk(offset, body, hash)) ==> answer == State()
      ensures answer == Refused(404) <==> to != id
      ensures answer == Refused(413) <==> to == id && |body| > CHUNK
      ensures answer == Refused(400) <==>
              (to == id && |body| <= CHUNK && offset == |Bytes(old(chunks))| && !old(State().complete)
               && (body == [] || offset + |body| > total || hash != sha256(body)))
      ensures answer.Refused? ==> answer.status in {400, 404, 409, 413}
    {
      var received := |Bytes(chunks)|;
      ChunksEnd(chunks, sha256);
      if to != id {
        answer := Refused(404);
      } else if |body| > CHUNK {
        answer := Refused(413);
      } else if offset < received {
        var replay := exists c | c in chunks :: c.offset == offset && |c.body| == |body| && c.hash == hash;
        answer := if replay then State() else Refused(409);
      } else if offset > received || State().complete {
        answer := Refused(409);
      } else if |body| == 0 || offset + |body| > total || hash != sha256(body) {
        answer := Refused(400);
      } else {
        BytesOfMore(chunks, Chunk(offset, body, hash));
        InOrderMore(chunks, Chunk(offset, body, hash), sha256);
        chunks := chunks + [Chunk(offset, body, hash)];
        answer := State();
      }
    }
  }

  lemma BytesOfMore(chunks: seq<Chunk>, c: Chunk)
    ensures Bytes(chunks + [c]) == Bytes(chunks) + c.body
  {
    assert (chunks + [c])[..|chunks|] == chunks;
  }

  lemma InOrderMore(chunks: seq<Chunk>, c: Chunk, sha256: seq<Byte> -> string)
    requires InOrder(chunks, sha256) && c.offset == |Bytes(chunks)| && 0 < |c.body| <= CHUNK && c.hash == sha256(c.body)
    ensures InOrder(chunks + [c], sha256)
  {
    var more := chunks + [c];
    forall k | 0 <= k < |more| ensures more[k].offset == |Bytes(more[..k])| {
      assert more[..k] == chunks[..k];
      if k == |chunks| { assert chunks[..k] == chunks; }
    }
  }

  lemma {:induction false} ChunksEnd(chunks: seq<Chunk>, sha256: seq<Byte> -> string)
    requires InOrder(chunks, sha256)
    ensures forall c :: c in chunks ==> c.offset < c.offset + |c.body| <= |Bytes(chunks)|
  {
    if chunks != [] {
      var (init, last) := (chunks[..|chunks| - 1], chunks[|chunks| - 1]);
      InOrderButLast(chunks, sha256);
      ChunksEnd(init, sha256);
      assert last.offset == |Bytes(init)| && 0 < |last.body| && |Bytes(chunks)| == |Bytes(init)| + |last.body|;
      hide *;
      forall c | c in chunks ensures c.offset < c.offset + |c.body| <= |Bytes(chunks)| {
        if c !in init { assert c == last by { ButLast(chunks, c); } }
      }
    }
  }

  lemma ButLast<T>(s: seq<T>, x: T)
    requires x in s
    ensures x in s[..|s| - 1] || x == s[|s| - 1]
  {
    var k :| 0 <= k < |s| && s[k] == x;
    if k < |s| - 1 { assert s[..|s| - 1][k] == x; }
  }

  lemma InOrderButLast(chunks: seq<Chunk>, sha256: seq<Byte> -> string)
    requires InOrder(chunks, sha256) && chunks != []
    ensures InOrder(chunks[..|chunks| - 1], sha256)
  {
    var init := chunks[..|chunks| - 1];
    forall k | 0 <= k < |init| ensures init[k].offset == |Bytes(init[..k])| { assert init[..k] == chunks[..k]; }
  }

  datatype Problem = OtherUpload | OtherBytes | WrongCount | Failed(status: nat)

  /** The checks of an answer to a chunk, in their order. */
  function Problems(server: UploadServer, bytes: seq<Byte>, sent: nat, received: Answer): set<Problem> {
    match received
    case Refused(status) => {Failed(status)}
    case Upload(id, total, sha, count, complete) =>
      if id != server.id then {OtherUpload}
      else if total != |bytes| || sha != server.sha256(bytes) then {OtherBytes}
      else if count != sent || complete != (sent == |bytes|) then {WrongCount}
      else {}
  }

  /** Whatever is answered, nothing is found wrong exactly if it is the upload announced, with the bytes sent so far. */
  lemma ProblemsMean(server: UploadServer, bytes: seq<Byte>, sent: nat, received: Answer)
    ensures Problems(server, bytes, sent, received) == {} <==>
      received == Upload(server.id, |bytes|, server.sha256(bytes), sent, sent == |bytes|)
  {
    if received.Upload? && received.id == server.id { assert WrongCount !in {} && OtherBytes !in {}; }
    assert {OtherUpload} != {} by { assert OtherUpload in {OtherUpload}; }
    assert {OtherBytes} != {} by { assert OtherBytes in {OtherBytes}; }
    assert {WrongCount} != {} by { assert WrongCount in {WrongCount}; }
    if received.Refused? { assert Failed(received.status) in Problems(server, bytes, sent, received); }
  }

  /** The server's upload is a new one of these bytes, with the first `sent` of them. */
  ghost predicate Holds(server: UploadServer, bytes: seq<Byte>, sent: nat)
    reads server
  {
    && server.Valid() && server.total == |bytes| && server.sha == server.sha256(bytes)
    && sent <= |bytes| && Bytes(server.chunks) == bytes[..sent]
  }

  /** One turn: the next chunk is taken, and its answer has nothing wrong. */
  method SendChunk(server: UploadServer, bytes: seq<Byte>, offset: nat) returns (sent: nat, problems: set<Problem>)
    requires Holds(server, bytes, offset) && offset < |bytes|
    modifies server`chunks
    ensures problems == {} && Holds(server, bytes, sent)
    ensures sent == (if offset + CHUNK <= |bytes| then offset + CHUNK else |bytes|)
    ensures |server.chunks| == |old(server.chunks)| + 1
  {
    sent := if offset + CHUNK <= |bytes| then offset + CHUNK else |bytes|;
    var chunk := bytes[offset..sent];
    BytesOfMore(server.chunks, Chunk(offset, chunk, server.sha256(chunk)));
    assert bytes[..offset] + chunk == bytes[..sent];
    var received := server.Append(server.id, offset, chunk, server.sha256(chunk));
    problems := Problems(server, bytes, sent, received);
  }

  /**
    The loop over the chunks: with a new upload of these bytes it finds nothing
    wrong, leaves the server exactly them, and sends no more chunks than needed.
  */
  method SendChunks(server: UploadServer, bytes: seq<Byte>) returns (problems: set<Problem>)
    requires Holds(server, bytes, 0) && server.chunks == []
    modifies server`chunks
    ensures problems == {} && server.Valid() && Bytes(server.chunks) == bytes
    ensures server.State().complete <==> bytes != []
    ensures CHUNK * (|server.chunks| - 1) < |bytes| <= CHUNK * |server.chunks|
  {
    problems := {};
    var offset: nat, sent: nat := 0, 0;
    while offset < |bytes|
      invariant Holds(server, bytes, sent) && problems == {}
      invariant offset == CHUNK * |server.chunks| && sent == if offset <= |bytes| then offset else |bytes|
      invariant CHUNK * (|server.chunks| - 1) < |bytes|
      decreases |bytes| - offset
    {
      hide *;
      sent, problems := SendChunk(server, bytes, offset);
      if problems != {} { return; }
      offset := offset + CHUNK;
    }
    assert bytes[..sent] == bytes;
  }
}
