/**
 * The chunked-upload session store of app/storage/memory_storage.py: a registry from
 * session id to an in-memory `BytesIO`, fed one chunk at a time by `save_chunk_to_memory`.
 */
module MemoryStorage {
  import opened Wrappers
  import opened BytesIO

  /** One call of `save_chunk_to_memory`; `payload` is what `await file.read()` yields. */
  datatype Chunk = Chunk(sessionId: string, chunkIndex: int, isFinal: bool, payload: seq<byte>)

  /** The value of the registry: each session id's buffer contents and cursor. */
  type Sessions = map<string, Stream>

  /** Every buffer's cursor lies within its bytes. */
  predicate AllValid(s: Sessions) {
    forall id :: id in s ==> s[id].Valid()
  }

  /** The buffer a chunk is written to: the stored one, or a new empty one for an unseen id. */
  function Opened(s: Sessions, id: string): (b: Stream)
    ensures id in s ==> b == s[id]
    ensures id !in s ==> b == Empty
  {
    if id in s then s[id] else Empty
  }

  /**
   * The session's buffer after the chunk is written, rewound on a final chunk. The bytes
   * are those of the write either way; only the cursor differs.
   */
  function Stored(b: Stream, c: Chunk): (r: Stream)
    ensures b.Valid() || c.isFinal ==> r.Valid()
    ensures r.data == b.Write(c.payload).data
    ensures r.pos == if c.isFinal then 0 else b.pos + |c.payload|
  {
    var written := b.Write(c.payload);
    if c.isFinal then written.Rewind() else written
  }

  /** The registry after one call, and what the call returns (`None` or the stored buffer). */
  datatype Saved = Saved(sessions: Sessions, returned: Option<Stream>)

  /**
   * `save_chunk_to_memory`: create the entry on first touch, write the payload at the
   * cursor, and on a final chunk rewind and return the stored buffer.
   */
  function Save(s: Sessions, c: Chunk): (r: Saved)
    ensures r.sessions.Keys == s.Keys + {c.sessionId}
    ensures forall id :: id in s && id != c.sessionId ==> r.sessions[id] == s[id]
    ensures r.sessions[c.sessionId] == Stored(Opened(s, c.sessionId), c)
    ensures r.returned == if c.isFinal then Some(r.sessions[c.sessionId]) else None
  {
    var stored := Stored(Opened(s, c.sessionId), c);
    Saved(s[c.sessionId := stored], if c.isFinal then Some(stored) else None)
  }

  /** The registry after a run of calls, in the order the store receives them. */
  function SaveAll(s: Sessions, cs: seq<Chunk>): Sessions {
    if cs == [] then s else Save(SaveAll(s, cs[..|cs| - 1]), cs[|cs| - 1]).sessions
  }

  /** The concatenation of the payloads, first to last. */
  function Payloads(cs: seq<Chunk>): seq<byte> {
    if cs == [] then [] else Payloads(cs[..|cs| - 1]) + cs[|cs| - 1].payload
  }

  /** The ids of the sessions a run of calls touches. */
  function Ids(cs: seq<Chunk>): set<string> {
    if cs == [] then {} else Ids(cs[..|cs| - 1]) + {cs[|cs| - 1].sessionId}
  }

  /** The calls of a run that are for session `id`, in their order. */
  function Only(cs: seq<Chunk>, id: string): (r: seq<Chunk>)
    ensures |r| <= |cs|
    ensures forall c :: c in r <==> c in cs && c.sessionId == id
  {
    if cs == [] then []
    else
      var c := cs[|cs| - 1];
      Only(cs[..|cs| - 1], id) + if c.sessionId == id then [c] else []
  }

  /** No call of the run for session `id` is final. */
  predicate NoFinalFor(cs: seq<Chunk>, id: string) {
    forall c :: c in cs && c.sessionId == id ==> !c.isFinal
  }

  /** Every call of the run is for session `id` and none is final. */
  predicate OpenUpload(cs: seq<Chunk>, id: string) {
    forall i :: 0 <= i < |cs| ==> cs[i].sessionId == id && !cs[i].isFinal
  }

  /** The calls differ at most in `chunkIndex`. */
  predicate SameButIndex(cs: seq<Chunk>, ds: seq<Chunk>) {
    |cs| == |ds| &&
    forall i :: 0 <= i < |cs| ==>
      cs[i].sessionId == ds[i].sessionId && cs[i].isFinal == ds[i].isFinal && cs[i].payload == ds[i].payload
  }

  /** One call keeps every cursor within its buffer's bytes. */
  lemma {:induction false} SaveKeepsCursorsInRange(s: Sessions, c: Chunk)
    requires AllValid(s)
    ensures AllValid(Save(s, c).sessions)
  {
    var r := Save(s, c).sessions;
    forall id | id in r
      ensures r[id].Valid()
    {
      if id != c.sessionId {
        assert r[id] == s[id];
      }
    }
  }

  /** Any run of calls keeps every cursor within its buffer's bytes. */
  lemma {:induction false} SaveAllKeepsCursorsInRange(s: Sessions, cs: seq<Chunk>)
    requires AllValid(s)
    ensures AllValid(SaveAll(s, cs))
  {
    if cs != [] {
      SaveAllKeepsCursorsInRange(s, cs[..|cs| - 1]);
      SaveKeepsCursorsInRange(SaveAll(s, cs[..|cs| - 1]), cs[|cs| - 1]);
    }
  }

  /** A chunk for an unseen id creates the entry; its bytes are then exactly the payload. */
  lemma {:induction false} FirstChunkCreates(s: Sessions, c: Chunk)
    requires c.sessionId !in s
    ensures c.sessionId in Save(s, c).sessions
    ensures Save(s, c).sessions[c.sessionId].data == c.payload
    ensures Save(s, c).sessions[c.sessionId].pos == if c.isFinal then 0 else |c.payload|
  {
    WriteAtEndAppends(Empty, c.payload);
  }

  /** While the cursor sits at the end, a non-final chunk is appended and the cursor stays at the end. */
  lemma {:induction false} OpenChunkAppends(s: Sessions, c: Chunk)
    requires !c.isFinal
    requires c.sessionId in s ==> s[c.sessionId].pos == |s[c.sessionId].data|
    ensures Save(s, c).sessions[c.sessionId].data == Opened(s, c.sessionId).data + c.payload
    ensures Save(s, c).sessions[c.sessionId].pos == |Save(s, c).sessions[c.sessionId].data|
    ensures Save(s, c).returned == None
  {
    WriteAtEndAppends(Opened(s, c.sessionId), c.payload);
  }

  /**
   * Once a final chunk has rewound the buffer, the entry stays and a later chunk for the
   * same id writes from position 0: the payload replaces the leading bytes, older bytes
   * beyond it survive, and the length becomes the larger of the two.
   */
  lemma {:induction false} ChunkAfterFinalOverwrites(s: Sessions, f: Chunk, c: Chunk)
    requires f.isFinal && c.sessionId == f.sessionId
    ensures var before := Save(s, f).sessions[f.sessionId];
      var after := Save(Save(s, f).sessions, c).sessions[c.sessionId];
      |after.data| == Max(|before.data|, |c.payload|) &&
      after.data == c.payload + (if |c.payload| < |before.data| then before.data[|c.payload|..] else [])
  {
    var before := Save(s, f).sessions[f.sessionId];
    WriteAtStartOverwrites(before, c.payload);
  }

  /** A run of calls keeps every untouched entry as it was, and the key set only grows. */
  lemma {:induction false} SaveAllIsolates(s: Sessions, cs: seq<Chunk>)
    ensures SaveAll(s, cs).Keys == s.Keys + Ids(cs)
    ensures forall id :: id in s && id !in Ids(cs) ==> SaveAll(s, cs)[id] == s[id]
  {
    if cs != [] {
      SaveAllIsolates(s, cs[..|cs| - 1]);
    }
  }

  /**
   * A fresh session fed only non-final chunks holds the concatenation of their payloads,
   * with the cursor at the end.
   */
  lemma {:induction false} OpenUploadConcatenates(s: Sessions, id: string, cs: seq<Chunk>)
    requires id !in s && OpenUpload(cs, id) && cs != []
    ensures id in SaveAll(s, cs)
    ensures SaveAll(s, cs)[id] == Stream(Payloads(cs), |Payloads(cs)|)
  {
    var init := cs[..|cs| - 1];
    var last := cs[|cs| - 1];
    if init == [] {
      assert SaveAll(s, init) == s;
      FirstChunkCreates(s, last);
    } else {
      OpenUploadConcatenates(s, id, init);
      OpenChunkAppends(SaveAll(s, init), last);
    }
  }

  /**
   * A fresh session fed non-final chunks and then a final one: the final call returns a
   * buffer holding every payload in order, rewound to 0.
   */
  lemma {:induction false} FinalChunkReturnsUpload(s: Sessions, id: string, cs: seq<Chunk>, f: Chunk)
    requires id !in s && OpenUpload(cs, id)
    requires f.sessionId == id && f.isFinal
    ensures Save(SaveAll(s, cs), f).returned == Some(Stream(Payloads(cs + [f]), 0))
  {
    assert (cs + [f])[..|cs|] == cs;
    if cs == [] {
      FirstChunkCreates(s, f);
      assert Payloads(cs + [f]) == f.payload;
    } else {
      OpenUploadConcatenates(s, id, cs);
      WriteAtEndAppends(SaveAll(s, cs)[id], f.payload);
    }
  }

  /** A call for another session leaves the entry for `id` (and whether it exists) alone. */
  lemma {:induction false} SaveOtherKeepsEntry(s: Sessions, c: Chunk, id: string)
    requires c.sessionId != id
    ensures id in Save(s, c).sessions <==> id in s
    ensures Opened(Save(s, c).sessions, id) == Opened(s, id)
  {
  }

  /** What a call leaves in its own session's entry depends only on that entry beforehand. */
  lemma {:induction false} SaveDependsOnOwnEntry(s: Sessions, t: Sessions, c: Chunk)
    requires Opened(s, c.sessionId) == Opened(t, c.sessionId)
    ensures Save(s, c).sessions[c.sessionId] == Save(t, c).sessions[c.sessionId]
    ensures Save(s, c).returned == Save(t, c).returned
  {
  }

  /**
   * Sessions do not interfere: what a run leaves in the entry for `id` is what the run's
   * calls for `id` alone leave there, whatever other sessions' calls are interleaved.
   */
  lemma {:induction false} SaveAllProjects(s: Sessions, cs: seq<Chunk>, id: string)
    ensures id in SaveAll(s, cs) <==> id in SaveAll(s, Only(cs, id))
    ensures Opened(SaveAll(s, cs), id) == Opened(SaveAll(s, Only(cs, id)), id)
  {
    if cs != [] {
      var init := cs[..|cs| - 1];
      var c := cs[|cs| - 1];
      SaveAllProjects(s, init, id);
      if c.sessionId == id {
        var only := Only(init, id) + [c];
        assert Only(cs, id) == only;
        assert only[..|only| - 1] == Only(init, id);
        SaveDependsOnOwnEntry(SaveAll(s, init), SaveAll(s, Only(init, id)), c);
      } else {
        assert Only(cs, id) == Only(init, id) + [];
        assert Only(init, id) + [] == Only(init, id);
        SaveOtherKeepsEntry(SaveAll(s, init), c, id);
      }
    }
  }

  /**
   * A fresh session whose chunks arrive interleaved with other sessions' chunks, none of
   * its own final until `f`: the final call returns a buffer holding the session's own
   * payloads in order, rewound to 0.
   */
  lemma {:induction false} InterleavedUploadReturns(s: Sessions, id: string, cs: seq<Chunk>, f: Chunk)
    requires id !in s && NoFinalFor(cs, id)
    requires f.sessionId == id && f.isFinal
    ensures Save(SaveAll(s, cs), f).returned == Some(Stream(Payloads(Only(cs, id) + [f]), 0))
  {
    var only := Only(cs, id);
    assert OpenUpload(only, id) by {
      forall i | 0 <= i < |only|
        ensures only[i].sessionId == id && !only[i].isFinal
      {
        assert only[i] in only;
      }
    }
    SaveAllProjects(s, cs, id);
    FinalChunkReturnsUpload(s, id, only, f);
  }

  /** `chunk_index` is never read: runs that differ only in it leave the same registry. */
  lemma {:induction false} ChunkIndexIgnored(s: Sessions, cs: seq<Chunk>, ds: seq<Chunk>)
    requires SameButIndex(cs, ds)
    ensures SaveAll(s, cs) == SaveAll(s, ds)
  {
    if cs != [] {
      var n := |cs| - 1;
      assert SameButIndex(cs[..n], ds[..n]) by {
        forall i | 0 <= i < n
          ensures cs[..n][i] == cs[i] && ds[..n][i] == ds[i]
        {
        }
      }
      ChunkIndexIgnored(s, cs[..n], ds[..n]);
      var c, d := cs[n], ds[n];
      assert Save(SaveAll(s, cs[..n]), c) == Save(SaveAll(s, ds[..n]), d) by {
        assert c.sessionId == d.sessionId && c.isFinal == d.isFinal && c.payload == d.payload;
      }
    }
  }

  /** Writing a key twice keeps only the second value. */
  lemma {:induction false} UpdateTwice(s: Sessions, id: string, a: Stream, b: Stream)
    ensures s[id := a][id := b] == s[id := b]
  {
  }

  /** The registry object (the module-level dict `sessions`). */
  class SessionStore {
    var sessions: map<string, Buffer>
    /** The registry's value: each id's buffer contents and cursor. */
    ghost var contents: Sessions

    /** `contents` is the value of `sessions`, and no two ids share a buffer. */
    ghost predicate Valid()
      reads this, sessions.Values
    {
      sessions.Keys == contents.Keys &&
      (forall id :: id in sessions ==> sessions[id].State() == contents[id]) &&
      (forall id, id' :: id in sessions && id' in sessions && id != id' ==> sessions[id] != sessions[id'])
    }

    /** The empty registry at module import. */
    constructor ()
      ensures Valid() && sessions == map[] && contents == map[]
    {
      sessions := map[];
      contents := map[];
    }

    /** Lines 14-15: the entry for `sessionId`, created empty on first touch. */
    method Open(sessionId: string) returns (b: Buffer)
      requires Valid()
      modifies this
      ensures Valid() && sessions == old(sessions)[sessionId := b]
      ensures b.State() == Opened(old(contents), sessionId)
      ensures contents == old(contents)[sessionId := Opened(old(contents), sessionId)]
      ensures sessionId in old(sessions) ==> b == old(sessions[sessionId])
      ensures sessionId !in old(sessions) ==> fresh(b)
      ensures fresh(sessions.Values - old(sessions.Values))
    {
      if sessionId !in sessions {
        var created := new Buffer();
        sessions := sessions[sessionId := created];
        contents := contents[sessionId := Empty];
      }
      b := sessions[sessionId];
      assert sessions.Values <= old(sessions.Values) + {b};
    }

    /** Line 18: `write` on the entry for `sessionId`, keeping `contents` in step. */
    method WriteEntry(sessionId: string, payload: seq<byte>)
      requires Valid() && sessionId in sessions
      modifies this, sessions[sessionId]
      ensures Valid() && sessions == old(sessions)
      ensures sessionId in old(contents)
      ensures contents == old(contents)[sessionId := old(contents)[sessionId].Write(payload)]
    {
      var b := sessions[sessionId];
      ghost var before := contents;
      ghost var others := sessions.Keys - {sessionId};
      assert forall id :: id in others ==> sessions[id] != b && sessions[id].State() == before[id];
      b.Write(payload);
      contents := contents[sessionId := b.State()];
      forall id | id in sessions
        ensures sessions[id].State() == contents[id]
      {
        if id != sessionId {
          assert id in others;
        }
      }
    }

    /** Line 21: `seek(0)` on the entry for `sessionId`, keeping `contents` in step. */
    method RewindEntry(sessionId: string)
      requires Valid() && sessionId in sessions
      modifies this, sessions[sessionId]
      ensures Valid() && sessions == old(sessions)
      ensures sessionId in old(contents)
      ensures contents == old(contents)[sessionId := old(contents)[sessionId].Rewind()]
    {
      var b := sessions[sessionId];
      ghost var before := contents;
      ghost var others := sessions.Keys - {sessionId};
      assert forall id :: id in others ==> sessions[id] != b && sessions[id].State() == before[id];
      b.Rewind();
      contents := contents[sessionId := b.State()];
      forall id | id in sessions
        ensures sessions[id].State() == contents[id]
      {
        if id != sessionId {
          assert id in others;
        }
      }
    }

    /**
     * `save_chunk_to_memory(file, session_id, chunk_index, is_final)`. The new registry is
     * `Save` of the old one; existing ids keep their buffer objects; a final chunk returns
     * the stored buffer object itself, a non-final one `None` (null).
     */
    method SaveChunk(payload: seq<byte>, sessionId: string, chunkIndex: int, isFinal: bool) returns (r: Buffer?)
      requires Valid()
      modifies this, sessions.Values
      ensures Valid()
      ensures contents == Save(old(contents), Chunk(sessionId, chunkIndex, isFinal, payload)).sessions
      ensures AllValid(old(contents)) ==> AllValid(contents)
      ensures sessionId in sessions && sessions == old(sessions)[sessionId := sessions[sessionId]]
      ensures sessionId in old(sessions) ==> sessions[sessionId] == old(sessions[sessionId])
      ensures sessionId !in old(sessions) ==> fresh(sessions[sessionId])
      ensures fresh(sessions.Values - old(sessions.Values))
      ensures r == if isFinal then sessions[sessionId] else null
    {
      ghost var before := contents;
      ghost var written := Opened(before, sessionId).Write(payload);
      var b := Open(sessionId);
      WriteEntry(sessionId, payload);
      UpdateTwice(before, sessionId, Opened(before, sessionId), written);
      if isFinal {
        RewindEntry(sessionId);
        UpdateTwice(before, sessionId, written, written.Rewind());
        r := b;
      } else {
        r := null;
      }
      if AllValid(before) {
        SaveKeepsCursorsInRange(before, Chunk(sessionId, chunkIndex, isFinal, payload));
      }
    }
  }
}
