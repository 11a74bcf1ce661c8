/**
 * `handle_chunk` of app/services/video_service.py: store the chunk, then either answer
 * nothing (intermediate chunk) or hand the assembled buffer to the recognition model.
 * The model's `predict` is opaque here and enters as a function parameter.
 */
module VideoService {
  import opened Wrappers
  import opened BytesIO
  import opened MemoryStorage

  /** The registry after one `handle_chunk` call, and the text it answers with. */
  datatype Handled = Handled(sessions: Sessions, text: Option<string>)

  /** The value of one `handle_chunk` call against registry `s`. */
  function Handle(s: Sessions, c: Chunk, predict: Stream -> string): (r: Handled)
    ensures r.sessions == Save(s, c).sessions
    ensures r.text.Some? <==> c.isFinal
    ensures c.isFinal ==> r.text == Some(predict(Save(s, c).sessions[c.sessionId]))
  {
    var saved := Save(s, c);
    if !c.isFinal then Handled(saved.sessions, None)
    else Handled(saved.sessions, Some(predict(saved.returned.value)))
  }

  /** The registry and the answers after a run of `handle_chunk` calls. */
  datatype Run = Run(sessions: Sessions, texts: seq<Option<string>>)

  /**
   * The registry and the answers after a run of `handle_chunk` calls, in order: a call
   * answers with a text exactly when its chunk is final.
   */
  function HandleAll(s: Sessions, cs: seq<Chunk>, predict: Stream -> string): (r: Run)
    ensures |r.texts| == |cs|
    ensures forall i :: 0 <= i < |cs| ==> (r.texts[i].Some? <==> cs[i].isFinal)
  {
    if cs == [] then Run(s, [])
    else
      var init := cs[..|cs| - 1];
      var prev := HandleAll(s, init, predict);
      var h := Handle(prev.sessions, cs[|cs| - 1], predict);
      assert forall i :: 0 <= i < |init| ==> init[i] == cs[i];
      Run(h.sessions, prev.texts + [h.text])
  }

  /** An intermediate chunk answers `None` whatever the model would say: predict is never consulted. */
  lemma {:induction false} IntermediateSkipsPredict(s: Sessions, c: Chunk, p: Stream -> string, q: Stream -> string)
    requires !c.isFinal
    ensures Handle(s, c, p) == Handle(s, c, q)
    ensures Handle(s, c, p).text == None
  {
  }

  /**
   * Every call stores its chunk exactly once, in order: the registry after a run of
   * `handle_chunk` calls is the registry after the same run of `save_chunk_to_memory` calls.
   */
  lemma {:induction false} HandleAllStoresEachChunk(s: Sessions, cs: seq<Chunk>, predict: Stream -> string)
    ensures HandleAll(s, cs, predict).sessions == SaveAll(s, cs)
  {
    if cs != [] {
      HandleAllStoresEachChunk(s, cs[..|cs| - 1], predict);
    }
  }

  /**
   * `chunk_index` is never read: runs that differ only in it leave the same registry and
   * answer every call the same.
   */
  lemma {:induction false} ChunkIndexIgnoredAnswers(s: Sessions, cs: seq<Chunk>, ds: seq<Chunk>, predict: Stream -> string)
    requires SameButIndex(cs, ds)
    ensures HandleAll(s, cs, predict) == HandleAll(s, ds, predict)
  {
    if cs != [] {
      var n := |cs| - 1;
      assert SameButIndex(cs[..n], ds[..n]) by {
        forall i | 0 <= i < n
          ensures cs[..n][i] == cs[i] && ds[..n][i] == ds[i]
        {
        }
      }
      ChunkIndexIgnoredAnswers(s, cs[..n], ds[..n], predict);
      var c, d := cs[n], ds[n];
      assert c.sessionId == d.sessionId && c.isFinal == d.isFinal && c.payload == d.payload;
    }
  }

  /**
   * End to end, with other sessions' chunks interleaved on the shared registry: a fresh
   * session fed intermediate chunks and then a final one answers `None` to each of its
   * intermediate chunks and, to the final one, the model's text for a buffer holding the
   * session's own payloads in order with its cursor at 0.
   */
  lemma {:induction false} UploadRecognised(s: Sessions, id: string, cs: seq<Chunk>, f: Chunk, predict: Stream -> string)
    requires id !in s && NoFinalFor(cs, id)
    requires f.sessionId == id && f.isFinal
    ensures forall i :: 0 <= i < |cs| && cs[i].sessionId == id ==> HandleAll(s, cs + [f], predict).texts[i] == None
    ensures HandleAll(s, cs + [f], predict).texts[|cs|] == Some(predict(Stream(Payloads(Only(cs, id) + [f]), 0)))
  {
    var all := cs + [f];
    assert all[..|all| - 1] == cs;
    forall i | 0 <= i < |cs| && cs[i].sessionId == id
      ensures !all[i].isFinal
    {
      assert cs[i] in cs;
    }
    HandleAllStoresEachChunk(s, cs, predict);
    InterleavedUploadReturns(s, id, cs, f);
  }

  /**
   * `handle_chunk(file, session_id, chunk_index, is_final)` over the store: one call of
   * `save_chunk_to_memory`, then `None` for an intermediate chunk or `predict` of the
   * returned buffer for a final one.
   */
  method HandleChunk(store: SessionStore, payload: seq<byte>, sessionId: string, chunkIndex: int, isFinal: bool,
                     predict: Stream -> string)
    returns (text: Option<string>)
    requires store.Valid()
    modifies store, store.sessions.Values
    ensures store.Valid()
    ensures sessionId in store.sessions && store.sessions == old(store.sessions)[sessionId := store.sessions[sessionId]]
    ensures sessionId in old(store.sessions) ==> store.sessions[sessionId] == old(store.sessions[sessionId])
    ensures sessionId !in old(store.sessions) ==> fresh(store.sessions[sessionId])
    ensures fresh(store.sessions.Values - old(store.sessions.Values))
    ensures AllValid(old(store.contents)) ==> AllValid(store.contents)
    ensures Handled(store.contents, text) == Handle(old(store.contents), Chunk(sessionId, chunkIndex, isFinal, payload), predict)
  {
    var assembled := store.SaveChunk(payload, sessionId, chunkIndex, isFinal);
    if !isFinal {
      return None;
    }
    text := Some(predict(assembled.State()));
  }

  const AAAA: seq<byte> := [65, 65, 65, 65]
  const BBBB: seq<byte> := [66, 66, 66, 66]
  const CC: seq<byte> := [67, 67]

  /** "abc" sends AAAA: the entry is created holding AAAA with the cursor at the end. */
  lemma {:induction false} FirstStep(predict: Stream -> string)
    ensures Handle(map[], Chunk("abc", 0, false, AAAA), predict) == Handled(map["abc" := Stream(AAAA, 4)], None)
  {
    WriteAtEndAppends(Empty, AAAA);
    assert Empty.data + AAAA == AAAA;
    assert Stored(Empty, Chunk("abc", 0, false, AAAA)) == Stream(AAAA, 4);
  }

  /** "abc" then sends BBBB as final: appended, rewound, and handed to the model. */
  lemma {:induction false} SecondStep(predict: Stream -> string)
    ensures Handle(map["abc" := Stream(AAAA, 4)], Chunk("abc", 1, true, BBBB), predict)
         == Handled(map["abc" := Stream(AAAA + BBBB, 0)], Some(predict(Stream(AAAA + BBBB, 0))))
  {
    WriteAtEndAppends(Stream(AAAA, 4), BBBB);
  }

  /** A second final chunk CC is accepted and overwrites from 0: the model sees CCAABBBB. */
  lemma {:induction false} ThirdStep(predict: Stream -> string)
    ensures Handle(map["abc" := Stream(AAAA + BBBB, 0)], Chunk("abc", 2, true, CC), predict).text
         == Some(predict(Stream(CC + [65, 65] + BBBB, 0)))
  {
    var s := map["abc" := Stream(AAAA + BBBB, 0)];
    WriteAtStartOverwrites(s["abc"], CC);
    assert (AAAA + BBBB)[2..] == [65, 65] + BBBB;
    assert Save(s, Chunk("abc", 2, true, CC)).sessions["abc"] == Stream(CC + [65, 65] + BBBB, 0);
  }
}
