# Chunked-upload session store

A Dafny model of the upload core of a video sign-recognition service. Clients upload a
video as a run of chunks that share a session id. The store keeps one in-memory
`BytesIO` buffer per session id in the module-level dict `sessions`. Every chunk is
written into its session's buffer. A chunk marked final rewinds that buffer and
returns it. `handle_chunk` stores every chunk, answers `None` to intermediate chunks,
and answers the model's `predict` text for the final one.

Layout:

- `bytes_io.dfy` (module `BytesIO`): the part of `io.BytesIO` the store uses. It has a
  value view `Stream(data, pos)` with `Write` and `Rewind` (`seek(0)`), and the object
  `Buffer` whose fields those methods update in place.
- `memory_storage.dfy` (module `MemoryStorage`): `save_chunk_to_memory`. `Save` is the
  specification over the registry's value (`map<string, Stream>`). `SessionStore` is
  the registry as an object holding `map<string, Buffer>`. Its ghost field `contents`
  is the registry's value, and `SaveChunk` is proved to move `contents` exactly as
  `Save` does. The lemmas state the store's guarantees over runs of chunks.
- `video_service.dfy` (module `VideoService`): `handle_chunk`. `Handle` and `HandleAll`
  are its specification over one call and over a run of calls. `HandleChunk` is the
  method over the store. The model's `predict` is a parameter of type `Stream -> string`.
- `wrappers.dfy`: `Option`, standing for Python's `None` or a value.

Behaviour the model keeps exactly as the code has it:

- Entries are never removed, and nothing in app/storage/memory_storage.py:14-24 guards
  a session that already got its final chunk: no error is raised. The final chunk leaves the cursor at 0, so a later chunk for the same id
  overwrites from position 0 instead of appending. Bytes of the old upload beyond the
  new payload survive. A second final chunk is accepted and returns the buffer again.
  `ChunkAfterFinalOverwrites` states this in general. `FirstStep`, `SecondStep` and
  `ThirdStep` show it on AAAA, BBBB (final), CC (final): the third call hands CCAABBBB
  to the model.
- `chunk_index` is accepted and never read.

## Model

| member | source | states |
|---|---|---|
| BytesIO.Overwrite | app/storage/memory_storage.py:18 | An empty payload leaves the bytes unchanged. Otherwise the new length is max(old length, cursor + payload length) |
| BytesIO.OverwritePlaces | app/storage/memory_storage.py:18 | With the cursor within the bytes, a write keeps the bytes before the cursor, puts the payload at the cursor, and keeps older bytes beyond the payload |
| BytesIO.OverwritePastEnd | app/storage/memory_storage.py:18 | With the cursor past the end, a non-empty write keeps the old bytes, zero-fills up to the cursor, then puts the payload |
| BytesIO.Stream.Write | app/storage/memory_storage.py:18 | `write` advances the cursor by the payload length. An empty write changes nothing. Otherwise the cursor ends within the bytes, and it stays within them if it started there |
| BytesIO.Stream.Rewind | app/storage/memory_storage.py:21 | `seek(0)` puts the cursor at 0 and leaves the bytes unchanged |
| BytesIO.WriteAtEndAppends | app/storage/memory_storage.py:18 | With the cursor at the end, a write is exactly an append and the cursor stays at the end |
| BytesIO.WriteAtStartOverwrites | app/storage/memory_storage.py:18-21 | With the cursor at 0, the payload becomes the prefix, older bytes beyond it survive, and the length is max(old length, payload length) |
| BytesIO.Buffer.constructor | app/storage/memory_storage.py:15 | A new `BytesIO()` is empty with its cursor at 0 |
| BytesIO.Buffer.Write | app/storage/memory_storage.py:18 | The object's bytes and cursor become those of `Stream.Write` |
| BytesIO.Buffer.Rewind | app/storage/memory_storage.py:21 | The object's cursor becomes 0 and its bytes are unchanged |
| MemoryStorage.Opened | app/storage/memory_storage.py:14-15 | The buffer a chunk goes to is the stored one, or an empty one with its cursor at 0 for an unseen id |
| MemoryStorage.Stored | app/storage/memory_storage.py:18-21 | After the write, the session's bytes are the same whether or not the chunk is final. The cursor is 0 after a final chunk and advanced by the payload length otherwise. It is within the bytes after a final chunk, or when it was within them before |
| MemoryStorage.Save | app/storage/memory_storage.py:7-24 | One call adds the chunk's id to the keys and removes none. Every other entry is unchanged. The chunk's entry becomes `Stored` of the old or new buffer. A final chunk returns that stored buffer, and any other chunk returns `None` |
| MemoryStorage.SaveKeepsCursorsInRange | app/storage/memory_storage.py:14-21 | One call keeps every buffer's cursor within its bytes (`pos <= len(data)`) |
| MemoryStorage.SaveAllKeepsCursorsInRange | app/storage/memory_storage.py:14-21 | Any run of calls keeps every buffer's cursor within its bytes |
| MemoryStorage.FirstChunkCreates | app/storage/memory_storage.py:14-18 | A chunk for an unseen id creates the entry, and the entry then holds exactly the payload |
| MemoryStorage.OpenChunkAppends | app/storage/memory_storage.py:14-18 | While the cursor is at the end, a non-final chunk is appended, the cursor stays at the end, and the call returns `None` |
| MemoryStorage.ChunkAfterFinalOverwrites | app/storage/memory_storage.py:14-21 | After a final chunk, the next chunk for the same id overwrites from 0. The length becomes max(old length, payload length) |
| MemoryStorage.SaveAllIsolates | app/storage/memory_storage.py:5-18 | After a run of calls, the keys are the old keys plus the ids touched. Every entry the run does not touch is unchanged |
| MemoryStorage.OpenUploadConcatenates | app/storage/memory_storage.py:14-18 | A fresh session fed only non-final chunks holds p1 + … + pn with the cursor at the end |
| MemoryStorage.FinalChunkReturnsUpload | app/storage/memory_storage.py:14-22 | For a fresh session fed non-final chunks and then a final one, the final call returns a buffer holding all payloads in order, with its cursor at 0 |
| MemoryStorage.SaveOtherKeepsEntry | app/storage/memory_storage.py:14-21 | A call for one id leaves another id's entry, and whether that entry exists, unchanged |
| MemoryStorage.SaveDependsOnOwnEntry | app/storage/memory_storage.py:14-22 | What a call stores and returns depends only on its own session's entry beforehand |
| MemoryStorage.SaveAllProjects | app/storage/memory_storage.py:5-21 | Sessions do not interfere. After a run, the entry for an id (and whether it exists) is what the run's calls for that id alone would leave |
| MemoryStorage.InterleavedUploadReturns | app/storage/memory_storage.py:14-22 | Take a fresh session with other sessions' chunks interleaved and no final chunk of its own until the last. Its final call returns a buffer holding its own payloads in order, with its cursor at 0 |
| MemoryStorage.ChunkIndexIgnored | app/storage/memory_storage.py:7-24 | Two runs that differ only in `chunk_index` leave the same registry |
| VideoService.ChunkIndexIgnoredAnswers | app/services/video_service.py:9-22 | Two runs of `handle_chunk` that differ only in `chunk_index` leave the same registry and give the same answer to every call |
| MemoryStorage.SessionStore.constructor | app/storage/memory_storage.py:5 | The registry starts empty |
| MemoryStorage.SessionStore.Open | app/storage/memory_storage.py:14-15 | An unseen id gets a fresh empty buffer. A known id keeps its buffer object. No other entry changes |
| MemoryStorage.SessionStore.WriteEntry | app/storage/memory_storage.py:17-18 | Only the session's buffer changes, and it changes as `Stream.Write` says |
| MemoryStorage.SessionStore.RewindEntry | app/storage/memory_storage.py:20-21 | Only the session's buffer changes, and only its cursor, which becomes 0 |
| MemoryStorage.SessionStore.SaveChunk | app/storage/memory_storage.py:7-24 | The registry's new value is `Save` of the old one, and cursors stay within their bytes. Existing ids keep their buffer objects, and a new id gets a fresh one. No two ids share a buffer. A final chunk returns the stored buffer object itself (not a copy), and any other chunk returns null |
| VideoService.Handle | app/services/video_service.py:9-22 | The store changes exactly as one `save_chunk_to_memory` call says. The answer is present iff the chunk is final, and then it is `predict` of the stored, rewound buffer |
| VideoService.HandleAll | app/services/video_service.py:17-22 | In a run of calls, the i-th call answers with a text iff the i-th chunk is final |
| VideoService.IntermediateSkipsPredict | app/services/video_service.py:17-18 | An intermediate chunk answers `None`, and the outcome does not depend on `predict` |
| VideoService.HandleAllStoresEachChunk | app/services/video_service.py:15 | A run of `handle_chunk` calls changes the registry exactly as the same run of `save_chunk_to_memory` calls does. Each chunk is stored once, in order |
| VideoService.UploadRecognised | app/services/video_service.py:15-22 | End to end, on the shared registry with other sessions' chunks interleaved. Take a fresh session with no final chunk until its last. Each of its intermediate chunks answers `None`. Its final chunk answers `predict` of a buffer holding the session's own payloads in order, with its cursor at 0 |
| VideoService.HandleChunk | app/services/video_service.py:9-22 | Over the store object, one call moves the registry and answers exactly as `Handle` says. Every other id keeps its buffer object. A known id keeps its object, and a new id gets a fresh one. Cursors stay within their bytes |
| VideoService.FirstStep | app/storage/memory_storage.py:14-18 | Scenario: "abc" sends AAAA first, gets `None`, and its entry holds AAAA |
| VideoService.SecondStep | app/services/video_service.py:15-22 | Scenario: the final BBBB is appended, and the model receives AAAABBBB with the cursor at 0 |
| VideoService.ThirdStep | app/storage/memory_storage.py:14-22 | Scenario: a second final chunk CC is accepted, overwrites from 0, and the model receives CCAABBBB |

## Left out

- `await file.read()` (app/storage/memory_storage.py:17) is transport I/O. The payload it yields is a plain byte-sequence parameter.
- `model.predict` is an opaque parameter `Stream -> string` applied to the buffer's bytes and cursor. The stub in app/ml/pipeline.py serialises calls through an `asyncio.Lock` and a thread-pool executor (concurrency). It burns CPU time on a clock (`busy_work`, floating point) and interpolates the object's `repr` into its answer. None of this is modelled, so the answer cannot depend on the object's identity.
- `process_video` and `extract_frames` in app/ml/pipeline.py (a sleep, temp-file I/O and OpenCV decoding) are not part of this model.
- Concurrent requests interleaving on the shared `sessions` dict are not modelled. The model is the sequential semantics of one call at a time.
- Of `BytesIO`, only construction, `write` and `seek(0)` are modelled, because the store uses nothing else. A non-empty write past the end zero-fills the gap, and an empty write changes nothing, as `BytesIO` does. The store never puts a cursor past the end, because it only ever seeks to 0.
- The FastAPI routes, dependency-injection factories and app startup (app/api/*, app/core/app.py, app/main.py), including the mapping of exceptions to HTTP 500, are thin plumbing and are not part of this model.
- The commented-out `assemble_file` (app/storage/memory_storage.py:27-36) is dead code and is not modelled.
