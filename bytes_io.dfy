/**
 * The part of Python's `io.BytesIO` that the session store relies on: a growable byte
 * buffer with a cursor, written with `write` and rewound with `seek(0)`.
 */
module BytesIO {
  newtype byte = x: int | 0 <= x < 256

  function Min(a: int, b: int): int { if a <= b then a else b }

  function Max(a: int, b: int): int { if a <= b then b else a }

  /** The bytes held by a buffer at `data` and its cursor `pos`. */
  datatype Stream = Stream(data: seq<byte>, pos: nat) {
    /** The cursor lies within the bytes (or just past the last one). */
    predicate Valid() { pos <= |data| }

    /**
     * `write(d)`: overwrite from the cursor on, extend past the end, advance the cursor.
     * Afterwards the cursor is within the bytes, unless it already lay past the end and
     * `d` is empty (an empty write changes nothing).
     */
    function Write(d: seq<byte>): (r: Stream)
      ensures r.pos == pos + |d|
      ensures Valid() || d != [] ==> r.Valid()
      ensures d == [] ==> r == this
    {
      Stream(Overwrite(data, pos, d), pos + |d|)
    }

    /** `seek(0)`: move the cursor to the start, leaving the bytes alone. */
    function Rewind(): (r: Stream)
      ensures r.Valid() && r.pos == 0 && r.data == data
    {
      Stream(data, 0)
    }
  }

  /** A freshly constructed `BytesIO()`. */
  const Empty := Stream([], 0)

  /** `n` zero bytes. */
  function Zeros(n: nat): (z: seq<byte>)
    ensures |z| == n
  {
    seq(n, _ => 0)
  }

  /**
   * The bytes after writing `d` at `pos` into `data`. An empty `d` leaves them alone;
   * otherwise a cursor past the end zero-fills the gap first.
   */
  function Overwrite(data: seq<byte>, pos: nat, d: seq<byte>): (r: seq<byte>)
    ensures d == [] ==> r == data
    ensures d != [] ==> |r| == Max(|data|, pos + |d|)
  {
    if d == [] then data
    else if pos <= |data| then data[..pos] + d + data[Min(pos + |d|, |data|)..]
    else data + Zeros(pos - |data|) + d
  }

  /**
   * A write at a cursor within the bytes keeps the part before the cursor, puts `d` at
   * the cursor, keeps whatever lay beyond `pos + |d|`, and grows the buffer only when it
   * runs past the old end.
   */
  lemma {:induction false} OverwritePlaces(data: seq<byte>, pos: nat, d: seq<byte>)
    requires pos <= |data|
    ensures Overwrite(data, pos, d)[..pos] == data[..pos]
    ensures Overwrite(data, pos, d)[pos..pos + |d|] == d
    ensures Overwrite(data, pos, d)[pos + |d|..] == if pos + |d| <= |data| then data[pos + |d|..] else []
  {
    var r := Overwrite(data, pos, d);
    if d == [] {
      assert data == data[..pos] + data[pos..];
    }
    assert r == data[..pos] + d + data[Min(pos + |d|, |data|)..];
  }

  /**
   * A non-empty write at a cursor past the end keeps the old bytes, fills the gap up to
   * the cursor with zeros, and puts `d` at the cursor.
   */
  lemma {:induction false} OverwritePastEnd(data: seq<byte>, pos: nat, d: seq<byte>)
    requires |data| < pos && d != []
    ensures Overwrite(data, pos, d)[..|data|] == data
    ensures forall i :: |data| <= i < pos ==> Overwrite(data, pos, d)[i] == 0
    ensures Overwrite(data, pos, d)[pos..] == d
  {
    var r := Overwrite(data, pos, d);
    var z := Zeros(pos - |data|);
    assert r == data + z + d;
    forall i | |data| <= i < pos
      ensures r[i] == 0
    {
      assert r[i] == z[i - |data|];
    }
  }

  /** With the cursor at the end, a write is an append and the cursor stays at the end. */
  lemma {:induction false} WriteAtEndAppends(s: Stream, d: seq<byte>)
    requires s.pos == |s.data|
    ensures s.Write(d) == Stream(s.data + d, |s.data + d|)
  {
    OverwritePlaces(s.data, s.pos, d);
    var r := s.Write(d).data;
    assert r == r[..s.pos] + r[s.pos..];
  }

  /**
   * With the cursor at the start, a write overwrites: `d` becomes the prefix, any older
   * bytes beyond `|d|` survive, and the length is the larger of the two.
   */
  lemma {:induction false} WriteAtStartOverwrites(s: Stream, d: seq<byte>)
    requires s.pos == 0
    ensures |s.Write(d).data| == Max(|s.data|, |d|)
    ensures s.Write(d).data == d + (if |d| < |s.data| then s.data[|d|..] else [])
    ensures s.Write(d).pos == |d|
  {
    OverwritePlaces(s.data, 0, d);
    var r := s.Write(d).data;
    assert r == r[..|d|] + r[|d|..];
  }

  /** An in-memory `BytesIO` object; the store hands out references to it. */
  class Buffer {
    var data: seq<byte>
    var pos: nat

    /** The buffer's current value. */
    function State(): (s: Stream)
      reads this
      ensures s.data == data && s.pos == pos
    {
      Stream(data, pos)
    }

    /** `BytesIO()`: empty, cursor at 0. */
    constructor ()
      ensures State() == Empty
    {
      data := [];
      pos := 0;
    }

    /** `write(d)`. */
    method Write(d: seq<byte>)
      modifies this
      ensures State() == old(State()).Write(d)
    {
      data := Overwrite(data, pos, d);
      pos := pos + |d|;
    }

    /** `seek(0)`. */
    method Rewind()
      modifies this
      ensures State() == old(State()).Rewind()
    {
      pos := 0;
    }
  }
}
