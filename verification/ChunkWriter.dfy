/** The chunk writer of the bundled React server renderer
    (bench/react-hello-world/react-hello-world.workerd.js): small writes are gathered in a
    2048-byte view, large ones are passed on as they are. */
module ChunkWriter {
  import opened LittleEndian

  /** What the stream controller was given: the first `len` bytes of `buf`, not a copy of them. */
  datatype Chunk = Chunk(buf: array<Byte>, len: nat)

  function Buffers(queue: seq<Chunk>): set<object> {
    set k | 0 <= k < |queue| :: queue[k].buf
  }

  /** The bytes a reader of the stream gets from the chunks `parts`. */
  ghost function Concat(parts: seq<seq<Byte>>): seq<Byte> {
    if parts == [] then [] else Concat(parts[..|parts| - 1]) + parts[|parts| - 1]
  }

  lemma ConcatPush(parts: seq<seq<Byte>>, p: seq<Byte>)
    ensures Concat(parts + [p]) == Concat(parts) + p
  {
    assert (parts + [p])[..|parts|] == parts;
  }

  lemma Rejoin(before: seq<Byte>, data: seq<Byte>, k: nat)
    requires k <= |data|
    ensures before + data[..k] + data[k..|data|] == before + data
  {
    assert data[..k] + data[k..|data|] == data;
  }

  lemma ConcatNext(before: seq<Byte>, datas: seq<seq<Byte>>, i: nat)
    requires i < |datas|
    ensures before + Concat(datas[..i]) + datas[i] == before + Concat(datas[..i + 1])
  {
    assert datas[..i + 1][..i] == datas[..i];
    assert before + Concat(datas[..i]) + datas[i] == before + (Concat(datas[..i]) + datas[i]);
  }

  /** Every chunk is non-empty and still holds the bytes it was passed on with. */
  ghost predicate Kept(queue: seq<Chunk>, parts: seq<seq<Byte>>)
    reads Buffers(queue)
  {
    && |parts| == |queue|
    && forall k :: 0 <= k < |queue| ==>
         0 < queue[k].len <= queue[k].buf.Length && queue[k].buf[..queue[k].len] == parts[k]
  }

  lemma KeptPush(queue: seq<Chunk>, parts: seq<seq<Byte>>, c: Chunk)
    requires Kept(queue, parts) && 0 < c.len <= c.buf.Length
    ensures Kept(queue + [c], parts + [c.buf[..c.len]])
    ensures Buffers(queue + [c]) == Buffers(queue) + {c.buf}
  {
    var q := queue + [c];
    assert q[|queue|] == c;
    forall b | b in Buffers(queue) ensures b in Buffers(q) {
      var k :| 0 <= k < |queue| && b == queue[k].buf;
      assert q[k].buf == b;
    }
  }

  /** `dst.set(u.subarray(from, from + n), at)`. */
  method Copy(dst: array<Byte>, at: nat, u: array<Byte>, from: nat, n: nat)
    requires dst != u && from + n <= u.Length && at + n <= dst.Length
    modifies dst
    ensures dst[..at + n] == old(dst[..at]) + u[from..from + n]
  {
    for i := 0 to n
      invariant dst[..at] == old(dst[..at])
      invariant dst[at..at + i] == u[from..from + i]
    {
      dst[at + i] := u[from + i];
    }
    assert dst[..at + n] == dst[..at] + dst[at..at + n];
  }

  /** The chunk of what is gathered in the view, if anything. */
  ghost function Waiting(view: array?<Byte>, written: nat): seq<Chunk> {
    if view != null && written > 0 then [Chunk(view, written)] else []
  }

  class Writer {
    var view: array?<Byte>
    var written: nat
    var queue: seq<Chunk>
    /** The bytes each chunk held when it was passed on. */
    ghost var parts: seq<seq<Byte>>

    /** No chunk passed on has changed since, and the view being filled is none of them. */
    ghost predicate Valid()
      reads this, view, Buffers(queue)
    {
      && written <= 2048
      && (view == null ==> written == 0)
      && (view != null ==> view.Length == 2048 && view !in Buffers(queue))
      && Kept(queue, parts)
    }

    /** Everything written so far: passed on, or still in the view. */
    ghost function Written(): seq<Byte>
      requires Valid()
      reads this, view, Buffers(queue)
    {
      if view == null then Concat(parts) else Concat(parts) + view[..written]
    }

    constructor ()
      ensures Valid() && view == null && queue == [] && parts == [] && Written() == []
    {
      view, written, queue, parts := null, 0, [], [];
    }

    /** What a flush of the renderer starts with. */
    method BeginWriting()
      requires Valid() && written == 0
      modifies this`view, this`written
      ensures Valid() && view != null && fresh(view) && written == 0
      ensures Written() == old(Written())
    {
      view := new Byte[2048](_ => 0);
      written := 0;
    }

    /** Passes the bytes gathered so far on, by reference, and goes on with a new view. */
    method PassViewOn()
      requires Valid() && view != null && 0 < written
      modifies this
      ensures Valid() && view != null && fresh(view) && written == 0
      ensures queue == old(queue) + [Chunk(old(view), old(written))]
      ensures parts == old(parts) + [old(view[..written])]
      ensures Written() == old(Written())
    {
      ConcatPush(parts, view[..written]);
      KeptPush(queue, parts, Chunk(view, written));
      queue := queue + [Chunk(view, written)];
      parts := parts + [view[..written]];
      view := new Byte[2048](_ => 0);
      written := 0;
    }

    /** `bf.set(u.subarray(from, to), pf)`, `pf += to - from`. */
    method Gather(u: array<Byte>, from: nat, to: nat)
      requires Valid() && view != null && u != view
      requires from <= to <= u.Length && written + (to - from) <= 2048
      modifies this`written, view
      ensures Valid()
      ensures written == old(written) + (to - from)
      ensures Written() == old(Written()) + u[..][from..to]
    {
      Copy(view, written, u, from, to - from);
      assert u[from..to] == u[..][from..to];
      written := written + (to - from);
    }

    /** `A`: appends the bytes of `u`. Only a write that needs no view may come before
        `BeginWriting`. Chunks passed on earlier stay as they were. */
    method Write(u: array<Byte>)
      requires Valid() && u != view
      requires view == null ==> u.Length == 0 || u.Length > 2048
      modifies this, view
      ensures Valid() && (old(view) != null ==> view != null) && (view == old(view) || fresh(view))
      ensures Written() == old(Written()) + u[..]
      ensures old(queue) <= queue && old(parts) <= parts
      ensures u.Length == 0 || (u.Length <= 2048 && old(written) + u.Length <= 2048) ==>
                queue == old(queue) && written == old(written) + u.Length
      ensures u.Length <= 2048 < old(written) + u.Length ==>
                && old(view) != null && queue == old(queue) + [Chunk(old(view), 2048)]
                && written == old(written) + u.Length - 2048
      ensures u.Length > 2048 ==>
                && queue == old(queue) + Waiting(old(view), old(written)) + [Chunk(u, u.Length)] && written == 0
    {
      if u.Length != 0 {
        if 2048 < u.Length {
          WriteLarge(u);
        } else {
          WriteSmall(u);
        }
      }
    }

    method WriteLarge(u: array<Byte>)
      requires Valid() && u != view && u.Length > 2048
      modifies this
      ensures Valid() && (view == old(view) || (old(view) != null && fresh(view)))
      ensures Written() == old(Written()) + u[..]
      ensures old(queue) <= queue && old(parts) <= parts
      ensures queue == old(queue) + Waiting(old(view), old(written)) + [Chunk(u, u.Length)] && written == 0
    {
      ghost var before := Written();
      assert queue + [] == queue;
      if 0 < written {
        PassViewOn();
      }
      PassOn(u);
      assert Written() == before + u[..];
    }

    /** Passes `u` itself on; nothing may be waiting in the view. */
    method PassOn(u: array<Byte>)
      requires Valid() && u != view && u.Length > 0 && written == 0
      modifies this`queue, this`parts
      ensures Valid() && queue == old(queue) + [Chunk(u, u.Length)]
      ensures parts == old(parts) + [u[..]]
      ensures Written() == old(Written()) + u[..]
    {
      assert u[..u.Length] == u[..];
      ConcatPush(parts, u[..]);
      KeptPush(queue, parts, Chunk(u, u.Length));
      queue := queue + [Chunk(u, u.Length)];
      parts := parts + [u[..]];
    }

    method WriteSmall(u: array<Byte>)
      requires Valid() && u != view && view != null && u.Length <= 2048
      modifies this, view
      ensures Valid() && (view == old(view) || fresh(view))
      ensures Written() == old(Written()) + u[..]
      ensures queue == if old(written) + u.Length <= 2048 then old(queue) else old(queue) + [Chunk(old(view), 2048)]
      ensures written == old(written) + u.Length - if old(written) + u.Length <= 2048 then 0 else 2048
      ensures old(parts) <= parts
    {
      ghost var before := Written();
      var from := MakeRoom(u);
      Rejoin(before, u[..], from);
      Gather(u, from, u.Length);
    }

    /** If `u` does not fit, fills the view up with its first bytes and passes it on. */
    method MakeRoom(u: array<Byte>) returns (from: nat)
      requires Valid() && u != view && view != null && u.Length <= 2048
      modifies this, view
      ensures Valid() && view != null && u != view && (view == old(view) || fresh(view))
      ensures from <= u.Length && written + (u.Length - from) <= 2048
      ensures Written() == old(Written()) + u[..][..from]
      ensures queue == if old(written) + u.Length <= 2048 then old(queue) else old(queue) + [Chunk(old(view), 2048)]
      ensures written + (u.Length - from)
           == old(written) + u.Length - if old(written) + u.Length <= 2048 then 0 else 2048
      ensures old(parts) <= parts
    {
      from := 0;
      var free := 2048 - written;
      if free < u.Length {
        if free != 0 {
          Gather(u, 0, free);
          from := free;
        }
        PassViewOn();
      }
    }

    /** `Lv`. */
    method Flush()
      requires Valid()
      modifies this
      ensures Valid() && written == 0
      ensures Written() == old(Written()) == Concat(parts)
      ensures old(queue) <= queue && old(parts) <= parts
      ensures queue == old(queue) + Waiting(old(view), old(written))
    {
      assert queue + [] == queue;
      if view != null && 0 < written {
        ConcatPush(parts, view[..written]);
        KeptPush(queue, parts, Chunk(view, written));
        queue := queue + [Chunk(view, written)];
        parts := parts + [view[..written]];
        view := null;
        written := 0;
      }
    }
  }

  ghost predicate Hold(us: seq<array<Byte>>, datas: seq<seq<Byte>>)
    reads us
  {
    |datas| == |us| && forall k :: 0 <= k < |us| ==> us[k][..] == datas[k]
  }

  /** The writes of one round, between its beginning and its flush. */
  method WriteEach(w: Writer, us: seq<array<Byte>>, ghost datas: seq<seq<Byte>>)
    requires w.Valid() && w.view != null && w.view !in us && Hold(us, datas)
    modifies w, w.view
    ensures w.Valid() && w.view != null && (w.view == old(w.view) || fresh(w.view))
    ensures w.Written() == old(w.Written()) + Concat(datas)
    ensures old(w.parts) <= w.parts && old(w.queue) <= w.queue
  {
    ghost var before := w.Written();
    assert before + [] == before;
    for i := 0 to |us|
      invariant w.Valid() && w.view != null && (w.view == old(w.view) || fresh(w.view))
      invariant Hold(us, datas)
      invariant w.Written() == before + Concat(datas[..i])
      invariant old(w.parts) <= w.parts && old(w.queue) <= w.queue
    {
      ConcatNext(before, datas, i);
      assert w.view != us[i];
      w.Write(us[i]);
    }
    assert datas[..|us|] == datas;
  }

  /** Any sequence of writes and a flush: the stream is the concatenation of the writes, whose
      bytes are `datas`. */
  method WriteAll(w: Writer, us: seq<array<Byte>>, ghost datas: seq<seq<Byte>>)
    requires w.Valid() && w.written == 0
    requires Hold(us, datas)
    modifies w
    ensures w.Valid() && w.written == 0 && Concat(w.parts) == old(Concat(w.parts)) + Concat(datas)
    ensures old(w.parts) <= w.parts && old(w.queue) <= w.queue
  {
    ghost var start := Concat(w.parts);
    w.BeginWriting();
    assert w.Written() == start by { assert w.Written() == start + []; }
    WriteEach(w, us, datas);
    assert w.Written() == start + Concat(datas);
    w.Flush();
  }
}
