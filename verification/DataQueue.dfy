/** The byte queue of DataQueue.cpp: whole entries go in, partial reads take them out. */
module DataQueue {
  import opened Common

  type Byte = bv8
  type UInt16 = x: int | 0 <= x < 0x1_0000

  // ---------------------------------------------------------------- what the queue means

  /** What one read of at most m bytes delivers: from the front of the first entry, as much as there is and fits. */
  function Read(q: seq<seq<Byte>>, m: nat): (r: seq<Byte>)
    requires q != []
    ensures r <= q[0] && |r| <= m && (|r| < m ==> r == q[0])
  {
    if |q[0]| <= m then q[0] else q[0][..m]
  }

  /** What the read leaves behind: the entries after the first, and the rest of that if there is any. */
  function Rest(q: seq<seq<Byte>>, m: nat): (rest: seq<seq<Byte>>)
    requires q != []
    ensures |rest| == |q| - if |q[0]| <= m then 1 else 0
  {
    if |q[0]| <= m then q[1..] else [q[0][m..]] + q[1..]
  }

  /** Every queued entry has at least one byte left and fits a 16-bit length. */
  predicate Entries(q: seq<seq<Byte>>) {
    forall i :: 0 <= i < |q| ==> 1 <= |q[i]| < 0x1_0000
  }

  function Flat(q: seq<seq<Byte>>): seq<Byte> {
    if q == [] then [] else q[0] + Flat(q[1..])
  }

  // ---------------------------------------------------------------- the queue in place

  /** A header with the bytes that follow it in memory; those bytes never change. */
  class Header {
    var mDataLen: UInt16
    var mOffset: UInt16
    const data: seq<Byte>

    constructor (data: seq<Byte>)
      requires |data| < 0x1_0000
      ensures this.data == data && mDataLen == |data| && mOffset == 0
    {
      this.data := data;
      mDataLen := |data|;
      mOffset := 0;
    }

    /** Offset and length always add up to the length of the entry, so neither field wraps. */
    predicate Whole() reads this {
      mDataLen > 0 && mOffset + mDataLen == |data| < 0x1_0000
    }

    function Left(): seq<Byte> reads this requires Whole() { data[mOffset..] }
  }

  class DataQueue {
    var mQueue: seq<Header>
    ghost var contents: seq<seq<Byte>>

    ghost predicate Valid() reads this, mQueue {
      && |contents| == |mQueue|
      && (forall i, j :: 0 <= i < j < |mQueue| ==> mQueue[i] != mQueue[j])
      && (forall i :: 0 <= i < |mQueue| ==> mQueue[i].Whole() && mQueue[i].Left() == contents[i])
    }

    constructor ()
      ensures Valid() && contents == [] && mQueue == []
    {
      mQueue, contents := [], [];
    }

    method IsEmpty() returns (empty: bool)
      requires Valid()
      ensures empty <==> contents == []
    {
      empty := mQueue == [];
    }

    /** A NULL array or a zero length is refused; otherwise a copy of the first dataLen bytes is appended. */
    method Enqueue(data: array?<Byte>, dataLen: UInt16) returns (ok: bool)
      requires Valid() && (data != null ==> dataLen <= data.Length)
      modifies this
      ensures Valid() && (ok <==> data != null && dataLen > 0)
      ensures contents == if ok then old(contents) + [old(data[..dataLen])] else old(contents)
      ensures forall h :: h in mQueue ==> h in old(mQueue) || fresh(h)
    {
      if data == null || dataLen == 0 {
        return false;
      }
      var header := new Header(data[..dataLen]);
      mQueue := mQueue + [header];
      contents := contents + [data[..dataLen]];
      return true;
    }

    /** Reads into the caller's buffer.  The queue must not be empty: the front of an empty list is undefined. */
    method Dequeue(buffer: array?<Byte>, bufferMaxLen: UInt16, actualLen: UInt16) returns (ok: bool, newLen: UInt16)
      requires Valid() && contents != [] && (buffer != null ==> bufferMaxLen <= buffer.Length)
      modifies this, mQueue, if buffer == null then {} else {buffer}
      ensures Valid() && (ok <==> buffer != null && bufferMaxLen > 0)
      ensures ok ==> contents == Rest(old(contents), bufferMaxLen)
      ensures ok ==> newLen == |Read(old(contents), bufferMaxLen)| <= bufferMaxLen
      ensures ok ==> buffer[..] == Read(old(contents), bufferMaxLen) + old(buffer[..])[newLen..]
      ensures !ok ==> contents == old(contents) && newLen == actualLen
      ensures !ok && buffer != null ==> buffer[..] == old(buffer[..])
      ensures mQueue == old(mQueue) || mQueue == old(mQueue)[1..]
    {
      var header := mQueue[0];
      if buffer == null || bufferMaxLen == 0 {
        return false, actualLen;
      }
      newLen := if header.mDataLen <= bufferMaxLen then header.mDataLen else bufferMaxLen;
      Copy(header.data, header.mOffset, buffer, newLen);
      if header.mDataLen <= bufferMaxLen {
        mQueue := mQueue[1..];
        contents := contents[1..];
      } else {
        Advance(newLen);
      }
      return true, newLen;
    }

    /** Adjusts length and offset of the front entry, so the next dequeue gets the remainder. */
    method Advance(n: UInt16)
      requires Valid() && contents != [] && n < mQueue[0].mDataLen
      modifies this`contents, mQueue[0]
      ensures Valid() && contents == [old(contents)[0][n..]] + old(contents)[1..]
    {
      var header := mQueue[0];
      header.mDataLen := (header.mDataLen - n) % 0x1_0000;
      header.mOffset := (header.mOffset + n) % 0x1_0000;
      assert header.Left() == contents[0][n..];
      contents := [contents[0][n..]] + contents[1..];
    }

    /** memcpy. */
    static method Copy(data: seq<Byte>, offset: nat, buffer: array<Byte>, n: nat)
      requires offset + n <= |data| && n <= buffer.Length
      modifies buffer
      ensures buffer[..] == data[offset..offset + n] + old(buffer[..])[n..]
    {
      forall k | 0 <= k < n { buffer[k] := data[offset + k]; }
    }
  }

  // ---------------------------------------------------------------- runs

  /** A call with its data, or with the size of its buffer; None is a NULL array. */
  datatype Call = Enqueue(data: Option<seq<Byte>>) | Dequeue(max: Option<nat>)

  predicate Taken(c: Call) {
    if c.Enqueue? then c.data.Some? && c.data.value != [] else c.max.Some? && c.max.value > 0
  }

  function After(q: seq<seq<Byte>>, c: Call): seq<seq<Byte>>
    requires c.Dequeue? ==> q != []
  {
    if !Taken(c) then q else if c.Enqueue? then q + [c.data.value] else Rest(q, c.max.value)
  }

  /** The calls can be made in this order: every data length is a 16-bit one and no dequeue meets an empty queue. */
  predicate Callable(q: seq<seq<Byte>>, calls: seq<Call>)
    decreases |calls|
  {
    calls == [] || (
      && (calls[0].Dequeue? ==> q != [])
      && (calls[0].Enqueue? && calls[0].data.Some? ==> |calls[0].data.value| < 0x1_0000)
      && Callable(After(q, calls[0]), calls[1..]))
  }

  function Final(q: seq<seq<Byte>>, calls: seq<Call>): seq<seq<Byte>>
    requires Callable(q, calls)
    decreases |calls|
  {
    if calls == [] then q else Final(After(q, calls[0]), calls[1..])
  }

  /** What one call adds to the entries, and to the reads. */
  function Given(c: Call): seq<seq<Byte>> {
    if c.Enqueue? && Taken(c) then [c.data.value] else []
  }

  function Got(q: seq<seq<Byte>>, c: Call): seq<seq<Byte>>
    requires c.Dequeue? ==> q != []
  {
    if c.Dequeue? && Taken(c) then [Read(q, c.max.value)] else []
  }

  /** The entries accepted, in order. */
  function Accepted(calls: seq<Call>): seq<seq<Byte>> {
    if calls == [] then []
    else Given(calls[0]) + Accepted(calls[1..])
  }

  /** The reads delivered, in order. */
  function Delivered(q: seq<seq<Byte>>, calls: seq<Call>): seq<seq<Byte>>
    requires Callable(q, calls)
    decreases |calls|
  {
    if calls == [] then []
    else Got(q, calls[0]) + Delivered(After(q, calls[0]), calls[1..])
  }

  lemma Assoc(a: seq<Byte>, b: seq<Byte>, c: seq<Byte>)
    ensures (a + b) + c == a + (b + c)
  {
  }

  lemma {:induction false} FlatAppends(p: seq<seq<Byte>>, q: seq<seq<Byte>>)
    ensures Flat(p + q) == Flat(p) + Flat(q)
  {
    if p == [] {
      assert p + q == q;
    } else {
      FlatAppends(p[1..], q);
      assert (p + q)[1..] == p[1..] + q;
      Assoc(p[0], Flat(p[1..]), Flat(q));
    }
  }

  lemma ReadAndRest(q: seq<seq<Byte>>, m: nat)
    requires q != []
    ensures Read(q, m) + Flat(Rest(q, m)) == Flat(q)
  {
    if |q[0]| > m {
      assert Rest(q, m)[1..] == q[1..];
      assert q[0] == q[0][..m] + q[0][m..];
    }
  }

  lemma {:induction false} ReadsKeepEntries(q: seq<seq<Byte>>, calls: seq<Call>)
    requires Entries(q) && Callable(q, calls)
    ensures Entries(Final(q, calls))
    decreases |calls|
  {
    if calls != [] { ReadsKeepEntries(After(q, calls[0]), calls[1..]); }
  }

  lemma OneCall(q: seq<seq<Byte>>, c: Call)
    requires c.Dequeue? ==> q != []
    ensures Flat(Got(q, c)) + Flat(After(q, c)) == Flat(q) + Flat(Given(c))
  {
    if !Taken(c) {
    } else if c.Enqueue? {
      FlatAppends(q, [c.data.value]);
    } else {
      ReadAndRest(q, c.max.value);
      assert [Read(q, c.max.value)][1..] == [];
    }
  }

  lemma Joined(got: seq<Byte>, mid: seq<Byte>, start: seq<Byte>, given: seq<Byte>,
               later: seq<Byte>, end: seq<Byte>, coming: seq<Byte>)
    requires later + end == mid + coming && got + mid == start + given
    ensures (got + later) + end == start + (given + coming)
  {
    Assoc(got, later, end);
    Assoc(got, mid, coming);
    Assoc(start, given, coming);
  }

  /** Over any run, the bytes delivered followed by the bytes still queued are the bytes queued at first followed
      by all bytes accepted, in order. */
  lemma {:induction false} StreamConserved(q: seq<seq<Byte>>, calls: seq<Call>)
    requires Callable(q, calls)
    ensures Flat(Delivered(q, calls)) + Flat(Final(q, calls)) == Flat(q) + Flat(Accepted(calls))
    decreases |calls|
  {
    if calls == [] { return; }
    var c, q', later := calls[0], After(q, calls[0]), calls[1..];
    StreamConserved(q', later);
    OneCall(q, c);
    FlatAppends(Got(q, c), Delivered(q', later));
    FlatAppends(Given(c), Accepted(later));
    Joined(Flat(Got(q, c)), Flat(q'), Flat(q), Flat(Given(c)),
           Flat(Delivered(q', later)), Flat(Final(q', later)), Flat(Accepted(later)));
  }

  // ---------------------------------------------------------------- entry boundaries

  function Bytes(q: seq<seq<Byte>>): nat {
    if q == [] then 0 else |q[0]| + Bytes(q[1..])
  }

  /** An entry of q ends at stream position p, or p is 0. */
  ghost predicate Boundary(q: seq<seq<Byte>>, p: int) {
    exists k: nat :: k <= |q| && p == Bytes(q[..k])
  }

  lemma {:induction false} BytesAppend(p: seq<seq<Byte>>, q: seq<seq<Byte>>)
    ensures Bytes(p + q) == Bytes(p) + Bytes(q)
  {
    if p == [] {
      assert p + q == q;
    } else {
      BytesAppend(p[1..], q);
      assert (p + q)[1..] == p[1..] + q;
    }
  }

  /** A read moves every later boundary up by exactly the bytes it delivers. */
  lemma BoundaryMoves(q: seq<seq<Byte>>, more: seq<seq<Byte>>, m: nat, p: int)
    requires q != [] && Boundary(q + more, p)
    ensures p == 0 || Boundary(Rest(q, m) + more, p - |Read(q, m)|)
  {
    var all := q + more;
    var k: nat :| k <= |all| && p == Bytes(all[..k]);
    if k > 0 {
      assert all[..k] == [q[0]] + all[1..k];
      BytesAppend([q[0]], all[1..k]);
      var left := Rest(q, m) + more;
      if |q[0]| <= m {
        assert left == all[1..] && left[..k - 1] == all[1..k];
        assert Bytes(left[..k - 1]) == p - |Read(q, m)|;
      } else {
        assert left[..k] == [q[0][m..]] + all[1..k];
        BytesAppend([q[0][m..]], all[1..k]);
        assert Bytes(left[..k]) == p - |Read(q, m)|;
      }
    }
  }

  /** No read crosses the boundary between two entries, in any run. */
  lemma {:induction false} NoReadCrosses(q: seq<seq<Byte>>, calls: seq<Call>, i: nat, p: int)
    requires Callable(q, calls) && i < |Delivered(q, calls)| && Boundary(q + Accepted(calls), p)
    ensures p <= Bytes(Delivered(q, calls)[..i]) || Bytes(Delivered(q, calls)[..i + 1]) <= p
    decreases |calls|
  {
    var c, q', got := calls[0], After(q, calls[0]), Delivered(q, calls);
    var later := Delivered(q', calls[1..]);
    if Taken(c) && c.Enqueue? {
      assert q + Accepted(calls) == q' + Accepted(calls[1..]);
      assert got == later;
      NoReadCrosses(q', calls[1..], i, p);
    } else if Taken(c) {
      var r := Read(q, c.max.value);
      assert got == [r] + later && Accepted(calls) == Accepted(calls[1..]);
      BoundaryMoves(q, Accepted(calls), c.max.value, p);
      if i == 0 {
        assert got[..1] == [r] && Bytes([r]) == |r|;
        if p != 0 {
          var k: nat :| k <= |q' + Accepted(calls)| && p - |r| == Bytes((q' + Accepted(calls))[..k]);
        }
      } else {
        assert got[..i] == [r] + later[..i - 1] && got[..i + 1] == [r] + later[..i];
        BytesAppend([r], later[..i - 1]);
        BytesAppend([r], later[..i]);
        if p != 0 { NoReadCrosses(q', calls[1..], i - 1, p - |r|); }
      }
    } else {
      assert got == later && Accepted(calls) == Accepted(calls[1..]);
      NoReadCrosses(q', calls[1..], i, p);
    }
  }

  // ---------------------------------------------------------------- draining

  function CeilDiv(n: nat, m: nat): nat
    requires m > 0
  {
    (n + m - 1) / m
  }

  /** The sum over the entries of their lengths divided by m, rounded up. */
  function ReadsNeeded(q: seq<seq<Byte>>, m: nat): nat
    requires m > 0
  {
    if q == [] then 0 else CeilDiv(|q[0]|, m) + ReadsNeeded(q[1..], m)
  }

  lemma CeilDivSteps(n: nat, m: nat)
    requires m > 0 && n > 0
    ensures CeilDiv(n, m) == 1 + (if n <= m then 0 else CeilDiv(n - m, m))
  {
    if n <= m {
      DivMod(n + m - 1, 1, n - 1, m);
    } else {
      var k := (n - 1) / m;
      assert (k + 1) * m == k * m + m;
      DivMod(n + m - 1, k + 1, (n - 1) % m, m);
    }
  }

  /** Each read of at most m bytes leaves one read fewer to do. */
  lemma OneReadFewer(q: seq<seq<Byte>>, m: nat)
    requires Entries(q) && q != [] && m > 0
    ensures ReadsNeeded(Rest(q, m), m) == ReadsNeeded(q, m) - 1 && Entries(Rest(q, m))
  {
    CeilDivSteps(|q[0]|, m);
    if |q[0]| > m { assert Rest(q, m)[1..] == q[1..]; }
  }

  lemma {:induction false} NothingNeeded(q: seq<seq<Byte>>, m: nat)
    requires Entries(q) && m > 0
    ensures ReadsNeeded(q, m) == 0 <==> q == []
  {
    if q != [] { CeilDivSteps(|q[0]|, m); }
  }

  function Reads(n: nat, m: nat): seq<Call> { seq(n, (i: int) => Dequeue(Some(m))) }

  /** n reads of size m can be made exactly when n is at most the sum, and the queue is then empty exactly when n
      is the sum. */
  lemma {:induction false} DrainsAfter(q: seq<seq<Byte>>, m: nat, n: nat)
    requires Entries(q) && m > 0
    ensures Callable(q, Reads(n, m)) <==> n <= ReadsNeeded(q, m)
    ensures n <= ReadsNeeded(q, m) ==> (Final(q, Reads(n, m)) == [] <==> n == ReadsNeeded(q, m))
    decreases n
  {
    NothingNeeded(q, m);
    if n > 0 && q != [] {
      assert Reads(n, m)[0] == Dequeue(Some(m)) && Reads(n, m)[1..] == Reads(n - 1, m);
      OneReadFewer(q, m);
      DrainsAfter(Rest(q, m), m, n - 1);
    }
  }
}
