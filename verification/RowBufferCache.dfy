/**
  The row-buffer cache of a cached bank: a row of buffers kept in move-to-front order.  A buffer found is
  moved to the front; a row that is not there takes the first unused buffer, or the last one.
*/
module RowBufferCache {
  // `id` is the buffer's identity; `lastHit` is when it was hit last since it was allocated, 0 if never.
  // An unused buffer has an empty window, so no access finds it.
  datatype Buffer = Buffer(id: nat, used: bool, row: nat, colStart: nat, colEnd: nat, readCount: nat,
      writeCount: nat, lastHit: nat)

  datatype Op = Activate(row: nat, col: nat) | Read(row: nat, col: nat) | Write(row: nat, col: nat)

  predicate Hit(b: Buffer) { b.readCount + b.writeCount > 0 }

  predicate Holds(b: Buffer, row: nat, col: nat) { b.row == row && b.colStart <= col < b.colEnd }

  function Allocated(b: Buffer, size: nat, row: nat, col: nat): Buffer
    requires size >= 1
  {
    b.(used := true, row := row, colStart := col - col % size, colEnd := col - col % size + size,
       readCount := 0, writeCount := 0, lastHit := 0)
  }

  // The buffer an activation stops at: one that has the row, or the first unused one, or the last.
  function Target(bs: seq<Buffer>, row: nat, i: nat): (k: nat)
    requires i < |bs|
    ensures i <= k < |bs|
    decreases |bs| - i
  {
    if (bs[i].used && bs[i].row == row) || !bs[i].used || i == |bs| - 1 then i else Target(bs, row, i + 1)
  }

  function Activated(bs: seq<Buffer>, size: nat, row: nat, col: nat): seq<Buffer>
    requires |bs| >= 1 && size >= 1
  {
    var k := Target(bs, row, 0);
    if bs[k].used && bs[k].row == row then bs else bs[k := Allocated(bs[k], size, row, col)]
  }

  // The first buffer whose window holds the word.
  function Find(bs: seq<Buffer>, row: nat, col: nat): (k: nat)
    ensures k <= |bs| && (k < |bs| ==> Holds(bs[k], row, col))
    ensures forall i :: 0 <= i < k ==> !Holds(bs[i], row, col)
  {
    if bs == [] || Holds(bs[0], row, col) then 0 else 1 + Find(bs[1..], row, col)
  }

  function MovedToFront(bs: seq<Buffer>, k: nat, b: Buffer): seq<Buffer>
    requires k < |bs|
  {
    [b] + bs[..k] + bs[k + 1..]
  }

  function Touched(b: Buffer, write: bool, now: nat): Buffer {
    if write then b.(writeCount := b.writeCount + 1, lastHit := now)
    else b.(readCount := b.readCount + 1, lastHit := now)
  }

  function Accessed(bs: seq<Buffer>, row: nat, col: nat, write: bool, now: nat): seq<Buffer> {
    var k := Find(bs, row, col);
    if k == |bs| then bs else MovedToFront(bs, k, Touched(bs[k], write, now))
  }

  // Writes go past buffers that are read-only.
  function Applied(bs: seq<Buffer>, size: nat, readOnly: bool, op: Op, now: nat): (r: seq<Buffer>)
    requires |bs| >= 1 && size >= 1
    ensures |r| == |bs|
  {
    match op
    case Activate(row, col) => Activated(bs, size, row, col)
    case Read(row, col) => Accessed(bs, row, col, false, now)
    case Write(row, col) => if readOnly then bs else Accessed(bs, row, col, true, now)
  }

  // ----- The order of the buffers -----

  // Used buffers come first, and hold different rows.
  ghost predicate UsedFirst(bs: seq<Buffer>) {
    && (forall i, j :: 0 <= i < j < |bs| && bs[j].used ==> bs[i].used && bs[i].row != bs[j].row)
    && (forall i :: 0 <= i < |bs| && !bs[i].used ==> !Hit(bs[i]) && bs[i].colStart == bs[i].colEnd)
  }

  // Buffers hit since they were allocated come before the others, the most recently hit one first.
  ghost predicate MostRecentFirst(bs: seq<Buffer>, now: nat) {
    && (forall i, j :: 0 <= i < j < |bs| && Hit(bs[j]) ==> Hit(bs[i]) && bs[i].lastHit > bs[j].lastHit)
    && (forall i :: 0 <= i < |bs| ==> bs[i].lastHit < now && (Hit(bs[i]) <==> bs[i].lastHit > 0))
  }

  function Ids(bs: seq<Buffer>): multiset<nat> {
    if bs == [] then multiset{} else multiset{bs[0].id} + Ids(bs[1..])
  }

  lemma {:induction false} IdsAppend(a: seq<Buffer>, b: seq<Buffer>)
    ensures Ids(a + b) == Ids(a) + Ids(b)
    decreases |a|
  {
    if a == [] {
      assert a + b == b;
    } else {
      assert (a + b)[1..] == a[1..] + b;
      IdsAppend(a[1..], b);
    }
  }

  lemma IdsUpdate(bs: seq<Buffer>, k: nat, b: Buffer)
    requires k < |bs| && b.id == bs[k].id
    ensures Ids(bs[k := b]) == Ids(bs)
  {
    assert bs[k := b] == bs[..k] + ([b] + bs[k + 1..]);
    assert bs == bs[..k] + ([bs[k]] + bs[k + 1..]);
    IdsAppend(bs[..k], [b] + bs[k + 1..]);
    IdsAppend(bs[..k], [bs[k]] + bs[k + 1..]);
    IdsAppend([b], bs[k + 1..]);
    IdsAppend([bs[k]], bs[k + 1..]);
  }

  lemma IdsMoved(bs: seq<Buffer>, k: nat, b: Buffer)
    requires k < |bs| && b.id == bs[k].id
    ensures Ids(MovedToFront(bs, k, b)) == Ids(bs)
  {
    assert bs == bs[..k] + ([bs[k]] + bs[k + 1..]);
    IdsAppend(bs[..k], [bs[k]] + bs[k + 1..]);
    IdsAppend([bs[k]], bs[k + 1..]);
    IdsAppend([b] + bs[..k], bs[k + 1..]);
    IdsAppend([b], bs[..k]);
  }

  ghost predicate InOrder(bs: seq<Buffer>, now: nat) { UsedFirst(bs) && MostRecentFirst(bs, now) }

  lemma {:induction false} TargetIs(bs: seq<Buffer>, row: nat, i: nat)
    requires i < |bs|
    ensures var k := Target(bs, row, i);
      && (forall j :: i <= j < k ==> bs[j].used && bs[j].row != row)
      && (bs[k].used && bs[k].row != row ==> k == |bs| - 1)
    decreases |bs| - i
  {
    if !((bs[i].used && bs[i].row == row) || !bs[i].used || i == |bs| - 1) {
      TargetIs(bs, row, i + 1);
    }
  }

  // A buffer bound to a new row goes behind the other used ones, and counts as never hit.
  lemma BindKeepsOrder(bs: seq<Buffer>, k: nat, b: Buffer, now: nat)
    requires InOrder(bs, now) && now >= 1 && k < |bs| && b.used && !Hit(b) && b.lastHit == 0
    requires forall j :: 0 <= j < k ==> bs[j].used && bs[j].row != b.row
    requires forall j :: k < j < |bs| ==> !bs[j].used
    ensures InOrder(bs[k := b], now)
  {
    hide Hit;
  }

  lemma ActivatedInOrder(bs: seq<Buffer>, size: nat, row: nat, col: nat, now: nat)
    requires |bs| >= 1 && size >= 1 && InOrder(bs, now) && now >= 1
    ensures InOrder(Activated(bs, size, row, col), now) && Ids(Activated(bs, size, row, col)) == Ids(bs)
    // The row has a buffer afterwards.
    ensures exists k ::
      0 <= k < |bs| && Activated(bs, size, row, col)[k].used && Activated(bs, size, row, col)[k].row == row
  {
    TargetIs(bs, row, 0);
    var k := Target(bs, row, 0);
    var r := Activated(bs, size, row, col);
    assert r[k].used && r[k].row == row;
    if !(bs[k].used && bs[k].row == row) {
      var b := Allocated(bs[k], size, row, col);
      assert b.id == bs[k].id && b.used && b.row == row && !Hit(b) && b.lastHit == 0;
      hide Allocated, Ids, Target, Hit;
      IdsUpdate(bs, k, b);
      assert forall j :: k < j < |bs| ==> !bs[j].used;
      BindKeepsOrder(bs, k, b, now);
    }
  }

  lemma MovedAt(bs: seq<Buffer>, k: nat, b: Buffer)
    requires k < |bs|
    ensures var r := MovedToFront(bs, k, b);
      && |r| == |bs| && r[0] == b
      && (forall i :: 0 < i <= k ==> r[i] == bs[i - 1]) && (forall i :: k < i < |bs| ==> r[i] == bs[i])
  {
  }

  lemma FrontReplaced(bs: seq<Buffer>, k: nat, b: Buffer, c: Buffer)
    requires k < |bs|
    ensures |MovedToFront(bs, k, b)| >= 1 && MovedToFront(bs, k, b)[0 := c] == MovedToFront(bs, k, c)
  {
  }

  // Where the buffer now at place i came from.
  function Origin(k: nat, i: nat): nat { if i == 0 then k else if i <= k then i - 1 else i }

  lemma OriginAt(bs: seq<Buffer>, k: nat, b: Buffer, i: nat)
    requires 0 < i < |bs| && k < |bs|
    ensures |MovedToFront(bs, k, b)| == |bs| && MovedToFront(bs, k, b)[i] == bs[Origin(k, i)]
    ensures Origin(k, i) != k
  {
  }

  // Two buffers behind the front keep their order.
  lemma SameOrder(bs: seq<Buffer>, k: nat, b: Buffer, i: nat, j: nat)
    requires 0 < i < j < |bs| && k < |bs|
    ensures Origin(k, i) < Origin(k, j) < |bs|
    ensures |MovedToFront(bs, k, b)| == |bs|
    ensures MovedToFront(bs, k, b)[i] == bs[Origin(k, i)] && MovedToFront(bs, k, b)[j] == bs[Origin(k, j)]
  {
  }

  lemma MoveKeepsUsed(bs: seq<Buffer>, k: nat, b: Buffer)
    requires UsedFirst(bs) && k < |bs| && bs[k].used && b.used && b.row == bs[k].row && Hit(b)
    ensures UsedFirst(MovedToFront(bs, k, b))
  {
    MovedAt(bs, k, b);
    hide MovedToFront, Hit;
    var r := MovedToFront(bs, k, b);
    forall i: nat, j: nat | i < j < |bs| && r[j].used ensures r[i].used && r[i].row != r[j].row {
      if i == 0 {
        OriginAt(bs, k, b, j);
        var o := Origin(k, j);
        hide Origin;
        assert if o < k then bs[o].row != bs[k].row else bs[k].row != bs[o].row;
      } else {
        SameOrder(bs, k, b, i, j);
        hide Origin;
      }
    }
    forall i: nat | i < |bs| && !r[i].used ensures !Hit(r[i]) && r[i].colStart == r[i].colEnd {
      OriginAt(bs, k, b, i);
      hide Origin;
    }
  }

  lemma MoveKeepsRecent(bs: seq<Buffer>, k: nat, b: Buffer, now: nat)
    requires MostRecentFirst(bs, now) && now >= 1 && k < |bs| && Hit(b) && b.lastHit == now
    ensures MostRecentFirst(MovedToFront(bs, k, b), now + 1)
  {
    MovedAt(bs, k, b);
    hide MovedToFront, Hit;
    var r := MovedToFront(bs, k, b);
    forall i: nat | i < |bs| ensures r[i].lastHit < now + 1 && (Hit(r[i]) <==> r[i].lastHit > 0)
      ensures i > 0 ==> r[i].lastHit < now
    {
      if i > 0 {
        OriginAt(bs, k, b, i);
        hide Origin;
      }
    }
    forall i: nat, j: nat | i < j < |bs| && Hit(r[j]) ensures Hit(r[i]) && r[i].lastHit > r[j].lastHit {
      if i > 0 {
        SameOrder(bs, k, b, i, j);
        hide Origin;
      }
    }
  }

  lemma AccessedInOrder(bs: seq<Buffer>, row: nat, col: nat, write: bool, now: nat)
    requires InOrder(bs, now) && now >= 1
    ensures InOrder(Accessed(bs, row, col, write, now), now + 1) && Ids(Accessed(bs, row, col, write, now)) == Ids(bs)
    // A buffer that was found is now in front, as the most recent one.
    ensures Find(bs, row, col) < |bs| ==> Accessed(bs, row, col, write, now)[0].lastHit == now
  {
    var k := Find(bs, row, col);
    if k < |bs| {
      var b := Touched(bs[k], write, now);
      IdsMoved(bs, k, b);
      assert bs[k].used;
      hide MovedToFront, Find, Ids;
      MoveKeepsUsed(bs, k, b);
      MoveKeepsRecent(bs, k, b, now);
      MovedAt(bs, k, b);
    }
  }

  // ----- Whole runs -----

  function Fresh(n: nat): (bs: seq<Buffer>)
    ensures |bs| == n
  {
    seq(n, i requires 0 <= i < n => Buffer(i, false, 0, 0, 0, 0, 0, 0))
  }

  // Operation number k happens at time k + 1.
  function After(n: nat, size: nat, readOnly: bool, ops: seq<Op>): (bs: seq<Buffer>)
    requires n >= 1 && size >= 1
    ensures |bs| == n
  {
    if ops == [] then Fresh(n)
    else Applied(After(n, size, readOnly, ops[..|ops| - 1]), size, readOnly, ops[|ops| - 1], |ops|)
  }

  // Over any run the buffers are only rearranged, the used ones come first with different rows, and those
  // hit since they were allocated come before the rest, the most recent one first.
  lemma {:induction false} RunsInOrder(n: nat, size: nat, readOnly: bool, ops: seq<Op>)
    requires n >= 1 && size >= 1
    ensures var bs := After(n, size, readOnly, ops);
      InOrder(bs, |ops| + 1) && Ids(bs) == Ids(Fresh(n))
  {
    hide InOrder, Ids, Activated, Accessed;
    if ops == [] {
      FreshInOrder(n);
    } else {
      RunsInOrder(n, size, readOnly, ops[..|ops| - 1]);
      var bs := After(n, size, readOnly, ops[..|ops| - 1]);
      var now := |ops|;
      match ops[now - 1]
      case Activate(row, col) =>
        ActivatedInOrder(bs, size, row, col, now);
        LaterInOrder(Activated(bs, size, row, col), now);
      case Read(row, col) => AccessedInOrder(bs, row, col, false, now);
      case Write(row, col) =>
        if readOnly {
          LaterInOrder(bs, now);
        } else {
          AccessedInOrder(bs, row, col, true, now);
        }
    }
  }

  lemma FreshInOrder(n: nat)
    ensures InOrder(Fresh(n), 1)
  {
  }

  lemma LaterInOrder(bs: seq<Buffer>, now: nat)
    requires InOrder(bs, now)
    ensures InOrder(bs, now + 1)
  {
  }

  // The buffer an activation evicts was never hit, or was hit longer ago than every other one.
  lemma VictimIsLeastRecent(n: nat, size: nat, readOnly: bool, ops: seq<Op>, row: nat)
    requires n >= 1 && size >= 1
    ensures var bs := After(n, size, readOnly, ops); var k := Target(bs, row, 0);
      bs[k].used && bs[k].row != row ==>
        && (forall i :: 0 <= i < n ==> bs[i].used && bs[i].row != row)
        && (!Hit(bs[k]) || forall i :: 0 <= i < n && i != k ==> Hit(bs[i]) && bs[i].lastHit > bs[k].lastHit)
  {
    RunsInOrder(n, size, readOnly, ops);
    TargetIs(After(n, size, readOnly, ops), row, 0);
  }

  // ----- The cache itself -----

  class RowBuffers {
    const cachedRowBuffer: array<Buffer>
    const rowBufferSize: nat
    const readOnlyBuffers: bool

    ghost predicate Valid() { cachedRowBuffer.Length >= 1 && rowBufferSize >= 1 }

    constructor (count: nat, size: nat, readOnly: bool)
      requires count >= 1 && size >= 1
      ensures Valid() && fresh(cachedRowBuffer) && cachedRowBuffer[..] == Fresh(count)
      ensures rowBufferSize == size && readOnlyBuffers == readOnly
    {
      rowBufferSize, readOnlyBuffers := size, readOnly;
      cachedRowBuffer := new Buffer[count](i => Buffer(i, false, 0, 0, 0, 0, 0, 0));
    }

    method Bind(bufferIdx: nat, row: nat, col: nat)
      requires Valid() && bufferIdx < cachedRowBuffer.Length
      modifies cachedRowBuffer
      ensures cachedRowBuffer[..] ==
              old(cachedRowBuffer[..])[bufferIdx := Allocated(old(cachedRowBuffer[bufferIdx]), rowBufferSize, row, col)]
    {
      var colStart := col - col % rowBufferSize;
      cachedRowBuffer[bufferIdx] := cachedRowBuffer[bufferIdx].(
        used := true, row := row, colStart := colStart, colEnd := colStart + rowBufferSize, readCount := 0,
            writeCount := 0,
        lastHit := 0);
    }

    method Activate(row: nat, col: nat)
      requires Valid()
      modifies cachedRowBuffer
      ensures cachedRowBuffer[..] == Activated(old(cachedRowBuffer[..]), rowBufferSize, row, col)
    {
      var foundRDB := false;
      var bufferIdx := 0;
      while bufferIdx < cachedRowBuffer.Length
        invariant bufferIdx <= cachedRowBuffer.Length && !foundRDB && cachedRowBuffer[..] == old(cachedRowBuffer[..])
        invariant bufferIdx < cachedRowBuffer.Length ==>
          Target(cachedRowBuffer[..], row, 0) == Target(cachedRowBuffer[..], row, bufferIdx)
        invariant bufferIdx == cachedRowBuffer.Length ==>
          Target(cachedRowBuffer[..], row, 0) == bufferIdx - 1
          && cachedRowBuffer[bufferIdx - 1].used && cachedRowBuffer[bufferIdx - 1].row != row
      {
        if cachedRowBuffer[bufferIdx].used && row == cachedRowBuffer[bufferIdx].row {
          return;
        }
        if !cachedRowBuffer[bufferIdx].used {
          Bind(bufferIdx, row, col);
          return;
        }
        bufferIdx := bufferIdx + 1;
      }
      // No buffer was found: evict the last one.
      Bind(cachedRowBuffer.Length - 1, row, col);
    }

    // Move a buffer to the front, and the ones before it back by one.
    method MoveToFront(bufferIdx: nat)
      requires bufferIdx < cachedRowBuffer.Length
      modifies cachedRowBuffer
      ensures cachedRowBuffer[..] == MovedToFront(old(cachedRowBuffer[..]), bufferIdx, old(cachedRowBuffer[bufferIdx]))
    {
      var tempBuffer := cachedRowBuffer[bufferIdx];
      var j := bufferIdx;
      while j > 0
        invariant 0 <= j <= bufferIdx
        invariant forall i :: 0 <= i < cachedRowBuffer.Length ==>
          cachedRowBuffer[i] == if j < i <= bufferIdx then old(cachedRowBuffer[i - 1]) else old(cachedRowBuffer[i])
      {
        cachedRowBuffer[j] := cachedRowBuffer[j - 1];
        j := j - 1;
      }
      cachedRowBuffer[0] := tempBuffer;
    }

    // Serve the access from a buffer, if one holds the word.
    method Access(row: nat, col: nat, write: bool, now: nat) returns (rv: bool)
      requires Valid()
      modifies cachedRowBuffer
      ensures cachedRowBuffer[..] == Accessed(old(cachedRowBuffer[..]), row, col, write, now)
      ensures rv <==> exists i :: 0 <= i < cachedRowBuffer.Length && Holds(old(cachedRowBuffer[..])[i], row, col)
    {
      ghost var bs := cachedRowBuffer[..];
      var bufferIdx := 0;
      while bufferIdx < cachedRowBuffer.Length && !Holds(cachedRowBuffer[bufferIdx], row, col)
        invariant bufferIdx <= cachedRowBuffer.Length && cachedRowBuffer[..] == bs
        invariant forall i :: 0 <= i < bufferIdx ==> !Holds(bs[i], row, col)
      {
        bufferIdx := bufferIdx + 1;
      }
      FindIs(bs, row, col, bufferIdx);
      rv := bufferIdx < cachedRowBuffer.Length;
      hide MovedToFront, Find, Holds;
      if rv {
        MoveToFront(bufferIdx);
        MovedAt(bs, bufferIdx, bs[bufferIdx]);
        FrontReplaced(bs, bufferIdx, bs[bufferIdx], Touched(bs[bufferIdx], write, now));
        cachedRowBuffer[0] := Touched(cachedRowBuffer[0], write, now);
      }
    }

    method Read(row: nat, col: nat, now: nat) returns (rv: bool)
      requires Valid()
      modifies cachedRowBuffer
      ensures cachedRowBuffer[..] ==
              Applied(old(cachedRowBuffer[..]), rowBufferSize, readOnlyBuffers, Op.Read(row, col), now)
    {
      rv := Access(row, col, false, now);
    }

    method Write(row: nat, col: nat, now: nat) returns (rv: bool)
      requires Valid()
      modifies cachedRowBuffer
      ensures cachedRowBuffer[..] ==
              Applied(old(cachedRowBuffer[..]), rowBufferSize, readOnlyBuffers, Op.Write(row, col), now)
    {
      rv := false;
      if !readOnlyBuffers {
        rv := Access(row, col, true, now);
      }
    }
  }

  lemma {:induction false} FindIs(bs: seq<Buffer>, row: nat, col: nat, k: nat)
    requires k <= |bs| && (k < |bs| ==> Holds(bs[k], row, col))
    requires forall i :: 0 <= i < k ==> !Holds(bs[i], row, col)
    ensures Find(bs, row, col) == k
    decreases k
  {
    if k > 0 {
      FindIs(bs[1..], row, col, k - 1);
    }
  }
}
