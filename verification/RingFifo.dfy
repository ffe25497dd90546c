/** `fifo`: a ring in a fixed array, against a plain bounded sequence. */
module RingFifo {
  import opened Common

  // ---------- The bounded queue ----------

  datatype Op<T> = Push(items: seq<T>) | Pop(count: nat) | Peek(count: nat) | Remove(count: nat) | Clear

  /** All or nothing: a push that does not fit and a pop of too much change nothing. */
  function Step<T>(q: seq<T>, capacity: nat, op: Op<T>): seq<T> {
    match op
    case Push(items) => if |q| + |items| > capacity then q else q + items
    case Pop(n) => if |q| < n then q else q[n..]
    case Peek(n) => q
    case Remove(n) => if |q| < n then q else q[n..]
    case Clear => []
  }

  /** What an operation took in, and what it took out. */
  function TakenIn<T>(q: seq<T>, capacity: nat, op: Op<T>): seq<T> {
    match op
    case Push(items) => if |q| + |items| > capacity then [] else items
    case _ => []
  }

  function TakenOut<T>(q: seq<T>, op: Op<T>): seq<T> {
    match op
    case Pop(n) => if |q| < n then [] else q[..n]
    case Remove(n) => if |q| < n then [] else q[..n]
    case Clear => q
    case _ => []
  }

  datatype Run<T> = Run(queue: seq<T>, entered: seq<T>, left: seq<T>)

  function RunOf<T>(capacity: nat, ops: seq<Op<T>>): Run<T> {
    if ops == [] then Run([], [], [])
    else
      var r := RunOf(capacity, ops[..|ops| - 1]);
      var op := ops[|ops| - 1];
      Run(Step(r.queue, capacity, op), r.entered + TakenIn(r.queue, capacity, op), r.left + TakenOut(r.queue, op))
  }

  lemma StepConserves<T>(q: seq<T>, capacity: nat, op: Op<T>)
    requires |q| <= capacity
    ensures q + TakenIn(q, capacity, op) == TakenOut(q, op) + Step(q, capacity, op)
    ensures |Step(q, capacity, op)| <= capacity
  {
  }

  lemma Regroup<T>(left: seq<T>, q: seq<T>, more: seq<T>, out: seq<T>, q': seq<T>)
    requires q + more == out + q'
    ensures left + q + more == left + out + q'
  {
    assert left + q + more == left + (q + more);
    assert left + out + q' == left + (out + q');
  }

  /** First in, first out: over every run, what entered is what left followed by what is still queued. */
  lemma {:induction false} RunConserves<T>(capacity: nat, ops: seq<Op<T>>)
    ensures var r := RunOf(capacity, ops); r.entered == r.left + r.queue && |r.queue| <= capacity
  {
    if ops != [] {
      RunConserves(capacity, ops[..|ops| - 1]);
      var r, op := RunOf(capacity, ops[..|ops| - 1]), ops[|ops| - 1];
      StepConserves(r.queue, capacity, op);
      Regroup(r.left, r.queue, TakenIn(r.queue, capacity, op), TakenOut(r.queue, op), Step(r.queue, capacity, op));
    }
  }

  /**
   In every run a push enters whole exactly when the queue then holds no more than its capacity, and a pop or a
   removal takes exactly as much as it asks for when that much is there; otherwise both leave the queue alone.
   */
  lemma AllOrNothing<T>(capacity: nat, ops: seq<Op<T>>, n: nat)
    requires n < |ops|
    ensures var r, r', op := RunOf(capacity, ops[..n]), RunOf(capacity, ops[..n + 1]), ops[n];
            && (op.Push? ==> (r'.entered == r.entered + op.items && |r.queue| + |op.items| <= capacity)
                             || (r' == r && |r.queue| + |op.items| > capacity))
            && (op.Pop? || op.Remove? ==> (|r'.left| == |r.left| + op.count && op.count <= |r.queue|)
                                          || (r' == r && op.count > |r.queue|))
            && (op.Peek? ==> r' == r)
            && (op.Clear? ==> r'.left == r.left + r.queue && r'.queue == [])
  {
    var r := RunOf(capacity, ops[..n]);
    assert ops[..n + 1][..n] == ops[..n];
    assert r.entered + [] == r.entered && r.left + [] == r.left;
  }

  // ---------- The ring ----------

  /** `len` elements of an array from `start` on, going round at its end. */
  function Ring<T>(d: seq<T>, start: nat, len: nat): (r: seq<T>)
    requires start <= |d| && len <= |d|
    ensures |r| == len
  {
    seq(len, k requires 0 <= k < len => d[Wrapped(start + k, |d|)])
  }

  /** Past-the-end counts as the beginning. */
  function Wrapped(i: nat, size: nat): nat {
    if i >= size then i - size else i
  }

  function Cell<T>(d: seq<T>, start: nat, k: nat): T
    requires start < |d| && k < |d|
  {
    d[Wrapped(start + k, |d|)]
  }

  lemma RingIs<T>(d: seq<T>, start: nat, len: nat, k: nat)
    requires start <= |d| && k < len <= |d|
    ensures Ring(d, start, len)[k] == d[Wrapped(start + k, |d|)]
  {
  }

  lemma RingAt<T>(d: seq<T>, start: nat, len: nat, k: nat)
    requires start < |d| && k < len <= |d|
    ensures Ring(d, start, len)[k] == Cell(d, start, k)
  {
  }

  lemma StartAtEnd<T>(d: seq<T>, len: nat)
    requires len <= |d|
    ensures Ring(d, |d|, len) == Ring(d, 0, len)
  {
    forall k | 0 <= k < len
      ensures Ring(d, |d|, len)[k] == Ring(d, 0, len)[k]
    {
      RingIs(d, |d|, len, k);
      RingIs(d, 0, len, k);
    }
  }

  lemma SameStart<T>(d: seq<T>, ini: nat, len: nat)
    requires 0 < |d| && ini <= |d| && len <= |d|
    ensures Wrapped(ini, |d|) < |d| && Ring(d, ini, len) == Ring(d, Wrapped(ini, |d|), len)
  {
    if ini == |d| {
      StartAtEnd(d, len);
    }
  }

  lemma CellAfter<T>(d: seq<T>, start: nat, n: nat, k: nat)
    requires start < |d| && n + k < |d|
    ensures Wrapped(start + n, |d|) < |d| && Cell(d, start, n + k) == Cell(d, Wrapped(start + n, |d|), k)
  {
  }

  /** The first `n` elements, and the others. */
  lemma RingSplit<T>(d: seq<T>, start: nat, len: nat, n: nat)
    requires start < |d| && n < |d| && n <= len <= |d|
    ensures Wrapped(start + n, |d|) < |d|
    ensures Ring(d, start, len)[n..] == Ring(d, Wrapped(start + n, |d|), len - n)
    ensures Ring(d, start, len)[..n] == Ring(d, start, n)
  {
    var all, rest, first := Ring(d, start, len), Ring(d, Wrapped(start + n, |d|), len - n), Ring(d, start, n);
    forall k | 0 <= k < len - n
      ensures all[n..][k] == rest[k]
    {
      RingAt(d, start, len, n + k);
      RingAt(d, Wrapped(start + n, |d|), len - n, k);
      CellAfter(d, start, n, k);
    }
    forall k | 0 <= k < n
      ensures all[..n][k] == first[k]
    {
      RingAt(d, start, len, k);
      RingAt(d, start, n, k);
    }
  }

  /** Both memcpys of push. */
  function Written<T>(d: seq<T>, end: nat, items: seq<T>): (r: seq<T>)
    requires end <= |d| && |items| <= |d|
    ensures |r| == |d|
  {
    var free := |d| - end;
    if free >= |items| then Overwritten(d, end, items)
    else Overwritten(Overwritten(d, end, items[..free]), 0, items[free..])
  }

  lemma OverwrittenAt<T>(d: seq<T>, at: nat, items: seq<T>, i: nat)
    requires at + |items| <= |d| && i < |d|
    ensures Overwritten(d, at, items)[i] == if at <= i < at + |items| then items[i - at] else d[i]
  {
  }

  lemma WrittenAt<T>(d: seq<T>, end: nat, items: seq<T>, i: nat)
    requires end <= |d| && |items| <= |d| && i < |d|
    ensures Written(d, end, items)[i]
         == if end <= i < end + |items| then items[i - end]
            else if i + |d| < end + |items| then items[i + |d| - end]
            else d[i]
  {
    var free := |d| - end;
    if free >= |items| {
      OverwrittenAt(d, end, items, i);
    } else {
      OverwrittenAt(d, end, items[..free], i);
      OverwrittenAt(Overwritten(d, end, items[..free]), 0, items[free..], i);
    }
  }

  lemma WrittenCell<T>(d: seq<T>, start: nat, end: nat, len: nat, items: seq<T>, k: nat)
    requires start < |d| && end == Wrapped(start + len, |d|) && len + |items| <= |d| && k < len + |items|
    ensures Cell(Written(d, end, items), start, k) == if k < len then Cell(d, start, k) else items[k - len]
  {
    WrittenAt(d, end, items, Wrapped(start + k, |d|));
  }

  lemma WrittenAppends<T>(d: seq<T>, start: nat, end: nat, len: nat, items: seq<T>)
    requires start < |d| && end == Wrapped(start + len, |d|) && len + |items| <= |d|
    ensures Ring(Written(d, end, items), start, len + |items|) == Ring(d, start, len) + items
  {
    var d' := Written(d, end, items);
    var got, want := Ring(d', start, len + |items|), Ring(d, start, len) + items;
    forall k | 0 <= k < len + |items|
      ensures got[k] == want[k]
    {
      RingAt(d', start, len + |items|, k);
      WrittenCell(d, start, end, len, items, k);
      if k < len {
        RingAt(d, start, len, k);
      }
    }
  }

  /** remove leaves `ini` at the end of the array where pop wraps it: both mean the beginning. */
  predicate Shape(size: nat, ini: nat, end: nat, len: nat) {
    0 < size && ini <= size && len <= size && end == Wrapped(Wrapped(ini, size) + len, size)
  }

  lemma PushedRing<T>(d: seq<T>, ini: nat, end: nat, len: nat, items: seq<T>)
    requires Shape(|d|, ini, end, len) && len + |items| <= |d|
    ensures Shape(|d|, ini, Wrapped(end + |items|, |d|), len + |items|) && end < |d|
    ensures Ring(Written(d, end, items), ini, len + |items|) == Ring(d, ini, len) + items
  {
    PushedShape(|d|, ini, end, len, |items|);
    WrittenAppends(d, Wrapped(ini, |d|), end, len, items);
    SameStart(d, ini, len);
    SameStart(Written(d, end, items), ini, len + |items|);
  }

  lemma PushedShape(size: nat, ini: nat, end: nat, len: nat, n: nat)
    requires Shape(size, ini, end, len) && len + n <= size
    ensures Shape(size, ini, Wrapped(end + n, size), len + n) && end < size
  {
  }

  lemma SkippedRing<T>(d: seq<T>, ini: nat, end: nat, len: nat, n: nat, ini': nat)
    requires Shape(|d|, ini, end, len) && n <= len
    requires ini' == ini + n <= |d| || ini' == ini + n - |d|
    ensures Shape(|d|, ini', end, len - n)
    ensures Ring(d, ini', len - n) == Ring(d, ini, len)[n..] && Ring(d, ini, n) == Ring(d, ini, len)[..n]
  {
    SkippedShape(|d|, ini, end, len, n, ini');
    SameStart(d, ini, len);
    SameStart(d, ini, n);
    SameStart(d, ini', len - n);
    if n < |d| {
      RingSplit(d, Wrapped(ini, |d|), len, n);
    }
  }

  lemma SkippedShape(size: nat, ini: nat, end: nat, len: nat, n: nat, ini': nat)
    requires Shape(size, ini, end, len) && n <= len
    requires ini' == ini + n <= size || ini' == ini + n - size
    ensures Shape(size, ini', end, len - n)
    ensures n < size ==> Wrapped(ini', size) == Wrapped(Wrapped(ini, size) + n, size)
  {
  }

  // ---------- The object ----------

  class Fifo<T(0)> {
    const data: array<T>
    var ini: nat
    var end: nat
    var len: nat

    ghost predicate Valid()
      reads this
    {
      Shape(data.Length, ini, end, len)
    }

    ghost function Contents(): seq<T>
      requires Valid()
      reads this, data
    {
      Ring(data[..], ini, len)
    }

    constructor (capacity: nat)
      requires 0 < capacity
      ensures Valid() && fresh(data) && data.Length == capacity && Contents() == []
    {
      data := new T[capacity];
      ini, end, len := 0, 0, 0;
    }

    method Copy(at: nat, items: seq<T>)
      requires at + |items| <= data.Length
      modifies data
      ensures data[..] == Overwritten(old(data[..]), at, items)
    {
      forall i | 0 <= i < |items| {
        data[at + i] := items[i];
      }
    }

    /** Writes the items at `end`, and moves it. */
    method Write(items: seq<T>)
      requires end < data.Length && |items| <= data.Length
      modifies this`end, data
      ensures data[..] == Written(old(data[..]), old(end), items) && end == Wrapped(old(end) + |items|, data.Length)
    {
      var free := data.Length - end;
      if free >= |items| {
        Copy(end, items);
        end := end + |items|;
        if end == data.Length {
          end := 0;
        }
      } else {
        Copy(end, items[..free]);
        Copy(0, items[free..]);
        end := |items| - free;
      }
    }

    method Push(items: seq<T>) returns (n: nat)
      requires Valid()
      modifies this, data
      ensures Valid()
      ensures Contents() == Step(old(Contents()), data.Length, Op.Push(items))
      ensures n == if old(len) + |items| > data.Length then 0 else |items|
    {
      if data.Length < len + |items| {
        return 0;
      }
      PushedRing(data[..], ini, end, len, items);
      Write(items);
      len := len + |items|;
      return |items|;
    }

    /** Moves `ini` past `n` elements; pop wraps it at the end of the array, remove does not. */
    method Skip(n: nat, wrap: bool)
      requires Valid() && n <= len
      modifies this`ini, this`len
      ensures Valid() && Contents() == old(Contents())[n..]
    {
      var total := data.Length - ini;
      if total >= n {
        ini := ini + n;
        if wrap && ini == data.Length {
          ini := 0;
        }
      } else {
        ini := n - total;
      }
      SkippedRing(data[..], old(ini), end, len, n, ini);
      len := len - n;
    }

    /** Both memcpys of pop. */
    method CopyOut(out: array<T>, n: nat)
      requires ini <= data.Length && n <= data.Length && out != data && out.Length >= n
      modifies out
      ensures out[..n] == Ring(data[..], ini, n) && out[n..] == old(out[n..])
    {
      var total := data.Length - ini;
      if total >= n {
        forall i | 0 <= i < n {
          out[i] := data[ini + i];
        }
      } else {
        forall i | 0 <= i < total {
          out[i] := data[ini + i];
        }
        forall i | 0 <= i < n - total {
          out[total + i] := data[i];
        }
      }
      ghost var want := Ring(data[..], ini, n);
      forall k | 0 <= k < n
        ensures out[k] == want[k]
      {
        RingIs(data[..], ini, n, k);
      }
    }

    method Pop(out: array<T>, n: nat, remove: bool) returns (r: nat)
      requires Valid() && out != data && out.Length >= n
      modifies this, out
      ensures Valid()
      ensures Contents() == Step(old(Contents()), data.Length, if remove then Op.Pop(n) else Peek(n))
      ensures r == if old(len) < n then 0 else n
      ensures out[..r] == old(Contents())[..r] && out[r..] == old(out[r..])
    {
      if len < n {
        return 0;
      }
      SkippedRing(data[..], ini, end, len, n, if ini + n <= data.Length then ini + n else ini + n - data.Length);
      CopyOut(out, n);
      if remove {
        Skip(n, true);
      } else if data.Length - ini >= n && ini == data.Length {
        StartAtEnd(data[..], len);
        ini := 0;
      }
      return n;
    }

    method Remove(n: nat) returns (r: nat)
      requires Valid()
      modifies this
      ensures Valid()
      ensures Contents() == Step(old(Contents()), data.Length, Op.Remove(n))
      ensures r == if old(len) < n then 0 else n
    {
      if len < n {
        return 0;
      }
      Skip(n, false);
      return n;
    }

    method Clear()
      requires Valid()
      modifies this
      ensures Valid() && Contents() == Step(old(Contents()), data.Length, Op.Clear)
    {
      ini := end;
      len := 0;
    }
  }
}
