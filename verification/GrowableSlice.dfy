/** The runtime's growable slices: headers over blocks that several slices may share. */
module GrowableSlice {

  class Slice<T(0)> {
    var block: array?<T>
    /** Where the slice begins in its block. */
    var at: nat
    var len: int
    var cap: int

    /** The slice's room is inside its block. */
    ghost predicate Valid()
      reads this
    {
      0 <= len <= cap && if block == null then cap == 0 else at + cap <= block.Length
    }

    ghost function Contents(): (s: seq<T>)
      requires Valid()
      reads this, block
      ensures |s| == len
    {
      if block == null then [] else block[at..at + len]
    }

    /** NewSlice */
    constructor ()
      ensures Valid() && Contents() == [] && block == null && at == 0 && len == 0 && cap == 0
    {
      block, at, len, cap := null, 0, 0, 0;
    }

    /** FromArr: a slice over a given block, sharing it. */
    constructor FromArr(head: array<T>, len: nat)
      requires len <= head.Length
      ensures Valid() && block == head && at == 0 && cap == len && Contents() == head[..len]
    {
      block, at, this.len, cap := head, 0, len, len;
    }

    method IndexOp(index: int) returns (t: T)
      requires Valid() && 0 <= index < len
      ensures t == Contents()[index]
    {
      return block[at + index];
    }

    /** Writes the shared slot. */
    method IndexSetOp(index: int, i: T)
      requires Valid() && 0 <= index < len
      modifies block
      ensures Valid() && Contents() == old(Contents())[index := i]
      ensures block[..] == old(block[..])[at + index := i]
    {
      block[at + index] := i;
    }

    static method Memcpy(dst: array<T>, to: nat, src: array<T>, from: nat, n: nat)
      requires to + n <= dst.Length && from + n <= src.Length && dst != src
      modifies dst
      ensures dst[..to] == old(dst[..to]) && dst[to..to + n] == src[from..from + n]
    {
      var i := 0;
      while i < n
        invariant i <= n && dst[..to] == old(dst[..to]) && dst[to..to + i] == src[from..from + i]
      {
        dst[to + i] := src[from + i];
        i := i + 1;
      }
    }

    /** With room left, writes the slot after the end, which slices of the same block share,
        and no other. With none, moves to a larger block of its own and leaves the old one
        alone; the call it then makes finds room. */
    method Push(t: T)
      requires Valid()
      modifies this, if cap > len then {block} else {}
      ensures Valid() && Contents() == old(Contents()) + [t]
      ensures old(cap > len) ==>
        block == old(block) && at == old(at) && cap == old(cap) && block[..] == old(block[..])[at + old(len) := t]
      ensures old(cap == len) ==> fresh(block) && at == 0 && cap == 2 * (if old(cap) == 0 then 2 else old(cap))
      decreases if cap > len then 0 else 1
    {
      if cap > len {
        block[at + len] := t;
        len := len + 1;
      } else {
        if cap == 0 { cap := 2; }
        var mem := new T[2 * cap];
        var head, from := block, at;
        block, at := mem, 0;
        if head != null { Memcpy(mem, 0, head, from, len); }
        cap := 2 * cap;
        Push(t);
      }
    }

    /** Copies the contents to a place in another block, if there is a block to copy from. */
    method CopyTo(mem: array<T>, to: nat)
      requires Valid() && mem != block && to + len <= mem.Length
      modifies mem
      ensures Valid() && Contents() == old(Contents()) && mem[..to] == old(mem[..to]) && mem[to..to + len] == Contents()
    {
      if block != null { Memcpy(mem, to, block, at, len); }
    }

    /** A new block that holds both contents. */
    method Joined(arr2: Slice<T>) returns (mem: array<T>)
      requires Valid() && arr2.Valid()
      ensures fresh(mem) && mem[..] == Contents() + arr2.Contents()
    {
      mem := new T[len + arr2.len];
      ghost var first, second := Contents(), arr2.Contents();
      CopyTo(mem, 0);
      arr2.CopyTo(mem, len);
      Halves(mem[..], len);
      assert mem[..][..len] == mem[..len] == mem[0..0 + len] && mem[..][len..] == mem[len..len + arr2.len];
    }

    /** Append: a slice of its own block that holds both contents. */
    method Append(arr2: Slice<T>) returns (newarr: Slice<T>)
      requires Valid() && arr2.Valid()
      ensures fresh(newarr) && newarr.Valid() && newarr.Contents() == Contents() + arr2.Contents()
      ensures newarr.cap == newarr.len && (newarr.block == null || fresh(newarr.block))
    {
      newarr := new Slice();
      if len + arr2.len == 0 { return; }
      var mem := Joined(arr2);
      hide Valid, Contents;
      assert mem.Length == |mem[..]| == len + arr2.len by { Lengths(arr2); }
      newarr.SetUp(mem);
    }

    lemma Lengths(arr2: Slice<T>)
      requires Valid() && arr2.Valid()
      ensures |Contents() + arr2.Contents()| == len + arr2.len
    {
    }

    /** The new header's fields. */
    method SetUp(mem: array<T>)
      modifies this
      ensures Valid() && block == mem && cap == len == mem.Length && Contents() == mem[..]
    {
      block, at := mem, 0;
      cap := mem.Length;
      len := cap;
      assert mem[0..0 + len] == mem[..];
    }

    /** Slice: a part of the same block, with all the room after its beginning. */
    method Part(start: nat, end: nat) returns (newarr: Slice<T>)
      requires Valid() && start <= end <= cap
      ensures fresh(newarr) && newarr.Valid() && newarr.block == block && newarr.at == at + start
        && newarr.len == end - start && newarr.cap == cap - start
      ensures end <= len ==> newarr.Contents() == Contents()[start..end]
    {
      newarr := new Slice();
      newarr.block, newarr.at := block, at + start;
      newarr.len := end - start;
      newarr.cap := cap - start;
    }
  }

  lemma UpdatedSlice<T>(w: seq<T>, i: nat, j: nat, k: nat, t: T)
    requires i <= j <= |w| && i <= k < |w|
    ensures w[k := t][i..j] == if k < j then w[i..j][k - i := t] else w[i..j]
  {
  }

  /** What a slice shows after one slot of its block, `w` before, has been written. */
  lemma ShowsWrite<T(0)>(a: Slice<T>, w: seq<T>, k: nat, t: T)
    requires a.Valid() && a.block != null && a.at <= k < |w| && a.block[..] == w[k := t]
    ensures var was := w[a.at..a.at + a.len]; a.Contents() == if k < a.at + a.len then was[k - a.at := t] else was
  {
    UpdatedSlice(w, a.at, a.at + a.len, k, t);
    assert a.Contents() == a.block[..][a.at..a.at + a.len];
  }

  lemma Halves<T>(w: seq<T>, i: nat)
    requires i <= |w|
    ensures w == w[..i] + w[i..]
  {
  }

  /** What a push on a part does to the whole it was taken from: it replaces the whole's
      element after the part, when the part ends inside, and moves to its own block or writes
      beyond the whole's end otherwise. */
  method PushOnPart<T(0)>(a: Slice<T>, start: nat, end: nat, t: T) returns (b: Slice<T>)
    requires a.Valid() && start <= end <= a.len
    modifies a.block
    ensures b.Valid() && b.Contents() == old(a.Contents()[start..end]) + [t]
    ensures a.Valid() && a.Contents() == if end < a.len then old(a.Contents())[end := t] else old(a.Contents())
    ensures end == a.cap ==> a.block == null || a.block[..] == old(a.block[..])
  {
    b := a.Part(start, end);
    if a.block == null || end == a.cap {
      b.Push(t);
    } else {
      ghost var w := a.block[..];
      assert a.Contents() == w[a.at..a.at + a.len];
      PushShared(a, b, a.at + end, t);
      ShowsWrite(a, w, a.at + end, t);
    }
  }

  /** A push on a slice that ends at a slot inside the room of another over the same block. */
  method PushShared<T(0)>(a: Slice<T>, b: Slice<T>, k: nat, t: T)
    requires a.Valid() && b.Valid() && a != b && a.block != null && b.block == a.block && b.at + b.len == k
      && b.len < b.cap
    modifies b, a.block
    ensures a.Valid() && a.block == old(a.block) && b.Valid() && b.Contents() == old(b.Contents()) + [t]
    ensures a.block[..] == old(a.block[..])[k := t]
  {
    b.Push(t);
  }
}
