/**
  Byte-granular I/O on a block device (raw_io of user/bin/lorica-update/main.c). Every block write is
  recorded, so that a property of all recorded contents is a property of the disk after a power loss
  at any point.
 */
module BlockDevice {
  import opened Common

  type Image = seq<Byte>

  /** The two contents agree outside the bytes from `lo` up to `hi`. */
  ghost predicate SameOutside(a: Image, b: Image, lo: int, hi: int) {
    |a| == |b| && forall k | 0 <= k < |a| && !(lo <= k < hi) :: a[k] == b[k]
  }

  /** Every content logged from index `from` on is `base` outside the bytes from `lo` up to `hi`. */
  ghost predicate Confined(log: seq<Image>, from: nat, base: Image, lo: int, hi: int) {
    forall k | from <= k < |log| :: SameOutside(log[k], base, lo, hi)
  }

  class Device {
    const blockSize: nat
    var disk: Image
    ghost var history: seq<Image>
    /** How many block transfers have failed. */
    ghost var failures: nat

    ghost predicate Valid()
      reads this
    {
      && (blockSize == 512 || blockSize == 4096)
      && |disk| % blockSize == 0
      && |history| > 0 && history[|history| - 1] == disk
    }

    constructor (blockSize: nat, disk: Image)
      requires (blockSize == 512 || blockSize == 4096) && |disk| % blockSize == 0
      ensures Valid() && this.blockSize == blockSize && this.disk == disk && history == [disk] && failures == 0
    {
      this.blockSize, this.disk, history, failures := blockSize, disk, [disk], 0;
    }

    /** li_blkdev_io for one block, reading; it may fail at any time. */
    method ReadBlock(lba: nat) returns (ok: bool, block: Image)
      requires Valid() && lba * blockSize + blockSize <= |disk|
      modifies this`failures
      ensures ok ==> block == disk[lba * blockSize..lba * blockSize + blockSize]
      ensures failures == old(failures) + if ok then 0 else 1
    {
      ok := *;
      failures := failures + if ok then 0 else 1;
      block := disk[lba * blockSize..lba * blockSize + blockSize];
    }

    /** li_blkdev_io for one block, writing: all of it or none of it, and it may fail either way. */
    method WriteBlock(lba: nat, block: Image) returns (ok: bool)
      requires Valid() && |block| == blockSize && lba * blockSize + blockSize <= |disk|
      modifies this
      ensures Valid() && old(history) <= history && |disk| == |old(disk)|
      ensures var lo := lba * blockSize;
              var after := old(disk)[..lo] + block + old(disk)[lo + blockSize..];
              if ok then disk == after && history == old(history) + [after]
              else (disk == after && history == old(history) + [after])
                   || (disk == old(disk) && history == old(history))
      ensures failures == old(failures) + if ok then 0 else 1
    {
      var written: bool;
      ok, written := *, *;
      failures := failures + if ok then 0 else 1;
      if ok || written {
        disk := disk[..lba * blockSize] + block + disk[lba * blockSize + blockSize..];
        history := history + [disk];
      }
    }

    /** The block with `piece` in it at `at`, written back over the block it was read from. */
    method PutBlock(lba: nat, block: Image, at: nat, piece: Image) returns (ok: bool)
      requires Valid() && |block| == blockSize && lba * blockSize + blockSize <= |disk|
      requires at + |piece| <= blockSize
      requires forall k | 0 <= k < blockSize && !(at <= k < at + |piece|) :: block[k] == disk[lba * blockSize + k]
      modifies this
      ensures Valid() && old(history) <= history && |disk| == |old(disk)|
      ensures var pos := lba * blockSize + at;
              && SameOutside(disk, old(disk), pos, pos + |piece|)
              && Confined(history, |old(history)|, old(disk), pos, pos + |piece|)
              && (ok ==> disk[pos..pos + |piece|] == piece)
      ensures failures == old(failures) + if ok then 0 else 1
    {
      var merged := block[..at] + piece + block[at + |piece|..];
      ok := WriteBlock(lba, merged);
    }

    /** The part of one block at `pos`: read whole unless all of it is about to be overwritten. */
    method BlockIo(pos: nat, piece: Image, write: bool) returns (ok: bool, out: Image)
      requires Valid() && pos < |disk| && pos % blockSize + |piece| <= blockSize
      modifies this
      ensures Valid() && old(history) <= history && |disk| == |old(disk)| && pos + |piece| <= |disk|
      ensures SameOutside(disk, old(disk), pos, pos + |piece|)
      ensures Confined(history, |old(history)|, old(disk), pos, pos + |piece|)
      ensures !write ==> disk == old(disk) && history == old(history)
      ensures ok ==> disk[pos..pos + |piece|] == if write then piece else out
      ensures failures == old(failures) + if ok then 0 else 1
    {
      hide SameOutside, Confined;
      Untouched(disk, history, pos, pos + |piece|);
      var lba, at := pos / blockSize, pos % blockSize;
      BlockBounds(pos, blockSize, |disk|);
      out := piece;
      var block := seq(blockSize, _ => 0);
      if at != 0 || |piece| != blockSize || !write {
        ok, block := ReadBlock(lba);
        if !ok { return; }
        assert forall k | 0 <= k < blockSize :: block[k] == disk[lba * blockSize + k];
      }
      if write {
        ok := PutBlock(lba, block, at, piece);
      } else {
        out := block[at..at + |piece|];
        assert forall k | 0 <= k < |piece| :: out[k] == disk[pos + k];
        assert out == disk[pos..pos + |piece|];
        ok := true;
      }
    }

    /**
      raw_io: reads `buf`'s length of bytes at `off`, or writes `buf` there, block by block. Exactly
      the requested bytes change, at every block write and not only in the end.
     */
    method RawIo(off: nat, buf: Image, write: bool) returns (ok: bool, out: Image)
      requires Valid() && off + |buf| <= |disk|
      modifies this
      ensures Valid() && old(history) <= history && |disk| == |old(disk)|
      ensures SameOutside(disk, old(disk), off, off + |buf|)
      ensures Confined(history, |old(history)|, old(disk), off, off + |buf|)
      ensures !write ==> disk == old(disk) && history == old(history)
      ensures ok ==> disk[off..off + |buf|] == if write then buf else out
      ensures failures == old(failures) + if ok then 0 else 1
    {
      hide SameOutside, Confined, Progress;
      out := [];
      var done := 0;
      Started(disk, history, buf, off, write);
      while done < |buf|
        invariant 0 <= done <= |buf| && Valid()
        invariant Progress(old(disk), old(history), disk, history, buf, out, off, done, write)
        invariant failures == old(failures)
      {
        var pos := off + done;
        var n := Min(blockSize - pos % blockSize, |buf| - done);
        var piece;
        ProgressSize(old(disk), old(history), disk, history, buf, out, off, done, write);
        ghost var before, log := disk, history;
        ok, piece := BlockIo(pos, buf[done..done + n], write);
        Advance(old(disk), old(history), before, log, disk, history, buf, out, piece, off, done, n, write, ok);
        if !ok { return; }
        out := if write then out else out + piece;
        done := done + n;
      }
      ok := true;
      Finished(old(disk), old(history), disk, history, buf, out, off, write);
    }
  }

  /** The first `done` bytes of the request are through, and nothing off the request was ever touched. */
  ghost predicate Progress(base: Image, start: seq<Image>, disk: Image, history: seq<Image>, buf: Image, out: Image,
                           off: nat, done: nat, write: bool) {
    && done <= |buf| && off + |buf| <= |disk| == |base| && start <= history
    && SameOutside(disk, base, off, off + done)
    && Confined(history, |start|, base, off, off + |buf|)
    && (!write ==> disk == base && history == start && |out| == done)
    && disk[off..off + done] == if write then buf[..done] else out
  }

  lemma Started(disk: Image, history: seq<Image>, buf: Image, off: nat, write: bool)
    requires off + |buf| <= |disk|
    ensures Progress(disk, history, disk, history, buf, [], off, 0, write)
  {
    Unchanged(disk, history, off, off + |buf|);
  }

  lemma ProgressSize(base: Image, start: seq<Image>, disk: Image, history: seq<Image>, buf: Image, out: Image,
                     off: nat, done: nat, write: bool)
    requires Progress(base, start, disk, history, buf, out, off, done, write)
    ensures off + |buf| <= |disk| == |base| && start <= history
  {
  }

  lemma Finished(base: Image, start: seq<Image>, disk: Image, history: seq<Image>, buf: Image, out: Image,
                 off: nat, write: bool)
    requires Progress(base, start, disk, history, buf, out, off, |buf|, write)
    ensures SameOutside(disk, base, off, off + |buf|) && Confined(history, |start|, base, off, off + |buf|)
    ensures start <= history && |disk| == |base| && (!write ==> disk == base && history == start)
    ensures disk[off..off + |buf|] == if write then buf else out
  {
    assert buf[..|buf|] == buf;
  }

  /** One block more: all the promises so far, and progress if it went through. */
  lemma Advance(base: Image, start: seq<Image>, before: Image, log: seq<Image>, disk: Image, history: seq<Image>,
                buf: Image, out: Image, piece: Image, off: nat, done: nat, n: nat, write: bool, ok: bool)
    requires Progress(base, start, before, log, buf, out, off, done, write) && done + n <= |buf|
    requires log <= history && |disk| == |before|
    requires SameOutside(disk, before, off + done, off + done + n)
    requires Confined(history, |log|, before, off + done, off + done + n)
    requires !write ==> disk == before && history == log
    requires ok ==> disk[off + done..off + done + n] == if write then buf[done..done + n] else piece
    ensures SameOutside(disk, base, off, off + |buf|) && Confined(history, |start|, base, off, off + |buf|)
    ensures start <= history && |disk| == |base| && (!write ==> disk == base && history == start)
    ensures ok ==> Progress(base, start, disk, history, buf, if write then out else out + piece, off, done + n, write)
  {
    hide SameOutside, Confined;
    Widen(history, log, |start|, disk, before, base, off, off + done, off + done + n, off + |buf|);
    if ok {
      Grow(disk, before, buf, out, piece, off, done, n, write);
    }
  }

  /** One more piece extends what the range holds so far. */
  lemma Grow(disk: Image, before: Image, buf: Image, out: Image, piece: Image,
             off: nat, done: nat, n: nat, write: bool)
    requires done + n <= |buf| && off + done + n <= |disk|
    requires SameOutside(disk, before, off + done, off + done + n)
    requires before[off..off + done] == if write then buf[..done] else out
    requires disk[off + done..off + done + n] == if write then buf[done..done + n] else piece
    ensures disk[off..off + (done + n)] == if write then buf[..done + n] else out + piece
  {
    assert disk[off..off + (done + n)] == before[off..off + done] + disk[off + done..off + done + n];
    assert buf[..done + n] == buf[..done] + buf[done..done + n];
  }

  lemma Untouched(disk: Image, log: seq<Image>, lo: int, hi: int)
    ensures SameOutside(disk, disk, lo, hi) && Confined(log, |log|, disk, lo, hi)
  {
  }

  lemma Unchanged(disk: Image, log: seq<Image>, off: int, hi: int)
    ensures SameOutside(disk, disk, off, off) && Confined(log, |log|, disk, off, hi)
  {
  }

  /** A write inside the requested range, after writes inside it, is one more inside it. */
  lemma Widen(history: seq<Image>, log: seq<Image>, from: nat, disk: Image, before: Image, base: Image,
              lo: int, mid: int, end: int, hi: int)
    requires lo <= mid <= end <= hi && log <= history
    requires SameOutside(before, base, lo, mid) && SameOutside(disk, before, mid, end)
    requires Confined(log, from, base, lo, hi) && Confined(history, |log|, before, mid, end)
    ensures SameOutside(disk, base, lo, end) && SameOutside(disk, base, lo, hi)
    ensures Confined(history, from, base, lo, hi)
  {
    forall k | from <= k < |history| ensures SameOutside(history[k], base, lo, hi) {
      if k < |log| {
        assert history[k] == log[k];
      } else {
        assert SameOutside(history[k], before, mid, end);
      }
    }
  }

  lemma BlockBounds(pos: nat, size: nat, total: nat)
    requires (size == 512 || size == 4096) && total % size == 0 && pos < total
    ensures var lba := pos / size;
            pos == lba * size + pos % size && lba * size + size <= total
  {
  }
}
