/** The length table a FEC group carries in its metadata shard. */
module FecTable {
  import opened Gf256

  /** Byte x of the table: the record count, then two bytes per length, high
      byte first, then zeros. */
  function TableByte(lens: seq<nat>, x: nat): (b: Byte) {
    if x == 0 then ByteOf(|lens|)
    else if x <= 2 * |lens| then
      if x % 2 == 1 then ByteOf(lens[(x - 1) / 2] / 256) else ByteOf(lens[(x - 1) / 2] % 256)
    else ZERO
  }

  /** The shard that holds the table; what does not fit is cut off. */
  function Table(lens: seq<nat>, size: nat): (row: Bytes)
    ensures |row| == size
  {
    seq(size, x requires 0 <= x < size => TableByte(lens, x))
  }

  function CountIn(row: Bytes): (n: nat)
    requires |row| > 0
  {
    Value(row[0])
  }

  function LengthIn(row: Bytes, i: nat): (n: nat)
    requires 2 * i + 2 < |row|
  {
    256 * Value(row[2 * i + 1]) + Value(row[2 * i + 2])
  }

  ghost predicate LengthsOk(lens: seq<nat>, size: nat) {
    size < 65536 && |lens| < 256 && forall i :: 0 <= i < |lens| ==> 0 < lens[i] <= size
  }

  /** Reading back what was written, where the table fits the shard. */
  lemma ReadBack(lens: seq<nat>, size: nat, i: nat)
    requires LengthsOk(lens, size) && i < |lens| && 2 * |lens| < size
    ensures CountIn(Table(lens, size)) == |lens| && LengthIn(Table(lens, size), i) == lens[i]
  {
    hide ByteOf, Value;
    var x := lens[i];
    ValueByteOf(|lens|);
    ValueByteOf(x / 256);
    ValueByteOf(x % 256);
    var row := Table(lens, size);
    assert (2 * i + 1 - 1) / 2 == i && (2 * i + 2 - 1) / 2 == i;
    assert row[2 * i + 1] == ByteOf(x / 256) && row[2 * i + 2] == ByteOf(x % 256);
  }

  /** A table that does not fit loses a length: two groups share one shard. */
  lemma CutOff(n: nat, size: nat) returns (a: seq<nat>, b: seq<nat>)
    requires 2 <= size < 65536 && size <= 2 * n && n < 256
    ensures |a| == |b| == n && LengthsOk(a, size) && LengthsOk(b, size) && a != b && Table(a, size) == Table(b, size)
  {
    hide ByteOf;
    a := seq(n, i => 1);
    b := a[n - 1 := 2];
    assert a[n - 1] != b[n - 1];
    forall x | 0 <= x < size ensures TableByte(a, x) == TableByte(b, x) {
      if 0 < x {
        var i := (x - 1) / 2;
        if i == n - 1 {
          assert x == 2 * n - 1;
          assert a[i] / 256 == 0 && b[i] / 256 == 0 by { Small(); }
        }
      }
    }
  }

  lemma Small()
    ensures 1 / 256 == 0 && 2 / 256 == 0
  {}

  /** The metadata shard determines the lengths of every group of n records
      exactly when 2n + 1 bytes fit into it. */
  lemma TableFitsExactly(n: nat, size: nat)
    requires 2 <= size < 65536 && n < 256
    ensures (forall a: seq<nat>, b: seq<nat> ::
               |a| == n && |b| == n && LengthsOk(a, size) && LengthsOk(b, size) && Table(a, size) == Table(b, size) ==> a == b)
            <==> 2 * n < size
  {
    if 2 * n < size {
      forall a: seq<nat>, b: seq<nat> |
        |a| == n && |b| == n && LengthsOk(a, size) && LengthsOk(b, size) && Table(a, size) == Table(b, size)
        ensures a == b
      {
        hide Table;
        forall i | 0 <= i < n ensures a[i] == b[i] {
          ReadBack(a, size, i);
          ReadBack(b, size, i);
        }
      }
    } else {
      var a, b := CutOff(n, size);
    }
  }

  /** The Reed-Solomon part of config_complete. */
  predicate ConfigAccepts(k: nat, r: nat, size: nat) {
    2 <= k && 1 <= r && k + r <= 255 && 32 <= size && k * size <= 65535
  }

  /** Accepted settings under which full groups of k - 1 records lose lengths. */
  lemma AcceptedButCutOff() returns (a: seq<nat>, b: seq<nat>)
    ensures ConfigAccepts(100, 2, 32) && |a| == |b| == 99 && LengthsOk(a, 32) && LengthsOk(b, 32) && a != b && Table(a, 32) == Table(b, 32)
  {
    a, b := CutOff(99, 32);
  }

  // ---------------------------------------------------------------------
  // The write.

  /** Where the length of record i starts in the table. */
  function LengthAt(i: nat): (x: nat) { 2 * i + 1 }

  /** Offset x of the table's row is written for a group of d records. */
  ghost predicate Touches(d: nat, x: nat) {
    x == 0 || exists i :: 0 <= i < d && (x == LengthAt(i) || x == LengthAt(i) + 1)
  }

  lemma TouchesUpTo(d: nat, x: nat)
    ensures Touches(d, x) <==> x <= 2 * d
  {
    if 0 < x <= 2 * d {
      var i := (x - 1) / 2;
      assert x == LengthAt(i) || x == LengthAt(i) + 1;
    }
  }

  /** The table starts at row k - 1 of a block of k + r rows; writing it stays
      inside the block exactly when the last r + 1 rows hold 2d + 1 bytes. */
  lemma WriteStaysInside(k: nat, r: nat, size: nat, d: nat)
    requires k > 0
    ensures (forall x: nat :: Touches(d, x) ==> (k - 1) * size + x < (k + r) * size) <==> 2 * d + 1 <= (r + 1) * size
  {
    assert (k + r) * size == (k - 1) * size + (r + 1) * size;
    hide Touches;
    forall x: nat ensures Touches(d, x) <==> x <= 2 * d { TouchesUpTo(d, x); }
    assert Touches(d, 2 * d);
  }

  /** Accepted settings under which a full group's table leaves its block. */
  lemma AcceptedButOutside()
    ensures ConfigAccepts(254, 1, 32) && Touches(253, 506) && 253 * 32 + 506 >= 255 * 32
  {
    TouchesUpTo(253, 506);
  }

  /** The table as encode_and_enqueue_tails writes it, over the room rows of the
      block's tail; bytes past the block are not modelled, only that there are
      some. The metadata shard is the first row, and encoding fills the others. */
  method BuildTable(lens: seq<nat>, room: nat) returns (tail: Bytes, inside: bool)
    requires room > 0
    ensures tail == Table(lens, room)
    ensures inside <==> 2 * |lens| + 1 <= room
  {
    hide ByteOf;
    tail, inside := seq(room, i => ZERO), true;
    tail := tail[0 := ByteOf(|lens|)];
    for shard := 0 to |lens|
      invariant |tail| == room && (inside <==> 2 * shard + 1 <= room)
      invariant forall x :: 0 <= x < room && x <= 2 * shard ==> tail[x] == TableByte(lens, x)
      invariant forall x :: 2 * shard < x < room ==> tail[x] == ZERO
    {
      var len := lens[shard];
      if LengthAt(shard) < room { tail := tail[LengthAt(shard) := ByteOf(len / 256)]; } else { inside := false; }
      if LengthAt(shard) + 1 < room { tail := tail[LengthAt(shard) + 1 := ByteOf(len % 256)]; } else { inside := false; }
      assert (2 * shard + 1 - 1) / 2 == shard && (2 * shard + 2 - 1) / 2 == shard;
    }
  }

  lemma FirstRow(lens: seq<nat>, size: nat, room: nat)
    requires size <= room
    ensures Table(lens, room)[..size] == Table(lens, size)
  {}

  // ---------------------------------------------------------------------
  // The read.

  datatype Parse = Parsed | BadTable | PastBlock

  /** A length the receiver takes: in range, and as known so far. */
  predicate LengthGood(tail: Bytes, size: nat, lengths: seq<nat>, i: nat)
    requires 2 * i + 2 < |tail| && i < |lengths|
  {
    0 < LengthIn(tail, i) <= size && (lengths[i] == 0 || lengths[i] == LengthIn(tail, i))
  }

  predicate CountGood(tail: Bytes, k: nat, hintValid: bool, hint: nat)
    requires |tail| > 0
  {
    0 < CountIn(tail) < k && (hintValid ==> CountIn(tail) == hint)
  }

  /** parse_metadata, on the rows from the table's to the end of the block: the
      first done lengths are good and taken; it stops at the first that is not,
      or that lies past the block. */
  method ParseMetadata(tail: Bytes, present: bool, k: nat, size: nat, hintValid: bool, hint: nat, known: seq<nat>)
    returns (status: Parse, count: nat, done: nat, lengths: seq<nat>)
    requires |tail| > 0 && k > 0 && |known| == k - 1
    ensures |lengths| == k - 1 && done < k && 2 * done < |tail|
    ensures forall i :: 0 <= i < done ==> LengthGood(tail, size, known, i) && lengths[i] == LengthIn(tail, i)
    ensures forall i :: done <= i < k - 1 ==> lengths[i] == known[i]
    ensures !(present && CountGood(tail, k, hintValid, hint)) ==> status == BadTable && done == 0
    ensures present && CountGood(tail, k, hintValid, hint) ==>
      count == CountIn(tail) && done <= count && (status == Parsed <==> done == count) &&
      (status == PastBlock <==> done < count && 2 * done + 2 >= |tail|) &&
      (status == BadTable <==> done < count && 2 * done + 2 < |tail| && !LengthGood(tail, size, known, done))
  {
    hide CountIn, LengthIn;
    lengths, done := known, 0;
    if !present {
      return BadTable, 0, 0, known;
    }
    count := CountIn(tail);
    if count == 0 || count > k - 1 || (hintValid && hint != count) {
      return BadTable, count, 0, known;
    }
    while done < count
      invariant done <= count && |lengths| == k - 1 && 2 * done < |tail|
      invariant forall i :: 0 <= i < done ==> LengthGood(tail, size, known, i) && lengths[i] == LengthIn(tail, i)
      invariant forall i :: done <= i < k - 1 ==> lengths[i] == known[i]
    {
      if 2 * done + 2 >= |tail| {
        return PastBlock, count, done, lengths;
      }
      var length := LengthIn(tail, done);
      if length == 0 || length > size || (lengths[done] != 0 && lengths[done] != length) {
        return BadTable, count, done, lengths;
      }
      if lengths[done] == 0 {
        lengths := lengths[done := length];
      }
      done := done + 1;
    }
    return Parsed, count, done, lengths;
  }
}
