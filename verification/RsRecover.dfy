/** Erasure recovery: rebuild every missing shard from k survivors. */
module RsRecover {
  import opened Gf256
  import opened Vectors
  import opened Cauchy
  import opened Generator
  import opened GaussJordan

  datatype RecoverStatus = RecoverOk | RecoverUnavailable | RecoverErr

  function CountPresent(present: seq<bool>, n: nat): (c: nat)
    requires n <= |present|
    ensures c <= n
  {
    if n == 0 then 0 else CountPresent(present, n - 1) + (if present[n - 1] then 1 else 0)
  }

  function ColumnAt(shards: array2<Byte>, b: nat): (v: Vec)
    reads shards
    requires b < shards.Length1
  {
    seq(shards.Length0, i requires 0 <= i < shards.Length0 reads shards => shards[i, b])
  }

  /** The bytes that arrived at one position are those of the codeword of msg. */
  ghost predicate Agrees(g: seq<Vec>, k: nat, present: seq<bool>, col: Vec, msg: Vec) {
    Matrix(g, |col|, k) && |present| == |col| && |msg| == k &&
    forall i :: 0 <= i < |col| && present[i] ==> col[i] == Dot(g[i], msg, k)
  }

  ghost predicate AllDataPresent(present: seq<bool>, k: nat) {
    k <= |present| && forall i :: 0 <= i < k ==> present[i]
  }

  /** What recovery owes one byte position: arrived bytes stay, and whatever
      message explains them, its data bytes are all restored - and its parity
      bytes too, unless every data shard had arrived. */
  ghost predicate ColumnRecovered(g: seq<Vec>, k: nat, present: seq<bool>, before: Vec, after: Vec) {
    |before| == |after| == |present| && k <= |before| &&
    (forall i :: 0 <= i < |before| && present[i] ==> after[i] == before[i]) &&
    forall msg :: Agrees(g, k, present, before, msg) ==>
      after[..k] == msg && (AllDataPresent(present, k) || after == Apply(g, msg, k))
  }

  // ---------------------------------------------------------------------

  method ScanSurvivors(present: seq<bool>, k: nat) returns (received: nat, survivors: seq<nat>)
    ensures received == CountPresent(present, |present|)
    ensures |survivors| == if received < k then received else k
    ensures forall i :: 0 <= i < |survivors| ==> survivors[i] < |present| && present[survivors[i]]
    ensures Distinct(survivors)
  {
    received, survivors := 0, [];
    for shard := 0 to |present|
      invariant received == CountPresent(present, shard)
      invariant |survivors| == if received < k then received else k
      invariant forall i :: 0 <= i < |survivors| ==> survivors[i] < shard && present[survivors[i]]
      invariant Distinct(survivors)
    {
      if present[shard] {
        received := received + 1;
        if |survivors| < k {
          survivors := survivors + [shard];
        }
      }
    }
  }

  method DataShardsPresent(present: seq<bool>, k: nat) returns (all: bool)
    requires k <= |present|
    ensures all <==> AllDataPresent(present, k)
  {
    for shard := 0 to k
      invariant forall i :: 0 <= i < shard ==> present[i]
    {
      if !present[shard] {
        return false;
      }
    }
    return true;
  }

  /** The bytes of the k survivors at one position. */
  function Survived(col: Vec, survivors: seq<nat>): (v: Vec)
    requires forall i :: 0 <= i < |survivors| ==> survivors[i] < |col|
  {
    seq(|survivors|, i requires 0 <= i < |survivors| => col[survivors[i]])
  }

  /** The repair row of a shard applied to the survivors gives its own byte. */
  lemma RepairCorrect(g: seq<Vec>, k: nat, survivors: seq<nat>, inverse: seq<Vec>, col: Vec, msg: Vec, shard: nat)
    requires Matrix(g, |col|, k) && RowChoice(survivors, k, |col|) && |msg| == k && shard < |col|
    requires LeftInverse(inverse, Select(g, survivors), k)
    requires forall i :: 0 <= i < k ==> col[survivors[i]] == Dot(g[survivors[i]], msg, k)
    ensures Dot(Combine(g[shard], inverse, k, k), Survived(col, survivors), k) == Dot(g[shard], msg, k)
  {
    hide Xor, Mul, Dot;
    var sub := Select(g, survivors);
    assert Survived(col, survivors) == Apply(sub, msg, k);
    LeftInverseUndoes(inverse, sub, msg, k);
    DotExchange(g[shard], inverse, Survived(col, survivors), k, k);
    assert inverse[..k] == inverse;
  }

  method RepairRow(row: Vec, inverse: seq<Vec>, k: nat) returns (repair: Vec)
    requires |row| == k && Matrix(inverse, k, k)
    ensures repair == Combine(row, inverse, k, k)
  {
    hide Xor, Mul;
    repair := [];
    assert inverse[..k] == inverse;
    for column := 0 to k
      invariant |repair| == column
      invariant forall c :: 0 <= c < column ==> repair[c] == Dot(row, Column(inverse, c), k)
    {
      var value := ZERO;
      for term := 0 to k
        invariant value == Dot(row, Column(inverse, column), term)
      {
        value := Xor(value, Mul(row[term], inverse[term][column]));
      }
      repair := repair + [value];
    }
  }

  method RepairByte(shards: array2<Byte>, b: nat, repair: Vec, survivors: seq<nat>) returns (value: Byte)
    requires b < shards.Length1 && |repair| == |survivors|
    requires forall i :: 0 <= i < |survivors| ==> survivors[i] < shards.Length0
    ensures value == Dot(repair, Survived(ColumnAt(shards, b), survivors), |survivors|)
  {
    hide Xor, Mul;
    value := ZERO;
    for term := 0 to |survivors|
      invariant value == Dot(repair, Survived(ColumnAt(shards, b), survivors), term)
    {
      value := Xor(value, Mul(repair[term], shards[survivors[term], b]));
    }
  }

  /** Fills one missing shard; the survivors are not touched. */
  method RepairShard(shards: array2<Byte>, shard: nat, repair: Vec, survivors: seq<nat>)
    requires shard < shards.Length0 && |repair| == |survivors|
    requires forall i :: 0 <= i < |survivors| ==> survivors[i] < shards.Length0 && survivors[i] != shard
    modifies shards
    ensures forall i, b :: 0 <= i < shards.Length0 && i != shard && 0 <= b < shards.Length1 ==> shards[i, b] == old(shards[i, b])
    ensures forall b :: 0 <= b < shards.Length1 ==>
      shards[shard, b] == Dot(repair, Survived(old(ColumnAt(shards, b)), survivors), |survivors|)
  {
    hide Dot;
    for b := 0 to shards.Length1
      invariant forall i, x :: 0 <= i < shards.Length0 && i != shard && 0 <= x < shards.Length1 ==> shards[i, x] == old(shards[i, x])
      invariant forall x :: 0 <= x < b ==>
        shards[shard, x] == Dot(repair, Survived(old(ColumnAt(shards, x)), survivors), |survivors|)
    {
      assert Survived(ColumnAt(shards, b), survivors) == Survived(old(ColumnAt(shards, b)), survivors);
      var value := RepairByte(shards, b, repair, survivors);
      shards[shard, b] := value;
    }
  }

  lemma NothingMissing(g: seq<Vec>, k: nat, present: seq<bool>, col: Vec)
    requires Systematic(g, k) && Matrix(g, |col|, k) && |present| == |col| && AllDataPresent(present, k)
    ensures ColumnRecovered(g, k, present, col, col)
  {
    hide Dot;
    forall msg | Agrees(g, k, present, col, msg) ensures col[..k] == msg {
      forall i | 0 <= i < k ensures col[i] == msg[i] {
        DotUnit(g[i], msg, i, k);
      }
    }
  }

  lemma RepairedColumn(g: seq<Vec>, k: nat, present: seq<bool>, survivors: seq<nat>, inverse: seq<Vec>, before: Vec, after: Vec)
    requires Systematic(g, k) && Matrix(g, |before|, k) && |present| == |before| == |after|
    requires RowChoice(survivors, k, |before|) && (forall i :: 0 <= i < k ==> present[survivors[i]])
    requires LeftInverse(inverse, Select(g, survivors), k)
    requires forall i :: 0 <= i < |before| ==>
      after[i] == if present[i] then before[i] else Dot(Combine(g[i], inverse, k, k), Survived(before, survivors), k)
    ensures ColumnRecovered(g, k, present, before, after)
  {
    hide Xor, Mul, Dot;
    forall msg | Agrees(g, k, present, before, msg) ensures after == Apply(g, msg, k) && after[..k] == msg {
      forall i | 0 <= i < |before| ensures after[i] == Dot(g[i], msg, k) {
        RepairCorrect(g, k, survivors, inverse, before, msg, i);
      }
      forall i | 0 <= i < k ensures after[i] == msg[i] {
        DotUnit(g[i], msg, i, k);
      }
    }
  }

  /** rs_recover on a generator any k rows of which are independent: it succeeds
      exactly when k shards arrived, and never reports a singular submatrix. */
  method Recover(g: seq<Vec>, k: nat, n: nat, shards: array2<Byte>, present: seq<bool>) returns (status: RecoverStatus)
    requires 1 <= k < RS_ABS_MAX_SHARDS && Mds(g, k, n) && Systematic(g, k)
    requires |present| == shards.Length0
    modifies shards
    ensures status.RecoverErr? <==> |present| != n
    ensures |present| == n ==> (status.RecoverOk? <==> CountPresent(present, n) >= k)
    ensures !status.RecoverOk? ==> forall i, b :: 0 <= i < shards.Length0 && 0 <= b < shards.Length1 ==> shards[i, b] == old(shards[i, b])
    ensures status.RecoverOk? ==> forall b :: 0 <= b < shards.Length1 ==>
      ColumnRecovered(g, k, present, old(ColumnAt(shards, b)), ColumnAt(shards, b))
  {
    if |present| != n {
      return RecoverErr;
    }
    var received, survivors := ScanSurvivors(present, k);
    if received < k {
      return RecoverUnavailable;
    }
    var allData := DataShardsPresent(present, k);
    if received == n || allData {
      FullCount(present, n);
      forall b | 0 <= b < shards.Length1 ensures ColumnRecovered(g, k, present, ColumnAt(shards, b), ColumnAt(shards, b)) {
        NothingMissing(g, k, present, ColumnAt(shards, b));
      }
      return RecoverOk;
    }
    var submatrix := Select(g, survivors);
    assert RowChoice(survivors, k, n);
    var ok, inverse := MatrixInverse(submatrix, k);
    if !ok {
      return RecoverErr;
    }
    RepairAll(g, k, shards, present, survivors, inverse);
    return RecoverOk;
  }

  lemma {:induction false} FullCount(present: seq<bool>, n: nat)
    requires n <= |present|
    ensures CountPresent(present, n) == n ==> forall i :: 0 <= i < n ==> present[i]
  {
    if n != 0 {
      FullCount(present, n - 1);
    }
  }

  method RepairAll(g: seq<Vec>, k: nat, shards: array2<Byte>, present: seq<bool>, survivors: seq<nat>, inverse: seq<Vec>)
    requires Systematic(g, k) && Matrix(g, shards.Length0, k) && |present| == shards.Length0
    requires RowChoice(survivors, k, shards.Length0) && forall i :: 0 <= i < k ==> present[survivors[i]]
    requires LeftInverse(inverse, Select(g, survivors), k)
    modifies shards
    ensures forall b :: 0 <= b < shards.Length1 ==>
      ColumnRecovered(g, k, present, old(ColumnAt(shards, b)), ColumnAt(shards, b))
  {
    hide Dot, Combine;
    for shard := 0 to shards.Length0
      invariant forall i, b :: 0 <= i < shards.Length0 && 0 <= b < shards.Length1 && (i >= shard || present[i]) ==> shards[i, b] == old(shards[i, b])
      invariant forall i, b :: 0 <= i < shard && !present[i] && 0 <= b < shards.Length1 ==>
        shards[i, b] == Dot(Combine(g[i], inverse, k, k), Survived(old(ColumnAt(shards, b)), survivors), k)
    {
      if !present[shard] {
        var repair := RepairRow(g[shard], inverse, k);
        forall b | 0 <= b < shards.Length1 ensures Survived(ColumnAt(shards, b), survivors) == Survived(old(ColumnAt(shards, b)), survivors) {
        }
        RepairShard(shards, shard, repair, survivors);
      }
    }
    forall b | 0 <= b < shards.Length1
      ensures ColumnRecovered(g, k, present, old(ColumnAt(shards, b)), ColumnAt(shards, b))
    {
      RepairedColumn(g, k, present, survivors, inverse, old(ColumnAt(shards, b)), ColumnAt(shards, b));
    }
  }
}
