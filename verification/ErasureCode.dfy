/** Shards of an encoded block, some of them received. */
module ErasureCode {
  import opened Gf256

  datatype Recovery = Restored(data: seq<Bytes>) | NotRestored

  /** Shards received of the encoding e. */
  ghost predicate Part(m: map<nat, Bytes>, e: seq<Bytes>) {
    forall i :: i in m ==> i < |e| && m[i] == e[i]
  }

  ghost predicate HasAll(m: map<nat, Bytes>, n: nat) {
    forall i :: 0 <= i < n ==> i in m
  }
}
