/** What the five bracketing checks establish.

    The gateway tries five sets of eight survivors. That this is enough does not follow
    from linearity, as docs/bracketing_math.md has it, but from two facts: any eight
    shards determine a stripe, and the five sets cover all twelve shards while any two
    of them share seven. */
module Bracketing {
  import opened Wrappers
  import opened Gf256
  import opened ReedSolomon
  import opened Sequences

  /** The shards that each check keeps. */
  const KEEP: seq<seq<nat>> := [
    [8, 9, 10, 11, 4, 5, 6, 7],
    [8, 9, 10, 11, 3, 5, 6, 7],
    [8, 9, 10, 11, 2, 5, 6, 7],
    [8, 9, 10, 11, 1, 5, 6, 7],
    [8, 9, 10, 11, 0, 5, 6, 7]]

  /** The shards after the loss of all but those kept. */
  function Masked(shards: seq<seq<Byte>>, keep: seq<nat>): (r: seq<seq<Byte>>)
    ensures |r| == |shards|
  {
    seq(|shards|, i requires 0 <= i < |shards| => if i in keep then shards[i] else [])
  }

  /** One check: the payload is rebuilt from the shards kept. */
  predicate Passes(data: seq<Byte>, shards: seq<seq<Byte>>, keep: seq<nat>) {
    var r := Reconstruct(Masked(shards, keep));
    r.Some? && Join(r.value, |data|) == Some(data)
  }

  ghost predicate AllPass(data: seq<Byte>, shards: seq<seq<Byte>>) {
    forall r :: 0 <= r < |KEEP| ==> Passes(data, shards, KEEP[r])
  }

  /** Twelve shards of one length that hold the payload and whose columns are code
      columns. Columns beyond the payload's length exist only when the shards are longer
      than the payload; the checks say nothing about those. */
  ghost predicate Encodes(shards: seq<seq<Byte>>, data: seq<Byte>, length: nat) {
    && |shards| == TOTAL_SHARDS && length > 0 && SameLength(shards, length)
    && |data| <= DATA_SHARDS * length
    && Join(shards, |data|) == Some(data)
    && forall b :: 0 <= b < length && b < |data| ==> IsCodeColumn(Column(shards, b))
  }

  function Kept(r: nat): (K: set<nat>)
    requires r < |KEEP|
    ensures |K| == DATA_SHARDS
    ensures forall i :: i in K ==> i < TOTAL_SHARDS
  {
    {8, 9, 10, 11, 4 - r, 5, 6, 7}
  }

  lemma KeptIsKeep(r: nat, i: nat)
    requires r < |KEEP|
    ensures i in Kept(r) <==> i in KEEP[r]
  {}

  /** What one check sees: the stripe that its eight shards determine. */
  lemma Round(data: seq<Byte>, shards: seq<seq<Byte>>, r: nat, length: nat) returns (W: seq<seq<Byte>>)
    requires r < |KEEP| && |shards| == TOTAL_SHARDS && length > 0 && SameLength(shards, length)
    ensures IsStripe(W, length)
    ensures forall i :: i in Kept(r) ==> W[i] == shards[i]
    ensures Passes(data, shards, KEEP[r]) <==> Join(W, |data|) == Some(data)
  {
    hide Reconstruct, IsStripe, Join;
    var m := Masked(shards, KEEP[r]);
    forall i: nat ensures i in Kept(r) <==> i in KEEP[r] {
      KeptIsKeep(r, i);
    }
    assert PresentSet(m) == Kept(r);
    W := ReconstructEight(m, length);
    assert |W| == TOTAL_SHARDS;
    forall i | i in Kept(r) ensures W[i] == shards[i] {
      assert m[i] == shards[i] != [];
    }
  }

  /** Shards that agree in the columns below `size` join to the same payload. */
  lemma {:induction false} JoinsAgree(S: seq<seq<Byte>>, T: seq<seq<Byte>>, length: nat, size: nat)
    requires |S| == |T| && SameLength(S, length) && SameLength(T, length)
    requires forall q, b :: 0 <= q < |S| && 0 <= b < length && b < size ==> S[q][b] == T[q][b]
    ensures JoinData(S, size) == JoinData(T, size)
  {
    if S != [] && length > 0 {
      if size <= length {
        assert S[0][..size] == T[0][..size];
      } else {
        assert S[0] == T[0];
        forall q, b | 0 <= q < |S[1..]| && 0 <= b < length && b < size - length
          ensures S[1..][q][b] == T[1..][q][b]
        {
          assert S[q + 1][b] == T[q + 1][b];
        }
        JoinsAgree(S[1..], T[1..], length, size - length);
      }
    }
  }

  /** The first shard starts with the payload. */
  lemma JoinStartsWithFirstShard(shards: seq<seq<Byte>>, data: seq<Byte>, length: nat)
    requires |shards| >= DATA_SHARDS && SameLength(shards, length) && Join(shards, |data|) == Some(data)
    ensures forall b :: 0 <= b < length && b < |data| ==> shards[0][b] == data[b]
  {}

  lemma EncodedShardsPass(data: seq<Byte>, shards: seq<seq<Byte>>, r: nat, length: nat)
    requires r < |KEEP| && Encodes(shards, data, length)
    ensures Passes(data, shards, KEEP[r])
  {
    hide IsCodeColumn, Passes, JoinData, Kept;
    var W := Round(data, shards, r, length);
    forall q, b | 0 <= q < DATA_SHARDS && 0 <= b < length && b < |data|
      ensures W[q][b] == shards[q][b]
    {
      ColumnsAgree(Column(W, b), Column(shards, b), Kept(r));
      assert Column(W, b)[q] == Column(shards, b)[q];
    }
    JoinsAgree(W[..DATA_SHARDS], shards[..DATA_SHARDS], length, |data|);
    FlattenLength(W[..DATA_SHARDS], length);
  }

  /** A check that passes has found its eight shards present and of the same length. */
  lemma PassedLengths(data: seq<Byte>, shards: seq<seq<Byte>>, r: nat)
    requires r < |KEEP| && |shards| == TOTAL_SHARDS && Passes(data, shards, KEEP[r])
    ensures shards[8] != []
    ensures forall i :: i in Kept(r) ==> |shards[i]| == |shards[8]|
  {
    hide Fill, Join, Kept;
    var m := Masked(shards, KEEP[r]);
    var idx := Present(m);
    PresentCount(m);
    assert PresentSet(m) == Kept(r) by {
      forall i | i in PresentSet(m) ensures i in Kept(r) {
        KeptIsKeep(r, i);
      }
      if i :| i in Kept(r) && i !in PresentSet(m) {
        SubsetCardinality(PresentSet(m), Kept(r) - {i});
      }
    }
    forall i | i in Kept(r) ensures |shards[i]| == |m[idx[0]]| && shards[i] != [] {
      KeptIsKeep(r, i);
      assert i in PresentSet(m) && i in idx;
      var k :| 0 <= k < |idx| && idx[k] == i;
    }
    KeptIsKeep(r, 8);
  }

  /** Every shard is kept by some check. */
  function KeptBy(i: nat): (r: nat)
    requires i < TOTAL_SHARDS
    ensures r < |KEEP| && i in Kept(r)
  {
    if i < 4 then 4 - i else 0
  }

  /** In a column below the payload's length, all the checks see the same code column:
      two of them share shards 5 to 11, and shard 0 is fixed there by the payload. */
  lemma RoundsAgree(data: seq<Byte>, shards: seq<seq<Byte>>, V: seq<seq<Byte>>, W: seq<seq<Byte>>,
      length: nat, b: nat)
    requires |shards| == TOTAL_SHARDS && IsStripe(V, length) && IsStripe(W, length)
    requires forall i :: 5 <= i < TOTAL_SHARDS ==> V[i] == shards[i] == W[i]
    requires Join(V, |data|) == Some(data) == Join(W, |data|)
    requires b < length && b < |data|
    ensures Column(V, b) == Column(W, b)
  {
    hide IsCodeColumn, JoinData;
    JoinStartsWithFirstShard(V, data, length);
    JoinStartsWithFirstShard(W, data, length);
    var K: set<nat> := {0, 5, 6, 7, 8, 9, 10, 11};
    ColumnsAgree(Column(V, b), Column(W, b), K);
  }

  lemma PassedRound(data: seq<Byte>, shards: seq<seq<Byte>>, r: nat, length: nat) returns (W: seq<seq<Byte>>)
    requires r < |KEEP| && |shards| == TOTAL_SHARDS && length > 0 && SameLength(shards, length)
    requires Passes(data, shards, KEEP[r])
    ensures IsStripe(W, length) && Join(W, |data|) == Some(data)
    ensures forall i :: i in Kept(r) ==> W[i] == shards[i]
    ensures forall i :: 5 <= i < TOTAL_SHARDS ==> W[i] == shards[i]
  {
    hide Passes, IsStripe, Join;
    W := Round(data, shards, r, length);
  }

  lemma PassingShardsEncode(data: seq<Byte>, shards: seq<seq<Byte>>)
    requires |shards| == TOTAL_SHARDS && AllPass(data, shards)
    ensures Encodes(shards, data, |shards[8]|)
  {
    hide Passes, Kept, JoinData, IsCodeColumn;
    var length := |shards[8]|;
    forall i | 0 <= i < TOTAL_SHARDS ensures |shards[i]| == length > 0 {
      PassedLengths(data, shards, KeptBy(i));
    }
    var V := PassedRound(data, shards, 0, length);
    forall b | 0 <= b < length && b < |data|
      ensures Column(shards, b) == Column(V, b)
    {
      forall i | 0 <= i < TOTAL_SHARDS ensures shards[i][b] == V[i][b] {
        var W := PassedRound(data, shards, KeptBy(i), length);
        RoundsAgree(data, shards, V, W, length, b);
        assert Column(V, b)[i] == Column(W, b)[i];
      }
    }
    forall q, b | 0 <= q < DATA_SHARDS && 0 <= b < length && b < |data|
      ensures V[q][b] == shards[q][b]
    {
      assert Column(V, b)[q] == Column(shards, b)[q];
    }
    JoinsAgree(V[..DATA_SHARDS], shards[..DATA_SHARDS], length, |data|);
    JoinIsPrefix(V[..DATA_SHARDS], length, |data|);
  }

  /** Exactly which shards pass the five checks. */
  lemma BracketingIsExact(data: seq<Byte>, shards: seq<seq<Byte>>)
    requires |shards| == TOTAL_SHARDS
    ensures AllPass(data, shards) <==> Encodes(shards, data, |shards[8]|)
  {
    if AllPass(data, shards) {
      PassingShardsEncode(data, shards);
    } else if Encodes(shards, data, |shards[8]|) {
      forall r | 0 <= r < |KEEP| ensures Passes(data, shards, KEEP[r]) {
        EncodedShardsPass(data, shards, r, |shards[8]|);
      }
    }
  }

  /** For shards of the length that Split gives, the checks pass exactly if the shards
      are a stripe that holds the payload; then any eight of the twelve rebuild it. */
  lemma BracketingOfSplitShards(data: seq<Byte>, shards: seq<seq<Byte>>)
    requires data != [] && |shards| == TOTAL_SHARDS && SameLength(shards, ShardLength(|data|))
    ensures AllPass(data, shards) <==>
      IsStripe(shards, ShardLength(|data|)) && Join(shards, |data|) == Some(data)
    ensures AllPass(data, shards) ==>
      forall survivors :: SurvivorsOf(survivors, shards) && |PresentSet(survivors)| >= DATA_SHARDS ==>
        Reconstruct(survivors) == Some(shards) && Join(shards, |data|) == Some(data)
  {
    hide AllPass, IsCodeColumn, Join, Reconstruct;
    BracketingIsExact(data, shards);
    if AllPass(data, shards) {
      forall survivors | SurvivorsOf(survivors, shards) && |PresentSet(survivors)| >= DATA_SHARDS
        ensures Reconstruct(survivors) == Some(shards)
      {
        ReconstructRestores(survivors, shards, ShardLength(|data|));
      }
    }
  }

  /** Shards that the encoder made are never rejected. */
  lemma HonestShardsPass(data: seq<Byte>)
    requires data != []
    ensures AllPass(data, StripeOf(data))
  {
    hide AllPass, StripeOf;
    StripeOfIsStripe(data);
    JoinStripeOf(data);
    BracketingOfSplitShards(data, StripeOf(data));
  }
}
