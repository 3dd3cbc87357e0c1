/** The 8+4 Reed-Solomon code: what the encoder library computes, as functions, and the
    property everything else rests on, that any 8 of the 12 shards determine the rest.

    A shard that is missing is the empty sequence, as in the library. */
module ReedSolomon {
  import opened Wrappers
  import opened Field
  import opened Gf256
  import opened Polynomial

  const DATA_SHARDS := 8
  const TOTAL_SHARDS := 12

  /** Shard i holds the values at POINTS[i] of one polynomial per byte position. */
  const POINTS: seq<Byte> :=
    [Byte(0), Byte(1), Byte(2), Byte(3), Byte(4), Byte(5), Byte(6), Byte(7), Byte(8), Byte(9), Byte(10), Byte(11)]

  /** Shard i is the value at i. */
  lemma PointsAreIndexes(i: nat)
    requires i < 12
    ensures |POINTS| == 12 && POINTS[i].bits as int == i
  {}

  ghost predicate IsCodeColumn(w: seq<Byte>) {
    |w| == TOTAL_SHARDS && exists p: seq<Byte> :: |p| == DATA_SHARDS && Evaluates(p, w)
  }

  ghost predicate Evaluates(p: seq<Byte>, w: seq<Byte>)
    requires |w| == TOTAL_SHARDS
  {
    forall i :: 0 <= i < TOTAL_SHARDS ==> w[i] == Eval(FIELD, p, POINTS[i])
  }

  ghost predicate SameLength(shards: seq<seq<Byte>>, length: nat) {
    forall i :: 0 <= i < |shards| ==> |shards[i]| == length
  }

  /** The bytes at position b of every shard. */
  function Column(shards: seq<seq<Byte>>, b: nat): (w: seq<Byte>)
    requires forall i :: 0 <= i < |shards| ==> b < |shards[i]|
    ensures |w| == |shards| && forall i :: 0 <= i < |w| ==> w[i] == shards[i][b]
  {
    seq(|shards|, i requires 0 <= i < |shards| => shards[i][b])
  }

  /** Twelve shards of the same length, every column of which is a code column. */
  ghost predicate IsStripe(shards: seq<seq<Byte>>, length: nat) {
    && |shards| == TOTAL_SHARDS
    && SameLength(shards, length)
    && forall b :: 0 <= b < length ==> IsCodeColumn(Column(shards, b))
  }

  /** The indexes from i on of the shards that are present, in ascending order. */
  function PresentFrom(shards: seq<seq<Byte>>, i: nat): (idx: seq<nat>)
    requires i <= |shards|
    ensures forall k :: 0 <= k < |idx| ==> i <= idx[k] < |shards| && shards[idx[k]] != []
    ensures forall j, k :: 0 <= j < k < |idx| ==> idx[j] < idx[k]
    ensures forall k :: i <= k < |shards| && shards[k] != [] ==> k in idx
    decreases |shards| - i
  {
    if i == |shards| then []
    else if shards[i] == [] then PresentFrom(shards, i + 1)
    else [i] + PresentFrom(shards, i + 1)
  }

  function Present(shards: seq<seq<Byte>>): seq<nat> {
    PresentFrom(shards, 0)
  }

  function PointsAt(idx: seq<nat>): (xs: seq<Byte>)
    requires forall k :: 0 <= k < |idx| ==> idx[k] < TOTAL_SHARDS
    ensures |xs| == |idx|
  {
    seq(|idx|, k requires 0 <= k < |idx| => POINTS[idx[k]])
  }

  /** Byte b of shard i, interpolated from the shards with indexes idx. */
  function DecodeByte(shards: seq<seq<Byte>>, idx: seq<nat>, i: nat, b: nat): Byte
    requires i < TOTAL_SHARDS && |shards| == TOTAL_SHARDS
    requires forall k :: 0 <= k < |idx| ==> idx[k] < TOTAL_SHARDS && b < |shards[idx[k]]|
  {
    Eval(FIELD, Interpolate(FIELD, PointsAt(idx), ValuesAt(shards, idx, b)), POINTS[i])
  }

  function ValuesAt(shards: seq<seq<Byte>>, idx: seq<nat>, b: nat): (ys: seq<Byte>)
    requires forall k :: 0 <= k < |idx| ==> idx[k] < |shards| && b < |shards[idx[k]]|
    ensures |ys| == |idx|
  {
    seq(|idx|, k requires 0 <= k < |idx| => shards[idx[k]][b])
  }

  /** All twelve shards: those present as they are, the others interpolated. */
  function Fill(shards: seq<seq<Byte>>, idx: seq<nat>, length: nat): (r: seq<seq<Byte>>)
    requires |shards| == TOTAL_SHARDS
    requires forall k :: 0 <= k < |idx| ==> idx[k] < TOTAL_SHARDS && |shards[idx[k]]| == length
    ensures |r| == TOTAL_SHARDS
  {
    seq(TOTAL_SHARDS, i requires 0 <= i < TOTAL_SHARDS =>
      if shards[i] != [] then shards[i]
      else seq(length, b requires 0 <= b < length => DecodeByte(shards, idx, i, b)))
  }

  /** Encoder.Reconstruct. It fails on shards of different lengths and on fewer than
      eight shards. */
  function Reconstruct(shards: seq<seq<Byte>>): (r: Option<seq<seq<Byte>>>)
    ensures r.Some? ==> |shards| == |r.value| == TOTAL_SHARDS
    ensures r.Some? ==> forall i :: 0 <= i < TOTAL_SHARDS && shards[i] != [] ==> r.value[i] == shards[i]
  {
    var idx := Present(shards);
    if |shards| != TOTAL_SHARDS || |idx| < DATA_SHARDS then None
    else
      var length := |shards[idx[0]]|;
      if exists k :: 0 <= k < |idx| && |shards[idx[k]]| != length then None
      else Some(Fill(shards, idx[..DATA_SHARDS], length))
  }

  /** Encoder.Encode: the eight data shards followed by four parity shards. */
  function Encode(data: seq<seq<Byte>>, length: nat): (r: seq<seq<Byte>>)
    requires |data| == DATA_SHARDS && SameLength(data, length)
    ensures |r| == TOTAL_SHARDS
  {
    Fill(data + [[], [], [], []], [0, 1, 2, 3, 4, 5, 6, 7], length)
  }

  // Any eight shards determine the rest.

  lemma PointsDistinct(i: nat, j: nat)
    requires i < j < TOTAL_SHARDS
    ensures POINTS[i] != POINTS[j]
  {}

  lemma {:induction false} DistinctPoints(K: set<nat>) returns (R: set<Byte>)
    requires forall k :: k in K ==> k < TOTAL_SHARDS
    ensures R == set k | k in K :: POINTS[k]
    ensures |R| == |K|
  {
    R := set k | k in K :: POINTS[k];
    if K != {} {
      var k :| k in K;
      var R' := DistinctPoints(K - {k});
      forall j | j in K - {k} ensures POINTS[j] != POINTS[k] {
        PointsDistinct(if j < k then j else k, if j < k then k else j);
      }
      assert R == R' + {POINTS[k]};
    }
  }

  /** Two code columns that agree on eight positions are equal. */
  lemma ColumnsAgree(v: seq<Byte>, w: seq<Byte>, K: set<nat>)
    requires IsCodeColumn(v) && IsCodeColumn(w)
    requires |K| >= DATA_SHARDS
    requires forall k :: k in K ==> k < TOTAL_SHARDS && v[k] == w[k]
    ensures v == w
  {
    var p :| |p| == DATA_SHARDS && Evaluates(p, v);
    var q :| |q| == DATA_SHARDS && Evaluates(q, w);
    var R := DistinctPoints(K);
    BytesFormAField();
    hide IsField, Eval;
    forall i | 0 <= i < TOTAL_SHARDS ensures v[i] == w[i] {
      AgreeEverywhere(FIELD, p, q, R, POINTS[i]);
    }
  }

  /** Two stripes that agree on eight shards are equal. */
  lemma StripesAgree(S: seq<seq<Byte>>, T: seq<seq<Byte>>, length: nat, K: set<nat>)
    requires IsStripe(S, length) && IsStripe(T, length)
    requires |K| >= DATA_SHARDS
    requires forall k :: k in K ==> k < TOTAL_SHARDS && S[k] == T[k]
    ensures S == T
  {
    forall b | 0 <= b < length ensures Column(S, b) == Column(T, b) {
      ColumnsAgree(Column(S, b), Column(T, b), K);
    }
    forall i | 0 <= i < TOTAL_SHARDS ensures S[i] == T[i] {
      forall b | 0 <= b < length ensures S[i][b] == T[i][b] {
        assert Column(S, b)[i] == Column(T, b)[i];
      }
    }
  }

  ghost predicate Increasing(idx: seq<nat>) {
    && (forall k :: 0 <= k < |idx| ==> idx[k] < TOTAL_SHARDS)
    && (forall j, k :: 0 <= j < k < |idx| ==> idx[j] < idx[k])
  }

  /** Interpolating from eight shards gives a code column that passes through them. */
  lemma DecodedColumn(shards: seq<seq<Byte>>, idx: seq<nat>, b: nat) returns (w: seq<Byte>)
    requires |shards| == TOTAL_SHARDS && |idx| == DATA_SHARDS && Increasing(idx)
    requires forall k :: 0 <= k < |idx| ==> b < |shards[idx[k]]|
    ensures IsCodeColumn(w)
    ensures forall i :: 0 <= i < TOTAL_SHARDS ==> w[i] == DecodeByte(shards, idx, i, b)
    ensures forall k :: 0 <= k < |idx| ==> w[idx[k]] == shards[idx[k]][b]
  {
    var xs, ys := PointsAt(idx), ValuesAt(shards, idx, b);
    var p := Interpolate(FIELD, xs, ys);
    w := seq(TOTAL_SHARDS, i requires 0 <= i < TOTAL_SHARDS => DecodeByte(shards, idx, i, b));
    assert Evaluates(p, w);
    BytesFormAField();
    forall j, k | 0 <= j < k < |xs| ensures xs[j] != xs[k] {
      PointsDistinct(idx[j], idx[k]);
    }
    forall k | 0 <= k < |idx| ensures w[idx[k]] == shards[idx[k]][b] {
      InterpolatesAt(FIELD, xs, ys, k);
    }
  }

  /** With exactly the shards idx present, filling gives a stripe. */
  lemma FillIsStripe(shards: seq<seq<Byte>>, idx: seq<nat>, length: nat)
    requires |shards| == TOTAL_SHARDS && |idx| == DATA_SHARDS && Increasing(idx)
    requires length > 0
    requires forall k :: 0 <= k < |idx| ==> |shards[idx[k]]| == length
    requires forall i :: 0 <= i < TOTAL_SHARDS && i !in idx ==> shards[i] == []
    ensures IsStripe(Fill(shards, idx, length), length)
  {
    hide DecodeByte, IsCodeColumn;
    var S := Fill(shards, idx, length);
    forall b | 0 <= b < length ensures IsCodeColumn(Column(S, b)) {
      var w := DecodedColumn(shards, idx, b);
      forall i | 0 <= i < TOTAL_SHARDS ensures S[i][b] == w[i] {
        if i in idx {
          var k :| 0 <= k < |idx| && idx[k] == i;
        }
      }
      assert Column(S, b) == w;
    }
  }

  lemma {:induction false} IncreasingCardinality(idx: seq<nat>)
    requires Increasing(idx)
    ensures |set k | 0 <= k < |idx| :: idx[k]| == |idx|
  {
    if idx != [] {
      var n := |idx| - 1;
      var init := idx[..n];
      IncreasingCardinality(init);
      assert (set k | 0 <= k < |idx| :: idx[k]) == (set k | 0 <= k < |init| :: init[k]) + {idx[n]};
    }
  }

  /** Some shards of W are gone, the others intact. */
  ghost predicate SurvivorsOf(shards: seq<seq<Byte>>, W: seq<seq<Byte>>) {
    |shards| == |W| && forall i :: 0 <= i < |W| ==> shards[i] == [] || shards[i] == W[i]
  }

  function PresentSet(shards: seq<seq<Byte>>): set<nat> {
    set i | 0 <= i < |shards| && shards[i] != []
  }

  lemma PresentCount(shards: seq<seq<Byte>>)
    requires |shards| == TOTAL_SHARDS
    ensures |Present(shards)| == |PresentSet(shards)|
  {
    var idx := Present(shards);
    IncreasingCardinality(idx);
    assert (set k | 0 <= k < |idx| :: idx[k]) == PresentSet(shards);
  }

  /** Filling from eight intact shards restores the stripe. */
  lemma FillRestores(shards: seq<seq<Byte>>, W: seq<seq<Byte>>, idx: seq<nat>, length: nat)
    requires IsStripe(W, length) && SurvivorsOf(shards, W)
    requires |idx| == DATA_SHARDS && Increasing(idx)
    requires forall k :: 0 <= k < |idx| ==> shards[idx[k]] == W[idx[k]]
    ensures Fill(shards, idx, length) == W
  {
    hide DecodeByte, IsCodeColumn;
    IncreasingCardinality(idx);
    var S := Fill(shards, idx, length);
    forall i | 0 <= i < TOTAL_SHARDS && shards[i] == [] ensures S[i] == W[i] {
      forall b | 0 <= b < length ensures S[i][b] == W[i][b] {
        var w := DecodedColumn(shards, idx, b);
        ColumnsAgree(w, Column(W, b), set k | 0 <= k < |idx| :: idx[k]);
      }
    }
    assert S == W;
  }

  /** Reconstruction from eight or more intact shards restores the stripe, and from
      fewer it fails. */
  lemma ReconstructRestores(shards: seq<seq<Byte>>, W: seq<seq<Byte>>, length: nat)
    requires IsStripe(W, length) && length > 0 && SurvivorsOf(shards, W)
    ensures Reconstruct(shards) == if |PresentSet(shards)| >= DATA_SHARDS then Some(W) else None
  {
    hide Fill, IsCodeColumn;
    PresentCount(shards);
    var idx := Present(shards);
    if |idx| >= DATA_SHARDS {
      FillRestores(shards, W, idx[..DATA_SHARDS], length);
    }
  }

  /** Eight shards of the same length are part of a stripe, which reconstruction finds. */
  lemma ReconstructEight(shards: seq<seq<Byte>>, length: nat) returns (W: seq<seq<Byte>>)
    requires |shards| == TOTAL_SHARDS && length > 0
    requires |PresentSet(shards)| == DATA_SHARDS
    requires forall i :: 0 <= i < TOTAL_SHARDS ==> shards[i] == [] || |shards[i]| == length
    ensures IsStripe(W, length) && SurvivorsOf(shards, W) && Reconstruct(shards) == Some(W)
  {
    PresentCount(shards);
    var idx := Present(shards);
    assert idx[..DATA_SHARDS] == idx;
    W := Fill(shards, idx, length);
    FillIsStripe(shards, idx, length);
  }

  lemma EncodeIsStripe(data: seq<seq<Byte>>, length: nat)
    requires |data| == DATA_SHARDS && SameLength(data, length) && length > 0
    ensures IsStripe(Encode(data, length), length)
    ensures Encode(data, length)[..DATA_SHARDS] == data
  {
    var shards: seq<seq<Byte>> := data + [[], [], [], []];
    FillIsStripe(shards, [0, 1, 2, 3, 4, 5, 6, 7], length);
    var S := Encode(data, length);
    forall i | 0 <= i < DATA_SHARDS ensures S[i] == data[i] {
      assert shards[i] == data[i];
    }
  }

  // Splitting a payload into data shards and joining them again.

  function Flatten(shards: seq<seq<Byte>>): seq<Byte> {
    if shards == [] then [] else shards[0] + Flatten(shards[1..])
  }

  function Zeros(n: nat): (z: seq<Byte>)
    ensures |z| == n && forall i :: 0 <= i < n ==> z[i] == Byte(0)
  {
    seq(n, _ => ZERO)
  }

  /** k pieces of the given length. */
  function Pieces(s: seq<Byte>, length: nat, k: nat): (r: seq<seq<Byte>>)
    requires |s| == k * length
    ensures |r| == k && SameLength(r, length)
    decreases k
  {
    if k == 0 then [] else [s[..length]] + Pieces(s[length..], length, k - 1)
  }

  function ShardLength(size: nat): nat {
    (size + DATA_SHARDS - 1) / DATA_SHARDS
  }

  /** The data shards that Encoder.Split makes: the payload, padded with zeros. */
  function DataShards(data: seq<Byte>): (r: seq<seq<Byte>>)
    ensures |r| == DATA_SHARDS && SameLength(r, ShardLength(|data|))
  {
    var length := ShardLength(|data|);
    Pieces(data + Zeros(DATA_SHARDS * length - |data|), length, DATA_SHARDS)
  }

  /** The twelve shards of a payload. */
  function StripeOf(data: seq<Byte>): (r: seq<seq<Byte>>)
    ensures |r| == TOTAL_SHARDS
  {
    Encode(DataShards(data), ShardLength(|data|))
  }

  /** Encoder.Join: the first `size` bytes of the data shards, unless a shard that is
      needed is missing or there are fewer bytes. */
  function Join(shards: seq<seq<Byte>>, size: nat): (r: Option<seq<Byte>>)
    ensures r.Some? ==> |r.value| == size
  {
    if |shards| < DATA_SHARDS then None
    else JoinData(shards[..DATA_SHARDS], size)
  }

  function JoinData(data: seq<seq<Byte>>, size: nat): (r: Option<seq<Byte>>)
    ensures r.Some? ==> |r.value| == size
  {
    if data == [] || data[0] == [] then None
    else if size <= |data[0]| then Some(data[0][..size])
    else
      var rest := JoinData(data[1..], size - |data[0]|);
      if rest.None? then None else Some(data[0] + rest.value)
  }

  lemma {:induction false} FlattenLength(shards: seq<seq<Byte>>, length: nat)
    requires SameLength(shards, length)
    ensures |Flatten(shards)| == |shards| * length
  {
    if shards != [] {
      FlattenLength(shards[1..], length);
    }
  }

  lemma FlattenCons(head: seq<Byte>, rest: seq<seq<Byte>>)
    ensures Flatten([head] + rest) == head + Flatten(rest)
  {}

  lemma {:induction false} FlattenPieces(s: seq<Byte>, length: nat, k: nat)
    requires |s| == k * length
    ensures Flatten(Pieces(s, length, k)) == s
    decreases k
  {
    if k > 0 {
      assert |s| - length == (k - 1) * length && length <= |s|;
      var head, rest := s[..length], s[length..];
      FlattenPieces(rest, length, k - 1);
      FlattenCons(head, Pieces(rest, length, k - 1));
    }
  }

  lemma {:induction false} PieceAt(s: seq<Byte>, length: nat, k: nat, i: nat)
    requires |s| == k * length && i < k
    ensures 0 <= i * length <= i * length + length <= |s|
    ensures Pieces(s, length, k)[i] == s[i * length..i * length + length]
    decreases k
  {
    assert |s| - length == (k - 1) * length >= 0;
    if i > 0 {
      PieceAt(s[length..], length, k - 1, i - 1);
      assert i * length == (i - 1) * length + length;
    }
  }

  /** Data shard i is a window on the payload, as far as the payload reaches. */
  lemma DataShardAt(data: seq<Byte>, i: nat)
    requires i < DATA_SHARDS && i * ShardLength(|data|) + ShardLength(|data|) <= |data|
    ensures DataShards(data)[i] == data[i * ShardLength(|data|)..i * ShardLength(|data|) + ShardLength(|data|)]
  {
    var length := ShardLength(|data|);
    PieceAt(data + Zeros(DATA_SHARDS * length - |data|), length, DATA_SHARDS, i);
  }

  /** Join of complete data shards gives the first bytes of their concatenation. */
  lemma {:induction false} JoinIsPrefix(data: seq<seq<Byte>>, length: nat, size: nat)
    requires SameLength(data, length) && length > 0 && data != []
    ensures |Flatten(data)| == |data| * length
    ensures JoinData(data, size) == if size <= |data| * length then Some(Flatten(data)[..size]) else None
  {
    FlattenLength(data, length);
    if size > length {
      if |data| == 1 {
        assert data[1..] == [];
      } else {
        JoinIsPrefix(data[1..], length, size - length);
        FlattenLength(data[1..], length);
        if size <= |data| * length {
          assert Flatten(data)[..size] == data[0] + Flatten(data[1..])[..size - length];
        }
      }
    } else {
      assert |data| * length >= length;
      assert Flatten(data)[..size] == data[0][..size];
    }
  }

  /** The data shards are the payload and as few zeros as make eight equal parts. */
  lemma SplitPadsWithZeros(data: seq<Byte>)
    ensures var all := Flatten(DataShards(data));
      && data <= all && |all| == 8 * ((|data| + 7) / 8)
      && forall i :: |data| <= i < |all| ==> all[i] == Byte(0)
  {
    var length := ShardLength(|data|);
    var padded := data + Zeros(DATA_SHARDS * length - |data|);
    FlattenPieces(padded, length, DATA_SHARDS);
  }

  lemma StripeOfIsStripe(data: seq<Byte>)
    requires data != []
    ensures IsStripe(StripeOf(data), ShardLength(|data|)) && ShardLength(|data|) > 0
    ensures StripeOf(data)[..DATA_SHARDS] == DataShards(data)
  {
    EncodeIsStripe(DataShards(data), ShardLength(|data|));
  }

  /** Joining the shards of a payload gives the payload. */
  lemma JoinStripeOf(data: seq<Byte>)
    requires data != []
    ensures Join(StripeOf(data), |data|) == Some(data)
  {
    var length := ShardLength(|data|);
    var padded := data + Zeros(DATA_SHARDS * length - |data|);
    StripeOfIsStripe(data);
    JoinIsPrefix(DataShards(data), length, |data|);
    FlattenPieces(padded, length, DATA_SHARDS);
    assert padded[..|data|] == data;
  }

  /** Any eight or more intact shards of a payload give the payload back. */
  lemma AnyEightRecover(data: seq<Byte>, shards: seq<seq<Byte>>)
    requires data != [] && SurvivorsOf(shards, StripeOf(data)) && |PresentSet(shards)| >= DATA_SHARDS
    ensures Reconstruct(shards) == Some(StripeOf(data)) && Join(StripeOf(data), |data|) == Some(data)
  {
    StripeOfIsStripe(data);
    ReconstructRestores(shards, StripeOf(data), ShardLength(|data|));
    JoinStripeOf(data);
  }
}
