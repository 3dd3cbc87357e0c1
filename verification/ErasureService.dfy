/** Encoding a block and checking the shards before they are shipped. */
module ErasureService {
  import opened Wrappers
  import opened Gf256
  import opened Slices
  import opened Bracketing
  import RS = ReedSolomon
  import Encoder

  datatype CheckResult = Passed | ReconstructFailed(check: nat) | JoinFailed(check: nat) | Mismatch(check: nat)

  datatype EncodeError = EmptyData | EncoderFailed | BracketingFailed(result: CheckResult)

  /** A copy in buffers of its own. An absent shard is copied as an absent shard. */
  method DeepCopy(shards: array<Slice>, ghost v: seq<seq<Byte>>) returns (test: array<Slice>)
    requires Hold(shards[..], v)
    ensures fresh(test) && Hold(test[..], v)
    ensures forall i :: 0 <= i < test.Length ==> test[i].Slice? && fresh(test[i].buf)
  {
    var ss: seq<Slice> := [];
    for j := 0 to shards.Length
      invariant |ss| == j
      invariant forall k :: 0 <= k < j ==> ss[k].Valid() && ss[k].Bytes() == v[k]
      invariant forall k :: 0 <= k < j ==> ss[k].Slice? && fresh(ss[k].buf)
    {
      var s := FromBytes(shards[j].Bytes());
      ss := ss + [s];
    }
    test := new Slice[|ss|](i requires 0 <= i < |ss| => ss[i]);
    assert test[..] == ss;
  }

  /** Drops every shard that is not kept. */
  method DropLost(test: array<Slice>, keep: seq<nat>, ghost v: seq<seq<Byte>>)
    requires Hold(test[..], v)
    modifies test
    ensures Hold(test[..], Masked(v, keep))
    ensures forall i :: 0 <= i < test.Length ==> test[i] == old(test[i]) || test[i].Nil?
  {
    var keepMap: set<nat> := set i | i in keep;
    ghost var before := test[..];
    for j := 0 to test.Length
      invariant forall k :: 0 <= k < j ==> test[k] == if k in keep then before[k] else Nil
      invariant forall k :: j <= k < test.Length ==> test[k] == before[k]
    {
      if j !in keepMap {
        test[j] := Nil;
      }
    }
  }

  class ErasureService {

    constructor () {}

    /** One simulated disaster. Nothing that existed before is written to. */
    method Check(data: Slice, shards: array<Slice>, i: nat, ghost v: seq<seq<Byte>>)
      returns (result: CheckResult)
      requires data.Valid() && i < |KEEP| && Hold(shards[..], v)
      ensures result.Passed? <==> Passes(data.Bytes(), v, KEEP[i])
      ensures !result.Passed? ==> result.check == i
    {
      hide RS.Reconstruct, RS.Join, Masked;
      var testShards := DeepCopy(shards, v);
      DropLost(testShards, KEEP[i], v);
      ghost var masked := Masked(v, KEEP[i]);
      var ok := Encoder.Reconstruct(testShards, masked);
      if !ok {
        return ReconstructFailed(i);
      }
      var joined := Encoder.Join(testShards, data.Len(), RS.Reconstruct(masked).value);
      if joined.None? {
        return JoinFailed(i);
      }
      if joined.value != data.Bytes() {
        return Mismatch(i);
      }
      return Passed;
    }

    /** The five simulated disasters. They pass exactly if the shards encode the data,
        and there is no modifies clause: the shards checked are the shards returned. */
    method SimulateDisasterAndVerify(data: Slice, shards: array<Slice>, ghost v: seq<seq<Byte>>)
      returns (result: CheckResult)
      requires data.Valid() && shards.Length == RS.TOTAL_SHARDS && Hold(shards[..], v)
      ensures result.Passed? <==> Encodes(v, data.Bytes(), |v[8]|)
      ensures !result.Passed? ==>
        && result.check < |KEEP| && !Passes(data.Bytes(), v, KEEP[result.check])
        && forall r :: 0 <= r < result.check ==> Passes(data.Bytes(), v, KEEP[r])
    {
      hide Passes, Encodes;
      BracketingIsExact(data.Bytes(), v);
      for i := 0 to |KEEP|
        invariant forall r :: 0 <= r < i ==> Passes(data.Bytes(), v, KEEP[r])
      {
        result := Check(data, shards, i, v);
        if !result.Passed? {
          return;
        }
      }
      result := Passed;
    }

    /** Twelve shards of the data, checked. Only the empty payload is refused, and the
        payload's own buffer, which the data shards may share, keeps its contents. */
    method EncodeAndBracket(data: Slice) returns (r: Result<array<Slice>, EncodeError>)
      requires data.Valid()
      ensures if data.Len() > 0 then r.Success? else r == Failure(EmptyData)
      ensures r.Success? ==> fresh(r.value) && Hold(r.value[..], RS.StripeOf(data.Bytes()))
      ensures r.Success? ==> forall i :: 0 <= i < r.value.Length ==>
        r.value[i].Slice? && (fresh(r.value[i].buf) || (i < RS.DATA_SHARDS && r.value[i].buf == data.buf))
    {
      hide Encodes, RS.DataShards, RS.Encode, RS.ShardLength, AllPass;
      if data.Len() == 0 {
        return Failure(EmptyData);
      }
      ghost var d := RS.DataShards(data.Bytes());
      var ok, shards := Encoder.Split(data);
      if !ok {
        return Failure(EncoderFailed);
      }
      RS.StripeOfIsStripe(data.Bytes());
      assert forall i :: 0 <= i < RS.DATA_SHARDS ==> shards[..RS.DATA_SHARDS][i].Len() == |d[i]|;
      ok := Encoder.Encode(shards, d);
      if !ok {
        return Failure(EncoderFailed);
      }
      HonestShardsPass(data.Bytes());
      BracketingIsExact(data.Bytes(), RS.StripeOf(data.Bytes()));
      var result := SimulateDisasterAndVerify(data, shards, RS.StripeOf(data.Bytes()));
      if !result.Passed? {
        return Failure(BracketingFailed(result));
      }
      return Success(shards);
    }
  }
}
