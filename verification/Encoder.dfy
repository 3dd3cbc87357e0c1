/** The encoder library, by contract: Split, Encode, Reconstruct and Join on slices. */
module Encoder {
  import opened Wrappers
  import opened Gf256
  import opened Sequences
  import opened Slices
  import RS = ReedSolomon

  /** The parity shards have buffers of their own. */
  ghost predicate ParityApart(ss: seq<Slice>) {
    forall i, j :: 0 <= i < |ss| && RS.DATA_SHARDS <= j < |ss| && i != j && ss[i].Slice? && ss[j].Slice? ==>
      ss[i].buf != ss[j].buf
  }

  /** One shard of a payload: a window on it where it reaches, a padded copy elsewhere. */
  method DataShard(data: Slice, i: nat) returns (s: Slice)
    requires data.Valid() && data.Len() > 0 && i < RS.DATA_SHARDS
    ensures s.Slice? && s.Valid() && s.Bytes() == RS.DataShards(data.Bytes())[i]
    ensures fresh(s.buf) || s.buf == data.buf
  {
    hide RS.DataShards, RS.ShardLength;
    var length := RS.ShardLength(data.len);
    if i * length + length <= data.len {
      RS.DataShardAt(data.Bytes(), i);
      var lo := i * length;
      s := Slice(data.buf, data.off + lo, length);
      WindowOfWindow(data.buf[..], data.off, data.len, lo, length);
    } else {
      s := FromBytes(RS.DataShards(data.Bytes())[i]);
    }
  }

  method DataShards(data: Slice) returns (ss: seq<Slice>)
    requires data.Valid() && data.Len() > 0
    ensures Hold(ss, RS.DataShards(data.Bytes()))
    ensures forall k :: 0 <= k < |ss| ==> ss[k].Slice? && (fresh(ss[k].buf) || ss[k].buf == data.buf)
  {
    hide RS.DataShards;
    ghost var pieces := RS.DataShards(data.Bytes());
    ss := [];
    for i := 0 to RS.DATA_SHARDS
      invariant |ss| == i && Hold(ss, pieces[..i])
      invariant forall k :: 0 <= k < i ==> ss[k].Slice? && (fresh(ss[k].buf) || ss[k].buf == data.buf)
    {
      var s := DataShard(data, i);
      HoldOneMore(ss, pieces, s);
      ss := ss + [s];
    }
    assert pieces[..RS.DATA_SHARDS] == pieces;
  }

  method ParityShards(length: nat) returns (ss: seq<Slice>)
    ensures |ss| == RS.TOTAL_SHARDS - RS.DATA_SHARDS
    ensures forall k :: 0 <= k < |ss| ==> ss[k].Slice? && ss[k].Valid() && ss[k].len == length && fresh(ss[k].buf)
    ensures forall j, k :: 0 <= j < k < |ss| ==> ss[j].buf != ss[k].buf
  {
    hide RS.Zeros;
    ss := [];
    for i := 0 to RS.TOTAL_SHARDS - RS.DATA_SHARDS
      invariant |ss| == i
      invariant forall k :: 0 <= k < i ==> ss[k].Slice? && ss[k].Valid() && ss[k].len == length && fresh(ss[k].buf)
      invariant forall j, k :: 0 <= j < k < i ==> ss[j].buf != ss[k].buf
    {
      var s := FromBytes(RS.Zeros(length));
      ss := ss + [s];
    }
  }

  /** Split: eight data shards, which may share the payload's buffer, and four parity
      shards in buffers of their own. */
  method Split(data: Slice) returns (ok: bool, shards: array<Slice>)
    requires data.Valid()
    ensures ok == (data.Len() > 0)
    ensures fresh(shards) && shards.Length == RS.TOTAL_SHARDS
    ensures ok ==> AllValid(shards[..]) && ParityApart(shards[..])
    ensures ok ==> Hold(shards[..RS.DATA_SHARDS], RS.DataShards(data.Bytes()))
    ensures ok ==> forall i :: RS.DATA_SHARDS <= i < RS.TOTAL_SHARDS ==> shards[i].Len() == RS.ShardLength(data.Len())
    ensures ok ==> forall i :: 0 <= i < RS.TOTAL_SHARDS ==>
      shards[i].Slice? && (fresh(shards[i].buf) || (i < RS.DATA_SHARDS && shards[i].buf == data.buf))
  {
    hide RS.DataShards, RS.ShardLength;
    ok := data.Len() > 0;
    if !ok {
      shards := new Slice[RS.TOTAL_SHARDS](_ => Nil);
      return;
    }
    var d := DataShards(data);
    var p := ParityShards(RS.ShardLength(data.len));
    var all := d + p;
    shards := new Slice[RS.TOTAL_SHARDS](i requires 0 <= i < RS.TOTAL_SHARDS => all[i]);
    assert shards[..] == all && shards[..RS.DATA_SHARDS] == d;
  }

  method Fill(s: Slice, bytes: seq<Byte>)
    requires s.Slice? && s.Valid() && |bytes| == s.len
    modifies s.buf
    ensures s.Bytes() == bytes
  {
    for i := 0 to s.len
      invariant forall k :: 0 <= k < i ==> s.buf[s.off + k] == bytes[k]
    {
      s.buf[s.off + i] := bytes[i];
    }
  }

  predicate UniformLength(ss: seq<Slice>) {
    forall i :: 0 <= i < |ss| ==> ss[i].Len() == ss[0].Len() > 0
  }

  /** Encode: the parity shards are overwritten in place; the data shards are read only. */
  method Encode(shards: array<Slice>, ghost data: seq<seq<Byte>>) returns (ok: bool)
    requires shards.Length == RS.TOTAL_SHARDS && AllValid(shards[..]) && ParityApart(shards[..])
    requires Hold(shards[..RS.DATA_SHARDS], data)
    modifies Buffers(shards[RS.DATA_SHARDS..])
    ensures ok == UniformLength(shards[..])
    ensures ok ==> Hold(shards[..], RS.Encode(data, shards[0].Len()))
  {
    hide RS.Encode;
    ok := UniformLength(shards[..]);
    if !ok {
      return;
    }
    ghost var ss := shards[..];
    var length := shards[0].Len();
    var d := ReadAll(shards[..RS.DATA_SHARDS]);
    assert d == data;
    var full := RS.Encode(d, length);
    RS.EncodeIsStripe(d, length);
    for i := RS.DATA_SHARDS to RS.TOTAL_SHARDS
      invariant forall k :: 0 <= k < RS.DATA_SHARDS ==> ss[k].Bytes() == data[k]
      invariant forall k :: RS.DATA_SHARDS <= k < i ==> ss[k].Bytes() == full[k]
    {
      Fill(shards[i], full[i]);
    }
  }

  method Restored(s: Slice, bytes: seq<Byte>) returns (r: Slice)
    requires s.Valid() && (s.Len() > 0 ==> s.Bytes() == bytes)
    ensures r.Valid() && r.Bytes() == bytes
    ensures r == s || (s.Len() == 0 && r.Slice? && fresh(r.buf))
  {
    if s.Len() == 0 {
      r := FromBytes(bytes);
    } else {
      r := s;
    }
  }

  method RestoreAll(ss: seq<Slice>, ghost v: seq<seq<Byte>>, full: seq<seq<Byte>>) returns (out: seq<Slice>)
    requires Hold(ss, v) && |full| == |ss|
    requires forall i :: 0 <= i < |ss| && v[i] != [] ==> full[i] == v[i]
    ensures Hold(out, full)
    ensures forall i :: 0 <= i < |out| ==> out[i] == ss[i] || (ss[i].Len() == 0 && out[i].Slice? && fresh(out[i].buf))
  {
    out := [];
    for i := 0 to |ss|
      invariant |out| == i && Hold(out, full[..i])
      invariant forall k :: 0 <= k < i ==> out[k] == ss[k] || (ss[k].Len() == 0 && out[k].Slice? && fresh(out[k].buf))
    {
      assert ss[i].Valid() && ss[i].Bytes() == v[i];
      var s := Restored(ss[i], full[i]);
      HoldOneMore(out, full, s);
      out := out + [s];
    }
    assert full[..|full|] == full;
  }

  /** Reconstruct: missing shards are replaced, in the outer array, by fresh buffers;
      the shards that are present are neither replaced nor written to. */
  method Reconstruct(shards: array<Slice>, ghost before: seq<seq<Byte>>) returns (ok: bool)
    requires Hold(shards[..], before)
    modifies shards
    ensures ok == RS.Reconstruct(before).Some?
    ensures if ok then Hold(shards[..], RS.Reconstruct(before).value) else shards[..] == old(shards[..])
    ensures forall i :: 0 <= i < shards.Length ==>
      shards[i] == old(shards[i]) || (old(shards[i]).Len() == 0 && shards[i].Slice? && fresh(shards[i].buf))
  {
    hide RS.Reconstruct;
    var v := ReadAll(shards[..]);
    assert v == before;
    var full := RS.Reconstruct(v);
    ok := full.Some?;
    if ok {
      var out := RestoreAll(shards[..], v, full.value);
      forall i | 0 <= i < RS.TOTAL_SHARDS {
        shards[i] := out[i];
      }
      assert shards[..] == out;
    }
  }

  /** Join: the first `size` bytes of the data shards. */
  method Join(shards: array<Slice>, size: nat, ghost v: seq<seq<Byte>>) returns (r: Option<seq<Byte>>)
    requires Hold(shards[..], v)
    ensures r == RS.Join(v, size)
  {
    hide RS.Join;
    var w := ReadAll(shards[..]);
    assert w == v;
    r := RS.Join(w, size);
  }
}
