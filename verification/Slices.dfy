/** Byte slices as Go has them: a window on a shared buffer. */
module Slices {
  import opened Gf256

  datatype Slice = Nil | Slice(buf: array<Byte>, off: nat, len: nat)
  {
    predicate Valid() {
      Slice? ==> off + len <= buf.Length
    }

    function Len(): nat {
      if Nil? then 0 else len
    }

    function Buffer(): set<array<Byte>> {
      if Nil? then {} else {buf}
    }

    function Bytes(): (s: seq<Byte>)
      requires Valid()
      reads Buffer()
      ensures |s| == Len()
    {
      if Nil? then [] else buf[off..off + len]
    }
  }

  predicate AllValid(ss: seq<Slice>) {
    forall i :: 0 <= i < |ss| ==> ss[i].Valid()
  }

  ghost function Buffers(ss: seq<Slice>): set<array<Byte>> {
    set i | 0 <= i < |ss| && ss[i].Slice? :: ss[i].buf
  }

  /** The slices hold the given bytes. */
  ghost predicate Hold(ss: seq<Slice>, bytes: seq<seq<Byte>>)
    reads Buffers(ss)
  {
    |ss| == |bytes| && forall i :: 0 <= i < |ss| ==> ss[i].Valid() && ss[i].Bytes() == bytes[i]
  }

  lemma HoldOneMore(ss: seq<Slice>, bytes: seq<seq<Byte>>, s: Slice)
    requires |ss| < |bytes| && Hold(ss, bytes[..|ss|]) && s.Valid() && s.Bytes() == bytes[|ss|]
    ensures Hold(ss + [s], bytes[..|ss| + 1])
  {}

  /** A fresh slice that holds the given bytes. */
  method FromBytes(s: seq<Byte>) returns (r: Slice)
    ensures r.Slice? && r.Valid() && fresh(r.buf) && r.Bytes() == s
  {
    var buf := new Byte[|s|](i requires 0 <= i < |s| => s[i]);
    r := Slice(buf, 0, |s|);
  }

  /** The bytes of each slice, read off. */
  method ReadAll(ss: seq<Slice>) returns (v: seq<seq<Byte>>)
    requires AllValid(ss)
    ensures Hold(ss, v)
  {
    v := [];
    for i := 0 to |ss|
      invariant |v| == i && forall k :: 0 <= k < i ==> ss[k].Bytes() == v[k]
    {
      v := v + [ss[i].Bytes()];
    }
  }
}
