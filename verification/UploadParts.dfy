/** Files that arrive in parts: the client's slices, the staging directory, and putting
    the parts together again. */
module UploadParts {
  import opened Wrappers
  import opened Gf256
  import opened Decimal

  const SLICE_SIZE := 8 * 1024 * 1024
  const PART_PREFIX := "part_"
  const PART_DIGITS := 9
  const MANIFEST := "manifest.json"
  const ASSEMBLED := "assembled.bin"

  /** A staging directory: names and contents. */
  type Staging = map<string, seq<Byte>>

  function PartName(n: nat): string {
    PART_PREFIX + ZeroPadded(n, PART_DIGITS)
  }

  // The client.

  /** Math.ceil(size / SLICE_SIZE). */
  function SliceCount(size: nat): (n: nat)
    ensures (n as int - 1) * SLICE_SIZE < size <= n * SLICE_SIZE || size == n == 0
  {
    (size + SLICE_SIZE - 1) / SLICE_SIZE
  }

  /** Slice i of the file, which is sent as part i + 1. */
  function SliceOf(data: seq<Byte>, i: nat): seq<Byte>
    requires i < SliceCount(|data|)
  {
    var start := i * SLICE_SIZE;
    var end := if start + SLICE_SIZE <= |data| then start + SLICE_SIZE else |data|;
    data[start..end]
  }

  /** Slices of 8MB, the last of which may be shorter. */
  lemma SlicesAre(data: seq<Byte>, i: nat)
    ensures i < SliceCount(|data|) <==> i * 8_388_608 < |data|
    ensures i < SliceCount(|data|) ==>
      && SliceOf(data, i) == data[i * 8_388_608..][..|SliceOf(data, i)|]
      && |SliceOf(data, i)| == if (i + 1) * 8_388_608 <= |data| then 8_388_608 else |data| - i * 8_388_608
  {}

  // Names and their order.

  predicate IsPart(name: string) {
    PART_PREFIX <= name
  }

  lemma PartNameOrder(n: nat, m: nat)
    requires n < Pow10(PART_DIGITS) && m < Pow10(PART_DIGITS)
    ensures Less(PartName(n), PartName(m)) <==> n < m
    ensures PartName(n) == PartName(m) <==> n == m
  {
    hide Pow10, Padded, Less;
    PaddedOrder(n, m, PART_DIGITS);
    var a, b := ZeroPadded(n, PART_DIGITS), ZeroPadded(m, PART_DIGITS);
    LessPrefix(PART_PREFIX, a, b);
    assert (PART_PREFIX + a)[|PART_PREFIX|..] == a && (PART_PREFIX + b)[|PART_PREFIX|..] == b;
  }

  ghost predicate InOrder(last: nat) {
    forall n, m :: 1 <= n < m <= last ==> Less(PartName(n), PartName(m))
  }

  lemma TenToTheNine()
    ensures Pow10(PART_DIGITS) == 1_000_000_000
  {}

  /** The names of parts 1 to last sort in the order of the parts exactly if there are
      fewer than 10^9 of them. */
  lemma NamesSortNumerically(last: nat)
    ensures InOrder(last) <==> last < 1_000_000_000
  {
    hide Pow10, Padded, Less;
    TenToTheNine();
    if last < 1_000_000_000 {
      forall n, m | 1 <= n < m <= last ensures Less(PartName(n), PartName(m)) {
        PartNameOrder(n, m);
      }
    } else {
      OrderEndsAtWidth(PART_DIGITS);
      LessPrefix(PART_PREFIX, ZeroPadded(999_999_999, PART_DIGITS), ZeroPadded(1_000_000_000, PART_DIGITS));
      assert !Less(PartName(999_999_999), PartName(1_000_000_000));
    }
  }

  // Sorting and appending.

  ghost predicate Sorted(names: seq<string>) {
    forall i, j :: 0 <= i < j < |names| ==> Less(names[i], names[j])
  }

  lemma {:induction false} HasLeast(names: set<string>) returns (least: string)
    requires names != {}
    ensures least in names && forall x :: x in names ==> x == least || Less(least, x)
  {
    least :| least in names;
    if names != {least} {
      var other := HasLeast(names - {least});
      LessIsTotal(least, other);
      if Less(other, least) {
        least := other;
      } else {
        forall x | x in names ensures x == least || Less(least, x) {
          LessIsStrict(least, other, x);
        }
      }
    }
  }

  /** sort.Strings, for names that are all different. */
  method SortNames(names: set<string>) returns (r: seq<string>)
    ensures Sorted(r) && forall x :: x in r <==> x in names
  {
    r := [];
    var rest := names;
    while rest != {}
      invariant rest <= names && Sorted(r)
      invariant forall x :: x in r <==> x in names && x !in rest
      invariant forall x, y :: x in r && y in rest ==> Less(x, y)
      decreases |rest|
    {
      ghost var least := HasLeast(rest);
      var x :| x in rest && forall y :: y in rest ==> x == y || Less(x, y);
      forall i | 0 <= i < |r| ensures Less(r[i], x) {
        assert r[i] in r;
      }
      r := r + [x];
      rest := rest - {x};
    }
  }

  function Content(dir: Staging, name: string): seq<Byte> {
    if name in dir then dir[name] else []
  }

  function Concat(dir: Staging, names: seq<string>): seq<Byte> {
    if names == [] then [] else Concat(dir, names[..|names| - 1]) + Content(dir, names[|names| - 1])
  }

  lemma ConcatNext(dir: Staging, names: seq<string>, i: nat)
    requires i < |names|
    ensures Concat(dir, names[..i + 1]) == Concat(dir, names[..i]) + Content(dir, names[i])
  {
    assert names[..i + 1][..i] == names[..i];
  }

  lemma ConcatNothing(dir: Staging)
    ensures Concat(dir, []) == []
  {}

  /** The parts in the directory, in the order of their names. */
  ghost predicate ListsParts(dir: Staging, names: seq<string>) {
    Sorted(names) && forall x :: x in names <==> x in dir && IsPart(x)
  }

  // The round trip.

  /** Every part in the directory is the beginning of its slice. */
  ghost predicate PartsOf(dir: Staging, data: seq<Byte>) {
    forall x :: x in dir && IsPart(x) ==> IsPartOf(x, dir[x], data)
  }

  ghost predicate IsPartOf(name: string, bytes: seq<Byte>, data: seq<Byte>) {
    exists i: nat :: i < SliceCount(|data|) && name == PartName(i + 1) && bytes <= SliceOf(data, i)
  }

  predicate Arrived(dir: Staging, data: seq<Byte>, i: nat)
    requires i < SliceCount(|data|)
  {
    PartName(i + 1) in dir && dir[PartName(i + 1)] == SliceOf(data, i)
  }

  ghost predicate AllArrived(dir: Staging, data: seq<Byte>) {
    forall i: nat :: i < SliceCount(|data|) ==> Arrived(dir, data, i)
  }

  /** The parts up to number n, in the order of their numbers. */
  function InNumberOrder(dir: Staging, n: nat): seq<Byte> {
    if n == 0 then [] else InNumberOrder(dir, n - 1) + Content(dir, PartName(n))
  }

  ghost predicate NumberedUpTo(dir: Staging, names: seq<string>, n: nat) {
    && Sorted(names)
    && forall x :: x in names <==> x in dir && exists k :: 1 <= k <= n && x == PartName(k)
  }

  lemma HasFirst(names: seq<string>)
    ensures names == [] || exists x :: x in names
  {
    if names != [] {
      assert names[0] in names;
    }
  }

  /** Below 10^9 parts, the order of the names is that of the numbers. */
  lemma {:induction false} NameOrderIsNumberOrder(dir: Staging, names: seq<string>, n: nat)
    requires n < 1_000_000_000 && NumberedUpTo(dir, names, n)
    ensures Concat(dir, names) == InNumberOrder(dir, n)
  {
    hide PartName, Less;
    if n == 0 {
      HasFirst(names);
    } else if PartName(n) in dir {
      LastName(dir, names, n);
      NameOrderIsNumberOrder(dir, names[..|names| - 1], n - 1);
    } else {
      assert NumberedUpTo(dir, names, n - 1);
      NameOrderIsNumberOrder(dir, names, n - 1);
    }
  }

  lemma LastName(dir: Staging, names: seq<string>, n: nat)
    requires 0 < n < 1_000_000_000 && NumberedUpTo(dir, names, n) && PartName(n) in dir
    ensures names != [] && names[|names| - 1] == PartName(n)
    ensures NumberedUpTo(dir, names[..|names| - 1], n - 1)
  {
    hide PartName, Less;
    TenToTheNine();
    var last := |names| - 1;
    assert PartName(n) in names;
    var i :| 0 <= i < |names| && names[i] == PartName(n);
    assert names[last] in names;
    var k :| 1 <= k <= n && names[last] == PartName(k);
    PartNameOrder(n, k);
    assert names == names[..last] + [names[last]];
    forall x ensures x in names[..last] <==> x in dir && exists j :: 1 <= j <= n - 1 && x == PartName(j) {
      if x in names[..last] {
        assert x in names;
        var j :| 1 <= j <= n && x == PartName(j);
        var l :| 0 <= l < last && names[l] == x;
        PartNameOrder(j, n);
        LessIsStrict(x, x, x);
      }
      if x in dir && exists j :: 1 <= j <= n - 1 && x == PartName(j) {
        var j :| 1 <= j <= n - 1 && x == PartName(j);
        PartNameOrder(j, n);
        assert x in names;
      }
    }
  }

  /** How far the first n slices reach. */
  function Extent(data: seq<Byte>, n: nat): (e: nat)
    ensures e <= |data|
  {
    if n * SLICE_SIZE <= |data| then n * SLICE_SIZE else |data|
  }

  /** Slices put in order are the file. */
  lemma {:induction false} SlicesMakeFile(dir: Staging, data: seq<Byte>, n: nat)
    requires n <= SliceCount(|data|) && AllArrived(dir, data)
    ensures InNumberOrder(dir, n) == data[..Extent(data, n)]
  {
    hide PartName;
    if n > 0 {
      SlicesMakeFile(dir, data, n - 1);
      assert Arrived(dir, data, n - 1);
    }
  }

  /** Of parts that begin their slices, no selection is longer than the file's beginning,
      and it is as long only if every slice is complete. */
  lemma {:induction false} LengthTells(dir: Staging, data: seq<Byte>, n: nat)
    requires n <= SliceCount(|data|) < 1_000_000_000 && PartsOf(dir, data)
    ensures |InNumberOrder(dir, n)| <= Extent(data, n)
    ensures |InNumberOrder(dir, n)| == Extent(data, n) ==> forall i: nat :: i < n ==> Arrived(dir, data, i)
  {
    hide PartName, Arrived;
    if n > 0 {
      LengthTells(dir, data, n - 1);
      PartLength(dir, data, n - 1);
    }
  }

  lemma SliceLength(data: seq<Byte>, i: nat)
    requires i < SliceCount(|data|)
    ensures 0 < |SliceOf(data, i)| == Extent(data, i + 1) - Extent(data, i)
  {}

  lemma NameIsPart(n: nat)
    ensures IsPart(PartName(n))
  {}

  lemma PartIsOfSlice(dir: Staging, data: seq<Byte>, i: nat)
    requires i < SliceCount(|data|) < 1_000_000_000 && PartsOf(dir, data) && PartName(i + 1) in dir
    ensures dir[PartName(i + 1)] <= SliceOf(data, i)
  {
    hide PartName, Less, SliceOf, SliceCount, IsPart, Pow10;
    var x := PartName(i + 1);
    NameIsPart(i + 1);
    assert IsPartOf(x, dir[x], data);
    var j: nat :| j < SliceCount(|data|) && x == PartName(j + 1) && dir[x] <= SliceOf(data, j);
    TenToTheNine();
    PartNameOrder(i + 1, j + 1);
  }

  lemma PartLength(dir: Staging, data: seq<Byte>, i: nat)
    requires i < SliceCount(|data|) < 1_000_000_000 && PartsOf(dir, data)
    ensures |Content(dir, PartName(i + 1))| <= |SliceOf(data, i)|
    ensures 0 < |SliceOf(data, i)| == Extent(data, i + 1) - Extent(data, i)
    ensures |Content(dir, PartName(i + 1))| == |SliceOf(data, i)| <==> Arrived(dir, data, i)
  {
    hide PartName, SliceOf, SliceCount, PartsOf, Extent;
    SliceLength(data, i);
    if PartName(i + 1) in dir {
      PartIsOfSlice(dir, data, i);
    }
  }

  /** The size check is exact: whatever arrived of whichever slices, the assembled length
      is that of the file exactly if every slice arrived completely, and then what was
      assembled is the file. */
  lemma SizeCheckIsExact(dir: Staging, data: seq<Byte>, names: seq<string>)
    requires PartsOf(dir, data) && ListsParts(dir, names) && SliceCount(|data|) < 1_000_000_000
    ensures |Concat(dir, names)| == |data| <==> AllArrived(dir, data)
    ensures AllArrived(dir, data) ==> Concat(dir, names) == data
  {
    var n := SliceCount(|data|);
    NumbersOfParts(dir, data, names);
    hide PartName, Less, Arrived, PartsOf, ListsParts;
    NameOrderIsNumberOrder(dir, names, n);
    LengthTells(dir, data, n);
    if AllArrived(dir, data) {
      SlicesMakeFile(dir, data, n);
    }
  }

  lemma NumbersOfParts(dir: Staging, data: seq<Byte>, names: seq<string>)
    requires PartsOf(dir, data) && ListsParts(dir, names)
    ensures NumberedUpTo(dir, names, SliceCount(|data|))
  {}

  // Deliveries in any order, with any re-sends.

  /** A request for a slice, of which some beginning arrives. */
  datatype Delivery = Delivery(slice: nat, arrived: nat)

  predicate IsDelivery(data: seq<Byte>, d: Delivery) {
    d.slice < SliceCount(|data|) && d.arrived <= |SliceOf(data, d.slice)|
  }

  function Deliver(dir: Staging, data: seq<Byte>, ds: seq<Delivery>): Staging
    requires forall i :: 0 <= i < |ds| ==> IsDelivery(data, ds[i])
  {
    if ds == [] then dir
    else
      var d := ds[|ds| - 1];
      assert IsDelivery(data, d);
      Deliver(dir, data, ds[..|ds| - 1])[PartName(d.slice + 1) := SliceOf(data, d.slice)[..d.arrived]]
  }

  /** How much of a slice the last request for it brought. */
  function LastArrived(ds: seq<Delivery>, slice: nat): Option<nat> {
    if ds == [] then None
    else if ds[|ds| - 1].slice == slice then Some(ds[|ds| - 1].arrived)
    else LastArrived(ds[..|ds| - 1], slice)
  }

  /** After the requests the slice is there completely: by the last request for it, or as
      it was before if there was none. */
  predicate IsComplete(dir: Staging, data: seq<Byte>, ds: seq<Delivery>, slice: nat)
    requires slice < SliceCount(|data|)
  {
    match LastArrived(ds, slice)
    case Some(n) => n == |SliceOf(data, slice)|
    case None => Arrived(dir, data, slice)
  }

  lemma {:induction false} DeliveredParts(dir: Staging, data: seq<Byte>, ds: seq<Delivery>)
    requires SliceCount(|data|) < 1_000_000_000 && PartsOf(dir, data)
    requires forall i :: 0 <= i < |ds| ==> IsDelivery(data, ds[i])
    ensures PartsOf(Deliver(dir, data, ds), data)
    ensures forall i: nat :: i < SliceCount(|data|) ==>
      (Arrived(Deliver(dir, data, ds), data, i) <==> IsComplete(dir, data, ds, i))
  {
    hide PartName, SliceCount, SliceOf, Arrived, PartsOf;
    if ds != [] {
      var before := Deliver(dir, data, ds[..|ds| - 1]);
      DeliveredParts(dir, data, ds[..|ds| - 1]);
      assert IsDelivery(data, ds[|ds| - 1]);
      OneDelivery(before, data, ds[|ds| - 1]);
    }
  }

  lemma NoPartsYet(manifest: seq<Byte>, data: seq<Byte>)
    ensures PartsOf(map[MANIFEST := manifest], data)
    ensures forall i: nat :: i < SliceCount(|data|) ==> !Arrived(map[MANIFEST := manifest], data, i)
  {
    assert MANIFEST[0] != PART_PREFIX[0];
  }

  lemma OneDelivery(dir: Staging, data: seq<Byte>, d: Delivery)
    requires PartsOf(dir, data) && IsDelivery(data, d) && SliceCount(|data|) < 1_000_000_000
    ensures var dir' := dir[PartName(d.slice + 1) := SliceOf(data, d.slice)[..d.arrived]];
      && PartsOf(dir', data)
      && forall i: nat :: i < SliceCount(|data|) ==>
          (Arrived(dir', data, i) <==>
           if i == d.slice then d.arrived == |SliceOf(data, i)| else Arrived(dir, data, i))
  {
    hide PartName, SliceCount, SliceOf, IsPart, Less, Pow10;
    var sent := SliceOf(data, d.slice)[..d.arrived];
    var dir' := dir[PartName(d.slice + 1) := sent];
    forall x | x in dir' && IsPart(x) ensures IsPartOf(x, dir'[x], data) {
      if x == PartName(d.slice + 1) {
        assert sent <= SliceOf(data, d.slice);
      }
    }
    forall i: nat | i < SliceCount(|data|)
      ensures Arrived(dir', data, i) <==>
        if i == d.slice then d.arrived == |SliceOf(data, i)| else Arrived(dir, data, i)
    {
      TenToTheNine();
      PartNameOrder(i + 1, d.slice + 1);
    }
  }

  /** Slices delivered in any order and any number of times, to a directory that may hold
      some of them already: the size check passes exactly if every slice is complete in
      the end, and then the file is back. */
  lemma SliceRoundTrip(dir: Staging, data: seq<Byte>, ds: seq<Delivery>, names: seq<string>)
    requires SliceCount(|data|) < 1_000_000_000 && PartsOf(dir, data)
    requires forall i :: 0 <= i < |ds| ==> IsDelivery(data, ds[i])
    requires ListsParts(Deliver(dir, data, ds), names)
    ensures (forall i: nat :: i < SliceCount(|data|) ==> IsComplete(dir, data, ds, i))
      <==> |Concat(Deliver(dir, data, ds), names)| == |data|
    ensures |Concat(Deliver(dir, data, ds), names)| == |data| ==> Concat(Deliver(dir, data, ds), names) == data
  {
    hide PartName, SliceOf, SliceCount, Concat, Deliver, PartsOf, ListsParts, IsComplete;
    DeliveredParts(dir, data, ds);
    SizeCheckIsExact(Deliver(dir, data, ds), data, names);
  }

  lemma AssembledIsNoPart(n: nat)
    ensures !IsPart(ASSEMBLED) && PartName(n) != ASSEMBLED
  {
    assert ASSEMBLED[0] != PART_PREFIX[0] && PartName(n)[0] == PART_PREFIX[0];
  }

  /** What a completion that failed leaves, all but the assembled file, can be made up for:
      once the slices that were missing are sent, in any order, the file is back. */
  lemma MissingSlicesCanFollow(dir: Staging, left: Staging, data: seq<Byte>, ds: seq<Delivery>, names: seq<string>)
    requires SliceCount(|data|) < 1_000_000_000 && PartsOf(dir, data) && left - {ASSEMBLED} == dir - {ASSEMBLED}
    requires forall i :: 0 <= i < |ds| ==> IsDelivery(data, ds[i])
    requires forall i: nat :: i < SliceCount(|data|) ==> IsComplete(dir, data, ds, i)
    requires ListsParts(Deliver(left, data, ds), names)
    ensures Concat(Deliver(left, data, ds), names) == data
  {
    hide PartName, SliceOf, SliceCount, Concat, Deliver, ListsParts, IsPart;
    AssembledIsNoPart(0);
    forall x | x in left && IsPart(x) ensures x in dir && left[x] == dir[x] {
      assert x in left - {ASSEMBLED} && (left - {ASSEMBLED})[x] == left[x];
    }
    forall i: nat | i < SliceCount(|data|) ensures IsComplete(left, data, ds, i) {
      AssembledIsNoPart(i + 1);
      assert IsComplete(dir, data, ds, i);
      var name := PartName(i + 1);
      assert name in dir - {ASSEMBLED} <==> name in dir;
      assert name in left - {ASSEMBLED} <==> name in left;
      assert name in dir ==> (left - {ASSEMBLED})[name] == (dir - {ASSEMBLED})[name];
    }
    SliceRoundTrip(left, data, ds, names);
  }

  /** The name of a part is "part_" and at least nine digits, which are its number. */
  lemma PartNameTellsNumber(n: nat)
    ensures "part_" <= PartName(n) && |PartName(n)| >= 14 && Value(PartName(n)[5..]) == Some(n)
    ensures n < 1_000_000_000 ==> |PartName(n)| == 14
  {
    hide Pow10, Padded, Value, Numeral;
    TenToTheNine();
    PaddedTellsNumber(n, PART_DIGITS);
    assert PartName(n)[5..] == ZeroPadded(n, PART_DIGITS);
  }

  /** The body of a request for part n of the file. */
  predicate IsSlice(data: seq<Byte>, n: int, body: seq<Byte>) {
    1 <= n <= SliceCount(|data|) < 1_000_000_000 && body == SliceOf(data, n - 1)
  }

  lemma PartReceived(dir: Staging, data: seq<Byte>, n: int, body: seq<Byte>, arrived: nat)
    requires PartsOf(dir, data) && IsSlice(data, n, body) && arrived <= |body|
    ensures var dir' := dir[PartName(n) := body[..arrived]];
      && PartsOf(dir', data)
      && forall i: nat :: i < SliceCount(|data|) ==>
          (Arrived(dir', data, i) <==> if i == n - 1 then arrived == |body| else Arrived(dir, data, i))
  {
    hide PartName, SliceOf, SliceCount, PartsOf, Arrived;
    OneDelivery(dir, data, Delivery(n - 1, arrived));
  }
}
