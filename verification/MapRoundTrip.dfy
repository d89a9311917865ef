/** The decoder machine on the map of bytes in use. */
module MapRoundTrip {
  import opened Bits
  import opened ByteMaps
  import opened Decompressor
  import opened BlockFormat
  import opened Pieces

  function All16(inUse: InUse): (r: seq<bool>)
    ensures |r| == 16
  {
    seq(16, t requires 0 <= t < 16 => Used16(inUse, t))
  }

  /** inUse as far as the first n bytes are known. */
  function Partial(inUse: InUse, n: nat): (r: seq<bool>)
    requires n <= 256
    ensures |r| == 256
  {
    seq(256, t requires 0 <= t < 256 => t < n && inUse[t])
  }

  lemma StepMapping1(d: Decoder, b: bool)
    requires Valid(d) && d.state == Mapping1
    ensures Takes(More(d), [b], AfterMapping1(d, if b then 1 else 0))
  {
    hide Takes, AfterMapping1;
    StepBit(d, b);
  }

  lemma StepMapping2(d: Decoder, b: bool)
    requires Valid(d) && d.state == Mapping2
    ensures Takes(More(d), [b], AfterMapping2(d, if b then 1 else 0))
  {
    hide Takes, AfterMapping2;
    StepBit(d, b);
  }

  /** The decoder with the sixteen group flags read. */
  function FlagsRead(d: Decoder, inUse: InUse): Decoder {
    d.(maps := Maps(16, d.maps.j, All16(inUse), Partial(inUse, 0), d.maps.seqToUnseq))
  }

  lemma {:induction false} TakeMap16(d: Decoder, inUse: InUse, i: nat)
    requires Valid(d) && d.state == Mapping1 && i == d.maps.i
    requires d.maps.inUse16 == All16(inUse)[..i]
    ensures Takes(More(d), Map16Bits(inUse, i), NextSixteen(FlagsRead(d, inUse), 0))
    decreases 16 - i
  {
    hide Takes, NextSixteen, Advance, Used16;
    var b := Used16(inUse, i);
    StepMapping1(d, b);
    assert All16(inUse)[..i] + [b] == All16(inUse)[..i + 1];
    if i < 15 {
      var d1 := d.(maps := d.maps.(i := i + 1, inUse16 := All16(inUse)[..i + 1]));
      TakeMap16(d1, inUse, i + 1);
      assert FlagsRead(d1, inUse) == FlagsRead(d, inUse);
      Chain(More(d), [b], More(d1), Map16Bits(inUse, i + 1), NextSixteen(FlagsRead(d, inUse), 0));
    } else {
      assert All16(inUse)[..16] == All16(inUse);
      assert Partial(inUse, 0) == seq(256, _ => false);
      assert Map16Bits(inUse, i) == [b];
    }
  }

  /** Reads the rest of group i, from its bit j on. */
  lemma {:induction false} TakeSixteen(d: Decoder, inUse: InUse, i: nat, j: nat)
    requires Valid(d) && d.state == Mapping2 && i < 16 && j < 16
    requires d.maps.i == i && d.maps.j == j && d.maps.inUse == Partial(inUse, 16 * i + j)
    ensures Takes(More(d), inUse[16 * i + j..16 * i + 16],
                  NextSixteen(d.(maps := d.maps.(j := 16, inUse := Partial(inUse, 16 * i + 16))), i + 1))
    decreases 16 - j
  {
    hide Takes, NextSixteen, Advance;
    var n := 16 * i + j;
    var b := inUse[n];
    var d' := d.(maps := d.maps.(j := 16, inUse := Partial(inUse, 16 * i + 16)));
    StepMapping2(d, b);
    PartialGrows(inUse, n);
    assert inUse[n..16 * i + 16] == [b] + inUse[n + 1..16 * i + 16];
    if j < 15 {
      var d1 := d.(maps := d.maps.(j := j + 1, inUse := Partial(inUse, n + 1)));
      TakeSixteen(d1, inUse, i, j + 1);
      Chain(More(d), [b], More(d1), inUse[n + 1..16 * i + 16], NextSixteen(d', i + 1));
    } else {
      assert inUse[n..16 * i + 16] == [b];
    }
  }

  lemma PartialGrows(inUse: InUse, n: nat)
    requires n < 256
    ensures Partial(inUse, n + 1) == if inUse[n] then Partial(inUse, n)[n := true] else Partial(inUse, n)
  {
  }

  /** A group with no byte in use is skipped without a bit. */
  lemma SkipSixteen(inUse: InUse, i: nat)
    requires i < 16 && !Used16(inUse, i)
    ensures Partial(inUse, 16 * i + 16) == Partial(inUse, 16 * i)
  {
  }

  /** The decoder once the map of bytes in use has been read. */
  function AtSelectors(d: Decoder, inUse: InUse, j: nat): Decoder {
    d.(maps := Maps(16, j, All16(inUse), inUse, InUseList(inUse, 256)), state := Selector1)
  }

  /** All sixteen groups read: the bytes in use are known. */
  lemma MapEnds(d: Decoder, inUse: InUse)
    requires SizeKnown(d) && d.maps.inUse16 == All16(inUse) && true in inUse && d.maps.inUse == Partial(inUse, 256)
    ensures MapsKnown(AtSelectors(d, inUse, d.maps.j)) && Live(More(AtSelectors(d, inUse, d.maps.j)))
    ensures NextSixteen(d, 16) == More(AtSelectors(d, inUse, d.maps.j))
  {
    hide InUseList, Used16;
    assert Partial(inUse, 256) == inUse;
    SomeInUse(inUse);
  }

  lemma {:induction false} TakeMap(d: Decoder, inUse: InUse, i: nat) returns (j: nat)
    requires SizeKnown(d) && i <= 16 && d.maps.inUse16 == All16(inUse) && true in inUse
    requires d.maps.inUse == Partial(inUse, 16 * i)
    ensures MapsKnown(AtSelectors(d, inUse, j))
    ensures Takes(NextSixteen(d, i), MapBits(inUse, i), More(AtSelectors(d, inUse, j)))
    decreases 16 - i
  {
    hide Takes, Used16, Advance, InUseList;
    if i == 16 {
      MapEnds(d, inUse);
      j := d.maps.j;
      TakesNothing(More(AtSelectors(d, inUse, j)));
    } else if Used16(inUse, i) {
      var d1 := d.(maps := d.maps.(i := i, j := 0), state := Mapping2);
      var d2 := d1.(maps := d1.maps.(j := 16, inUse := Partial(inUse, 16 * i + 16)));
      TakeSixteen(d1, inUse, i, 0);
      j := TakeMap(d2, inUse, i + 1);
      Chain(More(d1), inUse[16 * i..16 * i + 16], NextSixteen(d2, i + 1), MapBits(inUse, i + 1),
          More(AtSelectors(d, inUse, j)));
    } else {
      SkipSixteen(inUse, i);
      j := TakeMap(d, inUse, i + 1);
      assert MapBits(inUse, i) == MapBits(inUse, i + 1);
    }
  }

  lemma SomeInUse(inUse: InUse)
    requires true in inUse
    ensures 1 <= |InUseList(inUse, 256)| <= 256
  {
    var x :| 0 <= x < 256 && inUse[x];
    InUseListGrows(inUse, x + 1, 256);
  }

  /** Both parts of the map. */
  lemma TakeMaps(d: Decoder, inUse: InUse) returns (j: nat)
    requires Valid(d) && d.state == Mapping1 && d.maps.i == 0 && true in inUse
    ensures MapsKnown(AtSelectors(d, inUse, j))
    ensures Takes(More(d), Map16Bits(inUse, 0) + MapBits(inUse, 0), More(AtSelectors(d, inUse, j)))
  {
    hide Takes, Used16, NextSixteen, InUseList;
    TakeMap16(d, inUse, 0);
    var d1 := FlagsRead(d, inUse);
    j := TakeMap(d1, inUse, 0);
    Chain(More(d), Map16Bits(inUse, 0), NextSixteen(d1, 0), MapBits(inUse, 0), More(AtSelectors(d, inUse, j)));
  }
}
