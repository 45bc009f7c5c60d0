/** The shared-memory segment of lib/base/detail/ibusm_cfg: which configured channels are admitted
    and where CreateIBUS puts their regions. */
module IBusLayout {
  import CircleBuffers

  const ALIGNMENT := 16
  const HEAD_FIXED := 24          // sizeof(IBUSHead) without its one channel entry
  const CHANNEL_ENTRY := 16       // sizeof(IBUSChannel)
  const RING_SIZEOF := 24         // sizeof(tagCircleBuffer), padding included
  const RING_DATA_OFFSET := 20    // where data_ starts inside tagCircleBuffer

  datatype ChannelCfg = ChannelCfg(srcID: int, dstID: int, maxLength: int)
  datatype Channel = Channel(srcID: int, dstID: int, start: int, maxLength: int)

  /** One entry of the configuration's channel list; wellFormed says it is a list of three. */
  datatype Entry = Entry(wellFormed: bool, cfg: ChannelCfg)

  function AlignSize(size: int): (r: int)
    requires 0 <= size
    ensures size <= r < size + ALIGNMENT && r % ALIGNMENT == 0
  {
    (size + 15) / 16 * 16
  }

  /** The macro masks the low bits away; on 64-bit words that is the arithmetic above. */
  lemma AlignIsMasking(size: bv64)
    ensures (15 + size) & !15 == (size + 15) / 16 * 16
  {
  }

  // ----- Admission: GetChannels -----

  function Sum(cfgs: seq<ChannelCfg>): int {
    if cfgs == [] then 0 else Sum(cfgs[..|cfgs| - 1]) + cfgs[|cfgs| - 1].maxLength
  }

  /** First-come admission: an entry is taken when it is well formed, positive and still fits. */
  function Admitted(entries: seq<Entry>, maxSize: int): seq<ChannelCfg> {
    if entries == [] then []
    else
      var before, e := Admitted(entries[..|entries| - 1], maxSize), entries[|entries| - 1];
      if e.wellFormed && e.cfg.maxLength > 0 && Sum(before) + e.cfg.maxLength <= maxSize
      then before + [e.cfg] else before
  }

  ghost predicate Positive(cfgs: seq<ChannelCfg>) {
    forall i :: 0 <= i < |cfgs| ==> cfgs[i].maxLength > 0
  }

  lemma {:induction false} AdmissionFitsBudget(entries: seq<Entry>, maxSize: int)
    requires 0 <= maxSize
    ensures Positive(Admitted(entries, maxSize))
    ensures 0 <= Sum(Admitted(entries, maxSize)) <= maxSize
  {
    if entries != [] {
      var e := entries[|entries| - 1];
      var before := Admitted(entries[..|entries| - 1], maxSize);
      AdmissionFitsBudget(entries[..|entries| - 1], maxSize);
      assert (before + [e.cfg])[..|before|] == before;
    }
  }

  /** Which entries are taken, entry by entry. */
  function Picks(entries: seq<Entry>, maxSize: int): (r: seq<bool>)
    ensures |r| == |entries|
  {
    if entries == [] then []
    else
      var init, e := entries[..|entries| - 1], entries[|entries| - 1];
      Picks(init, maxSize) + [e.wellFormed && e.cfg.maxLength > 0 && Sum(Admitted(init, maxSize)) + e.cfg.maxLength <= maxSize]
  }

  /** The channels of the picked entries, in order. */
  function Chosen(entries: seq<Entry>, picks: seq<bool>): seq<ChannelCfg>
    requires |picks| == |entries|
  {
    if entries == [] then []
    else
      var n := |entries| - 1;
      Chosen(entries[..n], picks[..n]) + if picks[n] then [entries[n].cfg] else []
  }

  /** A choice of valid entries that together fit the size. */
  ghost predicate Feasible(entries: seq<Entry>, picks: seq<bool>, maxSize: int)
    requires |picks| == |entries|
  {
    && (forall i :: 0 <= i < |picks| && picks[i] ==> entries[i].wellFormed && entries[i].cfg.maxLength > 0)
    && Sum(Chosen(entries, picks)) <= maxSize
  }

  lemma {:induction false} AdmittedIsChosen(entries: seq<Entry>, maxSize: int)
    ensures Chosen(entries, Picks(entries, maxSize)) == Admitted(entries, maxSize)
  {
    if entries != [] {
      var n := |entries| - 1;
      AdmittedIsChosen(entries[..n], maxSize);
      assert Picks(entries, maxSize)[..n] == Picks(entries[..n], maxSize);
    }
  }

  lemma {:induction false} PicksAreValid(entries: seq<Entry>, maxSize: int, i: nat)
    requires i < |entries| && Picks(entries, maxSize)[i]
    ensures entries[i].wellFormed && entries[i].cfg.maxLength > 0
  {
    if i < |entries| - 1 {
      PicksAreValid(entries[..|entries| - 1], maxSize, i);
    }
  }

  /** Admission itself makes such a choice. */
  lemma AdmissionIsFeasible(entries: seq<Entry>, maxSize: int)
    requires 0 <= maxSize
    ensures Feasible(entries, Picks(entries, maxSize), maxSize)
  {
    AdmissionFitsBudget(entries, maxSize);
    AdmittedIsChosen(entries, maxSize);
    forall i | 0 <= i < |entries| && Picks(entries, maxSize)[i]
      ensures entries[i].wellFormed && entries[i].cfg.maxLength > 0
    {
      PicksAreValid(entries, maxSize, i);
    }
  }

  lemma SumOfMore(cfgs: seq<ChannelCfg>, c: ChannelCfg)
    ensures Sum(cfgs + [c]) == Sum(cfgs) + c.maxLength
  {
    assert (cfgs + [c])[..|cfgs|] == cfgs;
  }

  lemma FeasibleStays(entries: seq<Entry>, picks: seq<bool>, maxSize: int)
    requires entries != [] && |picks| == |entries| && Feasible(entries, picks, maxSize)
    ensures Feasible(entries[..|entries| - 1], picks[..|entries| - 1], maxSize)
  {
    var n := |entries| - 1;
    var before := Chosen(entries[..n], picks[..n]);
    SumOfMore(before, entries[n].cfg);
    assert Chosen(entries, picks) == before + if picks[n] then [entries[n].cfg] else [];
    assert before + [] == before;
  }

  /** Of all choices that fit, admission makes the one that favours earlier entries: where another
      choice first differs, admission takes the entry and the other does not. */
  lemma {:induction false} AdmissionIsGreedy(entries: seq<Entry>, maxSize: int, other: seq<bool>) returns (i: nat)
    requires 0 <= maxSize && |other| == |entries| && Feasible(entries, other, maxSize)
    requires other != Picks(entries, maxSize)
    ensures i < |entries| && other[..i] == Picks(entries, maxSize)[..i]
    ensures Picks(entries, maxSize)[i] && !other[i]
  {
    if entries == [] {
      assert false;
    } else {
      var n := |entries| - 1;
      var picks, before := Picks(entries, maxSize), Picks(entries[..n], maxSize);
      assert picks[..n] == before && other == other[..n] + [other[n]];
      FeasibleStays(entries, other, maxSize);
      if other[..n] == before {
        AdmittedIsChosen(entries[..n], maxSize);
        SumOfMore(Chosen(entries[..n], other[..n]), entries[n].cfg);
        assert picks == before + [picks[n]];
        i := n;
      } else {
        i := AdmissionIsGreedy(entries[..n], maxSize, other[..n]);
        assert other[..i] == other[..n][..i] && picks[..i] == before[..i];
      }
    }
  }

  method GetChannels(entries: seq<Entry>, maxSize: int) returns (channels: seq<ChannelCfg>, allocSize: int)
    requires 0 <= maxSize
    ensures channels == Admitted(entries, maxSize)
    ensures allocSize == Sum(channels)
  {
    channels, allocSize := [], 0;
    for i := 0 to |entries|
      invariant channels == Admitted(entries[..i], maxSize)
      invariant allocSize == Sum(channels)
    {
      assert entries[..i + 1][..i] == entries[..i];
      var channel := entries[i];
      if channel.wellFormed {
        if channel.cfg.maxLength > 0 {
          if allocSize + channel.cfg.maxLength <= maxSize {
            assert (channels + [channel.cfg])[..|channels|] == channels;
            allocSize := allocSize + channel.cfg.maxLength;
            channels := channels + [channel.cfg];
          }
        }
      }
    }
    assert entries[..|entries|] == entries;
  }

  // ----- Layout: CreateIBUS -----

  function HeadSize(capacity: nat): int {
    HEAD_FIXED + capacity * CHANNEL_ENTRY
  }

  /** The running end after the first k regions. */
  function RegionEnd(cfgs: seq<ChannelCfg>, k: nat): (e: int)
    requires Positive(cfgs) && k <= |cfgs|
    ensures e >= HeadSize(|cfgs|) && e % ALIGNMENT == 0
  {
    if k == 0 then AlignSize(HeadSize(|cfgs|))
    else RegionEnd(cfgs, k - 1) + AlignSize(cfgs[k - 1].maxLength)
  }

  function Placed(cfgs: seq<ChannelCfg>, k: nat): Channel
    requires Positive(cfgs) && k < |cfgs|
  {
    Channel(cfgs[k].srcID, cfgs[k].dstID, RegionEnd(cfgs, k), AlignSize(cfgs[k].maxLength))
  }

  lemma {:induction false} RegionEndGrows(cfgs: seq<ChannelCfg>, j: nat, k: nat)
    requires Positive(cfgs) && j < k <= |cfgs|
    ensures RegionEnd(cfgs, j) + AlignSize(cfgs[j].maxLength) <= RegionEnd(cfgs, k)
    ensures RegionEnd(cfgs, j) < RegionEnd(cfgs, k)
  {
    if j < k - 1 {
      RegionEndGrows(cfgs, j, k - 1);
    }
  }

  class IBusHead {
    var capacity: int
    var count: int
    var maxLength: int
    var offset: int
    const channels: array<Channel>
    const rings: array<int>         // the maxLength_ CreateIBUS stores in each ring it starts

    /** The first count entries are the placed regions, count is the longest prefix that fits, and
        every kept ring got its region minus its own header. */
    ghost predicate LaidOut(cfgs: seq<ChannelCfg>, total: int)
      requires Positive(cfgs)
      reads this, channels, rings
    {
      && capacity == |cfgs| == channels.Length == rings.Length
      && maxLength == total
      && 0 <= count <= |cfgs|
      && (forall k :: 0 <= k < count ==> channels[k] == Placed(cfgs, k))
      && (forall k :: 0 <= k < count ==> rings[k] == AlignSize(cfgs[k].maxLength) - RING_SIZEOF)
      && (forall k {:trigger RegionEnd(cfgs, k)} :: 1 <= k <= |cfgs| ==> (k <= count <==> RegionEnd(cfgs, k) <= total))
    }

    constructor Create(cfgs: seq<ChannelCfg>, configured: int)
      requires Positive(cfgs)
      requires 0 <= configured && HeadSize(|cfgs|) + configured < CircleBuffers.INT_LIMIT
      ensures LaidOut(cfgs, HeadSize(|cfgs|) + configured)
      ensures fresh(channels) && fresh(rings)
    {
      var entries, lengths := new Channel[|cfgs|](_ => Channel(0, 0, 0, 0)), new int[|cfgs|](_ => 0);
      channels, rings := entries, lengths;
      capacity := |cfgs|;
      count := 0;
      maxLength := HeadSize(|cfgs|) + configured;
      offset := AlignSize(HeadSize(|cfgs|));
      new;
      var i, fits := 0, true;
      while i < |cfgs| && fits
        invariant 0 <= i <= |cfgs| && fresh(channels) && fresh(rings)
        invariant if fits then Underway(cfgs, i) else LaidOut(cfgs, maxLength)
        invariant maxLength == HeadSize(|cfgs|) + configured
      {
        fits := AddChannel(cfgs, i);
        i := i + 1;
      }
      if fits && i > 0 {
        PrefixIsAll(cfgs, maxLength);
      }
    }

    /** The first i channels are placed, and all of them fit. */
    ghost predicate Underway(cfgs: seq<ChannelCfg>, i: nat)
      requires Positive(cfgs)
      reads this, channels, rings
    {
      && capacity == |cfgs| == channels.Length == rings.Length && channels as object != rings
      && count == i <= |cfgs| && offset == RegionEnd(cfgs, i) && (i > 0 ==> offset <= maxLength)
      && (forall k :: 0 <= k < i ==> channels[k] == Placed(cfgs, k))
      && (forall k :: 0 <= k < i ==> rings[k] == AlignSize(cfgs[k].maxLength) - RING_SIZEOF)
    }

    /** The loop body of CreateIBUS; the loop ends with the first channel that does not fit. */
    method AddChannel(cfgs: seq<ChannelCfg>, i: nat) returns (fits: bool)
      requires Positive(cfgs) && i < |cfgs| && Underway(cfgs, i)
      modifies this`count, this`offset, channels, rings
      ensures fits ==> Underway(cfgs, i + 1)
      ensures !fits ==> LaidOut(cfgs, maxLength)
    {
      var cfg := cfgs[i];
      channels[count] := Channel(cfg.srcID, cfg.dstID, offset, AlignSize(cfg.maxLength));
      offset := offset + AlignSize(cfg.maxLength);
      fits := offset <= maxLength;
      if fits {
        rings[count] := AlignSize(cfg.maxLength) - RING_SIZEOF;
        count := count + 1;
      } else {
        PrefixEndsHere(cfgs, i, maxLength);
      }
    }

    /** The first channel with the two ids, or -1 when there is none. */
    method GetChannel(srcID: int, dstID: int) returns (index: int)
      requires 0 <= count <= channels.Length
      ensures -1 <= index < count
      ensures index >= 0 ==> channels[index].srcID == srcID && channels[index].dstID == dstID
      ensures forall k :: 0 <= k < (if index >= 0 then index else count) ==>
                channels[k].srcID != srcID || channels[k].dstID != dstID
    {
      for i := 0 to count
        invariant forall k :: 0 <= k < i ==> channels[k].srcID != srcID || channels[k].dstID != dstID
      {
        if srcID == channels[i].srcID && dstID == channels[i].dstID {
          return i;
        }
      }
      return -1;
    }
  }

  lemma PrefixEndsHere(cfgs: seq<ChannelCfg>, i: nat, total: int)
    requires Positive(cfgs) && i < |cfgs| && RegionEnd(cfgs, i + 1) > total
    requires i > 0 ==> RegionEnd(cfgs, i) <= total
    ensures forall k {:trigger RegionEnd(cfgs, k)} :: 1 <= k <= |cfgs| ==> (k <= i <==> RegionEnd(cfgs, k) <= total)
  {
    forall k {:trigger RegionEnd(cfgs, k)} | 1 <= k <= |cfgs|
      ensures k <= i <==> RegionEnd(cfgs, k) <= total
    {
      if k < i {
        RegionEndGrows(cfgs, k, i);
      } else if k > i + 1 {
        RegionEndGrows(cfgs, i + 1, k);
      }
    }
  }

  lemma PrefixIsAll(cfgs: seq<ChannelCfg>, total: int)
    requires Positive(cfgs) && RegionEnd(cfgs, |cfgs|) <= total
    ensures forall k {:trigger RegionEnd(cfgs, k)} :: 1 <= k <= |cfgs| ==> RegionEnd(cfgs, k) <= total
  {
    forall k {:trigger RegionEnd(cfgs, k)} | 1 <= k <= |cfgs|
      ensures RegionEnd(cfgs, k) <= total
    {
      if k < |cfgs| {
        RegionEndGrows(cfgs, k, |cfgs|);
      }
    }
  }

  // ----- Regions and rings -----

  /** Kept regions are aligned, behind the header, inside the segment and pairwise disjoint. */
  lemma RegionsAreDisjoint(cfgs: seq<ChannelCfg>, j: nat, k: nat, total: int)
    requires Positive(cfgs) && j < k < |cfgs| && RegionEnd(cfgs, k + 1) <= total
    ensures var a, b := Placed(cfgs, j), Placed(cfgs, k);
            && HeadSize(|cfgs|) <= a.start && a.start % ALIGNMENT == 0 && b.start % ALIGNMENT == 0
            && a.start + a.maxLength <= b.start
            && b.start + b.maxLength <= total
  {
    RegionEndGrows(cfgs, j, k);
  }

  function AlignedSum(cfgs: seq<ChannelCfg>, k: nat): int
    requires Positive(cfgs) && k <= |cfgs|
  {
    if k == 0 then 0 else AlignedSum(cfgs, k - 1) + AlignSize(cfgs[k - 1].maxLength)
  }

  lemma {:induction false} RegionEndIsSum(cfgs: seq<ChannelCfg>, k: nat)
    requires Positive(cfgs) && k <= |cfgs|
    ensures RegionEnd(cfgs, k) == HeadSize(|cfgs|) + 8 + AlignedSum(cfgs, k)
  {
    if k > 0 {
      RegionEndIsSum(cfgs, k - 1);
    }
  }

  /** Admission counts raw sizes, the layout rounded ones behind a rounded header: every admitted
      channel is kept exactly when the rounded sizes leave 8 bytes of the configured size. */
  lemma AllKeptIff(cfgs: seq<ChannelCfg>, configured: int)
    requires Positive(cfgs) && cfgs != [] && 0 <= configured
    ensures (forall k {:trigger RegionEnd(cfgs, k)} :: 1 <= k <= |cfgs| ==> RegionEnd(cfgs, k) <= HeadSize(|cfgs|) + configured)
            <==> AlignedSum(cfgs, |cfgs|) + 8 <= configured
  {
    RegionEndIsSum(cfgs, |cfgs|);
    if AlignedSum(cfgs, |cfgs|) + 8 <= configured {
      PrefixIsAll(cfgs, HeadSize(|cfgs|) + configured);
    }
  }

  /** A configuration that spends its size exactly loses its last admitted channel. */
  lemma ExactBudgetLosesChannel()
    ensures var cfgs := Admitted([Entry(true, ChannelCfg(1, 2, 1024))], 1024);
            |cfgs| == 1 && Positive(cfgs) && RegionEnd(cfgs, 1) > HeadSize(1) + 1024
  {
    var entries := [Entry(true, ChannelCfg(1, 2, 1024))];
    assert entries[..0] == [];
    assert Admitted(entries[..0], 1024) == [];
    assert Admitted(entries, 1024) == [] + [ChannelCfg(1, 2, 1024)];
    RegionEndIsSum(Admitted(entries, 1024), 1);
  }
}
