/** SpikeHistogramPlot: one electrode's plot, with a waveform view per
    channel and a range button under each that cycles that channel's
    voltage range through 250, 500 and 100 microvolts. */
module HistogramPlot {
  import opened Waveform
  import SpikeRing

  /** The ranges a button can show. */
  predicate IsRange(r: real) { r == 100.0 || r == 250.0 || r == 500.0 }

  /** initAxes: every channel starts at 250 microvolts. */
  const DefaultRange: real := 250.0

  /** One press of a range button on a channel whose range is `r`. A value
      outside the cycle is left as it is. */
  function NextRange(r: real): (r': real)
    ensures IsRange(r) ==> IsRange(r') && r' != r
    ensures !IsRange(r) ==> r' == r
  {
    if r == 250.0 then 500.0
    else if r == 500.0 then 100.0
    else if r == 100.0 then 250.0
    else r
  }

  /** The text the button shows for a range in the cycle. */
  function RangeText(r: real): string
  {
    if r == 100.0 then "100" else if r == 250.0 then "250" else if r == 500.0 then "500" else ""
  }

  /** A press of button `index` on the whole list of ranges: that channel
      advances, the others keep their ranges, and an index that names no
      button changes nothing. */
  function Click(ranges: seq<real>, index: int): (rs: seq<real>)
    ensures |rs| == |ranges|
    ensures forall j :: 0 <= j < |ranges| && j != index ==> rs[j] == ranges[j]
    ensures 0 <= index < |ranges| ==> rs[index] == NextRange(ranges[index])
  {
    if 0 <= index < |ranges| then ranges[index := NextRange(ranges[index])] else ranges
  }

  /** Presses in order: ranges in the cycle stay in it, and a channel whose
      button is never pressed keeps its range. */
  function Clicks(ranges: seq<real>, presses: seq<int>): (rs: seq<real>)
    ensures |rs| == |ranges|
    ensures (forall j :: 0 <= j < |ranges| ==> IsRange(ranges[j])) ==>
      forall j :: 0 <= j < |rs| ==> IsRange(rs[j])
    ensures forall j :: 0 <= j < |ranges| && j !in presses ==> rs[j] == ranges[j]
    decreases |presses|
  {
    if presses == [] then ranges else Clicks(Click(ranges, presses[0]), presses[1..])
  }

  /** The cycle moves every range in it to a different range in it. */
  lemma NextRangeCycles(r: real)
    requires IsRange(r)
    ensures IsRange(NextRange(r)) && NextRange(r) != r
  {
  }

  /** Three presses of the same button bring its channel back where it started. */
  lemma ThreeClicksReturn(ranges: seq<real>, index: int)
    ensures Click(Click(Click(ranges, index), index), index) == ranges
  {
  }

  /** Starting from the defaults, whatever buttons are pressed, every
      channel's range stays in the cycle. */
  lemma {:induction false} ClicksStayInRange(ranges: seq<real>, presses: seq<int>)
    requires forall j :: 0 <= j < |ranges| ==> IsRange(ranges[j])
    ensures var rs := Clicks(ranges, presses);
      forall j :: 0 <= j < |rs| ==> IsRange(rs[j])
    decreases |presses|
  {
    if presses != [] {
      var next := Click(ranges, presses[0]);
      forall j | 0 <= j < |next|
        ensures IsRange(next[j])
      {
        if j == presses[0] {
          NextRangeCycles(ranges[j]);
        }
      }
      ClicksStayInRange(next, presses[1..]);
      assert Clicks(ranges, presses) == Clicks(next, presses[1..]);
    }
  }

  /** Presses on other buttons never change a channel's range. */
  lemma {:induction false} ClicksOnOthers(ranges: seq<real>, presses: seq<int>, j: int)
    requires 0 <= j < |ranges|
    requires forall p :: 0 <= p < |presses| ==> presses[p] != j
    ensures Clicks(ranges, presses)[j] == ranges[j]
    decreases |presses|
  {
    if presses != [] {
      ClicksOnOthers(Click(ranges, presses[0]), presses[1..], j);
    }
  }

  class SpikeHistogramPlot {
    var ranges: seq<real>
    var wAxes: seq<WaveformAxes>

    ghost predicate Valid()
      reads this, set a | a in wAxes, set a | a in wAxes :: a.spikeBuffer
    {
      && |wAxes| == |ranges|
      && (forall i, j :: 0 <= i < j < |wAxes| ==> wAxes[i] != wAxes[j])
      && (forall i, j :: 0 <= i < j < |wAxes| ==> wAxes[i].spikeBuffer != wAxes[j].spikeBuffer)
      && (forall i :: 0 <= i < |wAxes| ==> wAxes[i].Valid())
      && (forall i :: 0 <= i < |ranges| ==> IsRange(ranges[i]))
    }

    /** Every waveform view shows its channel's range. */
    ghost predicate Synced()
      reads this, set a | a in wAxes
    {
      |wAxes| == |ranges| && forall i :: 0 <= i < |wAxes| ==> wAxes[i].range == ranges[i]
    }

    /** initAxes: one waveform view per channel, each given its detector
        threshold and the default range, then the ranges pushed to the views. */
    constructor (thresholds: seq<real>, width: int, height: int)
      requires width > 0 && height > 0
      ensures Valid() && Synced()
      ensures forall i :: 0 <= i < |wAxes| ==> fresh(wAxes[i]) && fresh(wAxes[i].spikeBuffer)
      ensures ranges == seq(|thresholds|, _ => DefaultRange)
      ensures forall i :: 0 <= i < |wAxes| ==> wAxes[i].displayThresholdLevel == thresholds[i]
    {
      var made: seq<WaveformAxes> := [];
      var rs: seq<real> := [];
      var i := 0;
      while i < |thresholds|
        invariant 0 <= i <= |thresholds|
        invariant |made| == |rs| == i
        invariant forall j :: 0 <= j < i ==> fresh(made[j]) && fresh(made[j].spikeBuffer)
        invariant forall j, k :: 0 <= j < k < i ==> made[j] != made[k]
        invariant forall j, k :: 0 <= j < k < i ==> made[j].spikeBuffer != made[k].spikeBuffer
        invariant forall j :: 0 <= j < i ==> made[j].Valid() && made[j].displayThresholdLevel == thresholds[j]
        invariant forall j :: 0 <= j < i ==> rs[j] == DefaultRange && made[j].range == DefaultRange
      {
        var w := new WaveformAxes(width, height);
        w.SetDetectorThreshold(thresholds[i]);
        made := made + [w];
        rs := rs + [DefaultRange];
        i := i + 1;
      }
      ranges := rs;
      wAxes := made;
      new;
      SetLimitsOnAxes();
    }

    /** setLimitsOnAxes: hand each channel's range to its waveform view. */
    method SetLimitsOnAxes()
      requires Valid()
      modifies (set a | a in wAxes)`range
      ensures Valid() && Synced()
      ensures forall i :: 0 <= i < |wAxes| ==>
        wAxes[i].Buffer() == old(wAxes[i].Buffer()) && wAxes[i].units == old(wAxes[i].units)
        && wAxes[i].displayThresholdLevel == old(wAxes[i].displayThresholdLevel)
    {
      var i := 0;
      while i < |wAxes|
        invariant 0 <= i <= |wAxes|
        invariant Valid()
        invariant forall j :: 0 <= j < i ==> wAxes[j].range == ranges[j]
        invariant forall j :: 0 <= j < |wAxes| ==>
          wAxes[j].Buffer() == old(wAxes[j].Buffer()) && wAxes[j].units == old(wAxes[j].units)
          && wAxes[j].displayThresholdLevel == old(wAxes[j].displayThresholdLevel)
      {
        wAxes[i].SetRange(ranges[i]);
        i := i + 1;
      }
    }

    /** buttonClicked: the pressed button's channel moves one step along the
        cycle, the button is relabelled with the new range, and the ranges
        are pushed to the views. A button that is not in the list changes no
        range and gets an empty label. */
    method ButtonClicked(index: int) returns (text: string)
      requires Valid()
      modifies this`ranges, (set a | a in wAxes)`range
      ensures Valid() && Synced()
      ensures ranges == Click(old(ranges), index)
      ensures 0 <= index < |ranges| ==> text == RangeText(ranges[index])
      ensures !(0 <= index < |ranges|) ==> text == ""
    {
      text := "";
      if 0 <= index < |ranges| {
        if ranges[index] == 250.0 {
          ranges := ranges[index := 500.0];
          text := "500";
        } else if ranges[index] == 500.0 {
          ranges := ranges[index := 100.0];
          text := "100";
        } else if ranges[index] == 100.0 {
          ranges := ranges[index := 250.0];
          text := "250";
        }
      }
      SetLimitsOnAxes();
    }

    /** processSpikeObject: every channel's waveform view takes the spike.
        Each view owns its own buffer, so each buffer takes it exactly once. */
    method ProcessSpikeObject(s: SpikeRing.Spike)
      requires Valid()
      modifies set a | a in wAxes :: a.spikeBuffer
      modifies (set a | a in wAxes)`spikeIndex, (set a | a in wAxes)`spikesReceivedSinceLastRedraw
      modifies (set a | a in wAxes)`gotFirstSpike
      ensures Valid()
      ensures forall i :: 0 <= i < |wAxes| ==> wAxes[i].Buffer() == SpikeRing.Push(old(wAxes[i].Buffer()), s)
    {
      var i := 0;
      while i < |wAxes|
        invariant 0 <= i <= |wAxes|
        invariant Valid()
        invariant forall j :: 0 <= j < i ==> wAxes[j].Buffer() == SpikeRing.Push(old(wAxes[j].Buffer()), s)
        invariant forall j :: i <= j < |wAxes| ==> wAxes[j].Buffer() == old(wAxes[j].Buffer())
      {
        var _ := wAxes[i].UpdateSpikeData(s);
        i := i + 1;
      }
    }

    /** clear: every channel's waveform view empties its buffer. */
    method Clear()
      requires Valid()
      modifies set a | a in wAxes :: a.spikeBuffer
      modifies (set a | a in wAxes)`spikeIndex
      ensures Valid()
      ensures forall i :: 0 <= i < |wAxes| ==> wAxes[i].Buffer() == SpikeRing.Clear(old(wAxes[i].Buffer()))
    {
      var i := 0;
      while i < |wAxes|
        invariant 0 <= i <= |wAxes|
        invariant Valid()
        invariant forall j :: 0 <= j < i ==> wAxes[j].Buffer() == SpikeRing.Clear(old(wAxes[j].Buffer()))
        invariant forall j :: i <= j < |wAxes| ==> wAxes[j].Buffer() == old(wAxes[j].Buffer())
      {
        wAxes[i].Clear();
        i := i + 1;
      }
    }

    /** setDisplayThresholdForChannel: channel i's view shows threshold t; a
        channel number past the last view changes nothing. */
    method SetDisplayThresholdForChannel(i: int, t: real)
      requires Valid()
      modifies (set a | a in wAxes)`displayThresholdLevel
      ensures Valid()
      ensures 0 <= i < |wAxes| ==> wAxes[i].displayThresholdLevel == t
      ensures forall j :: 0 <= j < |wAxes| && j != i ==>
        wAxes[j].displayThresholdLevel == old(wAxes[j].displayThresholdLevel)
    {
      if 0 <= i < |wAxes| {
        wAxes[i].SetDetectorThreshold(t);
      }
    }
  }
}
