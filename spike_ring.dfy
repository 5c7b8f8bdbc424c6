/** The waveform view's buffer of recent spikes, as a value: five slots, the
    slot last written, and the number of spikes accepted since the last
    redraw. WaveformAxes (module Waveform) keeps the same state in an array
    and is proved to follow these functions step by step. */
module SpikeRing {

  /** WaveformAxes::bufferSize. */
  const BufferSize: nat := 5

  /** A captured spike. Its contents are opaque to the buffer. */
  datatype Spike = Spike(nChannels: int, data: seq<int>, gain: seq<int>, pcProj: seq<real>, color: seq<int>)

  /** Stands for the spike that generateEmptySpike(&so, 4) produces; that
      function is not part of this model, so only its channel count is kept. */
  const EmptySpike: Spike := Spike(4, [], [], [0.0, 0.0], [0, 0, 0])

  /** spikeBuffer, spikeIndex, spikesReceivedSinceLastRedraw and gotFirstSpike. */
  datatype Ring = Ring(slots: seq<Spike>, index: int, received: int, gotFirstSpike: bool)

  predicate Valid(r: Ring)
  {
    && |r.slots| == BufferSize
    && 0 <= r.index < BufferSize
    && 0 <= r.received <= BufferSize
    && (!r.gotFirstSpike ==> r.received == 0)
  }

  /** The state the WaveformAxes constructor builds. */
  function Initial(): (r: Ring)
    ensures Valid(r) && r.index == 0 && r.received == 0 && !r.gotFirstSpike
    ensures forall q :: 0 <= q < BufferSize ==> r.slots[q] == EmptySpike
  {
    Ring(seq(BufferSize, _ => EmptySpike), 0, 0, false)
  }

  /** The slot the (j+1)-th accepted spike after `index` goes to. */
  function SlotAfter(index: nat, j: nat): nat
  {
    (index + 1 + j) % BufferSize
  }

  /** WaveformAxes::updateSpikeData: while fewer than BufferSize spikes have
      arrived since the last redraw, write the spike into the next slot;
      otherwise drop it. */
  function Push(r: Ring, s: Spike): (r': Ring)
    requires Valid(r)
    ensures Valid(r') && r'.gotFirstSpike
    ensures r.received < BufferSize ==>
      && r'.index == SlotAfter(r.index, 0)
      && r'.slots == r.slots[r'.index := s]
      && r'.received == r.received + 1
    ensures r.received == BufferSize ==> r' == r
  {
    if r.received < BufferSize then
      var i := (r.index + 1) % BufferSize;
      Ring(r.slots[i := s], i, r.received + 1, true)
    else
      r.(gotFirstSpike := true)
  }

  /** WaveformAxes::clear: every slot back to the empty spike and the index
      back to 0. The received counter and gotFirstSpike are left alone. */
  function Clear(r: Ring): (r': Ring)
    requires Valid(r)
    ensures Valid(r') && r'.index == 0
    ensures r'.received == r.received && r'.gotFirstSpike == r.gotFirstSpike
    ensures forall q :: 0 <= q < BufferSize ==> r'.slots[q] == EmptySpike
  {
    r.(slots := seq(BufferSize, _ => EmptySpike), index := 0)
  }

  /** The state effect of WaveformAxes::paint: once a spike has ever arrived,
      painting resets the received counter, which reopens the buffer. */
  function Redraw(r: Ring): (r': Ring)
    requires Valid(r)
    ensures Valid(r') && r'.received == 0
    ensures r'.slots == r.slots && r'.index == r.index && r'.gotFirstSpike == r.gotFirstSpike
  {
    if r.gotFirstSpike then r.(received := 0) else r
  }

  /** Spikes arriving one after another with no redraw in between. */
  function PushAll(r: Ring, ss: seq<Spike>): (r': Ring)
    requires Valid(r)
    ensures Valid(r')
    ensures r'.received == Min(r.received + |ss|, BufferSize)
    ensures r'.gotFirstSpike == (r.gotFirstSpike || ss != [])
    decreases |ss|
  {
    if ss == [] then r else PushAll(Push(r, ss[0]), ss[1..])
  }

  function Min(a: int, b: int): int { if a <= b then a else b }

  lemma SlotShift(index: nat, j: nat)
    requires index < BufferSize
    ensures SlotAfter(SlotAfter(index, 0), j) == SlotAfter(index, j + 1)
  {
  }

  lemma SlotsDistinct(index: nat, j: nat, k: nat)
    requires j < k < BufferSize
    ensures SlotAfter(index, j) != SlotAfter(index, k)
  {
  }

  /** What PushAll does to a valid ring: the first n spikes are written, in
      order, into the slots following `index`; the other slots are kept. */
  ghost predicate PushedInto(r: Ring, ss: seq<Spike>, n: nat, r': Ring)
    requires Valid(r) && Valid(r') && n <= |ss|
  {
    && r'.received == r.received + n
    && r'.index == (r.index + n) % BufferSize
    && (forall j :: 0 <= j < n ==> r'.slots[SlotAfter(r.index, j)] == ss[j])
    && (forall j :: n <= j < BufferSize ==> r'.slots[SlotAfter(r.index, j)] == r.slots[SlotAfter(r.index, j)])
  }

  /** One accepted spike followed by the rest: the induction step of PushAllEffect. */
  lemma PushedIntoStep(r: Ring, ss: seq<Spike>, n: nat, r': Ring)
    requires Valid(r) && Valid(r') && 1 <= n <= |ss| && r.received < BufferSize
    requires n <= BufferSize - r.received
    requires PushedInto(Push(r, ss[0]), ss[1..], n - 1, r')
    ensures PushedInto(r, ss, n, r')
  {
    var r1 := Push(r, ss[0]);
    var i1 := r1.index;
    assert r'.index == (r.index + n) % BufferSize;
    forall j | 0 <= j < n
      ensures r'.slots[SlotAfter(r.index, j)] == ss[j]
    {
      if j == 0 {
        SlotShift(r.index, BufferSize - 1);
        if n - 1 <= BufferSize - 1 {
          assert r'.slots[SlotAfter(i1, BufferSize - 1)] == r1.slots[SlotAfter(i1, BufferSize - 1)];
        }
      } else {
        SlotShift(r.index, j - 1);
        assert ss[1..][j - 1] == ss[j];
      }
    }
    forall j | n <= j < BufferSize
      ensures r'.slots[SlotAfter(r.index, j)] == r.slots[SlotAfter(r.index, j)]
    {
      SlotShift(r.index, j - 1);
      SlotsDistinct(r.index, 0, j);
    }
  }

  /** Without a redraw, only the first BufferSize - received spikes are kept:
      the (j+1)-th of them lands in slot SlotAfter(index, j), every later spike
      is dropped, and the slots nobody wrote keep their old spikes. */
  lemma {:induction false} PushAllEffect(r: Ring, ss: seq<Spike>)
    requires Valid(r)
    ensures var n := Min(|ss|, BufferSize - r.received);
      var r' := PushAll(r, ss);
      && r'.received == r.received + n
      && r'.index == (r.index + n) % BufferSize
      && (forall j :: 0 <= j < n ==> r'.slots[SlotAfter(r.index, j)] == ss[j])
      && (forall j :: n <= j < BufferSize ==> r'.slots[SlotAfter(r.index, j)] == r.slots[SlotAfter(r.index, j)])
    decreases |ss|
  {
    var n := Min(|ss|, BufferSize - r.received);
    var r' := PushAll(r, ss);
    if ss == [] {
    } else if r.received == BufferSize {
      assert Push(r, ss[0]) == r;
      PushAllEffect(r, ss[1..]);
    } else {
      var r1 := Push(r, ss[0]);
      PushAllEffect(r1, ss[1..]);
      assert r' == PushAll(r1, ss[1..]);
      assert Min(|ss[1..]|, BufferSize - r1.received) == n - 1;
      assert PushedInto(r1, ss[1..], n - 1, r');
      PushedIntoStep(r, ss, n, r');
    }
  }

  /** Saturation drops the surplus: pushing a long run is the same as pushing
      only the spikes that still fit. */
  lemma {:induction false} PushAllDropsOverflow(r: Ring, ss: seq<Spike>)
    requires Valid(r)
    ensures PushAll(r, ss) == PushAll(r, ss[..Min(|ss|, BufferSize - r.received)])
    decreases |ss|
  {
    var n := Min(|ss|, BufferSize - r.received);
    if ss == [] {
    } else if r.received == BufferSize {
      assert Push(r, ss[0]) == r;
      PushAllDropsOverflow(r, ss[1..]);
      assert ss[..n] == [];
      calc {
        PushAll(r, ss);
        PushAll(r, ss[1..]);
        { assert ss[1..][..0] == []; }
        r;
      }
    } else {
      var r1 := Push(r, ss[0]);
      PushAllDropsOverflow(r1, ss[1..]);
      assert ss[..n][0] == ss[0];
      assert ss[..n][1..] == ss[1..][..n - 1];
    }
  }

  /** After a redraw, the next BufferSize spikes all land, one per slot. */
  lemma RedrawReopens(r: Ring, ss: seq<Spike>)
    requires Valid(r) && r.gotFirstSpike && |ss| == BufferSize
    ensures var r' := PushAll(Redraw(r), ss);
      && r'.received == BufferSize
      && forall j :: 0 <= j < BufferSize ==> r'.slots[SlotAfter(r.index, j)] == ss[j]
  {
    PushAllEffect(Redraw(r), ss);
  }
}
