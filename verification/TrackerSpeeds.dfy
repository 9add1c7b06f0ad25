/**
 The speeds of a snapshot, in terms of the samples and numbers alone. Samples are in kilometres per hour,
 or in the game's units per second when any of them is above 150; a kilometre per hour is 0.036 of those.
 */
module TrackerSpeeds {
  import opened Options
  import opened TrackerSpec

  ghost predicate InUnits(samples: seq<SpeedSample>) {
    exists i | 0 <= i < |samples| :: samples[i].raw > 150.0
  }

  function Kilometres(raw: real, units: bool): real {
    if units then raw * 0.036 else raw
  }

  /** Said to be, or else at 2200 units or 79.2 kilometres per hour. */
  predicate IsSupersonic(s: SpeedSample, units: bool) {
    s.supersonic == Some(true) || (s.supersonic == None && s.raw >= if units then 2200.0 else 79.2)
  }

  /** At 1400 units or 50.4 kilometres per hour. */
  predicate IsFast(s: SpeedSample, units: bool) {
    !IsSupersonic(s, units) && s.raw >= if units then 1400.0 else 50.4
  }

  /** The seconds of the samples in each of the three bands. */
  function SupersonicSeconds(samples: seq<SpeedSample>, units: bool): real {
    if samples == [] then 0.0
    else SupersonicSeconds(samples[..|samples| - 1], units)
         + (if IsSupersonic(samples[|samples| - 1], units) then samples[|samples| - 1].seconds else 0.0)
  }

  function FastSeconds(samples: seq<SpeedSample>, units: bool): real {
    if samples == [] then 0.0
    else FastSeconds(samples[..|samples| - 1], units)
         + (if IsFast(samples[|samples| - 1], units) then samples[|samples| - 1].seconds else 0.0)
  }

  function SlowSeconds(samples: seq<SpeedSample>, units: bool): real {
    if samples == [] then 0.0
    else
      var s := samples[|samples| - 1];
      SlowSeconds(samples[..|samples| - 1], units)
      + (if !IsSupersonic(s, units) && !IsFast(s, units) then s.seconds else 0.0)
  }

  /** The distance in the game's units. */
  function Driven(samples: seq<SpeedSample>, units: bool): real {
    if samples == [] then 0.0
    else
      var s := samples[|samples| - 1];
      Driven(samples[..|samples| - 1], units) + (if units then s.raw else s.raw / 0.036) * s.seconds
  }

  lemma BandMeans(s: SpeedSample, units: bool)
    ensures BandOf(s, units) == Supersonic <==> IsSupersonic(s, units)
    ensures BandOf(s, units) == BoostSpeed <==> IsFast(s, units)
  {}

  lemma {:induction false} BandsMean(samples: seq<SpeedSample>, units: bool)
    ensures BandSeconds(samples, units, Supersonic) == SupersonicSeconds(samples, units)
    ensures BandSeconds(samples, units, BoostSpeed) == FastSeconds(samples, units)
    ensures BandSeconds(samples, units, Slow) == SlowSeconds(samples, units)
  {
    hide BandOf, IsSupersonic, IsFast;
    if samples != [] {
      BandsMean(samples[..|samples| - 1], units);
      BandMeans(samples[|samples| - 1], units);
    }
  }

  lemma UnitsOfSpeed(raw: real, units: bool)
    ensures Kph(raw, units) == Kilometres(raw, units)
    ensures Kph(raw, units) / UU_TO_KPH == if units then raw else raw / 0.036
  {}

  lemma {:induction false} DistanceMeans(samples: seq<SpeedSample>, units: bool)
    ensures Distance(samples, units) == Driven(samples, units)
  {
    hide Kph;
    if samples != [] {
      DistanceMeans(samples[..|samples| - 1], units);
      UnitsOfSpeed(samples[|samples| - 1].raw, units);
    }
  }

  /** The largest of the raw speeds, 0 when none is positive. */
  ghost predicate IsTop(samples: seq<SpeedSample>, v: real) {
    && v >= 0.0 && (forall i | 0 <= i < |samples| :: samples[i].raw <= v)
    && (v > 0.0 ==> exists i | 0 <= i < |samples| :: samples[i].raw == v)
  }

  lemma {:induction false} RawMaxIsTop(samples: seq<SpeedSample>)
    ensures IsTop(samples, RawMax(samples))
  {
    if samples != [] {
      var init, s := samples[..|samples| - 1], samples[|samples| - 1];
      RawMaxIsTop(init);
      assert forall i | 0 <= i < |init| :: samples[i] == init[i];
      if RawMax(init) >= s.raw && RawMax(init) > 0.0 {
        var i :| 0 <= i < |init| && init[i].raw == RawMax(init);
        assert samples[i].raw == RawMax(init);
      }
    }
  }

  /** The distance, the top speed and the seconds in each band of a car's samples. */
  lemma SpeedsMean(samples: seq<SpeedSample>)
    ensures var r, units := SpeedsOf(samples), InUnits(samples);
      && r.distance == Driven(samples, units)
      && r.supersonic == SupersonicSeconds(samples, units) && r.boostSpeed == FastSeconds(samples, units)
      && r.slow == SlowSeconds(samples, units)
      && (exists top :: IsTop(samples, top) && r.maxSpeed == Kilometres(top, units))
  {
    hide Driven, SupersonicSeconds, FastSeconds, SlowSeconds, BandSeconds, Distance, RawMax, Kph;
    var top := RawMax(samples);
    RawMaxIsTop(samples);
    var units := top > 150.0;
    assert units <==> InUnits(samples);
    DistanceMeans(samples, units);
    BandsMean(samples, units);
    UnitsOfSpeed(top, units);
  }
}
