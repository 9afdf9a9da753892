/** Tariff ladders: the threshold check, the band a shift's mass falls in, and adding a band. */
module PayrollLadder {
  import opened Common

  /** `rates` stands for the two rates of a band; `None` is the open upper threshold. */
  datatype Band<Rates> = Band(maxInclusiveGrams: Option<int>, rates: Rates)

  predicate AllClosedBeforeLast<R>(bands: seq<Band<R>>) {
    bands != [] && bands[|bands| - 1].maxInclusiveGrams.None?
    && forall i | 0 <= i < |bands| - 1 :: bands[i].maxInclusiveGrams.Some?
  }

  /** What a ladder is: one open band, the last one, above closed bands whose thresholds are
      positive and strictly increase. */
  predicate Ladder<R>(bands: seq<Band<R>>) {
    && AllClosedBeforeLast(bands)
    && (forall i | 0 <= i < |bands| - 1 :: bands[i].maxInclusiveGrams.value > 0)
    && (forall i, j | 0 <= i < j < |bands| - 1 :: bands[i].maxInclusiveGrams.value < bands[j].maxInclusiveGrams.value)
  }

  /** `validThresholdSequence`. */
  method ValidThresholdSequence<R>(bands: seq<Band<R>>) returns (valid: bool)
    ensures valid <==> Ladder(bands)
  {
    if |bands| == 0 || bands[|bands| - 1].maxInclusiveGrams.Some? {
      return false;
    }
    var previous := 0;
    for index := 0 to |bands|
      invariant previous >= 0
      invariant forall i | 0 <= i < index ::
                bands[i].maxInclusiveGrams.Some? && 0 < bands[i].maxInclusiveGrams.value <= previous
      invariant index > 0 ==>
                bands[index - 1].maxInclusiveGrams.Some? && previous == bands[index - 1].maxInclusiveGrams.value
      invariant index == 0 ==> previous == 0
      invariant forall i, j | 0 <= i < j < index :: bands[i].maxInclusiveGrams.value < bands[j].maxInclusiveGrams.value
    {
      var threshold := bands[index].maxInclusiveGrams;
      if threshold.None? {
        return index == |bands| - 1;
      }
      if threshold.value <= previous {
        return false;
      }
      previous := threshold.value;
    }
    return true;
  }

  /** The masses a band covers: above the threshold before it, up to its own. */
  predicate Covers<R>(bands: seq<Band<R>>, i: nat, grams: int)
    requires Ladder(bands) && i < |bands|
  {
    && (i > 0 ==> bands[i - 1].maxInclusiveGrams.value < grams)
    && (i < |bands| - 1 ==> grams <= bands[i].maxInclusiveGrams.value)
  }

  predicate Takes<R>(band: Band<R>, grams: int) {
    band.maxInclusiveGrams.None? || grams <= band.maxInclusiveGrams.value
  }

  /** `bands.find`: the index of the first band that takes the mass, or the length. */
  method BandFor<R>(bands: seq<Band<R>>, grams: int) returns (found: nat)
    ensures found <= |bands| && forall i | 0 <= i < found :: !Takes(bands[i], grams)
    ensures found < |bands| ==> Takes(bands[found], grams)
  {
    found := 0;
    while found < |bands| && !Takes(bands[found], grams)
      invariant found <= |bands| && forall i | 0 <= i < found :: !Takes(bands[i], grams)
    {
      found := found + 1;
    }
  }

  lemma OneCover<R>(bands: seq<Band<R>>, i: nat, j: nat, grams: int)
    requires Ladder(bands) && i < j < |bands|
    ensures !(Covers(bands, i, grams) && Covers(bands, j, grams))
  {
    assert i == j - 1 || bands[i].maxInclusiveGrams.value < bands[j - 1].maxInclusiveGrams.value;
  }

  /** On a ladder the first-match lookup always finds a band, and it is the only band that covers
      the mass. */
  lemma FirstMatchIsTheOnlyCover<R>(bands: seq<Band<R>>, grams: int, found: nat)
    requires Ladder(bands)
    requires found <= |bands| && forall i | 0 <= i < found :: !Takes(bands[i], grams)
    requires found < |bands| ==> Takes(bands[found], grams)
    ensures found < |bands| && Covers(bands, found, grams)
    ensures forall i | 0 <= i < |bands| && Covers(bands, i, grams) :: i == found
  {
    assert Takes(bands[|bands| - 1], grams);
    assert Covers(bands, found, grams) by {
      if found > 0 {
        assert !Takes(bands[found - 1], grams);
      }
    }
    forall i | 0 <= i < |bands|
      ensures Covers(bands, i, grams) ==> i == found
    {
      if i < found {
        OneCover(bands, i, found, grams);
      } else if found < i {
        OneCover(bands, found, i, grams);
      }
    }
  }

  /** `insertClosedBand`. */
  function InsertClosedBand<R>(bands: seq<Band<R>>): Outcome<seq<Band<R>>, string> {
    if bands == [] || bands[|bands| - 1].maxInclusiveGrams.Some? then Thrown("open band missing")
    else
      var last := |bands| - 1;
      var open := bands[last];
      var threshold := if last == 0 then 1000 else if bands[last - 1].maxInclusiveGrams.None? then 1000
                       else bands[last - 1].maxInclusiveGrams.value + 1000;
      Returned(bands[..last] + [open.(maxInclusiveGrams := Some(threshold)), open])
  }

  lemma InsertKeepsLadder<R>(bands: seq<Band<R>>)
    requires Ladder(bands)
    ensures var more := InsertClosedBand(bands);
            more.Returned? && Ladder(more.value) && |more.value| == |bands| + 1
            && (forall i | 0 <= i < |bands| - 1 :: more.value[i] == bands[i])
            && more.value[|bands| - 1].maxInclusiveGrams
               == Some((if |bands| == 1 then 0 else bands[|bands| - 2].maxInclusiveGrams.value) + 1000)
            && (forall i | |bands| - 1 <= i < |more.value| :: more.value[i].rates == bands[|bands| - 1].rates)
  {
    var more, last := InsertClosedBand(bands).value, |bands| - 1;
    forall i, j | 0 <= i < j < |more| - 1
      ensures more[i].maxInclusiveGrams.value < more[j].maxInclusiveGrams.value
    {
      if j == last && i < last - 1 {
        assert bands[i].maxInclusiveGrams.value < bands[last - 1].maxInclusiveGrams.value;
      }
    }
  }

  /** Adding a closed band keeps a ladder a ladder, and until its rates are edited every mass is
      still paid at the rates it was paid before. */
  lemma InsertKeepsRates<R>(bands: seq<Band<R>>, grams: int, before: nat, after: nat)
    requires Ladder(bands) && before < |bands| && Covers(bands, before, grams)
    ensures var more := InsertClosedBand(bands);
            more.Returned? && Ladder(more.value)
            && (after < |more.value| && Covers(more.value, after, grams) ==>
               more.value[after].rates == bands[before].rates)
  {
    hide Ladder, InsertClosedBand;
    InsertKeepsLadder(bands);
    var more := InsertClosedBand(bands).value;
    if after < |more| && Covers(more, after, grams) {
      SameBand(bands, more, grams, before, after);
    }
  }

  /** Below the open band of the shorter ladder both ladders cover the mass at the same place. */
  lemma SameBand<R>(bands: seq<Band<R>>, more: seq<Band<R>>, grams: int, before: nat, after: nat)
    requires Ladder(bands) && Ladder(more) && |more| == |bands| + 1
    requires forall i | 0 <= i < |bands| - 1 :: more[i] == bands[i]
    requires before < |bands| && Covers(bands, before, grams) && after < |more| && Covers(more, after, grams)
    ensures before == after || (before == |bands| - 1 && after >= before)
  {
    if after < |bands| - 1 {
      assert Covers(bands, after, grams);
      if after < before {
        OneCover(bands, after, before, grams);
      } else if before < after {
        OneCover(bands, before, after, grams);
      }
    } else if before < |bands| - 1 {
      assert Covers(more, before, grams);
      OneCover(more, before, after, grams);
    }
  }
}
