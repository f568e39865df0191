/** Pooling of the breathing rates measured on the respiratory channels: a
    strict physiological band, a looser fallback band when too few rates fall
    inside it, and an interquartile trim whose bounds come from the numeric
    library. */
module Respiration {
  import opened Base
  import opened Settings

  /** The inclusive band [lo, hi] as a selection test. */
  function InBand(lo: real, hi: real): real -> bool {
    r => lo <= r <= hi
  }

  /** How the pooling ends. */
  datatype RespOutcome =
    | NoSignal                  // no channel produced a rate
    | InvalidRates              // no rate fell in either band
    | Pooled(rates: seq<real>)  // the rates the statistics are taken over

  /** The rates inside the strict band, or inside the fallback band when fewer than
      five are. */
  function BandedRates(best: seq<real>, cfg: Config): (valid: seq<real>) {
    var strict := Filter(best, InBand(RespMinRate, RespMaxRate));
    if |strict| < 5 then Filter(best, InBand(RespFallbackMin, cfg.fallbackBandMax)) else strict
  }

  /** The pooling. `bounds` gives the interquartile limits of a pool; the later
      version trims only pools of more than five rates. A trim that leaves fewer
      than three rates is undone. */
  function PoolRates(best: seq<real>, cfg: Config, bounds: seq<real> -> (real, real)): (r: RespOutcome)
    ensures r.NoSignal? <==> best == []
    ensures r.Pooled? ==> r.rates != []
  {
    if best == [] then NoSignal
    else
      var valid := BandedRates(best, cfg);
      if valid == [] then InvalidRates else Pooled(FinalPool(valid, cfg, bounds))
  }

  /** The interquartile trim; the later version leaves pools of five or fewer alone. */
  function Trim(valid: seq<real>, cfg: Config, bounds: seq<real> -> (real, real)): seq<real> {
    if cfg.trimOnlyAboveFive && |valid| <= 5 then valid
    else Filter(valid, InBand(bounds(valid).0, bounds(valid).1))
  }

  /** The trimmed pool, or the untrimmed one when the trim leaves fewer than three. */
  function FinalPool(valid: seq<real>, cfg: Config, bounds: seq<real> -> (real, real)): seq<real> {
    var trimmed := Trim(valid, cfg, bounds);
    if |trimmed| < 3 then valid else trimmed
  }

  /** The quality word of the class-based version. */
  function SignalQuality(r: RespOutcome): string {
    match r
    case NoSignal => "no_signal"
    case InvalidRates => "invalid_rates"
    case Pooled(rates) => if |rates| >= 10 then "good" else "moderate"
  }

  /** The quality word over the pooling: "no_signal" exactly when no rate was
      measured, "invalid_rates" exactly when none fell in either band, "good"
      exactly when the final pool holds at least ten rates, and "moderate"
      otherwise; a "good" word needs at least ten measured rates inside the fallback band. */
  lemma SignalQualityOfPool(best: seq<real>, cfg: Config, bounds: seq<real> -> (real, real))
    ensures var q := SignalQuality(PoolRates(best, cfg, bounds));
      var valid := BandedRates(best, cfg);
      (q == "no_signal" <==> best == [])
      && (q == "invalid_rates" <==> best != [] && valid == [])
      && (q == "good" <==> best != [] && valid != [] && |FinalPool(valid, cfg, bounds)| >= 10)
      && (q == "moderate" <==> best != [] && valid != [] && |FinalPool(valid, cfg, bounds)| < 10)
      && (q == "good" && cfg.fallbackBandMax >= RespMaxRate ==>
            |Filter(best, InBand(RespFallbackMin, cfg.fallbackBandMax))| >= 10)
  {
    var valid := BandedRates(best, cfg);
    if best != [] && valid != [] && cfg.fallbackBandMax >= RespMaxRate {
      assert |FinalPool(valid, cfg, bounds)| <= |valid|;
      FilterNarrower(best, InBand(RespMinRate, RespMaxRate), InBand(RespFallbackMin, cfg.fallbackBandMax));
    }
  }

  /** A stricter test keeps no more elements than a looser one. */
  lemma {:induction false} FilterNarrower(xs: seq<real>, p: real -> bool, q: real -> bool)
    requires forall v :: p(v) ==> q(v)
    ensures |Filter(xs, p)| <= |Filter(xs, q)|
  {
    if xs != [] {
      FilterNarrower(xs[..|xs| - 1], p, q);
    }
  }

  /** Every pooled rate lies in the fallback band, and in the strict band when at
      least five measured rates did; the pool never holds a value more often than
      the measurements do. */
  lemma PoolBounds(best: seq<real>, cfg: Config, bounds: seq<real> -> (real, real), x: real)
    requires cfg.fallbackBandMax >= RespMaxRate
    ensures var r := PoolRates(best, cfg, bounds);
      r.Pooled? ==>
        (forall k :: 0 <= k < |r.rates| ==> RespFallbackMin <= r.rates[k] <= cfg.fallbackBandMax)
        && (|Filter(best, InBand(RespMinRate, RespMaxRate))| >= 5 ==>
              forall k :: 0 <= k < |r.rates| ==> RespMinRate <= r.rates[k] <= RespMaxRate)
        && multiset(r.rates)[x] <= multiset(best)[x]
  {
    var r := PoolRates(best, cfg, bounds);
    if r.Pooled? {
      var valid := BandedRates(best, cfg);
      ValidInBand(best, cfg, x);
      PoolFromValid(valid, cfg, bounds, x);
      if |Filter(best, InBand(RespMinRate, RespMaxRate))| >= 5 {
        assert forall v :: v in valid ==> RespMinRate <= v <= RespMaxRate;
      }
    }
  }

  /** The banded rates lie in the fallback band and come from the measurements. */
  lemma ValidInBand(best: seq<real>, cfg: Config, x: real)
    requires cfg.fallbackBandMax >= RespMaxRate
    ensures var valid := BandedRates(best, cfg);
      (forall v :: v in valid ==> RespFallbackMin <= v <= cfg.fallbackBandMax)
      && multiset(valid)[x] <= multiset(best)[x]
  {
    var strict := Filter(best, InBand(RespMinRate, RespMaxRate));
    if |strict| < 5 {
      var loose := InBand(RespFallbackMin, cfg.fallbackBandMax);
      FilterPasses(best, loose);
      FilterKeepsExactly(best, loose, x);
    } else {
      FilterPasses(best, InBand(RespMinRate, RespMaxRate));
      FilterKeepsExactly(best, InBand(RespMinRate, RespMaxRate), x);
    }
  }

  /** The pool is the banded rates or a part of them. */
  lemma PoolFromValid(valid: seq<real>, cfg: Config, bounds: seq<real> -> (real, real), x: real)
    ensures var pool := FinalPool(valid, cfg, bounds);
      multiset(pool)[x] <= multiset(valid)[x] && forall k :: 0 <= k < |pool| ==> pool[k] in valid
  {
    var lohi := bounds(valid);
    var f := Filter(valid, InBand(lohi.0, lohi.1));
    FilterKeepsExactly(valid, InBand(lohi.0, lohi.1), x);
    forall k | 0 <= k < |f|
      ensures f[k] in valid
    {
      FilterSelects(valid, InBand(lohi.0, lohi.1), k);
    }
  }

  /** The pool is empty-handed only when nothing fell in either band; a trim never
      leaves fewer than three rates unless the bands gave fewer. */
  lemma PoolOutcomes(best: seq<real>, cfg: Config, bounds: seq<real> -> (real, real))
    ensures var r := PoolRates(best, cfg, bounds);
      (r.InvalidRates? <==> best != [] && BandedRates(best, cfg) == [])
      && (r.Pooled? ==> r.rates == BandedRates(best, cfg) || |r.rates| >= 3)
  {
  }

  /** In the later version a pool of at most five rates is used untrimmed. */
  lemma SmallPoolUntrimmed(best: seq<real>, bounds: seq<real> -> (real, real))
    requires best != [] && BandedRates(best, PsgEdf) != [] && |BandedRates(best, PsgEdf)| <= 5
    ensures PoolRates(best, PsgEdf, bounds) == Pooled(BandedRates(best, PsgEdf))
  {
  }
}
