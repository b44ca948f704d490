/**
  Synthesis of a point's sensor readings from the fitted polynomials
  (the naming and rounding part of `TrackPoint.add_extensions`).
 */
module Channels {
  import opened Rounding
  import opened Polynomial

  /** The namespace prefix every synthesised channel tag carries. */
  const Namespace: string := "ns3:"

  /** The one channel written with a decimal place (temperature). */
  const Temperature: string := "atemp"

  /** A fitted polynomial for one channel, coefficients highest degree first. */
  datatype Fit = Fit(name: string, coeffs: seq<real>)

  /** A rounded reading: `int(round(v))` for most channels, `round(v, 1)`
      for temperature. */
  datatype Rounded = Whole(n: int) | OneDecimal(v: real)

  /** One synthesised channel tag and its value. */
  datatype Reading = Reading(name: string, value: Rounded)

  /** The first four characters are the namespace prefix. */
  predicate HasNamespace(name: string)
  {
    |name| >= |Namespace| && name[..|Namespace|] == Namespace
  }

  /** The tag name written: the name with the namespace prefix forced. */
  function Qualify(name: string): (q: string)
    ensures HasNamespace(q)
    ensures HasNamespace(name) ==> q == name
    ensures !HasNamespace(name) ==> q[|Namespace|..] == name
  {
    if HasNamespace(name) then name else Namespace + name
  }

  /** Prefixing twice is prefixing once. */
  lemma QualifyIdempotent(name: string)
    ensures Qualify(Qualify(name)) == Qualify(name)
  {
  }

  /** A qualified name denotes temperature when its local part is `atemp`. */
  predicate IsTemperature(qualified: string)
    requires HasNamespace(qualified)
  {
    qualified[|Namespace|..] == Temperature
  }

  /** Exactly the channels called `atemp` or `ns3:atemp` are rounded to one
      decimal place. */
  lemma TemperatureNames(name: string)
    ensures IsTemperature(Qualify(name)) <==> name == Temperature || name == Namespace + Temperature
  {
    if name == Namespace + Temperature {
      assert HasNamespace(name);
    }
  }

  /** The rounding the channel's tag name calls for. */
  function RoundFor(qualified: string, v: real): (r: Rounded)
    requires HasNamespace(qualified)
    ensures r.OneDecimal? <==> IsTemperature(qualified)
    ensures r.Whole? ==> Abs(r.n as real - v) <= 0.5
    ensures r.OneDecimal? ==> Abs(r.v - v) <= 0.05 && IsWhole(r.v * 10.0)
    ensures r.Whole? && Abs(r.n as real - v) == 0.5 ==> r.n % 2 == 0
    ensures r.OneDecimal? && Abs(r.v - v) == 0.05 ==> (r.v * 10.0).Floor % 2 == 0
  {
    if IsTemperature(qualified) then OneDecimal(RoundTenths(v)) else Whole(RoundHalfEven(v))
  }

  /** The reading of one fitted channel at distance fraction `nd`. */
  function Synthesize(fit: Fit, nd: real): (r: Reading)
    ensures HasNamespace(r.name)
    ensures r.name == Qualify(fit.name)
    ensures r.value.OneDecimal? <==> fit.name == Temperature || fit.name == Namespace + Temperature
    ensures r.value.Whole? ==> Abs(r.value.n as real - Polyval(fit.coeffs, nd)) <= 0.5
    ensures r.value.OneDecimal? ==> Abs(r.value.v - Polyval(fit.coeffs, nd)) <= 0.05 && IsWhole(r.value.v * 10.0)
    ensures r.value.Whole? && Abs(r.value.n as real - Polyval(fit.coeffs, nd)) == 0.5 ==> r.value.n % 2 == 0
    ensures r.value.OneDecimal? && Abs(r.value.v - Polyval(fit.coeffs, nd)) == 0.05 ==> (r.value.v * 10.0).Floor % 2 == 0
  {
    TemperatureNames(fit.name);
    var name := Qualify(fit.name);
    Reading(name, RoundFor(name, Polyval(fit.coeffs, nd)))
  }

  /** `add_extensions` on one point: one reading per fitted channel, in the
      order of the fits, evaluated at the point's distance fraction. */
  function AddExtensions(nd: real, fits: seq<Fit>): (r: seq<Reading>)
    ensures |r| == |fits|
    ensures forall i :: 0 <= i < |r| ==> r[i] == Synthesize(fits[i], nd)
  {
    if |fits| == 0 then [] else [Synthesize(fits[0], nd)] + AddExtensions(nd, fits[1..])
  }
}
