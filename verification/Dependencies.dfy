/** Which curves a swap's price depends on, and where they come from. */
module Dependencies {
  import opened Wrappers
  import opened Sequences

  type RateIndex = string
  type CurveId = string
  // A built curve; its nodes are never looked at here.
  type MarketCurve = string

  datatype RateSpecification = FixedRate(rate: real) | FloatingRate(index: RateIndex, spread: real)

  /** The rate specifications of a swap's payouts, in order. */
  type Payouts = seq<RateSpecification>

  datatype ProjectionCurveConfiguration = ProjectionCurveConfiguration(index: RateIndex, curveId: CurveId)

  datatype MarketConfiguration = MarketConfiguration(
    discountCurveId: CurveId, projectionCurves: seq<ProjectionCurveConfiguration>)

  datatype ProjectionCurve = ProjectionCurve(index: RateIndex, curve: MarketCurve)

  datatype PricingDependencies = PricingDependencies(discountCurve: MarketCurve, projectionCurves: seq<ProjectionCurve>)

  datatype DependencyError =
    | DuplicateIndices
    | CurveNotFound(id: CurveId)
    | ProjectionCurveNotConfigured(index: RateIndex)
    | ProjectionCurveNotResolved(index: RateIndex)

  // ----- The configuration -----

  function Indices(curves: seq<ProjectionCurveConfiguration>): seq<RateIndex> {
    seq(|curves|, i requires 0 <= i < |curves| => curves[i].index)
  }

  function NewMarketConfiguration(discountCurveId: CurveId, curves: seq<ProjectionCurveConfiguration>)
    : Result<MarketConfiguration, DependencyError>
  {
    if |Indices(curves)| != |SetOf(Indices(curves))| then Failure(DuplicateIndices)
    else Success(MarketConfiguration(discountCurveId, curves))
  }

  lemma {:induction false} RepetitionShrinksSet(xs: seq<RateIndex>)
    requires !Distinct(xs)
    ensures |SetOf(xs)| < |xs|
  {
    var init, last := xs[..|xs| - 1], xs[|xs| - 1];
    assert xs == init + [last];
    assert SetOf(xs) == SetOf(init) + {last};
    if Distinct(init) {
      DistinctCount(init);
      assert last in SetOf(init);
      assert SetOf(xs) == SetOf(init);
    } else {
      RepetitionShrinksSet(init);
    }
  }

  /** A configuration is accepted exactly when no index occurs twice. */
  lemma AcceptedExactlyWhenUnique(discountCurveId: CurveId, curves: seq<ProjectionCurveConfiguration>)
    ensures NewMarketConfiguration(discountCurveId, curves) ==
      if forall i, j :: 0 <= i < j < |curves| ==> curves[i].index != curves[j].index
      then Success(MarketConfiguration(discountCurveId, curves)) else Failure(DuplicateIndices)
  {
    assert forall i :: 0 <= i < |curves| ==> Indices(curves)[i] == curves[i].index;
    if Distinct(Indices(curves)) {
      DistinctCount(Indices(curves));
    } else {
      RepetitionShrinksSet(Indices(curves));
    }
  }

  /** The first entry for the index. */
  function ConfiguredCurve(curves: seq<ProjectionCurveConfiguration>, index: RateIndex)
    : Result<CurveId, DependencyError>
  {
    if curves == [] then Failure(ProjectionCurveNotConfigured(index))
    else if curves[0].index == index then Success(curves[0].curveId)
    else ConfiguredCurve(curves[1..], index)
  }

  /** In an accepted configuration an entry's index finds that very entry, wherever it stands. */
  lemma {:induction false} EveryEntryIsFound(curves: seq<ProjectionCurveConfiguration>, i: nat)
    requires Distinct(Indices(curves)) && i < |curves|
    ensures ConfiguredCurve(curves, curves[i].index) == Success(curves[i].curveId)
  {
    if i != 0 {
      assert Indices(curves)[0] != Indices(curves)[i];
      assert forall j :: 0 <= j < |curves| - 1 ==> Indices(curves[1..])[j] == Indices(curves)[j + 1];
      EveryEntryIsFound(curves[1..], i - 1);
    }
  }

  lemma {:induction false} FoundIsConfigured(curves: seq<ProjectionCurveConfiguration>, index: RateIndex)
    ensures ConfiguredCurve(curves, index).Success? <==> index in Indices(curves)
    ensures ConfiguredCurve(curves, index).Failure? ==>
      ConfiguredCurve(curves, index) == Failure(ProjectionCurveNotConfigured(index))
  {
    if curves != [] {
      FoundIsConfigured(curves[1..], index);
      assert Indices(curves) == [curves[0].index] + Indices(curves[1..]);
    }
  }

  // ----- The floating rate indices of a swap -----

  /** Every floating rate index, once, where it occurs first. */
  function Collected(payouts: Payouts): seq<RateIndex> {
    if payouts == [] then []
    else
      var before := Collected(payouts[..|payouts| - 1]);
      match payouts[|payouts| - 1]
      case FixedRate(_) => before
      case FloatingRate(index, _) => if index in before then before else before + [index]
  }

  method CollectFloatingRateIndices(payouts: Payouts) returns (indices: seq<RateIndex>)
    ensures indices == Collected(payouts)
  {
    indices := [];
    for i := 0 to |payouts|
      invariant indices == Collected(payouts[..i])
    {
      assert payouts[..i + 1][..i] == payouts[..i];
      if payouts[i].FloatingRate? {
        var index := payouts[i].index;
        if index !in indices {
          indices := indices + [index];
        }
      }
    }
    assert payouts[..|payouts|] == payouts;
  }

  predicate IsFloating(payouts: Payouts, index: RateIndex) {
    exists i :: 0 <= i < |payouts| && payouts[i].FloatingRate? && payouts[i].index == index
  }

  /** Where the index occurs first; the number of payouts if it does not. */
  function FirstUse(payouts: Payouts, index: RateIndex): nat {
    if payouts == [] || (payouts[0].FloatingRate? && payouts[0].index == index) then 0
    else 1 + FirstUse(payouts[1..], index)
  }

  lemma {:induction false} FirstUseInPrefix(payouts: Payouts, n: nat, index: RateIndex)
    requires n <= |payouts|
    ensures FirstUse(payouts[..n], index) < n ==> FirstUse(payouts, index) == FirstUse(payouts[..n], index)
    ensures FirstUse(payouts[..n], index) == n ==> n <= FirstUse(payouts, index)
    ensures FirstUse(payouts[..n], index) <= n
    decreases n
  {
    if n != 0 {
      assert payouts[1..][..n - 1] == payouts[..n][1..];
      FirstUseInPrefix(payouts[1..], n - 1, index);
    }
  }

  lemma {:induction false} FirstUseIsUse(payouts: Payouts, index: RateIndex)
    ensures IsFloating(payouts, index) <==> FirstUse(payouts, index) < |payouts|
    ensures FirstUse(payouts, index) <= |payouts|
  {
    if payouts != [] {
      FirstUseIsUse(payouts[1..], index);
      if IsFloating(payouts[1..], index) {
        var i :| 0 <= i < |payouts[1..]| && payouts[1..][i].FloatingRate? && payouts[1..][i].index == index;
        assert payouts[i + 1].FloatingRate?;
      }
      if IsFloating(payouts, index) {
        var i :| 0 <= i < |payouts| && payouts[i].FloatingRate? && payouts[i].index == index;
        assert i != 0 ==> payouts[1..][i - 1] == payouts[i];
      }
    }
  }

  /** The collected indices are the floating ones, and they come in the order of their first uses; so each
      comes once. */
  lemma {:induction false} CollectedInFirstUseOrder(payouts: Payouts)
    ensures forall index :: index in Collected(payouts) <==> FirstUse(payouts, index) < |payouts|
    ensures forall i, j :: 0 <= i < j < |Collected(payouts)| ==>
              FirstUse(payouts, Collected(payouts)[i]) < FirstUse(payouts, Collected(payouts)[j])
  {
    if payouts != [] {
      var n := |payouts| - 1;
      var before := Collected(payouts[..n]);
      CollectedInFirstUseOrder(payouts[..n]);
      forall index: RateIndex
        ensures FirstUse(payouts, index) ==
          if index in before then FirstUse(payouts[..n], index)
          else if payouts[n].FloatingRate? && payouts[n].index == index then n
          else n + 1
      {
        FirstUseInPrefix(payouts, n, index);
        if index !in before {
          FirstUseAtEnd(payouts, index);
        }
      }
    }
  }

  lemma {:induction false} FirstUseAtEnd(payouts: Payouts, index: RateIndex)
    requires payouts != [] && FirstUse(payouts[..|payouts| - 1], index) >= |payouts| - 1
    ensures var last := payouts[|payouts| - 1];
            FirstUse(payouts, index) == if last.FloatingRate? && last.index == index then |payouts| - 1 else |payouts|
    decreases |payouts|
  {
    if |payouts| > 1 {
      assert payouts[1..][..|payouts| - 2] == payouts[..|payouts| - 1][1..];
      FirstUseAtEnd(payouts[1..], index);
    }
  }

  // ----- Resolution -----

  function GetCurve(provider: map<CurveId, MarketCurve>, id: CurveId): Result<MarketCurve, DependencyError> {
    if id in provider then Success(provider[id]) else Failure(CurveNotFound(id))
  }

  /** One index: its configured curve, then that curve itself. */
  function Project(provider: map<CurveId, MarketCurve>, configuration: MarketConfiguration, index: RateIndex)
    : Result<ProjectionCurve, DependencyError>
  {
    match ConfiguredCurve(configuration.projectionCurves, index)
    case Failure(e) => Failure(e)
    case Success(id) =>
      match GetCurve(provider, id)
      case Failure(e) => Failure(e)
      case Success(curve) => Success(ProjectionCurve(index, curve))
  }

  function ProjectAll(provider: map<CurveId, MarketCurve>, configuration: MarketConfiguration, indices: seq<RateIndex>)
    : Result<seq<ProjectionCurve>, DependencyError>
  {
    if indices == [] then Success([])
    else
      match Project(provider, configuration, indices[0])
      case Failure(e) => Failure(e)
      case Success(curve) =>
        match ProjectAll(provider, configuration, indices[1..])
        case Failure(e) => Failure(e)
        case Success(rest) => Success([curve] + rest)
  }

  function Resolve(provider: map<CurveId, MarketCurve>, payouts: Payouts, configuration: MarketConfiguration)
    : Result<PricingDependencies, DependencyError>
  {
    match GetCurve(provider, configuration.discountCurveId)
    case Failure(e) => Failure(e)
    case Success(discount) =>
      match ProjectAll(provider, configuration, Collected(payouts))
      case Failure(e) => Failure(e)
      case Success(curves) => Success(PricingDependencies(discount, curves))
  }

  function ProjectionCurveFor(curves: seq<ProjectionCurve>, index: RateIndex): Result<MarketCurve, DependencyError> {
    if curves == [] then Failure(ProjectionCurveNotResolved(index))
    else if curves[0].index == index then Success(curves[0].curve)
    else ProjectionCurveFor(curves[1..], index)
  }

  /** The index is configured, and the curve it is configured with is available. */
  predicate Available(provider: map<CurveId, MarketCurve>, configuration: MarketConfiguration, index: RateIndex) {
    var id := ConfiguredCurve(configuration.projectionCurves, index);
    id.Success? && id.value in provider
  }

  lemma {:induction false} AllProjected(provider: map<CurveId, MarketCurve>, configuration: MarketConfiguration,
                                        indices: seq<RateIndex>)
    ensures var r := ProjectAll(provider, configuration, indices);
            && (r.Success? <==> forall index :: index in indices ==> Available(provider, configuration, index))
            && (r.Success? ==>
                  && |r.value| == |indices|
                  && forall i :: 0 <= i < |indices| ==>
                       Project(provider, configuration, indices[i]) == Success(r.value[i]))
            && (r.Failure? ==>
                  exists i :: 0 <= i < |indices|
                    && Project(provider, configuration, indices[i]) == Failure(r.error)
                    && forall j :: 0 <= j < i ==> Available(provider, configuration, indices[j]))
  {
    if indices != [] {
      AllProjected(provider, configuration, indices[1..]);
      assert indices == [indices[0]] + indices[1..];
      var rest := ProjectAll(provider, configuration, indices[1..]);
      if Available(provider, configuration, indices[0]) && rest.Failure? {
        var i :| 0 <= i < |indices[1..]|
          && Project(provider, configuration, indices[1..][i]) == Failure(rest.error)
          && forall j :: 0 <= j < i ==> Available(provider, configuration, indices[1..][j]);
        assert Project(provider, configuration, indices[i + 1]) == Failure(rest.error);
        forall j | 0 <= j < i + 1 ensures Available(provider, configuration, indices[j]) {
          assert j != 0 ==> indices[1..][j - 1] == indices[j];
        }
      }
    }
  }

  lemma CollectedMeansFloating(payouts: Payouts)
    ensures Distinct(Collected(payouts))
    ensures forall index :: index in Collected(payouts) <==> IsFloating(payouts, index)
  {
    CollectedInFirstUseOrder(payouts);
    forall index: RateIndex ensures index in Collected(payouts) <==> IsFloating(payouts, index) {
      FirstUseIsUse(payouts, index);
    }
  }

  /** Resolution succeeds exactly when the discount curve is available and every floating rate index of the
      swap is configured with an available curve. */
  lemma ResolvesExactlyWhenAvailable(provider: map<CurveId, MarketCurve>, payouts: Payouts,
                                     configuration: MarketConfiguration)
    ensures Resolve(provider, payouts, configuration).Success? <==>
      && configuration.discountCurveId in provider
      && forall index :: IsFloating(payouts, index) ==> Available(provider, configuration, index)
  {
    AllProjected(provider, configuration, Collected(payouts));
    CollectedMeansFloating(payouts);
  }

  lemma {:induction false} LookupInOrder(curves: seq<ProjectionCurve>, i: nat)
    requires i < |curves| && forall j :: 0 <= j < i ==> curves[j].index != curves[i].index
    ensures ProjectionCurveFor(curves, curves[i].index) == Success(curves[i].curve)
  {
    if i != 0 {
      LookupInOrder(curves[1..], i - 1);
    }
  }

  lemma {:induction false} LookupFails(curves: seq<ProjectionCurve>, index: RateIndex)
    requires forall j :: 0 <= j < |curves| ==> curves[j].index != index
    ensures ProjectionCurveFor(curves, index) == Failure(ProjectionCurveNotResolved(index))
  {
    if curves != [] {
      LookupFails(curves[1..], index);
    }
  }

  /** The result has each floating rate index once, in the order of first use and nothing else; looking up
      an index gives the curve that the configuration assigns to it, and any other index is an error. */
  lemma ResolvedCurvesAreTheConfigured(provider: map<CurveId, MarketCurve>, payouts: Payouts,
                                       configuration: MarketConfiguration, index: RateIndex)
    requires Resolve(provider, payouts, configuration).Success?
    ensures var d := Resolve(provider, payouts, configuration).value;
            && d.discountCurve == provider[configuration.discountCurveId]
            && |d.projectionCurves| == |Collected(payouts)|
            && (forall i :: 0 <= i < |d.projectionCurves| ==> d.projectionCurves[i].index == Collected(payouts)[i])
            && (if IsFloating(payouts, index) then
                  && Available(provider, configuration, index)
                  && ProjectionCurveFor(d.projectionCurves, index) ==
                      Success(provider[ConfiguredCurve(configuration.projectionCurves, index).value])
                else
                  ProjectionCurveFor(d.projectionCurves, index) == Failure(ProjectionCurveNotResolved(index)))
  {
    ResolvesExactlyWhenAvailable(provider, payouts, configuration);
    AllProjected(provider, configuration, Collected(payouts));
    CollectedMeansFloating(payouts);
    var indices, curves := Collected(payouts), Resolve(provider, payouts, configuration).value.projectionCurves;
    forall i | 0 <= i < |curves| ensures curves[i].index == indices[i] {
      assert Available(provider, configuration, indices[i]);
    }
    if IsFloating(payouts, index) {
      var i :| 0 <= i < |indices| && indices[i] == index;
      LookupInOrder(curves, i);
    } else {
      LookupFails(curves, index);
    }
  }

  /** A failed resolution names the first thing missing: the discount curve before any index, then the
      indices in order of first use, and for an index its configuration before its curve. */
  lemma FailureNamesTheFirstMissing(provider: map<CurveId, MarketCurve>, payouts: Payouts,
                                    configuration: MarketConfiguration)
    requires Resolve(provider, payouts, configuration).Failure?
    ensures var e := Resolve(provider, payouts, configuration).error;
            if configuration.discountCurveId !in provider then e == CurveNotFound(configuration.discountCurveId)
            else
              exists i :: 0 <= i < |Collected(payouts)|
                && (forall j :: 0 <= j < i ==> Available(provider, configuration, Collected(payouts)[j]))
                && var index := Collected(payouts)[i];
                   var id := ConfiguredCurve(configuration.projectionCurves, index);
                   if id.Failure? then
                     e == ProjectionCurveNotConfigured(index) && index !in Indices(configuration.projectionCurves)
                   else id.value !in provider && e == CurveNotFound(id.value)
  {
    if configuration.discountCurveId in provider {
      var indices := Collected(payouts);
      AllProjected(provider, configuration, indices);
      var e := Resolve(provider, payouts, configuration).error;
      var i :| 0 <= i < |indices| && Project(provider, configuration, indices[i]) == Failure(e)
        && forall j :: 0 <= j < i ==> Available(provider, configuration, indices[j]);
      FoundIsConfigured(configuration.projectionCurves, indices[i]);
      var id := ConfiguredCurve(configuration.projectionCurves, indices[i]);
      assert if id.Failure? then
               && e == ProjectionCurveNotConfigured(indices[i])
               && indices[i] !in Indices(configuration.projectionCurves)
             else id.value !in provider && e == CurveNotFound(id.value);
    }
  }
}
