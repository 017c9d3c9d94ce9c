/** Sampled meter values: the per-phase readings they are mapped to, and the power of a session. */
module Meter {
  import opened Options
  import opened Sequences

  /** A sampled value; its text may fail to parse as a number. */
  datatype Sample = Sample(value: Option<real>, measurand: string, phase: string, unit: string)

  // ----- Readings -----

  datatype Field =
    | PowerW | EnergyKwh | VoltageV | CurrentA | Frequency | PowerFactor
    | ApparentPowerVA | ReactivePowerVar | ReactiveEnergyKvarh | TemperatureC

  /** One row of meter_readings; a field no sample set is null. */
  datatype Reading = Reading(
    powerW: Option<real>, energyKwh: Option<real>, voltageV: Option<real>, currentA: Option<real>,
    frequency: Option<real>, powerFactor: Option<real>, apparentPowerVA: Option<real>,
    reactivePowerVar: Option<real>, reactiveEnergyKvarh: Option<real>, temperatureC: Option<real>)
  {
    function Get(f: Field): Option<real> {
      match f
      case PowerW => powerW
      case EnergyKwh => energyKwh
      case VoltageV => voltageV
      case CurrentA => currentA
      case Frequency => frequency
      case PowerFactor => powerFactor
      case ApparentPowerVA => apparentPowerVA
      case ReactivePowerVar => reactivePowerVar
      case ReactiveEnergyKvarh => reactiveEnergyKvarh
      case TemperatureC => temperatureC
    }
  }

  const EMPTY := Reading(None, None, None, None, None, None, None, None, None, None)

  const ENERGY: string := "Energy.Active.Import.Register"
  const POWER: string := "Power.Active.Import"

  function NormalizeValue(value: real, unit: string): real {
    match unit
    case "kW" => value * 1000.0
    case "Wh" => value / 1000.0
    case "kVA" => value * 1000.0
    case "kvar" => value * 1000.0
    case "varh" => value / 1000.0
    case _ => value
  }

  function MapMeasurand(r: Reading, measurand: string, value: real): Reading {
    match measurand
    case "Power.Active.Import" => r.(powerW := Some(value))
    case "Power.Active.Export" => r.(powerW := Some(-value))
    case "Energy.Active.Import.Register" => r.(energyKwh := Some(value))
    case "Energy.Reactive.Import.Register" => r.(reactiveEnergyKvarh := Some(value))
    case "Power.Reactive.Import" => r.(reactivePowerVar := Some(value))
    case "Voltage" => r.(voltageV := Some(value))
    case "Current.Import" => r.(currentA := Some(value))
    case "Current.Export" => r.(currentA := Some(-value))
    case "Frequency" => r.(frequency := Some(value))
    case "Power.Factor" => r.(powerFactor := Some(value))
    case "Temperature" => r.(temperatureC := Some(value))
    case _ => r
  }

  function MeasurandOf(s: Sample): string {
    if s.measurand == "" then ENERGY else s.measurand
  }

  function UnitOf(s: Sample): string {
    if s.unit == "" then "Wh" else s.unit
  }

  /** The readings of a list of samples, grouped by phase as they come. */
  method GroupReadings(samples: seq<Sample>) returns (readings: map<string, Reading>)
    ensures GroupedFrom(samples, readings)
    ensures forall phase :: phase in readings <==> Parses(samples, phase)
    ensures forall phase :: phase in readings ==> ReadsSamples(samples, phase, readings[phase])
  {
    readings := map[];
    for i := 0 to |samples|
      invariant GroupedFrom(samples[..i], readings)
    {
      var sv := samples[i];
      assert samples[..i + 1] == samples[..i] + [sv];
      GroupOneMore(samples[..i], sv, readings);
      if sv.value == None {
        continue;
      }
      var value := NormalizeValue(sv.value.value, UnitOf(sv));
      var r := if sv.phase in readings then readings[sv.phase] else EMPTY;
      readings := readings[sv.phase := MapMeasurand(r, MeasurandOf(sv), value)];
    }
    assert samples[..|samples|] == samples;
    GroupedReads(samples, readings);
  }

  /** There is one reading per phase with a valid sample, and each of its fields holds what the last
      sample of that phase to say anything about the field says. */
  ghost predicate GroupedFrom(samples: seq<Sample>, readings: map<string, Reading>) {
    && (forall phase :: phase in readings <==> Reports(samples, phase))
    && (forall phase, f :: phase in readings ==> readings[phase].Get(f) == LastValue(samples, phase, f))
  }

  /** Some sample of the phase parses. */
  predicate Reports(samples: seq<Sample>, phase: string) {
    samples != [] &&
    (var sv := samples[|samples| - 1];
     (sv.phase == phase && sv.value.Some?) || Reports(samples[..|samples| - 1], phase))
  }

  /** The column a measurand goes to, and whether it is negated. */
  function Column(measurand: string): Option<(Field, bool)> {
    match measurand
    case "Power.Active.Import" => Some((PowerW, false))
    case "Power.Active.Export" => Some((PowerW, true))
    case "Energy.Active.Import.Register" => Some((EnergyKwh, false))
    case "Energy.Reactive.Import.Register" => Some((ReactiveEnergyKvarh, false))
    case "Power.Reactive.Import" => Some((ReactivePowerVar, false))
    case "Voltage" => Some((VoltageV, false))
    case "Current.Import" => Some((CurrentA, false))
    case "Current.Export" => Some((CurrentA, true))
    case "Frequency" => Some((Frequency, false))
    case "Power.Factor" => Some((PowerFactor, false))
    case "Temperature" => Some((TemperatureC, false))
    case _ => None
  }

  /** What one sample says about a field: nothing, or its signed value in the base unit. */
  function Says(sv: Sample, f: Field): Option<real> {
    if sv.value == None then None
    else SaysValue(MeasurandOf(sv), NormalizeValue(sv.value.value, UnitOf(sv)), f)
  }

  function SaysValue(measurand: string, v: real, f: Field): Option<real> {
    match Column(measurand)
    case Some((g, negated)) => if g != f then None else Some(if negated then -v else v)
    case None => None
  }

  /** What the last sample of the phase that says anything about the field says. */
  function LastValue(samples: seq<Sample>, phase: string, f: Field): Option<real> {
    if samples == [] then None
    else
      var sv := samples[|samples| - 1];
      if sv.phase == phase && Says(sv, f).Some? then Says(sv, f)
      else LastValue(samples[..|samples| - 1], phase, f)
  }

  lemma {:induction false} OneMore(samples: seq<Sample>, sv: Sample, phase: string, f: Field)
    ensures Reports(samples + [sv], phase) <==> (sv.phase == phase && sv.value.Some?) || Reports(samples, phase)
    ensures LastValue(samples + [sv], phase, f)
         == if sv.phase == phase && Says(sv, f).Some? then Says(sv, f) else LastValue(samples, phase, f)
  {
    assert (samples + [sv])[..|samples|] == samples;
  }

  /** What grouping does with one more sample. */
  function GroupOne(readings: map<string, Reading>, sv: Sample): map<string, Reading> {
    if sv.value == None then readings
    else
      var r := if sv.phase in readings then readings[sv.phase] else EMPTY;
      readings[sv.phase := MapMeasurand(r, MeasurandOf(sv), NormalizeValue(sv.value.value, UnitOf(sv)))]
  }

  lemma {:induction false} GroupOneMore(samples: seq<Sample>, sv: Sample, readings: map<string, Reading>)
    requires GroupedFrom(samples, readings)
    ensures GroupedFrom(samples + [sv], GroupOne(readings, sv))
  {
    var readings' := GroupOne(readings, sv);
    forall phase
      ensures phase in readings' <==> Reports(samples + [sv], phase)
    {
      OneMore(samples, sv, phase, PowerW);
    }
    forall phase, f | phase in readings'
      ensures readings'[phase].Get(f) == LastValue(samples + [sv], phase, f)
    {
      OneMore(samples, sv, phase, f);
      if sv.value.Some? && phase == sv.phase {
        if phase !in readings {
          NothingReported(samples, phase, f);
        }
        MapSets(if phase in readings then readings[phase] else EMPTY, sv, f);
      }
    }
  }

  lemma {:induction false} NothingReported(samples: seq<Sample>, phase: string, f: Field)
    requires !Reports(samples, phase)
    ensures LastValue(samples, phase, f) == None
  {
    if samples != [] {
      NothingReported(samples[..|samples| - 1], phase, f);
    }
  }

  function Set(r: Reading, f: Field, v: real): (r': Reading)
    ensures forall g :: r'.Get(g) == if g == f then Some(v) else r.Get(g)
  {
    match f
    case PowerW => r.(powerW := Some(v))
    case EnergyKwh => r.(energyKwh := Some(v))
    case VoltageV => r.(voltageV := Some(v))
    case CurrentA => r.(currentA := Some(v))
    case Frequency => r.(frequency := Some(v))
    case PowerFactor => r.(powerFactor := Some(v))
    case ApparentPowerVA => r.(apparentPowerVA := Some(v))
    case ReactivePowerVar => r.(reactivePowerVar := Some(v))
    case ReactiveEnergyKvarh => r.(reactiveEnergyKvarh := Some(v))
    case TemperatureC => r.(temperatureC := Some(v))
  }

  lemma {:induction false} MapsToColumn(r: Reading, measurand: string, v: real)
    ensures MapMeasurand(r, measurand, v)
         == match Column(measurand)
            case Some((f, negated)) => Set(r, f, if negated then -v else v)
            case None => r
  {
  }

  lemma {:induction false} MapSets(r: Reading, sv: Sample, f: Field)
    requires sv.value.Some?
    ensures MapMeasurand(r, MeasurandOf(sv), NormalizeValue(sv.value.value, UnitOf(sv))).Get(f)
         == if Says(sv, f).Some? then Says(sv, f) else r.Get(f)
  {
    MapsToColumn(r, MeasurandOf(sv), NormalizeValue(sv.value.value, UnitOf(sv)));
  }

  // ----- What a reading holds, measurand by measurand -----

  ghost predicate Parses(samples: seq<Sample>, phase: string) {
    exists i :: 0 <= i < |samples| && samples[i].phase == phase && samples[i].value.Some?
  }

  /** The value of a sample in the base unit; without a unit it is taken for Wh. */
  function Amount(sv: Sample): real
    requires sv.value.Some?
  {
    if sv.unit in {"kW", "kVA", "kvar"} then sv.value.value * 1000.0
    else if sv.unit in {"", "Wh", "varh"} then sv.value.value / 1000.0
    else sv.value.value
  }

  /** Exports are negative. */
  function Signed(sv: Sample, exports: set<string>): real
    requires sv.value.Some?
  {
    if sv.measurand in exports then -Amount(sv) else Amount(sv)
  }

  /** The sample parses, is of the phase and has one of the measurands. */
  predicate Measures(sv: Sample, phase: string, names: set<string>) {
    sv.phase == phase && sv.value.Some? && sv.measurand in names
  }

  ghost predicate LastToMeasure(samples: seq<Sample>, i: int, phase: string, names: set<string>) {
    && 0 <= i < |samples| && Measures(samples[i], phase, names)
    && forall j :: i < j < |samples| ==> !Measures(samples[j], phase, names)
  }

  /** The last of the phase's samples with one of the measurands decides; without any there is no value. */
  ghost predicate IsLast(samples: seq<Sample>, phase: string, names: set<string>, exports: set<string>, got: Option<real>) {
    && (forall i :: LastToMeasure(samples, i, phase, names) ==>
          got == Some(Signed(samples[i], exports)))
    && ((forall i :: 0 <= i < |samples| ==> !Measures(samples[i], phase, names)) ==> got == None)
  }

  /** The columns of a phase's reading, one by one; a sample that names no measurand is imported energy. */
  ghost predicate ReadsSamples(samples: seq<Sample>, phase: string, r: Reading) {
    && IsLast(samples, phase, {"", "Energy.Active.Import.Register"}, {}, r.energyKwh)
    && IsLast(samples, phase, {"Power.Active.Import", "Power.Active.Export"}, {"Power.Active.Export"}, r.powerW)
    && IsLast(samples, phase, {"Energy.Reactive.Import.Register"}, {}, r.reactiveEnergyKvarh)
    && IsLast(samples, phase, {"Power.Reactive.Import"}, {}, r.reactivePowerVar)
    && IsLast(samples, phase, {"Voltage"}, {}, r.voltageV)
    && IsLast(samples, phase, {"Current.Import", "Current.Export"}, {"Current.Export"}, r.currentA)
    && IsLast(samples, phase, {"Frequency"}, {}, r.frequency)
    && IsLast(samples, phase, {"Power.Factor"}, {}, r.powerFactor)
    && IsLast(samples, phase, {"Temperature"}, {}, r.temperatureC)
    && r.apparentPowerVA == None
  }

  ghost function NamesOf(f: Field): set<string> {
    match f
    case PowerW => {"Power.Active.Import", "Power.Active.Export"}
    case EnergyKwh => {"", "Energy.Active.Import.Register"}
    case VoltageV => {"Voltage"}
    case CurrentA => {"Current.Import", "Current.Export"}
    case Frequency => {"Frequency"}
    case PowerFactor => {"Power.Factor"}
    case ApparentPowerVA => {}
    case ReactivePowerVar => {"Power.Reactive.Import"}
    case ReactiveEnergyKvarh => {"Energy.Reactive.Import.Register"}
    case TemperatureC => {"Temperature"}
  }

  ghost function ExportsOf(f: Field): set<string> {
    match f
    case PowerW => {"Power.Active.Export"}
    case CurrentA => {"Current.Export"}
    case _ => {}
  }

  lemma {:induction false} NormalizesToAmount(sv: Sample)
    requires sv.value.Some?
    ensures NormalizeValue(sv.value.value, UnitOf(sv)) == Amount(sv)
  {
  }

  lemma {:induction false} ColumnNames(sv: Sample, f: Field)
    ensures (Column(MeasurandOf(sv)).Some? && Column(MeasurandOf(sv)).value.0 == f) <==> sv.measurand in NamesOf(f)
  {
  }

  lemma {:induction false} ColumnExports(sv: Sample, f: Field)
    requires Column(MeasurandOf(sv)).Some? && Column(MeasurandOf(sv)).value.0 == f
    ensures Column(MeasurandOf(sv)).value.1 <==> sv.measurand in ExportsOf(f)
  {
  }

  lemma {:induction false} SaysAmount(sv: Sample, f: Field)
    ensures Says(sv, f).Some? <==> sv.value.Some? && sv.measurand in NamesOf(f)
    ensures Says(sv, f).Some? ==> Says(sv, f) == Some(Signed(sv, ExportsOf(f)))
  {
    hide Column, NamesOf, ExportsOf, NormalizeValue, Amount, MeasurandOf, UnitOf;
    ColumnNames(sv, f);
    if sv.measurand in NamesOf(f) {
      ColumnExports(sv, f);
    }
    if sv.value.Some? {
      NormalizesToAmount(sv);
    }
  }

  lemma {:induction false} IsLastMeasured(samples: seq<Sample>, sv: Sample, phase: string, names: set<string>, exports: set<string>)
    requires Measures(sv, phase, names)
    ensures IsLast(samples + [sv], phase, names, exports, Some(Signed(sv, exports)))
  {
    hide Amount, Measures;
    var n := |samples|;
    assert (samples + [sv])[n] == sv;
    forall i | LastToMeasure(samples + [sv], i, phase, names) ensures i == n {
    }
  }

  lemma {:induction false} IsLastSkipped(samples: seq<Sample>, sv: Sample, phase: string, names: set<string>, exports: set<string>, got: Option<real>)
    requires !Measures(sv, phase, names) && IsLast(samples, phase, names, exports, got)
    ensures IsLast(samples + [sv], phase, names, exports, got)
  {
    hide Amount, Measures;
    var longer := samples + [sv];
    assert longer[|samples|] == sv && forall i :: 0 <= i < |samples| ==> longer[i] == samples[i];
    forall i | LastToMeasure(longer, i, phase, names)
      ensures i < |samples| && LastToMeasure(samples, i, phase, names)
    {
      assert forall j :: i < j < |samples| ==> !Measures(longer[j], phase, names);
    }
  }

  lemma {:induction false} LastValueIsLast(samples: seq<Sample>, phase: string, f: Field)
    ensures IsLast(samples, phase, NamesOf(f), ExportsOf(f), LastValue(samples, phase, f))
  {
    hide Says, NamesOf, ExportsOf, Amount, IsLast;
    if samples == [] {
      NothingIsLast(phase, NamesOf(f), ExportsOf(f));
    } else {
      var n := |samples| - 1;
      var front, sv := samples[..n], samples[n];
      assert samples == front + [sv];
      LastValueIsLast(front, phase, f);
      OneMore(front, sv, phase, f);
      SaysAmount(sv, f);
      if Measures(sv, phase, NamesOf(f)) {
        IsLastMeasured(front, sv, phase, NamesOf(f), ExportsOf(f));
      } else {
        IsLastSkipped(front, sv, phase, NamesOf(f), ExportsOf(f), LastValue(front, phase, f));
      }
    }
  }

  lemma NothingIsLast(phase: string, names: set<string>, exports: set<string>)
    ensures IsLast([], phase, names, exports, None)
  {
  }

  lemma {:induction false} ReportsParses(samples: seq<Sample>, phase: string)
    ensures Reports(samples, phase) <==> Parses(samples, phase)
  {
    if samples != [] {
      var n := |samples| - 1;
      var front := samples[..n];
      ReportsParses(front, phase);
      assert forall i :: 0 <= i < n ==> front[i] == samples[i];
    }
  }

  lemma {:induction false} ApparentNeverSaid(samples: seq<Sample>, phase: string)
    ensures LastValue(samples, phase, ApparentPowerVA) == None
  {
    hide Says;
    if samples != [] {
      SaysAmount(samples[|samples| - 1], ApparentPowerVA);
      ApparentNeverSaid(samples[..|samples| - 1], phase);
    }
  }

  lemma {:induction false} GroupedReads(samples: seq<Sample>, readings: map<string, Reading>)
    requires GroupedFrom(samples, readings)
    ensures forall phase :: phase in readings <==> Parses(samples, phase)
    ensures forall phase :: phase in readings ==> ReadsSamples(samples, phase, readings[phase])
  {
    forall phase ensures phase in readings <==> Parses(samples, phase) {
      ReportsParses(samples, phase);
    }
    forall phase | phase in readings ensures ReadsSamples(samples, phase, readings[phase]) {
      FieldsRead(samples, phase, readings[phase]);
    }
  }

  lemma {:induction false} FieldsRead(samples: seq<Sample>, phase: string, r: Reading)
    requires forall f :: r.Get(f) == LastValue(samples, phase, f)
    ensures ReadsSamples(samples, phase, r)
  {
    hide IsLast, LastValue;
    forall f ensures IsLast(samples, phase, NamesOf(f), ExportsOf(f), r.Get(f)) {
      LastValueIsLast(samples, phase, f);
    }
    assert forall f :: IsLast(samples, phase, NamesOf(f), ExportsOf(f), r.Get(f));
    ApparentNeverSaid(samples, phase);
    assert r.Get(EnergyKwh) == r.energyKwh && r.Get(PowerW) == r.powerW && r.Get(ReactiveEnergyKvarh) == r.reactiveEnergyKvarh;
    assert r.Get(ReactivePowerVar) == r.reactivePowerVar && r.Get(VoltageV) == r.voltageV && r.Get(CurrentA) == r.currentA;
    assert r.Get(Frequency) == r.frequency && r.Get(PowerFactor) == r.powerFactor && r.Get(TemperatureC) == r.temperatureC;
    assert r.Get(ApparentPowerVA) == r.apparentPowerVA;
  }

  // ----- Rewriting units -----

  /** The same sample in the other unit of its pair. */
  function Rescale(sv: Sample): Sample {
    match sv.unit
    case "W" => Scaled(sv, 0.001, "kW")
    case "kW" => Scaled(sv, 1000.0, "W")
    case "Wh" => Scaled(sv, 0.001, "kWh")
    case "kWh" => Scaled(sv, 1000.0, "Wh")
    case "varh" => Scaled(sv, 0.001, "kvarh")
    case "kvarh" => Scaled(sv, 1000.0, "varh")
    case "VA" => Scaled(sv, 0.001, "kVA")
    case "kVA" => Scaled(sv, 1000.0, "VA")
    case "var" => Scaled(sv, 0.001, "kvar")
    case "kvar" => Scaled(sv, 1000.0, "var")
    case _ => sv
  }

  function Scaled(sv: Sample, factor: real, unit: string): Sample {
    sv.(value := if sv.value.Some? then Some(sv.value.value * factor) else None, unit := unit)
  }

  /** The units readings are kept in. */
  predicate BaseUnit(unit: string) {
    unit in {"W", "kWh", "VA", "var", "kvarh", "kVARh", "V", "A", "Hz", "Celsius"}
  }

  /** A value in a base unit is kept, one in a unit rewritten to a base unit becomes that rewriting, and
      one in any other unit is kept too; the unit is the one a missing unit stands for. Rewriting changes
      nothing. */
  lemma {:induction false} NormalizesToBase(sv: Sample)
    requires sv.value.Some?
    ensures
      var given := sv.(unit := UnitOf(sv));
      NormalizeValue(sv.value.value, UnitOf(sv))
      == if BaseUnit(Rescale(given).unit) && !BaseUnit(given.unit) then Rescale(given).value.value else sv.value.value
    ensures NormalizeValue(Rescale(sv).value.value, UnitOf(Rescale(sv))) == NormalizeValue(sv.value.value, UnitOf(sv))
  {
  }

  /** Each sample is kept or rewritten to the other unit of its pair. */
  ghost predicate Rewritten(a: seq<Sample>, b: seq<Sample>) {
    && |a| == |b|
    && forall i :: 0 <= i < |a| ==> b[i] == a[i] || b[i] == Rescale(a[i])
  }

  lemma {:induction false} RescaleSays(sv: Sample, f: Field)
    ensures Says(Rescale(sv), f) == Says(sv, f)
    ensures Rescale(sv).phase == sv.phase && Rescale(sv).value.Some? == sv.value.Some?
  {
    hide NormalizeValue, Column;
    if sv.value.Some? {
      NormalizesToBase(sv);
    }
  }

  lemma {:induction false} RewrittenReports(a: seq<Sample>, b: seq<Sample>, phase: string, f: Field)
    requires Rewritten(a, b)
    ensures LastValue(b, phase, f) == LastValue(a, phase, f)
    ensures Reports(b, phase) <==> Reports(a, phase)
  {
    if a != [] {
      var i := |a| - 1;
      RescaleSays(a[i], f);
      RewrittenReports(a[..i], b[..i], phase, f);
    }
  }

  lemma {:induction false} SameReadings(r: Reading, r': Reading)
    requires forall f :: r.Get(f) == r'.Get(f)
    ensures r == r'
  {
    assert r.Get(PowerW) == r'.Get(PowerW) && r.Get(EnergyKwh) == r'.Get(EnergyKwh) && r.Get(VoltageV) == r'.Get(VoltageV);
    assert r.Get(CurrentA) == r'.Get(CurrentA) && r.Get(Frequency) == r'.Get(Frequency);
    assert r.Get(PowerFactor) == r'.Get(PowerFactor) && r.Get(ApparentPowerVA) == r'.Get(ApparentPowerVA);
    assert r.Get(ReactivePowerVar) == r'.Get(ReactivePowerVar) && r.Get(ReactiveEnergyKvarh) == r'.Get(ReactiveEnergyKvarh);
    assert r.Get(TemperatureC) == r'.Get(TemperatureC);
  }

  // ----- Session power -----

  /** The power one sample adds, in W. Here a missing unit means W, and a missing measurand is skipped. */
  function PowerOf(sv: Sample): Option<real> {
    if sv.measurand != POWER || sv.value == None then None
    else Some(if sv.unit == "kW" then sv.value.value * 1000.0 else sv.value.value)
  }

  /** The sum of the active import power of all phases, if any sample gives one. */
  function ActivePower(samples: seq<Sample>): Option<real> {
    if samples == [] then None
    else
      var before := ActivePower(samples[..|samples| - 1]);
      var p := PowerOf(samples[|samples| - 1]);
      if p == None then before
      else Some((if before.Some? then before.value else 0.0) + p.value)
  }

  method SumPower(samples: seq<Sample>) returns (powerW: real, found: bool)
    ensures found <==> ActivePower(samples).Some?
    ensures found ==> ActivePower(samples) == Some(powerW)
  {
    powerW, found := 0.0, false;
    for i := 0 to |samples|
      invariant found <==> ActivePower(samples[..i]).Some?
      invariant if found then ActivePower(samples[..i]) == Some(powerW) else powerW == 0.0
    {
      assert samples[..i + 1][..i] == samples[..i];
      var sv := samples[i];
      if sv.measurand == "" || sv.measurand != POWER || sv.value == None {
        continue;
      }
      var value := sv.value.value;
      var unit := if sv.unit == "" then "W" else sv.unit;
      if unit == "kW" {
        value := value * 1000.0;
      }
      powerW := powerW + value;
      found := true;
    }
    assert samples[..|samples|] == samples;
  }

  /** An active power sample in a unit of something else, which the power sum takes for W. */
  predicate MisfitUnit(sv: Sample) {
    sv.measurand == POWER && sv.unit in {"Wh", "kWh", "varh", "kvarh", "VA", "kVA", "var", "kvar"}
  }

  /** Rewriting one sample keeps the power it adds, unless its unit does not fit and it is not zero. */
  lemma RescalePower(sv: Sample)
    ensures PowerOf(Rescale(sv)) == PowerOf(sv) <==> !(MisfitUnit(sv) && sv.value.Some? && sv.value.value != 0.0)
  {
  }

  /** Rewriting units leaves the power of the session alone. */
  lemma {:induction false} RewrittenPower(a: seq<Sample>, b: seq<Sample>)
    requires Rewritten(a, b)
    requires forall i :: 0 <= i < |a| ==> !MisfitUnit(a[i])
    ensures ActivePower(b) == ActivePower(a)
  {
    if a != [] {
      var i := |a| - 1;
      RescalePower(a[i]);
      RewrittenPower(a[..i], b[..i]);
    }
  }

  // ----- The two paths compared -----

  /** The units in which a reading and the session's power differ; without a unit a reading takes Wh, the
      session W. */
  predicate TakenApart(unit: string) {
    unit in {"", "Wh", "varh", "kVA", "kvar"}
  }

  /** What a power sample says about the reading is what it adds to the session, exactly unless it is not
      zero and in one of these units. */
  lemma {:induction false} PathsAgree(sv: Sample)
    requires sv.measurand == POWER && sv.value.Some?
    ensures Says(sv, PowerW) == PowerOf(sv) <==> sv.value.value == 0.0 || !TakenApart(sv.unit)
  {
  }

  /** A sample without a unit, for which the two differ. */
  lemma {:induction false} UnitlessDiffers(phase: string)
    ensures
      var sv := Sample(Some(1.0), POWER, phase, "");
      Says(sv, PowerW) == Some(0.001) && PowerOf(sv) == Some(1.0)
  {
  }

  /** No sample says anything about power, to either path. */
  ghost predicate Silent(samples: seq<Sample>) {
    forall sv :: sv in samples ==> Says(sv, PowerW) == None && PowerOf(sv) == None
  }

  lemma {:induction false} SilentAfter(samples: seq<Sample>, rest: seq<Sample>, phase: string)
    requires Silent(rest)
    ensures LastValue(samples + rest, phase, PowerW) == LastValue(samples, phase, PowerW)
    ensures ActivePower(samples + rest) == ActivePower(samples)
    decreases |rest|
  {
    hide Says, PowerOf;
    if rest == [] {
      assert samples + rest == samples;
    } else {
      var front, sv := rest[..|rest| - 1], rest[|rest| - 1];
      assert rest == front + [sv];
      assert sv in rest && forall x :: x in front ==> x in rest;
      SilentAfter(samples, front, phase);
      Associative(samples, front, [sv]);
      OneMore(samples + front, sv, phase, PowerW);
      OneMorePower(samples + front, sv);
    }
  }

  lemma {:induction false} OneMorePower(samples: seq<Sample>, sv: Sample)
    ensures ActivePower(samples + [sv])
         == if PowerOf(sv) == None then ActivePower(samples)
            else Some((if ActivePower(samples).Some? then ActivePower(samples).value else 0.0) + PowerOf(sv).value)
  {
    assert (samples + [sv])[..|samples|] == samples;
  }

  /** The power of a phase's reading against that of the session, after the last sample to report power,
      an import of that phase: they agree exactly when the power added before, by any phase, is the
      difference the unit makes. With nothing added before, the condition is that on the one sample. */
  lemma {:induction false} ReadingAgainstSession(before: seq<Sample>, sv: Sample, rest: seq<Sample>)
    requires sv.measurand == POWER && sv.value.Some? && Silent(rest)
    ensures
      var samples := (before + [sv]) + rest;
      var earlier := if ActivePower(before).Some? then ActivePower(before).value else 0.0;
      && LastValue(samples, sv.phase, PowerW).Some? && ActivePower(samples).Some?
      && (LastValue(samples, sv.phase, PowerW) == ActivePower(samples)
          <==> earlier == LastValue([sv], sv.phase, PowerW).value - ActivePower([sv]).value)
      && (earlier == 0.0 ==>
            (LastValue(samples, sv.phase, PowerW) == ActivePower(samples) <==> sv.value.value == 0.0 || !TakenApart(sv.unit)))
  {
    hide PowerOf, Says;
    SaysPower(sv);
    SilentAfter(before + [sv], rest, sv.phase);
    OneMore(before, sv, sv.phase, PowerW);
    OneMorePower(before, sv);
    OneMore([], sv, sv.phase, PowerW);
    OneMorePower([], sv);
    assert [] + [sv] == [sv];
    PathsAgree(sv);
  }

  lemma {:induction false} SaysPower(sv: Sample)
    requires sv.measurand == POWER && sv.value.Some?
    ensures Says(sv, PowerW).Some? && PowerOf(sv).Some?
  {
  }

  /** Rewriting units leaves every phase's reading alone. */
  lemma RewrittenReadings(a: seq<Sample>, b: seq<Sample>, ra: map<string, Reading>, rb: map<string, Reading>)
    requires Rewritten(a, b)
    requires GroupedFrom(a, ra) && GroupedFrom(b, rb)
    ensures ra == rb
  {
    forall phase
      ensures phase in ra <==> phase in rb
      ensures phase in ra ==> ra[phase] == rb[phase]
    {
      RewrittenReports(a, b, phase, PowerW);
      if phase in ra {
        forall f ensures ra[phase].Get(f) == rb[phase].Get(f) {
          RewrittenReports(a, b, phase, f);
        }
        SameReadings(ra[phase], rb[phase]);
      }
    }
  }
}
