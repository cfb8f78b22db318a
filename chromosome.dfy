/** pydigree/chromosome.py: the chromosome template that records, marker by
    marker, the genetic map position, the physical position, the label and
    the minor allele frequency, and checks the frequencies before founder
    chromosomes are drawn. */
module Chromosomes {
  import opened Common

  datatype ChromError =
    | EmptyMap               // genetic_map[-1] on an empty map raises IndexError
    | InvalidFrequency       // float(frequency) fails: ValueError
    | IndexOutOfRange        // frequencies[position] raises IndexError
    | UnspecifiedFrequency   // some frequency is negative: ValueError

  /** The `frequency` argument of add_genotype: None, a value that float()
      converts (its value), or one that float() rejects. */
  datatype FrequencyArg = Absent | Convertible(value: real) | Inconvertible

  /** The frequency add_genotype records: None becomes -1 (unspecified). */
  function FrequencyValue(f: FrequencyArg): (r: Result<real, ChromError>)
    ensures f.Inconvertible? <==> r.Err?
    ensures r.Err? ==> r.error == InvalidFrequency
    ensures f.Absent? ==> r == Ok(-1.0)
    ensures f.Convertible? ==> r == Ok(f.value)
  {
    match f
    case Absent => Ok(-1.0)
    case Convertible(x) => Ok(x)
    case Inconvertible => Err(InvalidFrequency)
  }

  /** np.append(arr, v): a new array holding arr's values followed by v;
      arr itself is left as it was. */
  method NumpyAppend(arr: array<real>, v: real) returns (r: array<real>)
    ensures fresh(r) && r[..] == arr[..] + [v]
  {
    r := new real[arr.Length + 1];
    var i := 0;
    while i < arr.Length
      invariant 0 <= i <= arr.Length
      invariant forall j :: 0 <= j < i ==> r[j] == arr[j]
    {
      r[i] := arr[i];
      i := i + 1;
    }
    r[arr.Length] := v;
  }

  /** Some entry of the frequency vector is negative (`(frequencies < 0).any()`). */
  function AnyNegative(fs: seq<real>): (r: bool)
    ensures r <==> exists i :: 0 <= i < |fs| && fs[i] < 0.0
  {
    if fs == [] then false
    else fs[0] < 0.0 || AnyNegative(fs[1..])
  }

  class Chromosome {
    var name: Option<string>   // the chromosome's `label`
    var geneticMap: seq<real>
    var physicalMap: seq<Option<int>>
    var labels: seq<Option<string>>
    var frequencies: array<real>
    var typecode: char

    /** The three list columns have one entry per marker. */
    ghost predicate ColumnsAligned()
      reads this
    {
      |physicalMap| == |geneticMap| && |labels| == |geneticMap|
    }

    /** Every column, the frequency vector included, has one entry per
        marker: what add_genotype is meant to keep. */
    ghost predicate Aligned()
      reads this
    {
      ColumnsAligned() && frequencies.Length == |geneticMap|
    }

    /** __init__: no markers yet, alleles stored as unsigned bytes. */
    constructor (name: Option<string>)
      ensures this.name == name
      ensures geneticMap == [] && physicalMap == [] && labels == []
      ensures fresh(frequencies) && frequencies.Length == 0
      ensures typecode == 'B'
      ensures Aligned()
    {
      this.name := name;
      geneticMap := [];
      physicalMap := [];
      frequencies := new real[0];
      labels := [];
      typecode := 'B';
    }

    /** nmark: the number of markers on the map. */
    function NMark(): (n: nat)
      reads this
      ensures n == |geneticMap|
    {
      |geneticMap|
    }

    /** size: the map length in cM, last position minus first; an empty map
        raises IndexError. */
    function Size(): (r: Result<real, ChromError>)
      reads this
      ensures r.Err? <==> geneticMap == []
      ensures r.Err? ==> r.error == EmptyMap
      ensures r.Ok? ==> r.value == geneticMap[|geneticMap| - 1] - geneticMap[0]
    {
      match PyIndex(-1, |geneticMap|)
      case None => Err(EmptyMap)
      case Some(last) => Ok(geneticMap[last] - geneticMap[0])
    }

    /** add_genotype as written: the frequency is converted first (failing
        before any column changes); then the map position, the physical
        position and the label are appended, while the array np.append
        builds is dropped, so `frequencies` keeps its old contents. */
    method AddGenotype(frequency: FrequencyArg, mapPosition: real, markerLabel: Option<string>, bp: Option<int>)
      returns (r: Outcome<ChromError>)
      modifies this
      ensures frequency.Inconvertible? ==> r == Fail(InvalidFrequency) && unchanged(this)
      ensures !frequency.Inconvertible? ==>
                && r == Pass
                && geneticMap == old(geneticMap) + [mapPosition]
                && physicalMap == old(physicalMap) + [bp]
                && labels == old(labels) + [markerLabel]
                && frequencies == old(frequencies) && frequencies[..] == old(frequencies[..])
                && name == old(name) && typecode == old(typecode)
      ensures old(ColumnsAligned()) ==> ColumnsAligned()
    {
      var f := FrequencyValue(frequency);
      if f.Err? {
        return Fail(f.error);
      }
      geneticMap := geneticMap + [mapPosition];
      var _ := NumpyAppend(frequencies, f.value);
      physicalMap := physicalMap + [bp];
      labels := labels + [markerLabel];
      return Pass;
    }

    /** add_genotype with the np.append result assigned back to
        `frequencies`: every column grows by one. */
    method AddGenotypeCorrected(frequency: FrequencyArg, mapPosition: real, markerLabel: Option<string>, bp: Option<int>)
      returns (r: Outcome<ChromError>)
      modifies this
      ensures frequency.Inconvertible? ==> r == Fail(InvalidFrequency) && unchanged(this)
      ensures !frequency.Inconvertible? ==>
                && r == Pass
                && geneticMap == old(geneticMap) + [mapPosition]
                && physicalMap == old(physicalMap) + [bp]
                && labels == old(labels) + [markerLabel]
                && fresh(frequencies)
                && frequencies[..] == old(frequencies[..]) + [FrequencyValue(frequency).value]
                && name == old(name) && typecode == old(typecode)
      ensures old(Aligned()) ==> Aligned()
    {
      var f := FrequencyValue(frequency);
      if f.Err? {
        return Fail(f.error);
      }
      geneticMap := geneticMap + [mapPosition];
      frequencies := NumpyAppend(frequencies, f.value);
      physicalMap := physicalMap + [bp];
      labels := labels + [markerLabel];
      return Pass;
    }

    /** set_frequency: writes one entry of the frequency vector in place,
        with Python's negative indexing; an index outside the vector raises
        IndexError and changes nothing. */
    method SetFrequency(position: int, frequency: real) returns (r: Outcome<ChromError>)
      modifies frequencies
      ensures PyIndex(position, frequencies.Length).None? ==>
                r == Fail(IndexOutOfRange) && frequencies[..] == old(frequencies[..])
      ensures PyIndex(position, frequencies.Length).Some? ==>
                r == Pass && frequencies[..] == old(frequencies[..])[PyIndex(position, frequencies.Length).value := frequency]
    {
      match PyIndex(position, frequencies.Length)
      case None =>
        return Fail(IndexOutOfRange);
      case Some(i) =>
        frequencies[i] := frequency;
        return Pass;
    }

    /** The check at the top of linkageequilibrium_chromosome: founder
        chromosomes are drawn only when no frequency is negative. */
    function FounderGuard(): (r: Outcome<ChromError>)
      reads this, frequencies
      ensures r == Pass <==> forall i :: 0 <= i < frequencies.Length ==> frequencies[i] >= 0.0
      ensures r.Fail? ==> r.error == UnspecifiedFrequency
    {
      if AnyNegative(frequencies[..]) then Fail(UnspecifiedFrequency) else Pass
    }
  }

  /** A one-marker chromosome built as written: its marker was added with no
      frequency, yet the frequency vector stays empty, so the founder guard
      lets it through and set_frequency(0, ...) raises IndexError. */
  method AsWrittenGuardMissesUnspecified() returns (guard: Outcome<ChromError>, written: Outcome<ChromError>,
                                                    nmark: nat, nfreq: nat)
    ensures nmark == 1 && nfreq == 0
    ensures guard == Pass
    ensures written == Fail(IndexOutOfRange)
  {
    var c := new Chromosome(None);
    var added := c.AddGenotype(Absent, 0.0, None, None);
    nmark := c.NMark();
    nfreq := c.frequencies.Length;
    guard := c.FounderGuard();
    written := c.SetFrequency(0, 0.3);
  }

  /** The same chromosome built with the corrected add_genotype: the vector
      holds the -1 of the unspecified frequency, the guard rejects it, and
      set_frequency(0, ...) fills it in, after which the guard passes. */
  method CorrectedGuardCatchesUnspecified() returns (before: Outcome<ChromError>, written: Outcome<ChromError>,
                                                     after: Outcome<ChromError>, nmark: nat, nfreq: nat)
    ensures nmark == 1 && nfreq == 1
    ensures before == Fail(UnspecifiedFrequency)
    ensures written == Pass
    ensures after == Pass
  {
    var c := new Chromosome(None);
    var added := c.AddGenotypeCorrected(Absent, 0.0, None, None);
    nmark := c.NMark();
    nfreq := c.frequencies.Length;
    before := c.FounderGuard();
    written := c.SetFrequency(0, 0.3);
    after := c.FounderGuard();
  }
}
