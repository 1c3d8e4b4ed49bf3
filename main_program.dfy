/**
 * The decisions `main` takes on its input: which token is accepted as the waveform mask, how the
 * mask selects waveform kinds, which parameters each selected kind reads, and which amplitudes are
 * accepted. The console is modelled as the sequence of tokens still to be read; running out of
 * tokens (where the Java `Scanner` throws) is `None`.
 */
module MainProgram {
  import opened Wrappers
  import opened WaveForms
  import DSPService

  /** `BITMASK`: the lowest bit. */
  const Bitmask: nat := 1

  // ---------------------------------------------------------------------------------------------
  // The mask token
  // ---------------------------------------------------------------------------------------------

  /** The token matches `[01]{1,5}` as a whole. */
  predicate IsBinaryMask(token: string)
  {
    1 <= |token| <= WaveFormsCount && forall i :: 0 <= i < |token| ==> token[i] == '0' || token[i] == '1'
  }

  /**
   * The mask prompt: tokens that do not match are skipped until one does; the result is the index of
   * the accepted token, or `None` when the input runs out first.
   */
  method ReadMask(tokens: seq<string>) returns (r: Option<nat>)
    ensures r.Some? ==> r.value < |tokens| && IsBinaryMask(tokens[r.value])
    ensures r.Some? ==> forall j :: 0 <= j < r.value ==> !IsBinaryMask(tokens[j])
    ensures r.None? ==> forall j :: 0 <= j < |tokens| ==> !IsBinaryMask(tokens[j])
  {
    var next := 0;
    while next < |tokens| && !IsBinaryMask(tokens[next])
      invariant 0 <= next <= |tokens|
      invariant forall j :: 0 <= j < next ==> !IsBinaryMask(tokens[j])
    {
      next := next + 1;
    }
    if next == |tokens| {
      return None;
    }
    r := Some(next);
  }

  /** `Integer.valueOf(s, 2)` on a string of binary digits: most significant digit first. */
  function BinaryValue(s: string): (v: nat)
    requires forall i :: 0 <= i < |s| ==> s[i] == '0' || s[i] == '1'
    ensures v < Pow2(|s|)
  {
    if s == [] then 0
    else
      var init := s[..|s| - 1];
      assert forall i :: 0 <= i < |init| ==> init[i] == s[i];
      2 * BinaryValue(init) + (if s[|s| - 1] == '1' then 1 else 0)
  }

  function Pow2(n: nat): (p: nat)
    ensures 1 <= p
  {
    if n == 0 then 1 else 2 * Pow2(n - 1)
  }

  /** `v >> i` for a nonnegative `v`: `i` halvings. */
  function ShiftRight(v: nat, i: nat): nat
  {
    if i == 0 then v else ShiftRight(v / 2, i - 1)
  }

  /** `(v >> i & BITMASK) == 1`. */
  predicate BitSet(v: nat, i: nat)
  {
    ShiftRight(v, i) % 2 == Bitmask
  }

  /** Bit `i` of the parsed mask is the digit `i` places from the right of the mask string. */
  lemma {:induction false} BitOfBinaryValue(s: string, i: nat)
    requires forall j :: 0 <= j < |s| ==> s[j] == '0' || s[j] == '1'
    ensures BitSet(BinaryValue(s), i) <==> i < |s| && s[|s| - 1 - i] == '1'
  {
    if s == [] {
      ShiftRightZero(i);
    } else if i > 0 {
      var init := s[..|s| - 1];
      assert BinaryValue(s) / 2 == BinaryValue(init);
      BitOfBinaryValue(init, i - 1);
    }
  }

  lemma {:induction false} ShiftRightZero(i: nat)
    ensures ShiftRight(0, i) == 0
  {
    if i > 0 {
      ShiftRightZero(i - 1);
    }
  }

  /** Shifting by one more place halves the shifted value. */
  lemma {:induction false} ShiftRightStep(v: nat, i: nat)
    ensures ShiftRight(v, i + 1) == ShiftRight(v, i) / 2
  {
    if i > 0 {
      ShiftRightStep(v / 2, i - 1);
    }
  }

  // ---------------------------------------------------------------------------------------------
  // Selection of waveform kinds
  // ---------------------------------------------------------------------------------------------

  /** The kinds with ordinal in `[i, 5)` whose bit is set in `v`, in increasing ordinal. */
  function SelectedKinds(v: nat, i: nat): seq<WaveForm>
    requires i <= WaveFormsCount
    decreases WaveFormsCount - i
  {
    if i == WaveFormsCount then []
    else (if BitSet(v, i) then [KindAt(i)] else []) + SelectedKinds(v, i + 1)
  }

  /** A kind is selected exactly when its bit is set. */
  lemma {:induction false} SelectedKindsMembership(v: nat, i: nat, w: WaveForm)
    requires i <= WaveFormsCount
    ensures w in SelectedKinds(v, i) <==> i <= Ordinal(w) && BitSet(v, Ordinal(w))
    decreases WaveFormsCount - i
  {
    if i < WaveFormsCount {
      var here := if BitSet(v, i) then [KindAt(i)] else [];
      assert SelectedKinds(v, i) == here + SelectedKinds(v, i + 1);
      SelectedKindsMembership(v, i + 1, w);
      KindAtOrdinal(w);
      assert w in here <==> Ordinal(w) == i && BitSet(v, i);
    }
  }

  /** Selected kinds come in strictly increasing ordinal, each at least `i`. */
  lemma {:induction false} SelectedKindsIncreasing(v: nat, i: nat)
    requires i <= WaveFormsCount
    ensures forall a :: 0 <= a < |SelectedKinds(v, i)| ==> i <= Ordinal(SelectedKinds(v, i)[a])
    ensures forall a, b :: 0 <= a < b < |SelectedKinds(v, i)| ==>
              Ordinal(SelectedKinds(v, i)[a]) < Ordinal(SelectedKinds(v, i)[b])
    decreases WaveFormsCount - i
  {
    if i < WaveFormsCount {
      SelectedKindsIncreasing(v, i + 1);
    }
  }

  /** The number of one digits in a string. */
  function Ones(s: string): nat
  {
    if s == [] then 0 else Ones(s[..|s| - 1]) + (if s[|s| - 1] == '1' then 1 else 0)
  }

  /** The number of set bits among the `n` lowest bits of `v`. */
  function LowBitCount(v: nat, n: nat): nat
  {
    if n == 0 then 0 else v % 2 + LowBitCount(v / 2, n - 1)
  }

  lemma {:induction false} LowBitCountZero(n: nat)
    ensures LowBitCount(0, n) == 0
  {
    if n > 0 {
      LowBitCountZero(n - 1);
    }
  }

  /** The set bits of a parsed mask are its one digits. */
  lemma {:induction false} LowBitCountOfBinaryValue(s: string, n: nat)
    requires forall j :: 0 <= j < |s| ==> s[j] == '0' || s[j] == '1'
    requires |s| <= n
    ensures LowBitCount(BinaryValue(s), n) == Ones(s)
  {
    if s == [] {
      LowBitCountZero(n);
    } else {
      var init := s[..|s| - 1];
      assert BinaryValue(s) / 2 == BinaryValue(init);
      LowBitCountOfBinaryValue(init, n - 1);
    }
  }

  /** Selecting from ordinal `i` on yields as many kinds as there are set bits from bit `i` up to bit 4. */
  lemma {:induction false} SelectedKindsCount(v: nat, i: nat)
    requires i <= WaveFormsCount
    ensures |SelectedKinds(v, i)| == LowBitCount(ShiftRight(v, i), WaveFormsCount - i)
    decreases WaveFormsCount - i
  {
    if i < WaveFormsCount {
      SelectedKindsCount(v, i + 1);
      ShiftRightStep(v, i);
    }
  }

  /**
   * For an accepted mask, kind `w` is selected iff the digit `Ordinal(w)` places from the right is 1:
   * the last digit selects SINE, the one before it SQUARE, and so on.
   */
  lemma {:induction false} MaskSelects(s: string, w: WaveForm)
    requires IsBinaryMask(s)
    ensures w in SelectedKinds(BinaryValue(s), 0) <==> Ordinal(w) < |s| && s[|s| - 1 - Ordinal(w)] == '1'
  {
    SelectedKindsMembership(BinaryValue(s), 0, w);
    BitOfBinaryValue(s, Ordinal(w));
  }

  /** For an accepted mask, the number of selected kinds is the number of 1 digits. */
  lemma {:induction false} MaskCount(s: string)
    requires IsBinaryMask(s)
    ensures |SelectedKinds(BinaryValue(s), 0)| == Ones(s)
  {
    SelectedKindsCount(BinaryValue(s), 0);
    LowBitCountOfBinaryValue(s, WaveFormsCount);
  }

  // ---------------------------------------------------------------------------------------------
  // Parameters of the selected kinds
  // ---------------------------------------------------------------------------------------------

  /** The parameters `main` collects for one selected kind before generating its signal. */
  datatype WaveSpec = WaveSpec(kind: WaveForm, frequency: real, phase: real, amplitude: real)

  /** The amplitude check: the value is re-requested while it is above 1.0 or below -1.0. */
  predicate AmplitudeAccepted(amplitude: real)
  {
    !(amplitude > DSPService.MaxAmplitude || amplitude < DSPService.MinAmplitude)
  }

  /** Index of the first acceptable amplitude at or after `pos`, or `None` when the input runs out. */
  function NextAmplitude(input: seq<real>, pos: nat): (r: Option<nat>)
    ensures r.Some? ==> pos <= r.value < |input| && AmplitudeAccepted(input[r.value])
    ensures r.Some? ==> forall k :: pos <= k < r.value ==> !AmplitudeAccepted(input[k])
    ensures r.None? ==> forall k :: pos <= k < |input| ==> !AmplitudeAccepted(input[k])
    decreases |input| - pos
  {
    if pos >= |input| then None
    else if AmplitudeAccepted(input[pos]) then Some(pos)
    else NextAmplitude(input, pos + 1)
  }

  /** The amplitude prompt: read a value and read again while it lies outside `[-1, 1]`. */
  method ReadAmplitude(input: seq<real>, pos: nat) returns (r: Option<nat>)
    ensures r == NextAmplitude(input, pos)
  {
    if pos >= |input| {
      return None;
    }
    var p := pos;
    var amplitude := input[p];
    while amplitude > 1.0 || amplitude < -1.0
      invariant pos <= p < |input| && amplitude == input[p]
      invariant NextAmplitude(input, p) == NextAmplitude(input, pos)
      decreases |input| - p
    {
      p := p + 1;
      if p >= |input| {
        return None;
      }
      amplitude := input[p];
    }
    r := Some(p);
  }

  /**
   * What `main` reads for one selected kind, starting at input position `pos`: NOISE reads only an
   * amplitude and keeps frequency and phase 0; every other kind reads a frequency and a phase first.
   * The result is the spec and the position after the accepted amplitude.
   */
  function ReadOne(kind: WaveForm, input: seq<real>, pos: nat): Option<(WaveSpec, nat)>
  {
    var needed := if kind == Noise then 0 else 2;
    if pos + needed > |input| then None
    else
      var frequency := if kind == Noise then 0.0 else input[pos];
      var phase := if kind == Noise then 0.0 else input[pos + 1];
      match NextAmplitude(input, pos + needed)
      case None => None
      case Some(k) => Some((WaveSpec(kind, frequency, phase, input[k]), k + 1))
  }

  /** `Some(done + rest)` when the remaining reads succeed with `rest`. */
  function Prepend(done: seq<WaveSpec>, rest: Option<seq<WaveSpec>>): Option<seq<WaveSpec>>
  {
    match rest
    case None => None
    case Some(r) => Some(done + r)
  }

  /** What the selection loop reads for the kinds from ordinal `i` on, starting at input position `pos`. */
  function ReadSpecs(v: nat, input: seq<real>, i: nat, pos: nat): Option<seq<WaveSpec>>
    requires i <= WaveFormsCount
    decreases WaveFormsCount - i
  {
    if i == WaveFormsCount then Some([])
    else if !BitSet(v, i) then ReadSpecs(v, input, i + 1, pos)
    else
      match ReadOne(KindAt(i), input, pos)
      case None => None
      case Some((spec, next)) => Prepend([spec], ReadSpecs(v, input, i + 1, next))
  }

  /** The prompts for one selected kind: frequency and phase unless it is NOISE, then the amplitude. */
  method ReadWaveSpec(currentWaveForm: WaveForm, input: seq<real>, pos: nat) returns (r: Option<(WaveSpec, nat)>)
    ensures r == ReadOne(currentWaveForm, input, pos)
  {
    var frequency := 0.0;
    var phase := 0.0;
    var p := pos;
    if currentWaveForm != Noise {
      if pos + 2 > |input| {
        return None;
      }
      frequency := input[pos];
      phase := input[pos + 1];
      p := pos + 2;
    }
    var k := ReadAmplitude(input, p);
    if k.None? {
      return None;
    }
    r := Some((WaveSpec(currentWaveForm, frequency, phase, input[k.value]), k.value + 1));
  }

  /** The selection loop of `main`: for bits 0 to 4 of the mask, read the parameters of each selected kind. */
  method ReadWaveSpecs(binaryValue: nat, input: seq<real>) returns (r: Option<seq<WaveSpec>>)
    ensures r == ReadSpecs(binaryValue, input, 0, 0)
  {
    ghost var all := ReadSpecs(binaryValue, input, 0, 0);
    var waveSignals: seq<WaveSpec> := [];
    var pos: nat := 0;
    PrependNothing(all);
    for i := 0 to WaveFormsCount
      invariant Prepend(waveSignals, ReadSpecs(binaryValue, input, i, pos)) == all
    {
      if BitSet(binaryValue, i) {
        var read := ReadWaveSpec(KindAt(i), input, pos);
        ReadSpecsTake(binaryValue, input, i, pos, waveSignals);
        if read.None? {
          return None;
        }
        waveSignals := waveSignals + [read.value.0];
        pos := read.value.1;
      } else {
        ReadSpecsSkip(binaryValue, input, i, pos);
      }
    }
    PrependNothing(Some(waveSignals));
    r := Some(waveSignals);
  }

  /** An unselected kind reads nothing. */
  lemma {:induction false} ReadSpecsSkip(v: nat, input: seq<real>, i: nat, pos: nat)
    requires i < WaveFormsCount && !BitSet(v, i)
    ensures ReadSpecs(v, input, i, pos) == ReadSpecs(v, input, i + 1, pos)
  {
  }

  /**
   * A selected kind reads its spec, then the following kinds read on from where it stopped; after
   * `done` has been read, a failed read of this kind fails the whole selection.
   */
  lemma {:induction false} ReadSpecsTake(v: nat, input: seq<real>, i: nat, pos: nat, done: seq<WaveSpec>)
    requires i < WaveFormsCount && BitSet(v, i)
    ensures ReadOne(KindAt(i), input, pos).None? ==> Prepend(done, ReadSpecs(v, input, i, pos)).None?
    ensures ReadOne(KindAt(i), input, pos).Some? ==>
              var (spec, next) := ReadOne(KindAt(i), input, pos).value;
              Prepend(done, ReadSpecs(v, input, i, pos)) == Prepend(done + [spec], ReadSpecs(v, input, i + 1, next))
  {
    match ReadOne(KindAt(i), input, pos)
    case None =>
    case Some((spec, next)) =>
      var rest := ReadSpecs(v, input, i + 1, next);
      if rest.Some? {
        assert done + ([spec] + rest.value) == (done + [spec]) + rest.value;
      }
  }

  /** Prepending nothing, or appending to nothing, changes nothing. */
  lemma {:induction false} PrependNothing(rest: Option<seq<WaveSpec>>)
    ensures Prepend([], rest) == rest
    ensures rest.Some? ==> Prepend(rest.value, Some([])) == rest
  {
    if rest.Some? {
      assert [] + rest.value == rest.value;
      assert rest.value + [] == rest.value;
    }
  }

  /** The kinds of a list of specs, in order. */
  function Kinds(specs: seq<WaveSpec>): (ks: seq<WaveForm>)
    ensures |ks| == |specs| && forall j :: 0 <= j < |specs| ==> ks[j] == specs[j].kind
  {
    if specs == [] then [] else [specs[0].kind] + Kinds(specs[1..])
  }

  /** A spec as `main` can build it: an accepted amplitude, and frequency and phase 0 for NOISE. */
  predicate WellFormed(spec: WaveSpec)
  {
    AmplitudeAccepted(spec.amplitude) && (spec.kind == Noise ==> spec.frequency == 0.0 && spec.phase == 0.0)
  }

  /** Every spec read for one kind has that kind and is well formed. */
  lemma {:induction false} ReadOneWellFormed(kind: WaveForm, input: seq<real>, pos: nat)
    requires ReadOne(kind, input, pos).Some?
    ensures ReadOne(kind, input, pos).value.0.kind == kind
    ensures WellFormed(ReadOne(kind, input, pos).value.0)
    ensures pos < ReadOne(kind, input, pos).value.1
  {
  }

  /**
   * Whatever the input, a successful read yields one spec per selected kind, in order, each with an
   * accepted amplitude, and NOISE with frequency and phase 0.
   */
  lemma {:induction false} ReadSpecsShape(v: nat, input: seq<real>, i: nat, pos: nat)
    requires i <= WaveFormsCount
    requires ReadSpecs(v, input, i, pos).Some?
    ensures Kinds(ReadSpecs(v, input, i, pos).value) == SelectedKinds(v, i)
    ensures forall spec :: spec in ReadSpecs(v, input, i, pos).value ==> WellFormed(spec)
    decreases WaveFormsCount - i
  {
    if i < WaveFormsCount {
      if !BitSet(v, i) {
        ReadSpecsShape(v, input, i + 1, pos);
      } else {
        var (spec, next) := ReadOne(KindAt(i), input, pos).value;
        ReadOneWellFormed(KindAt(i), input, pos);
        var specs := ReadSpecs(v, input, i, pos).value;
        var rest := ReadSpecs(v, input, i + 1, next).value;
        assert specs == [spec] + rest;
        ReadSpecsShape(v, input, i + 1, next);
        assert specs[1..] == rest;
        assert Kinds(specs) == [KindAt(i)] + Kinds(rest);
      }
    }
  }

  /**
   * With enough input, the read never fails: if every value is an acceptable amplitude and there are
   * three per selected kind, the parameters of every selected kind are read.
   */
  lemma {:induction false} ReadSpecsSucceeds(v: nat, input: seq<real>, i: nat, pos: nat)
    requires i <= WaveFormsCount
    requires forall k :: 0 <= k < |input| ==> AmplitudeAccepted(input[k])
    requires pos + 3 * |SelectedKinds(v, i)| <= |input|
    ensures ReadSpecs(v, input, i, pos).Some?
    decreases WaveFormsCount - i
  {
    if i < WaveFormsCount {
      if !BitSet(v, i) {
        assert SelectedKinds(v, i) == SelectedKinds(v, i + 1);
        ReadSpecsSkip(v, input, i, pos);
        ReadSpecsSucceeds(v, input, i + 1, pos);
      } else {
        assert SelectedKinds(v, i) == [KindAt(i)] + SelectedKinds(v, i + 1);
        var next := ReadOneSucceeds(KindAt(i), input, pos);
        ReadSpecsSucceeds(v, input, i + 1, next);
      }
    }
  }

  /** With three acceptable values available, one kind's read succeeds and consumes at most three. */
  lemma {:induction false} ReadOneSucceeds(kind: WaveForm, input: seq<real>, pos: nat) returns (next: nat)
    requires forall k :: 0 <= k < |input| ==> AmplitudeAccepted(input[k])
    requires pos + 3 <= |input|
    ensures ReadOne(kind, input, pos).Some? && ReadOne(kind, input, pos).value.1 == next
    ensures next <= pos + 3
  {
    var needed := if kind == Noise then 0 else 2;
    assert NextAmplitude(input, pos + needed) == Some(pos + needed);
    next := pos + needed + 1;
  }

  /** The values a user types for one spec: the amplitude, preceded by frequency and phase unless NOISE. */
  function SpecInputs(spec: WaveSpec): (values: seq<real>)
    ensures |values| == if spec.kind == Noise then 1 else 3
  {
    if spec.kind == Noise then [spec.amplitude] else [spec.frequency, spec.phase, spec.amplitude]
  }

  /** The values typed for a list of specs, in order. */
  function Inputs(specs: seq<WaveSpec>): seq<real>
  {
    if specs == [] then [] else SpecInputs(specs[0]) + Inputs(specs[1..])
  }

  /** Typing the values of a well-formed spec makes one kind's read return that spec. */
  lemma {:induction false} ReadOneInputs(spec: WaveSpec, input: seq<real>, pos: nat)
    requires WellFormed(spec)
    requires pos + |SpecInputs(spec)| <= |input|
    requires input[pos..pos + |SpecInputs(spec)|] == SpecInputs(spec)
    ensures ReadOne(spec.kind, input, pos) == Some((spec, pos + |SpecInputs(spec)|))
  {
    var n := |SpecInputs(spec)|;
    assert input[pos + n - 1] == SpecInputs(spec)[n - 1];
    if spec.kind != Noise {
      assert input[pos] == SpecInputs(spec)[0];
      assert input[pos + 1] == SpecInputs(spec)[1];
    }
    assert NextAmplitude(input, pos + n - 1) == Some(pos + n - 1);
  }

  /**
   * Reading is the inverse of typing: well-formed specs, one per selected kind in increasing kind
   * order, typed from position `pos` on, are read back exactly (whatever follows them).
   */
  lemma {:induction false} ReadSpecsRoundTrip(v: nat, input: seq<real>, i: nat, pos: nat, specs: seq<WaveSpec>)
    requires i <= WaveFormsCount
    requires Kinds(specs) == SelectedKinds(v, i)
    requires forall j :: 0 <= j < |specs| ==> WellFormed(specs[j])
    requires pos + |Inputs(specs)| <= |input| && input[pos..pos + |Inputs(specs)|] == Inputs(specs)
    ensures ReadSpecs(v, input, i, pos) == Some(specs)
    decreases WaveFormsCount - i, 1
  {
    if i == WaveFormsCount {
      assert |specs| == |Kinds(specs)| == 0;
    } else if !BitSet(v, i) {
      assert SelectedKinds(v, i) == SelectedKinds(v, i + 1);
      ReadSpecsRoundTrip(v, input, i + 1, pos, specs);
    } else {
      ReadSpecsRoundTripSelected(v, input, i, pos, specs);
    }
  }

  /** The round trip when kind `i` is selected: its spec is read first, then the rest. */
  lemma {:induction false} ReadSpecsRoundTripSelected(v: nat, input: seq<real>, i: nat, pos: nat, specs: seq<WaveSpec>)
    requires i < WaveFormsCount && BitSet(v, i)
    requires Kinds(specs) == SelectedKinds(v, i)
    requires forall j :: 0 <= j < |specs| ==> WellFormed(specs[j])
    requires pos + |Inputs(specs)| <= |input| && input[pos..pos + |Inputs(specs)|] == Inputs(specs)
    ensures ReadSpecs(v, input, i, pos) == Some(specs)
    decreases WaveFormsCount - i, 0
  {
    KindsSelected(v, i, specs);
    InputsSplit(input, pos, specs);
    ReadSpecsRoundTrip(v, input, i + 1, pos + |SpecInputs(specs[0])|, specs[1..]);
    ReadSpecsTypedStep(v, input, i, pos, specs);
  }

  /** When kind `i` is selected, the first spec has that kind and the others the kinds after it. */
  lemma {:induction false} KindsSelected(v: nat, i: nat, specs: seq<WaveSpec>)
    requires i < WaveFormsCount && BitSet(v, i)
    requires Kinds(specs) == SelectedKinds(v, i)
    ensures |specs| > 0 && specs[0].kind == KindAt(i)
    ensures Kinds(specs[1..]) == SelectedKinds(v, i + 1)
  {
    assert SelectedKinds(v, i) == [KindAt(i)] + SelectedKinds(v, i + 1);
    assert Kinds(specs) == [specs[0].kind] + Kinds(specs[1..]);
  }

  /** The values typed for a non-empty list of specs are those of its first spec, then those of the rest. */
  lemma {:induction false} InputsSplit(input: seq<real>, pos: nat, specs: seq<WaveSpec>)
    requires |specs| > 0
    requires pos + |Inputs(specs)| <= |input| && input[pos..pos + |Inputs(specs)|] == Inputs(specs)
    ensures pos + |SpecInputs(specs[0])| + |Inputs(specs[1..])| <= |input|
    ensures input[pos..pos + |SpecInputs(specs[0])|] == SpecInputs(specs[0])
    ensures input[pos + |SpecInputs(specs[0])|..pos + |SpecInputs(specs[0])| + |Inputs(specs[1..])|] == Inputs(specs[1..])
  {
    assert Inputs(specs) == SpecInputs(specs[0]) + Inputs(specs[1..]);
    SliceSplit(input, pos, SpecInputs(specs[0]), Inputs(specs[1..]));
  }

  /** One selected kind whose values are typed next: its spec is read, then the rest as before. */
  lemma {:induction false} ReadSpecsTypedStep(v: nat, input: seq<real>, i: nat, pos: nat, specs: seq<WaveSpec>)
    requires i < WaveFormsCount && BitSet(v, i) && |specs| > 0
    requires specs[0].kind == KindAt(i) && WellFormed(specs[0])
    requires pos + |SpecInputs(specs[0])| <= |input| && input[pos..pos + |SpecInputs(specs[0])|] == SpecInputs(specs[0])
    requires ReadSpecs(v, input, i + 1, pos + |SpecInputs(specs[0])|) == Some(specs[1..])
    ensures ReadSpecs(v, input, i, pos) == Some(specs)
  {
    ReadOneInputs(specs[0], input, pos);
    assert specs == [specs[0]] + specs[1..];
  }

  /** A typed run of `a + b` is a run of `a` followed by a run of `b`. */
  lemma {:induction false} SliceSplit(input: seq<real>, pos: nat, a: seq<real>, b: seq<real>)
    requires pos + |a| + |b| <= |input| && input[pos..pos + |a| + |b|] == a + b
    ensures input[pos..pos + |a|] == a
    ensures input[pos + |a|..pos + |a| + |b|] == b
  {
    assert input[pos..pos + |a|] == (a + b)[..|a|];
    assert input[pos + |a|..pos + |a| + |b|] == (a + b)[|a|..];
  }

  // ---------------------------------------------------------------------------------------------
  // The polyharmonic signal
  // ---------------------------------------------------------------------------------------------

  /** Sample `n` of the signal generated for `spec`, given each kind's (uninterpreted) formula. */
  function SpecSample(waveFunctions: WaveForm -> DSPService.WaveFunction, spec: WaveSpec, n: int): real
  {
    waveFunctions(spec.kind)(spec.amplitude, spec.frequency, spec.phase, n)
  }

  /** The sum of sample `n` over the signals of all specs. */
  function SpecSum(waveFunctions: WaveForm -> DSPService.WaveFunction, specs: seq<WaveSpec>, n: int): real
  {
    if specs == [] then 0.0 else SpecSample(waveFunctions, specs[0], n) + SpecSum(waveFunctions, specs[1..], n)
  }

  /**
   * The polyharmonic signal of `main`: one buffer of `ms` milliseconds per spec, then mixed. Every
   * buffer has the same length, so the mixer's length requirement holds; an empty list (an all-zero
   * mask) is excluded because the mixer reads the first buffer.
   */
  method GenerateAndMix(waveFunctions: WaveForm -> DSPService.WaveFunction, ms: nat, specs: seq<WaveSpec>)
    returns (resultSignal: array<real>)
    requires |specs| > 0
    ensures fresh(resultSignal)
    ensures resultSignal.Length == DSPService.BufferLength(ms)
    ensures forall n :: 0 <= n < resultSignal.Length ==> resultSignal[n] == SpecSum(waveFunctions, specs, n)
  {
    var len := DSPService.BufferLength(ms);
    var waveSignals: seq<array<real>> := [];
    for j := 0 to |specs|
      invariant |waveSignals| == j
      invariant forall a :: 0 <= a < j ==> waveSignals[a].Length == len
      invariant forall a, n :: 0 <= a < j && 0 <= n < len ==> waveSignals[a][n] == SpecSample(waveFunctions, specs[a], n)
    {
      var spec := specs[j];
      var buffer := DSPService.GenerateSignal(waveFunctions(spec.kind), ms, spec.frequency, spec.amplitude, spec.phase);
      waveSignals := waveSignals + [buffer];
    }
    resultSignal := DSPService.MixComplexSignal(waveSignals);
    ghost var ss := DSPService.Contents(waveSignals);
    forall n | 0 <= n < len
      ensures resultSignal[n] == SpecSum(waveFunctions, specs, n)
    {
      DSPService.MixIsElementwiseSum(ss, n);
      SumAtSpecs(waveFunctions, ss, specs, len, n);
    }
  }

  /** Summing the generated buffers at `n` is summing the specs' samples at `n`. */
  lemma {:induction false} SumAtSpecs(waveFunctions: WaveForm -> DSPService.WaveFunction, ss: seq<seq<real>>,
                                      specs: seq<WaveSpec>, len: nat, n: nat)
    requires |ss| == |specs| && n < len
    requires forall a :: 0 <= a < |ss| ==> |ss[a]| == len
    requires forall a :: 0 <= a < |ss| ==> ss[a][n] == SpecSample(waveFunctions, specs[a], n)
    ensures DSPService.SumAt(ss, n) == SpecSum(waveFunctions, specs, n)
  {
    if ss != [] {
      SumAtSpecs(waveFunctions, ss[1..], specs[1..], len, n);
    }
  }
}
