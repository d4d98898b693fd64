/** Spectral scrambling of rasters (`scramble_2d`, `scramble_3d`): the
    missing cells are zero-filled, the Fourier phase is replaced, and the
    missing cells are set back to NaN. The floating-point Fourier step and the
    random draw of the phase are not modelled: the step is the parameter
    `spectral` and each draw is an explicit phase. */
module Scramble {
  import opened Values
  import opened Grid

  /** One angle per frequency cell. */
  type Phase = seq<real>

  /** FFT of the zero-filled raster, magnitudes kept, phase replaced by the
      given phase, inverse FFT, real part. */
  type Spectral = (seq<real>, Phase) -> seq<real>

  /** The spectral step returns a raster of the shape it was given. */
  ghost predicate ShapePreserving(spectral: Spectral)
  {
    forall img: seq<real>, phase: Phase :: |spectral(img, phase)| == |img|
  }

  /** The raster handed to the Fourier transform: NaN cells read as 0. */
  function ZeroFilled(img: Slice): (r: seq<real>)
    ensures |r| == |img|
    ensures forall i :: 0 <= i < |img| && img[i].Some? ==> r[i] == img[i].value
    ensures forall i :: 0 <= i < |img| && img[i].None? ==> r[i] == 0.0
  {
    seq(|img|, i requires 0 <= i < |img| => if img[i].None? then 0.0 else img[i].value)
  }

  /** `scramble_2d(img, phase)`: the spectral step's output on the present
      cells, NaN on the cells that were NaN in the input. */
  function Scrambled2D(img: Slice, phase: Phase, spectral: Spectral): (r: Slice)
    requires ShapePreserving(spectral)
    ensures |r| == |img|
    ensures forall i :: 0 <= i < |img| ==> (r[i].None? <==> img[i].None?)
  {
    var out := spectral(ZeroFilled(img), phase);
    seq(|img|, i requires 0 <= i < |img| => if img[i].None? then None else Some(out[i]))
  }

  /** `scramble_3d(data)`: every time slice scrambled on its own, with the
      phase drawn for that slice. */
  function Scrambled3D(data: Cube, draw: nat -> Phase, spectral: Spectral): (r: Cube)
    requires ShapePreserving(spectral)
    ensures |r| == |data| && forall t :: 0 <= t < |data| ==> |r[t]| == |data[t]|
  {
    var r := seq(|data|, t requires 0 <= t < |data| => Scrambled2D(data[t], draw(t), spectral));
    assert forall t :: 0 <= t < |data| ==> r[t] == Scrambled2D(data[t], draw(t), spectral);
    r
  }

  /** The missing-value mask survives scrambling exactly: a cell is NaN in the
      output if and only if it is NaN in the input. */
  lemma MaskPreserved(img: Slice, phase: Phase, spectral: Spectral)
    requires ShapePreserving(spectral)
    ensures |Scrambled2D(img, phase, spectral)| == |img|
    ensures forall i :: 0 <= i < |img| ==> (Scrambled2D(img, phase, spectral)[i].None? <==> img[i].None?)
  {
  }

  /** An all-NaN raster scrambles to an all-NaN raster. */
  lemma AllMissingStaysMissing(img: Slice, phase: Phase, spectral: Spectral)
    requires ShapePreserving(spectral)
    requires forall i :: 0 <= i < |img| ==> img[i].None?
    ensures Scrambled2D(img, phase, spectral) == img
  {
  }

  /** What is in the NaN cells never matters: two rasters with the same mask
      and the same present values scramble alike under the same phase, and
      the present cells carry the spectral step's output on the zero-filled raster. */
  lemma OnlyPresentCellsMatter(a: Slice, b: Slice, phase: Phase, spectral: Spectral)
    requires ShapePreserving(spectral)
    requires |a| == |b| && forall i :: 0 <= i < |a| ==> (a[i].None? <==> b[i].None?) && (a[i].Some? ==> a[i] == b[i])
    ensures Scrambled2D(a, phase, spectral) == Scrambled2D(b, phase, spectral)
  {
    assert ZeroFilled(a) == ZeroFilled(b);
  }

  /** `scramble_3d` keeps the shape, and slice t of its output depends only
      on slice t of the input and the phase drawn for it. */
  lemma SlicesIndependent(data: Cube, other: Cube, draw: nat -> Phase, draw': nat -> Phase, spectral: Spectral, t: nat, cells: nat)
    requires ShapePreserving(spectral)
    requires Uniform(data, cells)
    requires t < |data| && t < |other| && data[t] == other[t] && draw(t) == draw'(t)
    ensures Uniform(Scrambled3D(data, draw, spectral), cells)
    ensures Scrambled3D(data, draw, spectral)[t] == Scrambled3D(other, draw', spectral)[t]
  {
    var r := Scrambled3D(data, draw, spectral);
    forall s | 0 <= s < |r| ensures |r[s]| == cells {
      assert r[s] == Scrambled2D(data[s], draw(s), spectral);
    }
  }

  /** `scramble_2d`: copy the raster, zero-fill its NaN cells in place, run the
      spectral step, then write NaN back into the output at the saved mask. */
  method Scramble2D(img: Slice, phase: Phase, spectral: Spectral) returns (r: Slice)
    requires ShapePreserving(spectral)
    ensures r == Scrambled2D(img, phase, spectral)
  {
    var n := |img|;
    var copy := new Value[n](i requires 0 <= i < n => img[i]);
    var nanInds := new bool[n](i requires 0 <= i < n => img[i].None?);
    ZeroNaN(copy, nanInds);
    var filled := seq(n, j requires 0 <= j < n && copy[j].Some? reads copy => copy[j].value);
    assert filled == ZeroFilled(img);
    var out := spectral(filled, phase);
    var fnew := new Value[n](j requires 0 <= j < n && j < |out| => Some(out[j]));
    RestoreNaN(fnew, nanInds);
    r := fnew[..];
    assert r == Scrambled2D(img, phase, spectral);
  }

  /** `img[nan_inds] = 0`: the masked cells become 0, the others are kept. */
  method ZeroNaN(img: array<Value>, mask: array<bool>)
    requires img.Length == mask.Length
    modifies img
    ensures forall j :: 0 <= j < img.Length ==> img[j] == if mask[j] then Some(0.0) else old(img[j])
  {
    for i := 0 to img.Length
      invariant forall j :: 0 <= j < i ==> img[j] == if mask[j] then Some(0.0) else old(img[j])
      invariant forall j :: i <= j < img.Length ==> img[j] == old(img[j])
    {
      if mask[i] {
        img[i] := Some(0.0);
      }
    }
  }

  /** `fnew[nan_inds] = np.NaN`: the masked cells become NaN, the others are kept. */
  method RestoreNaN(img: array<Value>, mask: array<bool>)
    requires img.Length == mask.Length
    modifies img
    ensures forall j :: 0 <= j < img.Length ==> img[j] == if mask[j] then None else old(img[j])
  {
    for i := 0 to img.Length
      invariant forall j :: 0 <= j < i ==> img[j] == if mask[j] then None else old(img[j])
      invariant forall j :: i <= j < img.Length ==> img[j] == old(img[j])
    {
      if mask[i] {
        img[i] := None;
      }
    }
  }

  /** `scramble_3d`: copy the cube and replace each time slice, in order, by
      its scrambled version, drawing a fresh phase for every slice. */
  method Scramble3D(data: Cube, draw: nat -> Phase, spectral: Spectral) returns (r: Cube)
    requires ShapePreserving(spectral)
    ensures r == Scrambled3D(data, draw, spectral)
  {
    var nt := |data|;
    var copy := new Slice[nt](t requires 0 <= t < nt => data[t]);
    for t := 0 to nt
      invariant forall s :: 0 <= s < t ==> copy[s] == Scrambled2D(data[s], draw(s), spectral)
      invariant forall s :: t <= s < nt ==> copy[s] == data[s]
    {
      copy[t] := Scramble2D(copy[t], draw(t), spectral);
    }
    r := copy[..];
  }
}
