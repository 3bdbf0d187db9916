/**
 * The C readers of 21cmFAST output: each formats the path
 * `<path>/<Prefix>_z%.3f_s%ld.h5`, opens it, reads one float dataset of
 * one group into the caller's buffer, closes the file, and then may
 * rewrite the first `global_N3_smooth` entries of the buffer in place.
 *
 * | reader                   | file prefix      | group            | dataset           | transform     |
 * |--------------------------|------------------|------------------|-------------------|---------------|
 * | `read_density`           | PerturbedField   | PerturbedField   | density           | none          |
 * | `read_velocity`          | PerturbedField   | PerturbedField   | velocity          | unit change   |
 * | `read_velocity_gradient` | VelocityGradient | VelocityGradient | velocity_gradient | none          |
 * | `read_ionized_fraction`  | IonizedBox       | IonizedBox       | xH_box            | x to 1 - x    |
 * | `read_spin_temperature`  | TsBox            | TsBox            | Ts_box            | none          |
 *
 * Buffer entries are `real`: the single-precision rounding of the C code
 * is not modelled. The redshift is in thousandths, as everywhere else.
 */
module Readers {
  import opened Strings
  import opened Hdf5
  import opened HdfUtil
  import Rename
  import ComputeDvdr

  /** Which of the five readers. */
  datatype Field = Density | Velocity | VelocityGradientField | IonizedFraction | SpinTemperature

  /** The file-name prefix in the reader's `sprintf` format; each reader also reads the group of that name. */
  function FilePrefix(f: Field): string
  {
    match f
    case Density => "PerturbedField"
    case Velocity => "PerturbedField"
    case VelocityGradientField => "VelocityGradient"
    case IonizedFraction => "IonizedBox"
    case SpinTemperature => "TsBox"
  }

  /** The dataset each reader reads. */
  function DatasetOf(f: Field): string
  {
    match f
    case Density => "density"
    case Velocity => "velocity"
    case VelocityGradientField => "velocity_gradient"
    case IonizedFraction => "xH_box"
    case SpinTemperature => "Ts_box"
  }

  /** `sprintf(hf, "%s/<Prefix>_z%.3f_s%ld.h5", path, z, seed)`: the same format the renaming script writes. */
  function ReaderPath(path: string, f: Field, z: nat, seed: nat): string
  {
    path + "/" + Rename.NewName(FilePrefix(f), z, seed)
  }

  /**
   * The redshift and seed can be read back from any reader's path whose
   * directory has no digits, with the batch driver's regular expressions.
   */
  lemma ReaderPathParses(path: string, f: Field, z: nat, seed: nat)
    requires NoDigits(path)
    ensures ComputeDvdr.Search(ComputeDvdr.RedshiftPattern, ReaderPath(path, f, z, seed)) == Some(z)
    ensures ComputeDvdr.Search(ComputeDvdr.SeedPattern, ReaderPath(path, f, z, seed)) == Some(seed)
  {
    var prefix := path + "/" + FilePrefix(f);
    assert ReaderPath(path, f, z, seed) == prefix + Rename.Suffix(z, seed) by {
      assert Rename.NewName(FilePrefix(f), z, seed) == FilePrefix(f) + Rename.Suffix(z, seed);
    }
    assert NoDigits(prefix) by {
      FilePrefixNoDigits(f);
      NoDigitsAroundSlash(path, FilePrefix(f));
    }
    ComputeDvdr.RoundTrip(prefix, z, seed);
  }

  /** No reader's file prefix holds a digit. */
  lemma FilePrefixNoDigits(f: Field)
    ensures NoDigits(FilePrefix(f))
  {
    var p := FilePrefix(f);
    assert forall i :: 0 <= i < |p| ==> 'A' <= p[i] <= 'z';
  }

  /** Two digit-free strings joined by '/' are digit-free. */
  lemma NoDigitsAroundSlash(a: string, b: string)
    requires NoDigits(a) && NoDigits(b)
    ensures NoDigits(a + "/" + b)
  {
    var s := a + "/" + b;
    assert forall i :: 0 <= i < |a| ==> s[i] == a[i];
    assert forall i :: |a| < i < |s| ==> s[i] == b[i - |a| - 1];
  }

  /** In a digit-free directory, different redshifts or seeds give one reader different files. */
  lemma ReaderPathInjective(path: string, f: Field, z1: nat, seed1: nat, z2: nat, seed2: nat)
    requires NoDigits(path)
    requires ReaderPath(path, f, z1, seed1) == ReaderPath(path, f, z2, seed2)
    ensures z1 == z2 && seed1 == seed2
  {
    ReaderPathParses(path, f, z1, seed1);
    ReaderPathParses(path, f, z2, seed2);
  }

  /** `read_density` and `read_velocity` open the same file and read different datasets of the same group. */
  lemma DensityAndVelocityShareFile(path: string, z: nat, seed: nat)
    ensures ReaderPath(path, Density, z, seed) == ReaderPath(path, Velocity, z, seed)
    ensures FilePrefix(Density) == FilePrefix(Velocity) && DatasetOf(Density) != DatasetOf(Velocity)
  {
  }

  /**
   * `read_velocity_gradient` reads what `write_vel_gradient` writes: the
   * path is the writer's output name inside `path`, and a successful read
   * of the written file returns the read status and delivers the gradient.
   */
  lemma VelocityGradientReadsWriterOutput(
    inp: File, order: seq<string>, prior: File, gradient: Dataset,
    path: string, z: nat, seed: nat, readStatus: int)
    requires ComputeDvdr.Distinct(order)
    requires forall k :: 0 <= k < |order| ==> order[k] in inp.groups
    requires forall g :: g in inp.groups ==> g in order
    requires ComputeDvdr.WriteVelGradient(inp, order, prior, gradient).Ok?
    requires readStatus >= 0
    ensures ReaderPath(path, VelocityGradientField, z, seed) == path + "/" + ComputeDvdr.OutputName(z, seed)
    ensures var out := ComputeDvdr.WriteVelGradient(inp, order, prior, gradient).value;
            var g := FilePrefix(VelocityGradientField);
            var d := DatasetOf(VelocityGradientField);
            ReadOutcome(out, g, d, readStatus) == Return(readStatus) &&
            out.groups[g].datasets[d] == gradient
  {
    var out := ComputeDvdr.WriteVelGradient(inp, order, prior, gradient).value;
    assert FilePrefix(VelocityGradientField) == ComputeDvdr.VelocityGradient;
    assert DatasetOf(VelocityGradientField) == ComputeDvdr.GradientDataset;
    assert out.groups[ComputeDvdr.VelocityGradient].datasets[ComputeDvdr.GradientDataset] == gradient;
  }

  // The unit change of `read_velocity`

  /** Metres per megaparsec, the value of the constant `Mpc_to_m`. */
  const MpcToM: real := 30856775800000000000000.0

  /** The speed of light in metres per second, the constant `c`. */
  const SpeedOfLight: real := 299792458.0

  /** `temp[i] * Mpc_to_m / c / (z + 1.)`: comoving Mpc per second to proper metres per second per c. */
  function ToSimUnits(v: real, z: nat): real
  {
    v * MpcToM / SpeedOfLight / (z as real / 1000.0 + 1.0)
  }

  /** The inverse conversion, back to 21cmFAST's units. */
  function FromSimUnits(u: real, z: nat): real
  {
    u * SpeedOfLight * (z as real / 1000.0 + 1.0) / MpcToM
  }

  /** The conversion is a positive rescaling: it is undone by its inverse and keeps the sign. */
  lemma ToSimUnitsInvertible(v: real, z: nat)
    ensures FromSimUnits(ToSimUnits(v, z), z) == v
    ensures ToSimUnits(v, z) > 0.0 <==> v > 0.0
    ensures ToSimUnits(v, z) == 0.0 <==> v == 0.0
  {
    var a := z as real / 1000.0 + 1.0;
    var k := MpcToM / SpeedOfLight / a;
    assert a >= 1.0;
    assert k > 0.0;
    assert ToSimUnits(v, z) == v * k;
    assert FromSimUnits(v * k, z) == v * (k * SpeedOfLight * a / MpcToM);
    assert k * SpeedOfLight * a == MpcToM;
  }

  // The complement of `read_ionized_fraction`

  /** `1. - temp[i]`: the ionized fraction turned into the neutral fraction. */
  function NeutralFraction(x: real): real
  {
    1.0 - x
  }

  /** Taking the complement twice gives the value back, and a fraction stays a fraction. */
  lemma NeutralFractionInvolution(x: real)
    ensures NeutralFraction(NeutralFraction(x)) == x
    ensures 0.0 <= x <= 1.0 ==> 0.0 <= NeutralFraction(x) <= 1.0
  {
  }

  /** The per-element rewrite a reader applies after closing the file. */
  function Transform(f: Field, x: real, z: nat): real
  {
    match f
    case Velocity => ToSimUnits(x, z)
    case IonizedFraction => NeutralFraction(x)
    case _ => x
  }

  /** The buffer after a reader's loop over its first `n` entries; the other entries are kept. */
  function Transformed(f: Field, s: seq<real>, n: nat, z: nat): (r: seq<real>)
    requires n <= |s|
    ensures |r| == |s|
    ensures forall i :: n <= i < |s| ==> r[i] == s[i]
  {
    seq(|s|, i requires 0 <= i < |s| => if i < n then Transform(f, s[i], z) else s[i])
  }

  /** The density, velocity-gradient and spin-temperature readers leave the buffer as read. */
  lemma UntransformedReaders(f: Field, s: seq<real>, n: nat, z: nat)
    requires f == Density || f == VelocityGradientField || f == SpinTemperature
    requires n <= |s|
    ensures Transformed(f, s, n, z) == s
  {
  }

  /** Converting the ionized fraction twice restores the buffer. */
  lemma IonizedTransformInvolution(s: seq<real>, n: nat, z: nat)
    requires n <= |s|
    ensures Transformed(IonizedFraction, Transformed(IonizedFraction, s, n, z), n, z) == s
  {
    var t := Transformed(IonizedFraction, s, n, z);
    forall i | 0 <= i < n
      ensures Transformed(IonizedFraction, t, n, z)[i] == s[i]
    {
      NeutralFractionInvolution(s[i]);
    }
  }

  /** Every converted velocity is undone by the inverse conversion. */
  lemma VelocityTransformInvertible(s: seq<real>, n: nat, z: nat)
    requires n <= |s|
    ensures forall i :: 0 <= i < n ==> FromSimUnits(Transformed(Velocity, s, n, z)[i], z) == s[i]
  {
    forall i | 0 <= i < n
      ensures FromSimUnits(Transformed(Velocity, s, n, z)[i], z) == s[i]
    {
      ToSimUnitsInvertible(s[i], z);
    }
  }

  /** The loop of `read_velocity`, in place over the first `n` entries. */
  method ConvertVelocityUnits(temp: array<real>, n: nat, z: nat)
    requires n <= temp.Length
    modifies temp
    ensures forall k :: 0 <= k < n ==> temp[k] == ToSimUnits(old(temp[k]), z)
    ensures forall k :: n <= k < temp.Length ==> temp[k] == old(temp[k])
  {
    var i := 0;
    while i < n
      invariant 0 <= i <= n
      invariant forall k :: 0 <= k < i ==> temp[k] == ToSimUnits(old(temp[k]), z)
      invariant forall k :: i <= k < temp.Length ==> temp[k] == old(temp[k])
    {
      temp[i] := temp[i] * MpcToM / SpeedOfLight / (z as real / 1000.0 + 1.0);
      i := i + 1;
    }
  }

  /** The loop of `read_ionized_fraction`, in place over the first `n` entries. */
  method IonizedToNeutral(temp: array<real>, n: nat)
    requires n <= temp.Length
    modifies temp
    ensures forall k :: 0 <= k < n ==> temp[k] == NeutralFraction(old(temp[k]))
    ensures forall k :: n <= k < temp.Length ==> temp[k] == old(temp[k])
  {
    var i := 0;
    while i < n
      invariant 0 <= i <= n
      invariant forall k :: 0 <= k < i ==> temp[k] == NeutralFraction(old(temp[k]))
      invariant forall k :: i <= k < temp.Length ==> temp[k] == old(temp[k])
    {
      temp[i] := 1.0 - temp[i];
      i := i + 1;
    }
  }

  /** The buffer after a successful read of `data` into it: `data` in front, the rest as before. */
  function Loaded(before: seq<real>, data: seq<real>): (r: seq<real>)
    requires |data| <= |before|
    ensures |r| == |before| && r[..|data|] == data && r[|data|..] == before[|data|..]
  {
    data + before[|data|..]
  }

  /**
   * What a reader ends in. The reader overwrites the read status with the
   * close status, so a reader that returns returns the close status. When
   * the dataset is missing, `read_dataset_float` ends without a return
   * value; the reader stores that value and overwrites it at once, so it
   * goes on to close the file like a reader whose read succeeded.
   */
  function ReaderOutcome(fs: map<string, File>, path: string, f: Field, z: nat, seed: nat,
                         readStatus: int, closeStatus: int): (r: Outcome<int>)
    ensures r.Return? <==>
              var hf := ReaderPath(path, f, z, seed);
              hf in fs && FilePrefix(f) in fs[hf].groups &&
              (DatasetOf(f) in fs[hf].groups[FilePrefix(f)].datasets ==> readStatus >= 0) &&
              closeStatus >= 0
    ensures r.Return? ==> r.value == closeStatus
    ensures r.Exit? ==> r == Exit(1)
    ensures !r.Undefined?
  {
    match OpenHf(fs, ReaderPath(path, f, z, seed))
    case Return(file) =>
      (match ReadOutcome(file, FilePrefix(f), DatasetOf(f), readStatus)
       case Exit(c) => Exit(c)
       case _ => CloseHf(closeStatus))
    case _ => Exit(1)
  }

  /**
   * One `read_*` function: `fs` is the file system, `readStatus` and
   * `closeStatus` what the library's read and close return, `n` the value
   * of `global_N3_smooth`, and `temp` the caller's buffer, which must hold
   * the dataset and `n` entries. After `exit(1)` the buffer is of no
   * further interest, so only a reader that returns states it: the dataset
   * loaded in front when it exists, the buffer as it was when it does not,
   * and then the reader's transform.
   */
  method ReadField(fs: map<string, File>, path: string, f: Field, z: nat, seed: nat,
                   readStatus: int, closeStatus: int, n: nat, temp: array<real>)
    returns (r: Outcome<int>)
    requires n <= temp.Length
    requires var hf := ReaderPath(path, f, z, seed);
             hf in fs && FilePrefix(f) in fs[hf].groups && DatasetOf(f) in fs[hf].groups[FilePrefix(f)].datasets ==>
               |fs[hf].groups[FilePrefix(f)].datasets[DatasetOf(f)].data| <= temp.Length
    modifies temp
    ensures r == ReaderOutcome(fs, path, f, z, seed, readStatus, closeStatus)
    ensures r.Return? ==>
              var group := fs[ReaderPath(path, f, z, seed)].groups[FilePrefix(f)];
              temp[..] == Transformed(f, if DatasetOf(f) in group.datasets
                                         then Loaded(old(temp[..]), group.datasets[DatasetOf(f)].data)
                                         else old(temp[..]), n, z)
  {
    var hf := ReaderPath(path, f, z, seed);
    var hid := OpenHf(fs, hf);
    if !hid.Return? {
      return Exit(1);
    }
    var read := ReadDatasetFloat(hid.value, FilePrefix(f), DatasetOf(f), readStatus, temp);
    if read.Exit? {
      return Exit(1);
    }
    r := CloseHf(closeStatus);
    if r.Exit? {
      return;
    }
    ghost var loaded := temp[..];
    if f == Velocity {
      ConvertVelocityUnits(temp, n, z);
    } else if f == IonizedFraction {
      IonizedToNeutral(temp, n);
    } else {
      UntransformedReaders(f, loaded, n, z);
    }
    assert temp[..] == Transformed(f, loaded, n, z);
  }
}
