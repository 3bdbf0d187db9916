/**
 * The file layer of the velocity-gradient script: the names of the input
 * (PerturbedField) and output (VelocityGradient) files, the batch driver
 * that recovers each input's redshift and seed from its name with the
 * regular expressions `z(\d+\.\d{3})` and `s(\d+)`, and the layout of the
 * output file: a verbatim copy of every top-level group's attributes
 * except PerturbedField's, plus the new `VelocityGradient/velocity_gradient`
 * dataset. The gradient itself (Fourier derivative divided by H(z)) is a
 * parameter of the model.
 */
module ComputeDvdr {
  import opened Strings
  import opened Hdf5
  import Rename

  const PerturbedField: string := "PerturbedField"
  const VelocityGradient: string := "VelocityGradient"
  const VelocityDataset: string := "velocity"
  const GradientDataset: string := "velocity_gradient"
  const UserParams: string := "user_params"
  const CosmoParams: string := "cosmo_params"

  /** `f'PerturbedField_z{z:.3f}_s{seed:d}.h5'` */
  function InputName(z: nat, seed: nat): string
  {
    Rename.NewName(PerturbedField, z, seed)
  }

  /** `f'VelocityGradient_z{z:.3f}_s{seed:d}.h5'` */
  function OutputName(z: nat, seed: nat): string
  {
    Rename.NewName(VelocityGradient, z, seed)
  }

  /** Input and output names share the `_z<z>_s<seed>.h5` part and differ only in the field prefix. */
  lemma OutputNameSwapsPrefix(z: nat, seed: nat)
    ensures InputName(z, seed)[..|PerturbedField|] == PerturbedField
    ensures OutputName(z, seed) == VelocityGradient + InputName(z, seed)[|PerturbedField|..]
  {
    assert InputName(z, seed)[|PerturbedField|..] == Rename.Suffix(z, seed);
  }

  // Regular-expression search

  /** The length of the run of ASCII digits that starts at `i`. */
  function DigitRun(s: string, i: nat): (k: nat)
    requires i <= |s|
    ensures i + k <= |s|
    ensures forall j :: i <= j < i + k ==> IsDigit(s[j])
    ensures i + k == |s| || !IsDigit(s[i + k])
    decreases |s| - i
  {
    if i < |s| && IsDigit(s[i]) then 1 + DigitRun(s, i + 1) else 0
  }

  /** A run of digits ended by the end of the string or a non-digit is the whole greedy run. */
  lemma DigitRunIs(s: string, i: nat, k: nat)
    requires i + k <= |s|
    requires forall j :: i <= j < i + k ==> IsDigit(s[j])
    requires i + k == |s| || !IsDigit(s[i + k])
    ensures DigitRun(s, i) == k
  {
    var r := DigitRun(s, i);
    assert i + r < |s| ==> !IsDigit(s[i + r]);
    assert r <= k;
  }

  /** A digit string sitting at `i` and followed by a non-digit is the greedy run there. */
  lemma DigitRunOfSlice(s: string, i: nat, d: string)
    requires AllDigits(d) && i + |d| < |s|
    requires s[i..i + |d|] == d && !IsDigit(s[i + |d|])
    ensures DigitRun(s, i) == |d|
  {
    DigitsOfSlice(s, i, d);
    DigitRunIs(s, i, |d|);
  }

  /** The two patterns of the batch driver: `z(\d+\.\d{3})` and `s(\d+)`. */
  datatype Pattern = RedshiftPattern | SeedPattern

  /**
   * The converted group of `pat` when it matches at position `i`, or
   * `None` when it does not match there.
   */
  function MatchAt(pat: Pattern, s: string, i: nat): Option<nat>
    requires i <= |s|
  {
    match pat
    case RedshiftPattern => RedshiftAt(s, i)
    case SeedPattern => SeedAt(s, i)
  }

  /**
   * `z(\d+\.\d{3})` at `i`, converted by `float(group(1))` to thousandths
   * (the group has exactly three decimals). The greedy `\d+` takes the
   * whole digit run, and giving digits back never lets a '.' follow.
   */
  function RedshiftAt(s: string, i: nat): Option<nat>
    requires i <= |s|
  {
    if i == |s| || s[i] != 'z' then None
    else
      var j := i + 1 + DigitRun(s, i + 1);
      if j > i + 1 && j + 4 <= |s| && s[j] == '.' && AllDigits(s[j + 1..j + 4])
      then Some(Value(s[i + 1..j]) * 1000 + Value(s[j + 1..j + 4]))
      else None
  }

  /** `s(\d+)` at `i`, converted by `int(group(1))`. */
  function SeedAt(s: string, i: nat): Option<nat>
    requires i <= |s|
  {
    if i == |s| || s[i] != 's' then None
    else
      var k := DigitRun(s, i + 1);
      if k > 0 then Some(Value(s[i + 1..i + 1 + k])) else None
  }

  /** `pat.search(s)` from position `i` on: the leftmost match wins. */
  function SearchFrom(pat: Pattern, s: string, i: nat): Option<nat>
    requires i <= |s|
    decreases |s| - i
  {
    var m := MatchAt(pat, s, i);
    if m.Some? || i == |s| then m else SearchFrom(pat, s, i + 1)
  }

  function Search(pat: Pattern, s: string): Option<nat>
  {
    SearchFrom(pat, s, 0)
  }

  /** Positions where the pattern does not match are skipped by the search. */
  lemma {:induction false} SearchSkips(pat: Pattern, s: string, i: nat, k: nat)
    requires i <= k <= |s|
    requires forall p :: i <= p < k ==> MatchAt(pat, s, p) == None
    ensures SearchFrom(pat, s, i) == SearchFrom(pat, s, k)
    decreases k - i
  {
    if i < k {
      SearchSkips(pat, s, i + 1, k);
    }
  }

  /** The pieces of a formatted name: `_z<D>.<F>_s<S>.h5` with their values. */
  lemma {:induction false} SuffixPieces(z: nat, seed: nat) returns (d: string, f: string, t: string)
    ensures Rename.Suffix(z, seed) == "_z" + d + "." + f + "_s" + t + ".h5"
    ensures Rename.Suffix(z, seed) == "_z" + d + ("." + f + "_s" + t + ".h5")
    ensures Rename.Suffix(z, seed) == ("_z" + d + "." + f + "_") + ("s" + t + ".h5")
    ensures |d| >= 1 && AllDigits(d) && Value(d) == z / 1000
    ensures |f| == 3 && AllDigits(f) && Value(f) == z % 1000
    ensures |t| >= 1 && AllDigits(t) && Value(t) == seed
  {
    d, f, t := Decimal(z / 1000), PadZeros(Decimal(z % 1000), 3), Decimal(seed);
    ValueOfDecimal(z / 1000);
    ValueOfDecimal(seed);
    PaddedDecimal(z % 1000, 3);
    assert Pow10(3) == 1000;
    DecimalLength(z % 1000, 3);
    assert Rename.Suffix(z, seed) == "_z" + (d + "." + f) + "_s" + t + ".h5";
    FormatShape(d, f, t);
    RedshiftShape(d, f, t);
    SeedShape(d, f, t);
  }

  /** The name with the formatted redshift spliced in as one piece. */
  lemma FormatShape(d: string, f: string, t: string)
    ensures "_z" + (d + "." + f) + "_s" + t + ".h5" == "_z" + d + "." + f + "_s" + t + ".h5"
  {
  }

  /** The name regrouped around the redshift's integer digits. */
  lemma RedshiftShape(d: string, f: string, t: string)
    ensures "_z" + d + "." + f + "_s" + t + ".h5" == "_z" + d + ("." + f + "_s" + t + ".h5")
  {
  }

  /** The name regrouped around the seed marker. */
  lemma SeedShape(d: string, f: string, t: string)
    ensures "_z" + d + "." + f + "_s" + t + ".h5" == ("_z" + d + "." + f + "_") + ("s" + t + ".h5")
  {
  }

  /** No match starts at a position whose next character is not a digit. */
  lemma NoMatchBeforeDigits(pat: Pattern, s: string, a: nat)
    requires a < |s|
    requires forall j :: 1 <= j <= a ==> !IsDigit(s[j])
    ensures forall p :: 0 <= p < a ==> MatchAt(pat, s, p) == None
  {
    forall p | 0 <= p < a
      ensures MatchAt(pat, s, p) == None
    {
      assert !IsDigit(s[p + 1]);
      assert DigitRun(s, p + 1) == 0;
    }
  }

  /** `z<d>.<f>` at position i is a match of the redshift pattern. */
  lemma RedshiftMatchHere(s: string, i: nat, d: string, f: string)
    requires AllDigits(d) && |d| >= 1 && AllDigits(f) && |f| == 3
    requires i + 5 + |d| <= |s|
    requires s[i] == 'z'
    requires s[i + 1..i + 1 + |d|] == d && s[i + 1 + |d|] == '.' && s[i + 2 + |d|..i + 5 + |d|] == f
    ensures RedshiftAt(s, i) == Some(Value(d) * 1000 + Value(f))
  {
    DigitRunOfSlice(s, i + 1, d);
    RedshiftAfterRun(s, i, d, f);
  }

  lemma RedshiftAfterRun(s: string, i: nat, d: string, f: string)
    requires AllDigits(d) && |d| >= 1 && AllDigits(f) && |f| == 3
    requires i + 5 + |d| <= |s|
    requires s[i] == 'z' && DigitRun(s, i + 1) == |d|
    requires s[i + 1..i + 1 + |d|] == d && s[i + 1 + |d|] == '.' && s[i + 2 + |d|..i + 5 + |d|] == f
    ensures RedshiftAt(s, i) == Some(Value(d) * 1000 + Value(f))
  {
  }

  /** A slice equal to a digit string is made of digits, position by position. */
  lemma DigitsOfSlice(s: string, i: nat, d: string)
    requires AllDigits(d) && i + |d| <= |s| && s[i..i + |d|] == d
    ensures forall j :: i <= j < i + |d| ==> IsDigit(s[j])
  {
    forall j | i <= j < i + |d|
      ensures IsDigit(s[j])
    {
      assert s[j] == s[i..i + |d|][j - i] == d[j - i];
    }
  }

  /** A name laid out as `<no digits>_z<d>.<f>...` yields the redshift `d.f`. */
  lemma RedshiftFound(s: string, a: nat, d: string, f: string)
    requires AllDigits(d) && |d| >= 1 && AllDigits(f) && |f| == 3
    requires a + 6 + |d| <= |s|
    requires forall j :: 1 <= j <= a ==> !IsDigit(s[j])
    requires s[a] != 'z' && s[a + 1] == 'z'
    requires s[a + 2..a + 2 + |d|] == d && s[a + 2 + |d|] == '.' && s[a + 3 + |d|..a + 6 + |d|] == f
    ensures Search(RedshiftPattern, s) == Some(Value(d) * 1000 + Value(f))
  {
    NoMatchBeforeDigits(RedshiftPattern, s, a);
    assert MatchAt(RedshiftPattern, s, a) == None;
    RedshiftMatchHere(s, a + 1, d, f);
    SearchSkips(RedshiftPattern, s, 0, a + 1);
  }

  /** A name laid out as `<no digits><no 's'>s<t>.` yields the seed `t`. */
  lemma SeedFound(s: string, a: nat, sp: nat, t: string)
    requires AllDigits(t) && |t| >= 1
    requires a < sp && sp + 2 + |t| <= |s|
    requires forall j :: 1 <= j <= a ==> !IsDigit(s[j])
    requires forall j :: a <= j < sp ==> s[j] != 's'
    requires s[sp] == 's' && s[sp + 1..sp + 1 + |t|] == t && s[sp + 1 + |t|] == '.'
    ensures Search(SeedPattern, s) == Some(Value(t))
  {
    assert forall p :: 0 <= p < sp ==> MatchAt(SeedPattern, s, p) == None by {
      NoMatchBeforeDigits(SeedPattern, s, a);
    }
    SearchSkips(SeedPattern, s, 0, sp);
    SeedMatchHere(s, sp, t);
  }

  /** `s<t>` followed by a non-digit at position i is a match of the seed pattern. */
  lemma SeedMatchHere(s: string, i: nat, t: string)
    requires AllDigits(t) && |t| >= 1
    requires i + 2 + |t| <= |s|
    requires s[i] == 's' && s[i + 1..i + 1 + |t|] == t && s[i + 1 + |t|] == '.'
    ensures SeedAt(s, i) == Some(Value(t))
  {
    DigitRunOfSlice(s, i + 1, t);
  }

  /** After a digit-free prefix, `z(\d+\.\d{3})` recovers the formatted redshift. */
  lemma RedshiftRoundTrip(prefix: string, z: nat, seed: nat)
    requires NoDigits(prefix)
    ensures Search(RedshiftPattern, prefix + Rename.Suffix(z, seed)) == Some(z)
  {
    var d, f, t := SuffixPieces(z, seed);
    RedshiftAfterPrefix(prefix, d, "." + f + "_s" + t + ".h5", f);
  }

  /** `_z<d>.<f>` after a digit-free prefix is the first redshift match. */
  lemma RedshiftAfterPrefix(prefix: string, d: string, rest: string, f: string)
    requires NoDigits(prefix) && AllDigits(d) && |d| >= 1 && AllDigits(f) && |f| == 3
    requires |rest| >= 4 && rest[0] == '.' && rest[1..4] == f
    ensures Search(RedshiftPattern, prefix + ("_z" + d + rest)) == Some(Value(d) * 1000 + Value(f))
  {
    var s := prefix + ("_z" + d + rest);
    var a := |prefix|;
    assert s[a] == '_' && s[a + 1] == 'z';
    assert forall j :: 1 <= j < a ==> s[j] == prefix[j];
    assert s[a + 2..a + 2 + |d|] == d;
    assert s[a + 2 + |d|..] == rest;
    RedshiftFound(s, a, d, f);
  }

  /** After a digit-free prefix, `s(\d+)` recovers the formatted seed. */
  lemma SeedRoundTrip(prefix: string, z: nat, seed: nat)
    requires NoDigits(prefix)
    ensures Search(SeedPattern, prefix + Rename.Suffix(z, seed)) == Some(seed)
  {
    var d, f, t := SuffixPieces(z, seed);
    var mid := "_z" + d + "." + f + "_";
    assert forall j :: 0 <= j < |mid| ==> mid[j] != 's';
    SeedAfterPrefix(prefix, mid, t);
  }

  /** `s<t>.` after a digit-free prefix and a stretch without 's' is the first seed match. */
  lemma SeedAfterPrefix(prefix: string, mid: string, t: string)
    requires NoDigits(prefix) && |mid| >= 1 && !IsDigit(mid[0])
    requires forall j :: 0 <= j < |mid| ==> mid[j] != 's'
    requires AllDigits(t) && |t| >= 1
    ensures Search(SeedPattern, prefix + (mid + ("s" + t + ".h5"))) == Some(Value(t))
  {
    var s := prefix + (mid + ("s" + t + ".h5"));
    var a := |prefix|;
    var sp := a + |mid|;
    assert forall j :: 1 <= j < a ==> s[j] == prefix[j];
    assert forall j :: a <= j < sp ==> s[j] == mid[j - a];
    assert s[sp..] == "s" + t + ".h5";
    assert s[sp + 1..sp + 1 + |t|] == t;
    SeedFound(s, a, sp, t);
  }

  /**
   * Format/parse round trip: after any digit-free prefix (such as
   * `./PerturbedField`), both patterns recover the redshift and the seed
   * that were formatted into the name.
   */
  lemma RoundTrip(prefix: string, z: nat, seed: nat)
    requires NoDigits(prefix)
    ensures Search(RedshiftPattern, prefix + Rename.Suffix(z, seed)) == Some(z)
    ensures Search(SeedPattern, prefix + Rename.Suffix(z, seed)) == Some(seed)
  {
    RedshiftRoundTrip(prefix, z, seed);
    SeedRoundTrip(prefix, z, seed);
  }

  /** Distinct (redshift, seed) pairs give distinct input names. */
  lemma InputNameInjective(z1: nat, seed1: nat, z2: nat, seed2: nat)
    requires InputName(z1, seed1) == InputName(z2, seed2)
    ensures z1 == z2 && seed1 == seed2
  {
    assert InputName(z1, seed1) == PerturbedField + Rename.Suffix(z1, seed1);
    assert InputName(z2, seed2) == PerturbedField + Rename.Suffix(z2, seed2);
    GlobPrefixNoDigits();
    RoundTrip(PerturbedField, z1, seed1);
    RoundTrip(PerturbedField, z2, seed2);
  }

  // Batch discovery

  /** The failure that aborts the batch: `.group` on the `None` of a search without a match. */
  datatype DiscoveryError = NoSeedMatch(name: string) | NoRedshiftMatch(name: string)

  /** One call `write_vel_gradient(z, seed)` of the batch driver. */
  datatype Call = Call(z: nat, seed: nat)

  /**
   * The comprehension `[conv(pat.search(n).group(1)) for n in names]`:
   * the converted groups in order, or the index of the first name the
   * pattern does not match.
   */
  function ParseAll(pat: Pattern, names: seq<string>): (r: Result<seq<nat>, nat>)
    ensures r.Ok? ==> |r.value| == |names|
    ensures r.Ok? ==> forall k :: 0 <= k < |names| ==> Search(pat, names[k]) == Some(r.value[k])
    ensures r.Err? ==> r.error < |names| && Search(pat, names[r.error]) == None
    ensures r.Err? ==> forall k :: 0 <= k < r.error ==> Search(pat, names[k]).Some?
  {
    if names == [] then Ok([])
    else match Search(pat, names[0])
      case None => Err(0)
      case Some(v) =>
        match ParseAll(pat, names[1..])
        case Err(k) => Err(k + 1)
        case Ok(vs) => Ok([v] + vs)
  }

  /**
   * What `write_vel_gradient_all` does with the names `glob` returned: all
   * seeds are parsed first, then all redshifts, and only then is
   * `write_vel_gradient` called once per name, in order.
   */
  function Discover(names: seq<string>): (r: Result<seq<Call>, DiscoveryError>)
    ensures r.Ok? <==> forall k :: 0 <= k < |names| ==>
                         Search(SeedPattern, names[k]).Some? && Search(RedshiftPattern, names[k]).Some?
    ensures r.Ok? ==> |r.value| == |names|
    ensures r.Ok? ==> forall k :: 0 <= k < |names| ==>
                        r.value[k] == Call(Search(RedshiftPattern, names[k]).value, Search(SeedPattern, names[k]).value)
    ensures r.Err? && r.error.NoSeedMatch? ==>
              r.error.name in names && Search(SeedPattern, r.error.name) == None
    ensures r.Err? && r.error.NoRedshiftMatch? ==>
              r.error.name in names && Search(RedshiftPattern, r.error.name) == None &&
              forall k :: 0 <= k < |names| ==> Search(SeedPattern, names[k]).Some?
  {
    match ParseAll(SeedPattern, names)
    case Err(k) => Err(NoSeedMatch(names[k]))
    case Ok(seeds) =>
      match ParseAll(RedshiftPattern, names)
      case Err(k) => Err(NoRedshiftMatch(names[k]))
      case Ok(zs) => Ok(seq(|names|, k requires 0 <= k < |names| => Call(zs[k], seeds[k])))
  }

  /**
   * `write_vel_gradient_all`: the names `glob` returned are parsed first;
   * a name either pattern misses aborts the script before any write, and
   * otherwise the batch of writes runs over the calls in order.
   */
  method WriteVelGradientAll(names: seq<string>, inputs: map<string, Input>, outs: map<string, File>)
    returns (r: Result<BatchRun, DiscoveryError>)
    requires ValidInputs(inputs)
    ensures Discover(names).Err? ==> r == Err(Discover(names).error)
    ensures Discover(names).Ok? ==> r == Ok(WriteBatch(inputs, outs, NamesOfAll(Discover(names).value)))
  {
    var seeds := ParseAll(SeedPattern, names);
    if seeds.Err? {
      return Err(NoSeedMatch(names[seeds.error]));
    }
    var zs := ParseAll(RedshiftPattern, names);
    if zs.Err? {
      return Err(NoRedshiftMatch(names[zs.error]));
    }
    var calls := PairUp(zs.value, seeds.value);
    var run := RunCalls(inputs, outs, calls);
    return Ok(run);
  }

  /** The loop over the parsed files: one call per file, its redshift with its seed. */
  method PairUp(zs: seq<nat>, seeds: seq<nat>) returns (calls: seq<Call>)
    requires |zs| == |seeds|
    ensures calls == seq(|zs|, k requires 0 <= k < |zs| => Call(zs[k], seeds[k]))
  {
    calls := [];
    for i := 0 to |zs|
      invariant |calls| == i
      invariant forall k :: 0 <= k < i ==> calls[k] == Call(zs[k], seeds[k])
    {
      calls := calls + [Call(zs[i], seeds[i])];
    }
  }

  /** A canonically named input, as `glob('./PerturbedField*.h5')` reports it, parses to its redshift and seed. */
  lemma CanonicalNameParses(z: nat, seed: nat)
    ensures Search(RedshiftPattern, "./" + InputName(z, seed)) == Some(z)
    ensures Search(SeedPattern, "./" + InputName(z, seed)) == Some(seed)
  {
    GlobbedName(z, seed);
    GlobPrefixNoDigits();
    RoundTrip("./" + PerturbedField, z, seed);
  }

  /** The globbed name is the digit-free prefix followed by the formatted suffix. */
  lemma GlobbedName(z: nat, seed: nat)
    ensures "./" + InputName(z, seed) == "./" + PerturbedField + Rename.Suffix(z, seed)
  {
  }

  /** The field name, and the field name with the directory of a globbed input before it, carry no digit. */
  lemma GlobPrefixNoDigits()
    ensures NoDigits(PerturbedField)
    ensures NoDigits("./" + PerturbedField)
  {
    var prefix := "./" + PerturbedField;
    assert forall i :: 2 <= i < |prefix| ==> 'A' <= prefix[i] <= 'z';
  }

  /**
   * On canonically named inputs (`./` followed by an input name, as `glob`
   * reports them) the batch calls `write_vel_gradient` with exactly the
   * redshift and seed of each file, in order, so the input name each call
   * rebuilds is the discovered file's own name.
   */
  lemma DiscoverCanonical(names: seq<string>, calls: seq<Call>)
    requires |names| == |calls|
    requires forall k :: 0 <= k < |names| ==> names[k] == "./" + InputName(calls[k].z, calls[k].seed)
    ensures Discover(names) == Ok(calls)
    ensures forall k :: 0 <= k < |names| ==>
              "./" + InputName(Discover(names).value[k].z, Discover(names).value[k].seed) == names[k]
  {
    forall k | 0 <= k < |names|
      ensures Search(RedshiftPattern, names[k]) == Some(calls[k].z)
      ensures Search(SeedPattern, names[k]) == Some(calls[k].seed)
    {
      CanonicalNameParses(calls[k].z, calls[k].seed);
    }
    var r := Discover(names);
    assert r.Ok?;
    assert |r.value| == |calls|;
    assert forall k :: 0 <= k < |names| ==> r.value[k] == calls[k];
    assert r.value == calls;
  }

  // The output file

  /** The exceptions of `write_vel_gradient`'s HDF5 accesses. */
  datatype WriteError =
    | KeyError(key: string)       // a missing group, dataset or attribute
    | GroupExists(name: string)   // `create_group` on a name the output already has

  predicate Distinct(order: seq<string>) {
    forall i, j :: 0 <= i < j < |order| ==> order[i] != order[j]
  }

  /**
   * The attribute copy: for each top-level group of the input, in
   * iteration order, skip PerturbedField, otherwise create the group in the
   * output and copy its attributes.
   */
  function CopyGroups(inp: map<string, Group>, order: seq<string>, out: map<string, Group>)
    : (r: Result<map<string, Group>, WriteError>)
    requires forall k :: 0 <= k < |order| ==> order[k] in inp
    requires Distinct(order)
    decreases |order|
  {
    if order == [] then Ok(out)
    else if order[0] == PerturbedField then CopyGroups(inp, order[1..], out)
    else if order[0] in out then Err(GroupExists(order[0]))
    else CopyGroups(inp, order[1..], out[order[0] := AttrsOnly(inp[order[0]].attrs)])
  }

  /**
   * The copy succeeds exactly when the output has none of the listed
   * groups but PerturbedField; it then adds each of them as its attributes
   * alone and keeps every group the output had.
   */
  lemma {:induction false} CopyGroupsSpec(inp: map<string, Group>, order: seq<string>, out: map<string, Group>)
    requires forall k :: 0 <= k < |order| ==> order[k] in inp
    requires Distinct(order)
    ensures var r := CopyGroups(inp, order, out);
            r.Ok? <==> forall g :: g in order && g != PerturbedField ==> g !in out
    ensures var r := CopyGroups(inp, order, out);
            r.Ok? ==> forall g :: g in r.value <==> g in out || (g in order && g != PerturbedField)
    ensures var r := CopyGroups(inp, order, out);
            r.Ok? ==> forall g :: g in order && g != PerturbedField ==> r.value[g] == AttrsOnly(inp[g].attrs)
    ensures var r := CopyGroups(inp, order, out);
            r.Ok? ==> forall g :: g in out ==> r.value[g] == out[g]
    decreases |order|
  {
    if order == [] {
    } else if order[0] == PerturbedField {
      CopyGroupsSpec(inp, order[1..], out);
    } else if order[0] !in out {
      CopyGroupsSpec(inp, order[1..], out[order[0] := AttrsOnly(inp[order[0]].attrs)]);
    }
  }

  /** The copy fails only at a listed group, other than PerturbedField, that the output already has. */
  lemma {:induction false} CopyGroupsFailure(inp: map<string, Group>, order: seq<string>, out: map<string, Group>)
    requires forall k :: 0 <= k < |order| ==> order[k] in inp
    requires Distinct(order)
    requires CopyGroups(inp, order, out).Err?
    ensures var e := CopyGroups(inp, order, out).error;
            e.GroupExists? && e.name in out && e.name != PerturbedField && e.name in order
    decreases |order|
  {
    if order[0] == PerturbedField {
      CopyGroupsFailure(inp, order[1..], out);
    } else if order[0] !in out {
      var out' := out[order[0] := AttrsOnly(inp[order[0]].attrs)];
      CopyGroupsFailure(inp, order[1..], out');
      assert Distinct(order) && order[0] !in order[1..];
    }
  }

  /** The inner loop `for k, v in ....attrs.items(): g_out.attrs[k] = v`: a verbatim copy. */
  method CopyAttrs(src: map<string, AttrValue>) returns (dst: map<string, AttrValue>)
    ensures dst == src
  {
    dst := map[];
    var todo := src.Keys;
    while todo != {}
      invariant todo <= src.Keys
      invariant dst == map k | k in src.Keys - todo :: src[k]
      decreases todo
    {
      var k :| k in todo;
      dst := dst[k := src[k]];
      todo := todo - {k};
    }
  }

  /** The loop `for g_inp in hid_inp`, step by step: `CopyGroups` as the script runs it. */
  method CopyAttributeGroups(inp: map<string, Group>, order: seq<string>, out: map<string, Group>)
    returns (r: Result<map<string, Group>, WriteError>)
    requires forall k :: 0 <= k < |order| ==> order[k] in inp
    requires Distinct(order)
    ensures r == CopyGroups(inp, order, out)
  {
    var acc := out;
    var i := 0;
    while i < |order|
      invariant 0 <= i <= |order|
      invariant CopyGroups(inp, order, out) == CopyGroups(inp, order[i..], acc)
    {
      var g := order[i];
      assert order[i..][0] == g && order[i..][1..] == order[i + 1..];
      if g != PerturbedField {
        if g in acc {
          return Err(GroupExists(g));
        }
        var attrs := CopyAttrs(inp[g].attrs);
        acc := acc[g := Group(attrs, map[])];
      }
      i := i + 1;
    }
    return Ok(acc);
  }

  /** `hid[group].attrs[key]`. */
  function AttrOf(f: File, group: string, key: string): (r: Result<AttrValue, WriteError>)
    ensures r.Ok? <==> group in f.groups && key in f.groups[group].attrs
    ensures r.Ok? ==> r.value == f.groups[group].attrs[key]
  {
    if group !in f.groups then Err(KeyError(group))
    else if key !in f.groups[group].attrs then Err(KeyError(key))
    else Ok(f.groups[group].attrs[key])
  }

  /** The first failing read among the velocity dataset and the four metadata attributes, in source order. */
  function InputError(inp: File): (r: Option<WriteError>)
    ensures r == None <==>
              PerturbedField in inp.groups && VelocityDataset in inp.groups[PerturbedField].datasets &&
              AttrOf(inp, UserParams, "HII_DIM").Ok? && AttrOf(inp, UserParams, "BOX_LEN").Ok? &&
              AttrOf(inp, CosmoParams, "hlittle").Ok? && AttrOf(inp, CosmoParams, "OMm").Ok?
  {
    if PerturbedField !in inp.groups || VelocityDataset !in inp.groups[PerturbedField].datasets
    then Some(KeyError(PerturbedField + "/" + VelocityDataset))
    else if AttrOf(inp, UserParams, "HII_DIM").Err? then Some(AttrOf(inp, UserParams, "HII_DIM").error)
    else if AttrOf(inp, UserParams, "BOX_LEN").Err? then Some(AttrOf(inp, UserParams, "BOX_LEN").error)
    else if AttrOf(inp, CosmoParams, "hlittle").Err? then Some(AttrOf(inp, CosmoParams, "hlittle").error)
    else if AttrOf(inp, CosmoParams, "OMm").Err? then Some(AttrOf(inp, CosmoParams, "OMm").error)
    else None
  }

  /**
   * `write_vel_gradient` on the file level: `inp` is the input file,
   * `order` its top-level groups in iteration order, `prior` the output
   * file as append mode finds it (empty when it does not exist yet), and
   * `gradient` the computed (dv/dr)/H dataset. Root attributes of the
   * output are left as they were.
   */
  function WriteVelGradient(inp: File, order: seq<string>, prior: File, gradient: Dataset)
    : (r: Result<File, WriteError>)
    requires Distinct(order)
    requires forall k :: 0 <= k < |order| ==> order[k] in inp.groups
    requires forall g :: g in inp.groups ==> g in order
    ensures r.Ok? <==>
              InputError(inp) == None &&
              (forall g :: g in inp.groups && g != PerturbedField ==> g !in prior.groups) &&
              VelocityGradient !in inp.groups && VelocityGradient !in prior.groups
    ensures r.Ok? ==> r.value.attrs == prior.attrs
    ensures r.Ok? ==> VelocityGradient in r.value.groups &&
                      r.value.groups[VelocityGradient] == Group(map[], map[GradientDataset := gradient])
  {
    CopyGroupsSpec(inp.groups, order, prior.groups);
    match InputError(inp)
    case Some(e) => Err(e)
    case None =>
      match CopyGroups(inp.groups, order, prior.groups)
      case Err(e) => Err(e)
      case Ok(groups) =>
        if VelocityGradient in groups then Err(GroupExists(VelocityGradient))
        else Ok(File(prior.attrs, groups[VelocityGradient := Group(map[], map[GradientDataset := gradient])]))
  }

  /**
   * What a successful write puts in each group: every input group but the
   * field itself as its attributes alone, and every group the output
   * already had as it was.
   */
  lemma WriteVelGradientGroups(inp: File, order: seq<string>, prior: File, gradient: Dataset)
    requires Distinct(order)
    requires forall k :: 0 <= k < |order| ==> order[k] in inp.groups
    requires forall g :: g in inp.groups ==> g in order
    requires WriteVelGradient(inp, order, prior, gradient).Ok?
    ensures WriteVelGradient(inp, order, prior, gradient).value.groups.Keys ==
              prior.groups.Keys + (inp.groups.Keys - {PerturbedField}) + {VelocityGradient}
    ensures forall g :: g in inp.groups && g != PerturbedField ==>
              WriteVelGradient(inp, order, prior, gradient).value.groups[g] == AttrsOnly(inp.groups[g].attrs)
    ensures forall g :: g in prior.groups ==>
              WriteVelGradient(inp, order, prior, gradient).value.groups[g] == prior.groups[g]
  {
    CopyGroupsSpec(inp.groups, order, prior.groups);
    var groups := CopyGroups(inp.groups, order, prior.groups).value;
    var added := Group(map[], map[GradientDataset := gradient]);
    assert WriteVelGradient(inp, order, prior, gradient).value.groups == groups[VelocityGradient := added];
    AddGradientGroup(inp.groups, order, prior.groups, groups, added);
  }

  /** Adding the gradient group to the copied groups keeps every copied and every prior group. */
  lemma AddGradientGroup(inp: map<string, Group>, order: seq<string>, prior: map<string, Group>,
                         groups: map<string, Group>, added: Group)
    requires forall g :: g in order <==> g in inp
    requires forall g :: g in groups <==> g in prior || (g in order && g != PerturbedField)
    requires forall g :: g in order && g != PerturbedField ==> groups[g] == AttrsOnly(inp[g].attrs)
    requires forall g :: g in prior ==> groups[g] == prior[g]
    requires VelocityGradient !in inp && VelocityGradient !in prior
    ensures groups[VelocityGradient := added].Keys == prior.Keys + (inp.Keys - {PerturbedField}) + {VelocityGradient}
    ensures forall g :: g in inp && g != PerturbedField ==> groups[VelocityGradient := added][g] == AttrsOnly(inp[g].attrs)
    ensures forall g :: g in prior ==> groups[VelocityGradient := added][g] == prior[g]
  {
  }

  /**
   * The output is opened in append mode, so running the script again on
   * the same input fails: the copied `user_params` group already exists.
   */
  lemma RerunFails(inp: File, order: seq<string>, prior: File, g1: Dataset, g2: Dataset)
    requires Distinct(order)
    requires forall k :: 0 <= k < |order| ==> order[k] in inp.groups
    requires forall g :: g in inp.groups ==> g in order
    requires WriteVelGradient(inp, order, prior, g1).Ok?
    ensures WriteVelGradient(inp, order, WriteVelGradient(inp, order, prior, g1).value, g2).Err?
  {
    var out := WriteVelGradient(inp, order, prior, g1).value;
    assert UserParams in inp.groups && UserParams != PerturbedField;
    WriteVelGradientGroups(inp, order, prior, g1);
    assert UserParams in out.groups;
  }

  // The batch of writes

  /**
   * A PerturbedField file as the batch finds it: its contents, its
   * top-level groups in iteration order, and the gradient computed from
   * its velocity.
   */
  datatype Input = Input(file: File, order: seq<string>, gradient: Dataset)

  /** The iteration order lists every top-level group exactly once. */
  predicate ValidInput(x: Input) {
    Distinct(x.order) &&
    (forall k :: 0 <= k < |x.order| ==> x.order[k] in x.file.groups) &&
    (forall g :: g in x.file.groups ==> g in x.order)
  }

  predicate ValidInputs(inputs: map<string, Input>) {
    forall name :: name in inputs ==> ValidInput(inputs[name])
  }

  /** The two files one `write_vel_gradient(z, seed)` opens. */
  datatype Names = Names(input: string, output: string)

  /** Both names are built from the call's redshift and seed. */
  function NamesOf(c: Call): Names {
    Names(InputName(c.z, c.seed), OutputName(c.z, c.seed))
  }

  function NamesOfAll(calls: seq<Call>): (r: seq<Names>)
    ensures |r| == |calls| && forall k :: 0 <= k < |calls| ==> r[k] == NamesOf(calls[k])
  {
    seq(|calls|, k requires 0 <= k < |calls| => NamesOf(calls[k]))
  }

  /** What ends the batch: a missing input file, or an exception of the write to the named output. */
  datatype BatchError = NoInput(name: string) | WriteFailed(name: string, error: WriteError)

  /** The output files after the batch, the number of calls that returned, and the exception that ended it. */
  datatype BatchRun = BatchRun(outs: map<string, File>, done: nat, failure: Option<BatchError>)

  /** The empty file that append mode creates for an output that does not exist yet. */
  const NewFile: File := File(map[], map[])

  /**
   * One `write_vel_gradient` in the working directory, given the names it
   * opens: `inputs` holds the PerturbedField files and `outs` the
   * VelocityGradient files, by name (no name is in both: the prefixes
   * differ). Opening a missing input raises before the output is opened.
   */
  function WriteCall(inputs: map<string, Input>, outs: map<string, File>, n: Names)
    : (r: Result<map<string, File>, BatchError>)
    requires ValidInputs(inputs)
    ensures r == Err(NoInput(n.input)) <==> n.input !in inputs
    ensures r.Err? ==> r.error.NoInput? || r.error.name == n.output
    ensures n.output in outs && VelocityGradient in outs[n.output].groups ==> r.Err?
    ensures r.Ok? ==> forall o :: o in r.value <==> o in outs || o == n.output
    ensures r.Ok? ==> forall o :: o in outs && o != n.output ==> r.value[o] == outs[o]
    ensures r.Ok? ==> Written(inputs, r.value, n)
  {
    if n.input !in inputs then Err(NoInput(n.input))
    else
      var x := inputs[n.input];
      var prior := if n.output in outs then outs[n.output] else NewFile;
      match WriteVelGradient(x.file, x.order, prior, x.gradient)
      case Err(e) => Err(WriteFailed(n.output, e))
      case Ok(out) => Ok(outs[n.output := out])
  }

  /** The output named in `n` exists and holds the gradient of the input named in `n`. */
  predicate Written(inputs: map<string, Input>, outs: map<string, File>, n: Names) {
    n.input in inputs && n.output in outs && VelocityGradient in outs[n.output].groups &&
    outs[n.output].groups[VelocityGradient] == Group(map[], map[GradientDataset := inputs[n.input].gradient])
  }

  /** The loop `for ...: write_vel_gradient(z, seed)`: the calls in order, up to the first exception. */
  function WriteBatch(inputs: map<string, Input>, outs: map<string, File>, jobs: seq<Names>): (r: BatchRun)
    requires ValidInputs(inputs)
    ensures r.done <= |jobs|
    ensures r.failure == None <==> r.done == |jobs|
    ensures r.failure.Some? && r.failure.value.NoInput? ==>
              r.failure.value.name == jobs[r.done].input && r.failure.value.name !in inputs
    ensures r.failure.Some? && r.failure.value.WriteFailed? ==> r.failure.value.name == jobs[r.done].output
    decreases |jobs|
  {
    if jobs == [] then BatchRun(outs, 0, None)
    else match WriteCall(inputs, outs, jobs[0])
      case Err(e) => BatchRun(outs, 0, Some(e))
      case Ok(next) =>
        var rest := WriteBatch(inputs, next, jobs[1..]);
        assert rest.failure.Some? ==> jobs[rest.done + 1] == jobs[1..][rest.done];
        BatchRun(rest.outs, rest.done + 1, rest.failure)
  }

  /** The batch, call by call, as the script's loop runs it. */
  method RunCalls(inputs: map<string, Input>, outs: map<string, File>, calls: seq<Call>) returns (r: BatchRun)
    requires ValidInputs(inputs)
    ensures r == WriteBatch(inputs, outs, NamesOfAll(calls))
  {
    ghost var jobs := NamesOfAll(calls);
    var cur := outs;
    var i := 0;
    while i < |calls|
      invariant 0 <= i <= |calls|
      invariant var rest := WriteBatch(inputs, cur, jobs[i..]);
                WriteBatch(inputs, outs, jobs) == BatchRun(rest.outs, rest.done + i, rest.failure)
    {
      assert jobs[i..][0] == NamesOf(calls[i]) && jobs[i..][1..] == jobs[i + 1..];
      var w := WriteCall(inputs, cur, NamesOf(calls[i]));
      if w.Err? {
        return BatchRun(cur, i, Some(w.error));
      }
      cur := w.value;
      i := i + 1;
    }
    return BatchRun(cur, |calls|, None);
  }

  /** A batch whose first call returns is that call followed by the batch of the rest. */
  lemma WriteBatchStep(inputs: map<string, Input>, outs: map<string, File>, jobs: seq<Names>)
    requires ValidInputs(inputs)
    requires 0 < |jobs| && WriteCall(inputs, outs, jobs[0]).Ok?
    ensures var rest := WriteBatch(inputs, WriteCall(inputs, outs, jobs[0]).value, jobs[1..]);
            WriteBatch(inputs, outs, jobs) == BatchRun(rest.outs, rest.done + 1, rest.failure)
  {
  }

  /** A batch whose first call raises ends there, with no call returned. */
  lemma WriteBatchStops(inputs: map<string, Input>, outs: map<string, File>, jobs: seq<Names>)
    requires ValidInputs(inputs)
    requires 0 < |jobs| && WriteCall(inputs, outs, jobs[0]).Err?
    ensures WriteBatch(inputs, outs, jobs) == BatchRun(outs, 0, Some(WriteCall(inputs, outs, jobs[0]).error))
  {
  }

  /** An output that already holds the gradient group is never written again: the batch keeps it as it is. */
  lemma {:induction false} KeepsWritten(inputs: map<string, Input>, outs: map<string, File>, jobs: seq<Names>, o: string)
    requires ValidInputs(inputs)
    requires o in outs && VelocityGradient in outs[o].groups
    ensures o in WriteBatch(inputs, outs, jobs).outs && WriteBatch(inputs, outs, jobs).outs[o] == outs[o]
    decreases |jobs|
  {
    if jobs != [] {
      var w := WriteCall(inputs, outs, jobs[0]);
      if w.Ok? {
        KeepsWritten(inputs, w.value, jobs[1..], o);
        WriteBatchStep(inputs, outs, jobs);
      } else {
        WriteBatchStops(inputs, outs, jobs);
      }
    }
  }

  /** Every call that returned left its output holding its input's gradient, up to the end of the batch. */
  lemma {:induction false} BatchWritesEach(inputs: map<string, Input>, outs: map<string, File>, jobs: seq<Names>)
    requires ValidInputs(inputs)
    ensures forall k :: 0 <= k < WriteBatch(inputs, outs, jobs).done ==>
              Written(inputs, WriteBatch(inputs, outs, jobs).outs, jobs[k])
    decreases |jobs|
  {
    if jobs != [] {
      var w := WriteCall(inputs, outs, jobs[0]);
      if w.Ok? {
        var rest := WriteBatch(inputs, w.value, jobs[1..]);
        BatchWritesEach(inputs, w.value, jobs[1..]);
        KeepsWritten(inputs, w.value, jobs[1..], jobs[0].output);
        WrittenKept(inputs, w.value, rest.outs, jobs[0]);
        WriteBatchStep(inputs, outs, jobs);
        assert forall k :: 0 < k <= rest.done ==> jobs[k] == jobs[1..][k - 1];
      }
    }
  }

  /** `Written` depends only on the output it names. */
  lemma WrittenKept(inputs: map<string, Input>, before: map<string, File>, after: map<string, File>, n: Names)
    requires Written(inputs, before, n)
    requires n.output in after && after[n.output] == before[n.output]
    ensures Written(inputs, after, n)
  {
  }

  /** The batch creates exactly the outputs of the calls that returned, and no other file. */
  lemma {:induction false} BatchOutputs(inputs: map<string, Input>, outs: map<string, File>, jobs: seq<Names>)
    requires ValidInputs(inputs)
    ensures var r := WriteBatch(inputs, outs, jobs);
            forall o :: o in r.outs <==> o in outs || exists k :: 0 <= k < r.done && o == jobs[k].output
    decreases |jobs|
  {
    if jobs != [] {
      var w := WriteCall(inputs, outs, jobs[0]);
      if w.Ok? {
        BatchOutputs(inputs, w.value, jobs[1..]);
        WriteBatchStep(inputs, outs, jobs);
        var r := WriteBatch(inputs, outs, jobs);
        var rest := WriteBatch(inputs, w.value, jobs[1..]);
        assert forall k :: 0 <= k < rest.done ==> jobs[1..][k] == jobs[k + 1];
        forall o | o in r.outs
          ensures o in outs || exists k :: 0 <= k < r.done && o == jobs[k].output
        {
          if o !in w.value {
            var j :| 0 <= j < rest.done && o == jobs[1..][j].output;
            assert o == jobs[j + 1].output;
          } else if o !in outs {
            assert o == jobs[0].output;
          }
        }
        forall o | o in outs || exists k :: 0 <= k < r.done && o == jobs[k].output
          ensures o in r.outs
        {
          if o !in outs {
            var k :| 0 <= k < r.done && o == jobs[k].output;
            if k > 0 {
              assert o == jobs[1..][k - 1].output;
            }
          }
        }
      } else {
        WriteBatchStops(inputs, outs, jobs);
      }
    }
  }

  /** The batch leaves every output that no returning call named as it was. */
  lemma {:induction false} BatchKeepsOthers(inputs: map<string, Input>, outs: map<string, File>, jobs: seq<Names>)
    requires ValidInputs(inputs)
    ensures var r := WriteBatch(inputs, outs, jobs);
            forall o :: o in outs && (forall k :: 0 <= k < r.done ==> o != jobs[k].output) ==> o in r.outs && r.outs[o] == outs[o]
    decreases |jobs|
  {
    if jobs != [] {
      var w := WriteCall(inputs, outs, jobs[0]);
      if w.Ok? {
        BatchKeepsOthers(inputs, w.value, jobs[1..]);
        WriteBatchStep(inputs, outs, jobs);
        var r := WriteBatch(inputs, outs, jobs);
        var rest := WriteBatch(inputs, w.value, jobs[1..]);
        forall o | o in outs && (forall k :: 0 <= k < r.done ==> o != jobs[k].output)
          ensures o in r.outs && r.outs[o] == outs[o]
        {
          assert o != jobs[0].output;
          assert forall k :: 0 <= k < rest.done ==> o != jobs[1..][k].output;
        }
      } else {
        WriteBatchStops(inputs, outs, jobs);
      }
    }
  }

  /** A call whose output already holds the gradient group stops the batch at or before it. */
  lemma {:induction false} WrittenStops(inputs: map<string, Input>, outs: map<string, File>, jobs: seq<Names>, k: nat)
    requires ValidInputs(inputs)
    requires k < |jobs| && jobs[k].output in outs && VelocityGradient in outs[jobs[k].output].groups
    ensures WriteBatch(inputs, outs, jobs).done <= k
    decreases k
  {
    var o := jobs[k].output;
    assert k > 0 ==> jobs[1..][k - 1] == jobs[k];
    var w := WriteCall(inputs, outs, jobs[0]);
    if w.Err? {
      WriteBatchStops(inputs, outs, jobs);
    } else {
      assert o != jobs[0].output;
      WrittenStops(inputs, w.value, jobs[1..], k - 1);
      WriteBatchStep(inputs, outs, jobs);
    }
  }

  /**
   * Two calls that write the same output (two globbed names with the same
   * redshift and seed, such as `PerturbedField_z...` and
   * `PerturbedFieldOld_z...`) stop the batch by the second of them at the
   * latest: append mode finds the groups the first one created.
   */
  lemma {:induction false} DuplicateStops(inputs: map<string, Input>, outs: map<string, File>, jobs: seq<Names>,
                                          i: nat, j: nat)
    requires ValidInputs(inputs)
    requires i < j < |jobs| && jobs[i].output == jobs[j].output
    ensures WriteBatch(inputs, outs, jobs).done <= j
    ensures WriteBatch(inputs, outs, jobs).failure.Some?
    decreases i
  {
    if i == 0 {
      RepeatsFirstStops(inputs, outs, jobs, j);
    } else {
      var tail := jobs[1..];
      assert tail[i - 1] == jobs[i] && tail[j - 1] == jobs[j];
      assert i - 1 < j - 1 < |tail| && tail[i - 1].output == tail[j - 1].output;
      var w := WriteCall(inputs, outs, jobs[0]);
      if w.Err? {
        WriteBatchStops(inputs, outs, jobs);
      } else {
        DuplicateStops(inputs, w.value, tail, i - 1, j - 1);
        WriteBatchStep(inputs, outs, jobs);
      }
    }
  }

  /** A later call writing the first call's output stops the batch by that call at the latest. */
  lemma RepeatsFirstStops(inputs: map<string, Input>, outs: map<string, File>, jobs: seq<Names>, j: nat)
    requires ValidInputs(inputs)
    requires 0 < j < |jobs| && jobs[0].output == jobs[j].output
    ensures WriteBatch(inputs, outs, jobs).done <= j
  {
    assert jobs[1..][j - 1] == jobs[j];
    var w := WriteCall(inputs, outs, jobs[0]);
    if w.Err? {
      WriteBatchStops(inputs, outs, jobs);
    } else {
      assert Written(inputs, w.value, jobs[0]);
      WrittenStops(inputs, w.value, jobs[1..], j - 1);
      WriteBatchStep(inputs, outs, jobs);
    }
  }

  /** The two-name example: a stray `PerturbedFieldOld` file next to the canonical one fails the batch. */
  lemma {:induction false} StrayCopyStops(inputs: map<string, Input>, outs: map<string, File>, z: nat, seed: nat)
    requires ValidInputs(inputs)
    ensures var names := ["./" + InputName(z, seed), "./" + PerturbedField + "Old" + Rename.Suffix(z, seed)];
            Discover(names) == Ok([Call(z, seed), Call(z, seed)]) &&
            WriteBatch(inputs, outs, NamesOfAll(Discover(names).value)).failure.Some?
  {
    var stray := "./" + PerturbedField + "Old";
    assert NoDigits(stray) by {
      assert forall i :: 2 <= i < |stray| ==> 'A' <= stray[i] <= 'z';
    }
    RoundTrip(stray, z, seed);
    CanonicalNameParses(z, seed);
    var names := ["./" + InputName(z, seed), stray + Rename.Suffix(z, seed)];
    var calls := [Call(z, seed), Call(z, seed)];
    assert Discover(names).value == calls;
    DuplicateStops(inputs, outs, NamesOfAll(calls), 0, 1);
  }
}
