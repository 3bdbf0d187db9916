/**
 * The renaming script for 21cmFAST cache files: a cached file's field
 * name is the text before its first '_', and its new name is
 * `<Field>_z<z to 3 decimals>_s<seed>.h5`, with the redshift and the
 * random seed read from the file's root attributes.
 *
 * Redshifts are non-negative integer counts of thousandths, so `{:.3f}`
 * renders the integer part, a '.', and exactly three digits. The root
 * attributes are a map from attribute name to value; the value of
 * "redshift" is in thousandths and that of "random_seed" is the seed.
 */
module Rename {
  import opened Strings
  import Paths

  const RedshiftKey: string := "redshift"
  const SeedKey: string := "random_seed"
  const InitialConditions: string := "InitialConditions"

  /**
   * `get_field_from_hf`: the slice up to the first '_'. With no '_' in
   * the name, `find` gives -1 and the slice drops the last character.
   */
  function FieldOf(hf: string): (r: string)
    ensures |r| <= |hf| && r == hf[..|r|] && '_' !in r
    ensures '_' in hf ==> |r| < |hf| && hf[|r|] == '_'
    ensures '_' !in hf ==> |r| == (if hf == [] then 0 else |hf| - 1)
  {
    SliceTo(hf, Find(hf, '_'))
  }

  /** The `{:.3f}` / `%.3f` rendering of a redshift given in thousandths. */
  function FormatRedshift(z: nat): string
  {
    Decimal(z / 1000) + "." + PadZeros(Decimal(z % 1000), 3)
  }

  /** What the name format appends to the field: `_z<z>_s<seed>.h5`. */
  function Suffix(z: nat, seed: nat): string
  {
    "_z" + FormatRedshift(z) + "_s" + Decimal(seed) + ".h5"
  }

  /** The format `'{0:s}_z{1:.3f}_s{2:d}.h5'` applied to a field, a redshift and a seed. */
  function NewName(field: string, z: nat, seed: nat): string
  {
    field + Suffix(z, seed)
  }

  /** The exceptions `get_z_seed_from_hf` can raise. */
  datatype AttrError =
    | AssertionFailed(path: string)  // no redshift, and the path does not mention InitialConditions
    | KeyError(key: string)          // an attribute that is looked up without a fallback

  /**
   * `get_z_seed_from_hf` over the file's root attributes. A missing
   * redshift reads as 0 and is accepted only when the full path `hf`
   * contains "InitialConditions"; the seed has no fallback.
   */
  function ZSeedOf(hf: string, attrs: map<string, nat>): (r: Result<(nat, nat), AttrError>)
    ensures r.Ok? <==> (RedshiftKey in attrs || Contains(hf, InitialConditions)) && SeedKey in attrs
    ensures r.Ok? ==> r.value.1 == attrs[SeedKey]
    ensures r.Ok? ==> r.value.0 == if RedshiftKey in attrs then attrs[RedshiftKey] else 0
    ensures r == Err(AssertionFailed(hf)) <==> RedshiftKey !in attrs && !Contains(hf, InitialConditions)
    ensures r == Err(KeyError(SeedKey)) <==> r.Err? && !(r == Err(AssertionFailed(hf)))
  {
    if RedshiftKey !in attrs && !Contains(hf, InitialConditions) then Err(AssertionFailed(hf))
    else if SeedKey !in attrs then Err(KeyError(SeedKey))
    else Ok((if RedshiftKey in attrs then attrs[RedshiftKey] else 0, attrs[SeedKey]))
  }

  /** `get_new_hf`: the field comes from the basename of `hf`, the redshift and seed from its attributes. */
  function GetNewName(hf: string, attrs: map<string, nat>): Result<string, AttrError>
  {
    var field := FieldOf(Paths.Basename(hf));
    match ZSeedOf(hf, attrs)
    case Err(e) => Err(e)
    case Ok((z, seed)) => Ok(NewName(field, z, seed))
  }

  /** `GetNewName` assembled from its two parts. */
  lemma GetNewNameFrom(p: string, attrs: map<string, nat>, field: string, zs: (nat, nat))
    requires FieldOf(Paths.Basename(p)) == field
    requires ZSeedOf(p, attrs) == Ok(zs)
    ensures GetNewName(p, attrs) == Ok(NewName(field, zs.0, zs.1))
  {
  }

  /** The redshift and seed do not depend on the path once the InitialConditions check passes for both. */
  lemma ZSeedPathIndependent(p: string, q: string, attrs: map<string, nat>)
    requires ZSeedOf(p, attrs).Ok?
    requires RedshiftKey in attrs || Contains(q, InitialConditions)
    ensures ZSeedOf(q, attrs) == ZSeedOf(p, attrs)
  {
  }

  lemma InitialConditionsSurvivesJoin(dir: string, z: nat, seed: nat)
    ensures Contains(Paths.Join(dir, NewName(InitialConditions, z, seed)), InitialConditions)
  {
    var n := NewName(InitialConditions, z, seed);
    var p, sfx := Paths.DirPrefix(dir), Suffix(z, seed);
    assert Paths.Join(dir, n) == p + (InitialConditions + sfx) by {
      assert n[0] == 'I';
    }
    ContainsMiddle(p, InitialConditions, sfx);
  }

  /** Where the script's main loop puts a file: `<inp_dir>/renamed/<new name>`. */
  function RenameTarget(inpDir: string, hf: string, attrs: map<string, nat>): (r: Result<string, AttrError>)
    ensures r.Ok? <==> GetNewName(hf, attrs).Ok?
    ensures r.Ok? ==> Paths.Basename(r.value) == GetNewName(hf, attrs).value
    ensures r.Ok? ==> r.value == Paths.DirPrefix(Paths.Join(inpDir, "renamed")) + GetNewName(hf, attrs).value
  {
    match GetNewName(hf, attrs)
    case Err(e) => Err(e)
    case Ok(name) =>
      NoSlashInNewName(hf, attrs);
      Paths.BasenameOfJoin(Paths.Join(inpDir, "renamed"), name);
      Ok(Paths.Join(Paths.Join(inpDir, "renamed"), name))
  }

  lemma SuffixHasNoSlashOrUnderscoreFirst(z: nat, seed: nat)
    ensures '/' !in Suffix(z, seed)
    ensures Suffix(z, seed)[0] == '_'
  {
    PaddedDecimal(z % 1000, 3);
    var a, b, c := Decimal(z / 1000), PadZeros(Decimal(z % 1000), 3), Decimal(seed);
    assert '/' !in a && '/' !in b && '/' !in c;
    assert Suffix(z, seed) == "_z" + a + "." + b + "_s" + c + ".h5";
  }

  /** A new name is a single path component: the basename of `hf` has no '/', nor has the suffix. */
  lemma NoSlashInNewName(hf: string, attrs: map<string, nat>)
    requires GetNewName(hf, attrs).Ok?
    ensures '/' !in GetNewName(hf, attrs).value
  {
    var b := Paths.Basename(hf);
    var field := FieldOf(b);
    NotInPrefix('/', b, |field|);
    var zs := ZSeedOf(hf, attrs).value;
    GetNewNameFrom(hf, attrs, field, zs);
    NoSlashInFormat(field, zs.0, zs.1);
  }

  /** The format adds no '/' to a field without one. */
  lemma NoSlashInFormat(field: string, z: nat, seed: nat)
    requires '/' !in field
    ensures '/' !in NewName(field, z, seed)
  {
    SuffixHasNoSlashOrUnderscoreFirst(z, seed);
    NotInConcat('/', field, Suffix(z, seed));
  }

  /** A character absent from a string is absent from each of its prefixes. */
  lemma NotInPrefix(c: char, s: string, n: nat)
    requires c !in s && n <= |s|
    ensures c !in s[..n]
  {
    assert forall i :: 0 <= i < n ==> s[..n][i] == s[i];
  }

  /** A character in neither part is not in their concatenation. */
  lemma NotInConcat(c: char, a: string, b: string)
    requires c !in a && c !in b
    ensures c !in a + b
  {
  }

  /** The field of a renamed file is the field it was given: the format puts '_' right after it. */
  lemma FieldOfNewName(field: string, z: nat, seed: nat)
    requires '_' !in field
    ensures FieldOf(NewName(field, z, seed)) == field
  {
    SuffixHasNoSlashOrUnderscoreFirst(z, seed);
    FieldOfBeforeUnderscore(field, Suffix(z, seed));
  }

  /** A name whose first '_' directly follows `field` has that field. */
  lemma FieldOfBeforeUnderscore(field: string, rest: string)
    requires '_' !in field && |rest| > 0 && rest[0] == '_'
    ensures FieldOf(field + rest) == field
  {
    var n := field + rest;
    assert n[..|field|] == field;
    FieldOfAt(n, |field|);
  }

  /** The field ends where the first '_' is. */
  lemma FieldOfAt(hf: string, k: nat)
    requires k < |hf| && hf[k] == '_' && '_' !in hf[..k]
    ensures FieldOf(hf) == hf[..k]
  {
  }

  /** The usage example of `get_field_from_hf`. */
  lemma FieldOfExample()
    ensures FieldOf("BrightnessTemp_8346578_r4573257.h5") == "BrightnessTemp"
  {
    var hf := "BrightnessTemp_8346578_r4573257.h5";
    assert hf[..14] == "BrightnessTemp";
    FieldOfAt(hf, 14);
  }

  /** Without any '_' the slice `hf[0:-1]` drops the last character. */
  lemma FieldOfNoUnderscore(hf: string)
    requires '_' !in hf && |hf| > 0
    ensures FieldOf(hf) == hf[..|hf| - 1]
  {
  }

  /** Directory components never affect the field: it is read from the basename only. */
  lemma FieldIgnoresDirectory(dir: string, name: string)
    requires '/' !in name
    ensures FieldOf(Paths.Basename(Paths.Join(dir, name))) == FieldOf(name)
  {
    Paths.BasenameOfJoin(dir, name);
  }

  /**
   * Renaming is idempotent: a renamed file, wherever it is put, is renamed
   * to the same name, as long as its redshift is stored or it is an
   * InitialConditions file (whose new name carries that word).
   */
  lemma RenameIdempotent(hf: string, attrs: map<string, nat>, dir: string)
    requires GetNewName(hf, attrs).Ok?
    requires RedshiftKey in attrs || FieldOf(Paths.Basename(hf)) == InitialConditions
    ensures GetNewName(Paths.Join(dir, GetNewName(hf, attrs).value), attrs) == GetNewName(hf, attrs)
  {
    var n := GetNewName(hf, attrs).value;
    var field := FieldOf(Paths.Basename(hf));
    var zs := ZSeedOf(hf, attrs).value;
    GetNewNameFrom(hf, attrs, field, zs);
    var p := Paths.Join(dir, n);
    NoSlashInNewName(hf, attrs);
    Paths.BasenameOfJoin(dir, n);
    FieldOfNewName(field, zs.0, zs.1);
    if RedshiftKey !in attrs {
      InitialConditionsSurvivesJoin(dir, zs.0, zs.1);
    }
    ZSeedPathIndependent(hf, p, attrs);
    GetNewNameFrom(p, attrs, field, zs);
  }
}
