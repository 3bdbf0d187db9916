# File naming and paths of the RSD_LC 21cmFAST tools

This project models the file-naming and path layer that the RSD_LC
post-processing tools for 21cmFAST share, together with the small buffer
and counter routines around it:

- `rename.dfy` (`Rename`): the renaming script. A cached file's field is
  the text before its first `_`. Its new name is
  `<Field>_z<z to 3 decimals>_s<seed>.h5`, with the redshift and seed read
  from the file's root attributes. A missing redshift falls back to 0 only
  for InitialConditions files.
- `compute_dvdr.dfy` (`ComputeDvdr`): the velocity-gradient script without
  its numerics. It covers the input and output names, and the batch driver
  that recovers `(z, seed)` from each globbed name with `z(\d+\.\d{3})` and
  `s(\d+)` and then runs the writes in order until the first exception.
  It also covers the output file: every top-level group's
  attributes except PerturbedField's, plus `VelocityGradient/velocity_gradient`.
- `mv_files.dfy` (`MoveFiles`): the script that splits a cache by an astro
  parameter. It builds the output-directory map and makes the directories.
  It then moves each file to its value's directory, or symlinks it into
  every directory when it lacks the parameter. A value that is not listed
  aborts the script.
- `readers.dfy` (`Readers`): the five C readers. Each covers the path it
  formats, the group and dataset it reads, and the in-place loops of
  `read_velocity` (unit change) and `read_ionized_fraction` (`x` to `1 - x`).
- `hdf_util.dfy` (`HdfUtil`): the C helpers. These are the global group
  counter (a class), the `%05d` group names, and the
  open/check/read/close wrappers, which terminate the process on failure.
- `strings.dfy`, `paths.dfy`, `hdf5.dfy`: shared helpers.
  - `Strings` covers decimal rendering and parsing, `str.find`, Python
    slicing and substring tests.
  - `Paths` covers `os.path.join` and `os.path.split(...)[1]`.
  - `Hdf5` holds HDF5 files as values.

Conventions:

- A redshift is a natural number of thousandths, so `{:.3f}` and `%.3f`
  render the integer part, a `.` and exactly three digits. A seed is a
  natural number.
- Python exceptions and C `exit(1)` are values: `Result`, `Option`, and
  `Outcome` with its cases `Return`, `Exit` and `Undefined`.
- The file system and the HDF5 library are maps and oracle parameters. The
  status codes the library returns are parameters too.

The code and its docstrings disagree in one place, and the model follows
the code. The docstring of `get_new_hf` shows `'BrightnessTemp_6.000_731995'`,
but the format string adds `_z`, `_s` and `.h5`
(util/py/rename_21cmfast_hdf5.py:73 against :76).

## Model

| member | source | states |
|---|---|---|
| Rename.FieldOf | util/py/rename_21cmfast_hdf5.py:23-25 | the field is a prefix of the name without '_'; when the name has a '_' the field stops right at the first one; without one, the slice drops the last character |
| Rename.FieldOfAt | util/py/rename_21cmfast_hdf5.py:23-25 | the field is the name up to its first '_' |
| Rename.FieldOfBeforeUnderscore | util/py/rename_21cmfast_hdf5.py:23-25 | a field without '_' followed by a part starting with '_' is recovered as the field |
| Rename.FieldOfExample | util/py/rename_21cmfast_hdf5.py:17-20 | the docstring example `BrightnessTemp_8346578_r4573257.h5` gives `BrightnessTemp` |
| Rename.FieldOfNoUnderscore | util/py/rename_21cmfast_hdf5.py:23-25 | with no '_', `find` gives -1 and `hf[0:-1]` is the name minus its last character |
| Rename.FieldIgnoresDirectory | util/py/rename_21cmfast_hdf5.py:77 | the field of a slash-free name joined onto any directory is the field of the name alone |
| Rename.ZSeedOf | util/py/rename_21cmfast_hdf5.py:45-55 | success iff (redshift present or the path contains InitialConditions) and the seed is present; redshift 0 when absent; AssertionFailed exactly when both the redshift and InitialConditions are missing, KeyError on the seed otherwise |
| Rename.ZSeedPathIndependent | util/py/rename_21cmfast_hdf5.py:45-53 | once the InitialConditions check passes for two paths, both give the same redshift and seed |
| Rename.InitialConditionsSurvivesJoin | util/py/rename_21cmfast_hdf5.py:50 | a renamed InitialConditions file, in any directory, still passes the InitialConditions check |
| Rename.FormatRedshift | util/py/rename_21cmfast_hdf5.py:76 | `{:.3f}` of a redshift in thousandths; its contract is stated by Strings.PaddedDecimal and ComputeDvdr.SuffixPieces (integer part, '.', exactly three digits of the thousandths) and ComputeDvdr.RoundTrip (it parses back) |
| Rename.Suffix | util/py/rename_21cmfast_hdf5.py:76 | the part of the format after the field; its contract is stated by Rename.SuffixHasNoSlashOrUnderscoreFirst and ComputeDvdr.SuffixPieces |
| Rename.NewName | util/py/rename_21cmfast_hdf5.py:76 | the name format `<field>_z<z>_s<seed>.h5`; its contract is stated by Rename.NoSlashInFormat, Rename.FieldOfNewName and ComputeDvdr.RoundTrip |
| Rename.GetNewName | util/py/rename_21cmfast_hdf5.py:58-80 | `get_new_hf`; its contract is stated by Rename.GetNewNameFrom, Rename.NoSlashInNewName, Rename.FieldOfNewName and Rename.RenameIdempotent |
| Rename.GetNewNameFrom | util/py/rename_21cmfast_hdf5.py:76-80 | when the attribute lookup succeeds, the new name is the format applied to the basename's field, the redshift and the seed |
| Rename.NoSlashInFormat | util/py/rename_21cmfast_hdf5.py:76 | a field without '/' gives a new name without '/' |
| Rename.SuffixHasNoSlashOrUnderscoreFirst | util/py/rename_21cmfast_hdf5.py:76 | the formatted `_z<z>_s<seed>.h5` starts with '_' and holds no '/' |
| Rename.NoSlashInNewName | util/py/rename_21cmfast_hdf5.py:76-80 | a new name is a single path component |
| Rename.FieldOfNewName | util/py/rename_21cmfast_hdf5.py:76-80 | the field of a renamed file is the field it was given |
| Rename.RenameIdempotent | util/py/rename_21cmfast_hdf5.py:58-80 | renaming a renamed file, in any directory, gives the same name again (redshift stored, or an InitialConditions file) |
| Rename.RenameTarget | util/py/rename_21cmfast_hdf5.py:100-103 | the main loop's destination exists iff the new name does; it is `<inp_dir>/renamed/` followed by the new name (the new name never starts with '/', so `join` keeps the directory), and its basename is the new name |
| Strings.Find | util/py/rename_21cmfast_hdf5.py:23 | `find` gives -1 iff the character is absent, otherwise the index of its first occurrence |
| Strings.Decimal | util/py/rename_21cmfast_hdf5.py:76 | `{:d}` renders at least one digit, all digits, with no leading zero |
| Strings.ValueOfDecimal | util/py/compute_dvdr_21cmfast.py:120 | `int` of a rendered decimal gives the number back |
| Strings.DecimalInjective | util/py/rename_21cmfast_hdf5.py:76 | different numbers render differently |
| Strings.PaddedDecimal | util/py/rename_21cmfast_hdf5.py:76 | the zero-padded fraction of `{:.3f}` is all digits, at least as wide as asked, and denotes the number |
| Paths.Join | util/py/mv_21cmfast_hdf5.py:93 | `os.path.join` of two components; its contract is stated by Paths.BasenameOfJoin and Rename.RenameTarget |
| Paths.Basename | util/py/mv_21cmfast_hdf5.py:92 | `os.path.split(p)[1]` holds no '/', ends p, and is all of p or follows a '/' |
| Paths.BasenameOfJoin | util/py/mv_21cmfast_hdf5.py:92-93 | joining a slash-free name onto any directory keeps it as the basename |
| Paths.BasenameIdempotent | util/py/rename_21cmfast_hdf5.py:77 | the basename of a basename is itself |
| ComputeDvdr.InputName | util/py/compute_dvdr_21cmfast.py:86 | the input name; its contract is stated by ComputeDvdr.OutputNameSwapsPrefix, ComputeDvdr.InputNameInjective and ComputeDvdr.CanonicalNameParses |
| ComputeDvdr.OutputName | util/py/compute_dvdr_21cmfast.py:87 | the output name; its contract is stated by ComputeDvdr.OutputNameSwapsPrefix and Readers.VelocityGradientReadsWriterOutput |
| ComputeDvdr.OutputNameSwapsPrefix | util/py/compute_dvdr_21cmfast.py:86-87 | input and output names share the `_z<z>_s<seed>.h5` suffix and differ only in the prefix |
| ComputeDvdr.DigitRun | util/py/compute_dvdr_21cmfast.py:116-117 | the greedy `\d+` run: all digits, ended by the end of the string or a non-digit |
| ComputeDvdr.RedshiftAt | util/py/compute_dvdr_21cmfast.py:116 | `z(\d+\.\d{3})` at one position; its contract is stated by ComputeDvdr.RedshiftMatchHere and ComputeDvdr.NoMatchBeforeDigits |
| ComputeDvdr.SeedAt | util/py/compute_dvdr_21cmfast.py:117 | `s(\d+)` at one position; its contract is stated by ComputeDvdr.SeedMatchHere and ComputeDvdr.NoMatchBeforeDigits |
| ComputeDvdr.Search | util/py/compute_dvdr_21cmfast.py:120-121 | `pattern.search`: the leftmost match; its contract is stated by ComputeDvdr.SearchSkips, ComputeDvdr.RedshiftFound and ComputeDvdr.SeedFound |
| ComputeDvdr.SearchSkips | util/py/compute_dvdr_21cmfast.py:120-121 | `search` passes over positions where the pattern does not match |
| ComputeDvdr.SuffixPieces | util/py/compute_dvdr_21cmfast.py:86 | the formatted suffix is `_z<D>.<F>_s<S>.h5` where D, F and S are the integer part, the three decimals and the seed |
| ComputeDvdr.RedshiftMatchHere | util/py/compute_dvdr_21cmfast.py:116 | `z<digits>.<3 digits>` matches at its 'z' with the value it denotes |
| ComputeDvdr.SeedMatchHere | util/py/compute_dvdr_21cmfast.py:117 | `s<digits>` followed by '.' matches at its 's' with the seed it denotes |
| ComputeDvdr.NoMatchBeforeDigits | util/py/compute_dvdr_21cmfast.py:116-117 | neither pattern matches where no digit follows |
| ComputeDvdr.RedshiftFound | util/py/compute_dvdr_21cmfast.py:121 | after a digit-free stretch, the first `z<d>.<fff>` is what the search returns |
| ComputeDvdr.SeedFound | util/py/compute_dvdr_21cmfast.py:120 | after a digit-free stretch and a stretch without 's', the first `s<t>.` is what the search returns |
| ComputeDvdr.RedshiftRoundTrip | util/py/compute_dvdr_21cmfast.py:116-121 | the redshift pattern recovers the formatted redshift after any digit-free prefix |
| ComputeDvdr.SeedRoundTrip | util/py/compute_dvdr_21cmfast.py:117-120 | the seed pattern recovers the formatted seed after any digit-free prefix |
| ComputeDvdr.RoundTrip | util/py/compute_dvdr_21cmfast.py:116-121 | format then parse gives back both (z, seed) |
| ComputeDvdr.InputNameInjective | util/py/compute_dvdr_21cmfast.py:86 | distinct (z, seed) pairs give distinct input names |
| ComputeDvdr.ParseAll | util/py/compute_dvdr_21cmfast.py:120-121 | the list comprehension gives one converted match per name, index-aligned, or fails at the first name without a match |
| ComputeDvdr.Discover | util/py/compute_dvdr_21cmfast.py:119-125 | success iff every name matches both patterns; then one call per name, in order, with that name's redshift and seed; a seed failure is reported before any redshift failure |
| ComputeDvdr.WriteVelGradientAll | util/py/compute_dvdr_21cmfast.py:115-125 | the batch driver aborts with `Discover`'s failure, or runs `write_vel_gradient` on the discovered calls in order, as `WriteBatch` says |
| ComputeDvdr.PairUp | util/py/compute_dvdr_21cmfast.py:123-125 | the zip loop: one call per index with that index's redshift and seed |
| ComputeDvdr.CanonicalNameParses | util/py/compute_dvdr_21cmfast.py:119-121 | a globbed `./PerturbedField_z.._s...h5` parses to its own redshift and seed |
| ComputeDvdr.DiscoverCanonical | util/py/compute_dvdr_21cmfast.py:119-125 | on canonically named files the batch calls each (z, seed) in order, and the input name rebuilt from each call is the discovered name |
| ComputeDvdr.CopyGroups | util/py/compute_dvdr_21cmfast.py:101-105 | the group loop as a recursion; its contract is stated by ComputeDvdr.CopyGroupsSpec |
| ComputeDvdr.CopyGroupsSpec | util/py/compute_dvdr_21cmfast.py:101-105 | success iff no listed group but PerturbedField already exists in the output; the result has the output's groups plus every listed group but PerturbedField, each holding exactly its attributes, and keeps the output's groups |
| ComputeDvdr.CopyGroupsFailure | util/py/compute_dvdr_21cmfast.py:103 | the copy fails only with `create_group` on a listed, already present group other than PerturbedField |
| ComputeDvdr.CopyAttrs | util/py/compute_dvdr_21cmfast.py:104-105 | the attribute loop copies the map verbatim |
| ComputeDvdr.CopyAttributeGroups | util/py/compute_dvdr_21cmfast.py:101-105 | the group loop, step by step, gives what `CopyGroups` gives |
| ComputeDvdr.AttrOf | util/py/compute_dvdr_21cmfast.py:95-98 | `hid[group].attrs[key]` succeeds iff both exist, with the stored value |
| ComputeDvdr.InputError | util/py/compute_dvdr_21cmfast.py:94-98 | no failure iff `PerturbedField/velocity` and the four metadata attributes exist |
| ComputeDvdr.WriteVelGradient | util/py/compute_dvdr_21cmfast.py:92-112 | success iff the input reads succeed, no copied group and no VelocityGradient group exists in the output yet; root attributes are unchanged and `VelocityGradient/velocity_gradient` holds the gradient |
| ComputeDvdr.WriteVelGradientGroups | util/py/compute_dvdr_21cmfast.py:101-112 | after success the output's groups are its earlier ones, the input's but PerturbedField, and VelocityGradient; copied groups hold their attributes only and earlier groups are kept |
| ComputeDvdr.RerunFails | util/py/compute_dvdr_21cmfast.py:92-103 | because the output is opened for appending, a second run on the same input fails |
| ComputeDvdr.NamesOfAll | util/py/compute_dvdr_21cmfast.py:86-87 | one pair of file names per call, index-aligned: the call's input and output names |
| ComputeDvdr.WriteCall | util/py/compute_dvdr_21cmfast.py:86-112 | one call: a missing input raises before anything is written; an output that already has VelocityGradient makes it raise; on return it adds or replaces only its own output, which then holds its input's gradient |
| ComputeDvdr.WriteBatch | util/py/compute_dvdr_21cmfast.py:123-125 | the loop runs the calls in order up to the first exception: all calls return iff there is no failure, and the failure names the input or output of the call that raised |
| ComputeDvdr.RunCalls | util/py/compute_dvdr_21cmfast.py:123-125 | the loop, call by call, ends as `WriteBatch` says |
| ComputeDvdr.WriteBatchStep | util/py/compute_dvdr_21cmfast.py:123-125 | a batch whose first call returns is that call followed by the batch of the rest |
| ComputeDvdr.WriteBatchStops | util/py/compute_dvdr_21cmfast.py:123-125 | a batch whose first call raises ends there with the outputs as they were |
| ComputeDvdr.KeepsWritten | util/py/compute_dvdr_21cmfast.py:92-111 | an output that already holds VelocityGradient is never changed by the batch |
| ComputeDvdr.BatchWritesEach | util/py/compute_dvdr_21cmfast.py:110-125 | every call that returned leaves its output holding its input's gradient |
| ComputeDvdr.BatchOutputs | util/py/compute_dvdr_21cmfast.py:123-125 | the outputs after the batch are the earlier ones plus the outputs of the calls that returned, and no other file |
| ComputeDvdr.BatchKeepsOthers | util/py/compute_dvdr_21cmfast.py:123-125 | an output no returning call names is left as it was |
| ComputeDvdr.WrittenStops | util/py/compute_dvdr_21cmfast.py:110-125 | a call whose output already holds VelocityGradient stops the batch at or before it |
| ComputeDvdr.RepeatsFirstStops | util/py/compute_dvdr_21cmfast.py:110-125 | a later call with the first call's output stops the batch at that call at the latest |
| ComputeDvdr.DuplicateStops | util/py/compute_dvdr_21cmfast.py:110-125 | two calls with the same output: the batch stops with a failure, at the second one at the latest |
| ComputeDvdr.StrayCopyStops | util/py/compute_dvdr_21cmfast.py:119-125 | two globbed files with the same redshift and seed (here `PerturbedField_z…` and `PerturbedFieldOld_z…`) give the same call twice, and the batch then ends with a failure |
| MoveFiles.OutDirs | util/py/mv_21cmfast_hdf5.py:35-37 | exactly the parameters as keys, exactly the listed values as inner keys, each mapped to `join(inp_dir, par + '_' + val)` |
| MoveFiles.OutDirsExample | util/py/mv_21cmfast_hdf5.py:25-32 | `{'A_VCB': [0.0, 1.0]}` gives `<inp_dir>/A_VCB_0.0` and `<inp_dir>/A_VCB_1.0` |
| MoveFiles.OutDirsInjective | util/py/mv_21cmfast_hdf5.py:35 | different values of one parameter get different directories |
| MoveFiles.GetParVal | util/py/mv_21cmfast_hdf5.py:62-71 | None exactly when `astro_params` or the parameter is missing, the stored value otherwise |
| MoveFiles.DoCmdTarget | util/py/mv_21cmfast_hdf5.py:92-93 | `do_cmd_hf`'s destination; its contract is stated by MoveFiles.DoCmdTargetKeepsBasename |
| MoveFiles.DoCmdTargetKeepsBasename | util/py/mv_21cmfast_hdf5.py:92-94 | the destination's basename is the source's basename |
| MoveFiles.Dedup | util/py/mv_21cmfast_hdf5.py:36 | the inner dict's keys: the same values as listed, without repeats |
| MoveFiles.ValueDirs | util/py/mv_21cmfast_hdf5.py:102 | `out_dirs[par].values()`: one directory per distinct listed value, in order |
| MoveFiles.Then | util/py/mv_21cmfast_hdf5.py:109-121 | nothing runs after a failure; otherwise the calls add up |
| MoveFiles.ChainStops | util/py/mv_21cmfast_hdf5.py:109-121 | after the first `KeyError` the remaining steps change nothing |
| MoveFiles.MakeDirsPlan | util/py/mv_21cmfast_hdf5.py:101-103 | the first loop makes directories only |
| MoveFiles.MakeDirsCovers | util/py/mv_21cmfast_hdf5.py:101-103 | every directory of `out_dirs` is made |
| MoveFiles.ParRun | util/py/mv_21cmfast_hdf5.py:111-121 | no value: one symlink into each directory of the parameter; a listed value: exactly one move into its directory; an unlisted value: `KeyError` and no call |
| MoveFiles.SymlinkedIntoEveryDir | util/py/mv_21cmfast_hdf5.py:113-116 | a file without the parameter is symlinked into the directory of every listed value, and only symlinked |
| MoveFiles.ParRunPlaced | util/py/mv_21cmfast_hdf5.py:110-121 | every symlink or move of a parameter step takes the file, under its own basename, into a made directory |
| MoveFiles.SplitRun | util/py/mv_21cmfast_hdf5.py:96-121 | the main block as one run; its contract is stated by MoveFiles.SplitRunPlaced and MoveFiles.SplitCache |
| MoveFiles.SplitRunPlaced | util/py/mv_21cmfast_hdf5.py:96-121 | the script makes every directory, and every symlink or move takes a globbed file under its own basename into a made directory |
| MoveFiles.MakeOutDirs | util/py/mv_21cmfast_hdf5.py:101-103 | the nested makedirs loop makes the planned calls |
| MoveFiles.MakeValueDirs | util/py/mv_21cmfast_hdf5.py:102-103 | one makedirs per directory of a parameter, in order |
| MoveFiles.SymlinkAll | util/py/mv_21cmfast_hdf5.py:115-116 | one symlink per directory, in order |
| MoveFiles.DispatchParameter | util/py/mv_21cmfast_hdf5.py:111-121 | the parameter loop's body does what `ParRun` says |
| MoveFiles.DispatchFile | util/py/mv_21cmfast_hdf5.py:110-121 | the parameter loop runs each parameter in key order and stops at a `KeyError` |
| MoveFiles.DispatchFiles | util/py/mv_21cmfast_hdf5.py:109-121 | the file loop runs each file in glob order and stops at a `KeyError` |
| MoveFiles.SplitCache | util/py/mv_21cmfast_hdf5.py:96-121 | the main block makes the directories, then runs the file loop |
| Readers.FilePrefix | read_21cmfast.c:9-78 | the file prefix and group of each reader; its contract is stated by Readers.FilePrefixNoDigits, Readers.DensityAndVelocityShareFile and Readers.VelocityGradientReadsWriterOutput |
| Readers.DatasetOf | read_21cmfast.c:11-79 | the dataset each reader reads; its contract is stated by Readers.DensityAndVelocityShareFile and Readers.VelocityGradientReadsWriterOutput |
| Readers.ReaderPath | read_21cmfast.c:9-76 | each reader's `sprintf` path; its contract is stated by Readers.ReaderPathParses, Readers.ReaderPathInjective and Readers.VelocityGradientReadsWriterOutput |
| Readers.FilePrefixNoDigits | read_21cmfast.c:9-76 | no reader's file prefix holds a digit, so the redshift and seed are the first digits of a name |
| Readers.ReaderPathParses | read_21cmfast.c:9-76 | the redshift and seed of each reader's path read back with the batch driver's patterns, when the directory has no digits |
| Readers.ReaderPathInjective | read_21cmfast.c:9-76 | in a digit-free directory, different (z, seed) pairs give a reader different files |
| Readers.DensityAndVelocityShareFile | read_21cmfast.c:9-26 | `read_density` and `read_velocity` open the same file and read different datasets |
| Readers.VelocityGradientReadsWriterOutput | read_21cmfast.c:45-47 | the gradient reader opens the writer's output name and, after a successful write, reads back the written gradient |
| Readers.ToSimUnits | read_21cmfast.c:32 | the velocity unit change; its contract is stated by Readers.ToSimUnitsInvertible and Readers.ConvertVelocityUnits |
| Readers.ToSimUnitsInvertible | read_21cmfast.c:21-33 | the velocity conversion is undone by its inverse and keeps the sign and zero |
| Readers.NeutralFraction | read_21cmfast.c:65 | `1. - temp[i]`; its contract is stated by Readers.NeutralFractionInvolution |
| Readers.NeutralFractionInvolution | read_21cmfast.c:65 | `1 - x` twice is `x`, and it keeps a fraction a fraction |
| Readers.Transform | read_21cmfast.c:31-67 | the per-entry rewrite of each reader; its contract is stated by Readers.UntransformedReaders, Readers.ConvertVelocityUnits and Readers.IonizedToNeutral |
| Readers.Transformed | read_21cmfast.c:31-67 | the loops keep the length and leave entries from `global_N3_smooth` on untouched |
| Readers.UntransformedReaders | read_21cmfast.c:43-90 | the density, gradient and spin-temperature readers leave the buffer as read |
| Readers.IonizedTransformInvolution | read_21cmfast.c:63-67 | converting the ionized fraction twice restores the buffer |
| Readers.VelocityTransformInvertible | read_21cmfast.c:31-33 | every converted velocity is undone by the inverse conversion |
| Readers.ConvertVelocityUnits | read_21cmfast.c:31-33 | each of the first n entries becomes `v * Mpc_to_m / c / (z + 1)`, the rest is unchanged |
| Readers.IonizedToNeutral | read_21cmfast.c:63-67 | each of the first n entries becomes `1 - x`, the rest is unchanged |
| Readers.Loaded | util/h5/hdf_util.c:88 | a read puts the dataset in front of the buffer and keeps the rest |
| Readers.ReaderOutcome | read_21cmfast.c:10-14 | a reader returns iff file and group exist, the read status is non-negative when the dataset exists, and the close status is non-negative; it then returns the close status; otherwise `exit(1)`, never an undefined value (a missing dataset's missing value is overwritten by the close status) |
| Readers.ReadField | read_21cmfast.c:4-91 | a reader ends as `ReaderOutcome` says; on return the buffer is the dataset loaded (or, with a missing dataset, the buffer as it was) and then transformed |
| HdfUtil.CountGroups | util/h5/hdf_util.c:13-15 | the count is at most the number of objects, equal to it iff every object counts, zero iff none does |
| HdfUtil.CountGroupsAppend | util/h5/hdf_util.c:24 | a visit's count is the sum of the counts of its parts |
| HdfUtil.CountSkipsRoot | util/h5/hdf_util.c:14 | the root group "." adds nothing |
| HdfUtil.GroupCounter.constructor | util/h5/hdf_util.c:7 | the counter starts at 0 |
| HdfUtil.GroupCounter.Callback | util/h5/hdf_util.c:9-17 | counts exactly the groups whose name does not start with '.', and returns 0 |
| HdfUtil.GroupCounter.GetGroupCount | util/h5/hdf_util.c:20-28 | resets the counter, so the result and the counter are the count of this visit only |
| HdfUtil.GroupName | util/h5/hdf_util.c:30-32 | `%05d`; its contract is stated by HdfUtil.GroupNameFiveDigits, HdfUtil.GroupNameUnpadded, HdfUtil.GroupNameParts and HdfUtil.GroupNameInjective |
| HdfUtil.GroupNameFiveDigits | util/h5/hdf_util.c:31 | from 0 to 99999, exactly five digits denoting i |
| HdfUtil.GroupNameUnpadded | util/h5/hdf_util.c:31 | above 99999, i in full with nothing truncated |
| HdfUtil.GroupNameParts | util/h5/hdf_util.c:31 | at least five characters; a leading '-' exactly for negative i, then digits denoting the absolute value |
| HdfUtil.GroupNameInjective | util/h5/hdf_util.c:31 | different indices give different names |
| HdfUtil.OpenHf | util/h5/hdf_util.c:102-112 | returns the file iff it exists, else `exit(1)` |
| HdfUtil.OpenGroup | util/h5/hdf_util.c:34-42 | returns the group iff it exists, else `exit(1)` |
| HdfUtil.CheckGroup | util/h5/hdf_util.c:44-57 | 1 iff the group opens, 0 otherwise |
| HdfUtil.CheckDataset | util/h5/hdf_util.c:59-68 | `exit(1)` for a missing group, else 1 or 0 for a present or missing dataset |
| HdfUtil.GetDatasetDims | util/h5/hdf_util.c:70-78 | `exit(1)` for a missing group, the dataset's dimensions when present, nothing written otherwise |
| HdfUtil.ReadOutcome | util/h5/hdf_util.c:80-100 | `exit(1)` iff the group is missing or the read fails; undefined iff the dataset is missing; otherwise the non-negative read status |
| HdfUtil.ReadDatasetFloat | util/h5/hdf_util.c:80-100 | ends as `ReadOutcome` says; on return the dataset fills the front of the buffer and the rest is kept; otherwise the buffer is untouched |
| HdfUtil.CloseHf | util/h5/hdf_util.c:115-125 | returns the status iff it is non-negative, else `exit(1)` |

## Left out

- The velocity-gradient numerics (`compute_vel_gradient`, `Hz`, the division by H(z)) are floating-point FFT work over numpy. The gradient is a parameter of `ComputeDvdr.WriteVelGradient`.
- `dzdt`, `dgrowthdt`, `getGrowth` and `intGrowth` are float numerics and dead code: they call `Hz` with one argument instead of three.
- Float rounding is not modelled. Redshifts are exact thousandths, so `{:.3f}`/`%.3f` never round, and buffer entries are `real`, not single precision.
- Readers.ConvertVelocityUnits: the constants `Mpc_to_m` and `c` are the decimal values written in the source, not their single-precision roundings.
- The `sprintf` into the fixed `char hf[256]` is not modelled: paths have unbounded length and overflow is not represented.
- The headers `read_21cmfast.h` and `util/h5/hdf_util.h` hold declarations only and are not part of this model.
- HDF5, `glob`, `os.makedirs`, `os.symlink` and `os.rename` are oracles. Files are map values, the glob result and a group's iteration order are parameters, and library status codes are parameters.
- MoveFiles.SplitCache: every file-system call is taken to succeed. `FileExistsError` from a second symlink, or a moved file that is gone when the next parameter opens it, are not represented.
- Parameter values in the splitting script are the strings `str(val)` renders. Float rendering (`0.0` against `-0.0`, NaN) is not modelled.
- The regular expressions match ASCII digits only. Python's `\d` also accepts other Unicode decimal digits.
- ComputeDvdr.WriteVelGradient: a failure is a value with no partial state. The real output file keeps the groups created before the failure.
- ComputeDvdr.WriteBatch: a call that raises leaves the outputs as they were before it. The real output file may have been created by append mode and keep the groups copied before the exception.
- ComputeDvdr.WriteCall: the PerturbedField inputs and the VelocityGradient outputs are two separate maps, since the prefixes differ and the batch never writes an input. Each input carries its group order and its already computed gradient.
- Readers.ReadField: after `exit(1)` the buffer contents are not stated. With a missing dataset, `read_dataset_float` falls off its end (util/h5/hdf_util.c:99-100), and C makes using that missing value undefined; the model follows what the readers' code does next (the value is overwritten by `close_hf`'s status, the file is closed and the transform runs over the unloaded buffer) rather than treating the whole run as undefined.
- HdfUtil.ReadDatasetFloat: a read either fills the whole dataset or fails. Partial reads are not represented.
- HdfUtil.CheckGroup: closing the opened group handle is not modelled, since handles carry no state here.
- HdfUtil.GroupCounter.GetGroupCount: the status `H5Ovisit3` returns is ignored, as in the source. The `printf` of the count is not modelled.
- All `printf`/`print` output is left out.
- The rename script's `cmd(inp_hf, out_hf)` and `os.makedirs(out_dir)` are not modelled; `Rename.RenameTarget` gives the destination path.
- Seeds are non-negative. A negative `long` seed rendered by `%ld` is not represented.
