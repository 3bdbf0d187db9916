/**
 * The script that splits a 21cmFAST cache by the value of an astro
 * parameter. For each parameter it makes one directory per listed value,
 * `<inp_dir>/<par>_<value>`. Then, for every cached file and every
 * parameter, it moves the file into the directory of the file's value of
 * that parameter. A file that lacks the parameter is instead symlinked
 * into every directory of the parameter.
 *
 * Parameter values are the strings `str(val)` renders, so the listed
 * values and the values stored in the files are compared as rendered
 * strings. The parameter dictionary is a map plus the order of its keys;
 * a file's `astro_params` attributes are `None` when the group is missing.
 * File-system calls are recorded as actions, each of which is taken to
 * succeed.
 */
module MoveFiles {
  import opened Strings
  import Paths

  /** `get_out_dirs`: `out_dirs[par][val] == join(inp_dir, par + '_' + str(val))`. */
  function OutDirs(vals: map<string, seq<string>>, inpDir: string): (r: map<string, map<string, string>>)
    ensures r.Keys == vals.Keys
    ensures forall par :: par in vals ==> r[par].Keys == set v | v in vals[par]
    ensures forall par, v :: par in vals && v in vals[par] ==> r[par][v] == Paths.Join(inpDir, par + "_" + v)
  {
    map par | par in vals :: map v | v in vals[par] :: Paths.Join(inpDir, par + "_" + v)
  }

  /** The docstring example: `{'A_VCB': [0.0, 1.0]}` gives the directories `A_VCB_0.0` and `A_VCB_1.0`. */
  lemma OutDirsExample(inpDir: string)
    requires inpDir != [] && inpDir[|inpDir| - 1] != '/'
    ensures var r := OutDirs(map["A_VCB" := ["0.0", "1.0"]], inpDir);
            r.Keys == {"A_VCB"} && r["A_VCB"].Keys == {"0.0", "1.0"} &&
            r["A_VCB"]["0.0"] == inpDir + "/A_VCB_0.0" && r["A_VCB"]["1.0"] == inpDir + "/A_VCB_1.0"
  {
    var vals := map["A_VCB" := ["0.0", "1.0"]];
    var r := OutDirs(vals, inpDir);
    assert "0.0" in vals["A_VCB"] && "1.0" in vals["A_VCB"];
    assert r["A_VCB"].Keys == {"0.0", "1.0"};
    assert Paths.DirPrefix(inpDir) == inpDir + "/";
    assert inpDir + "/" + "A_VCB_0.0" == inpDir + "/A_VCB_0.0";
    assert inpDir + "/" + "A_VCB_1.0" == inpDir + "/A_VCB_1.0";
  }

  /** Within one parameter, different values get different directories. */
  lemma OutDirsInjective(vals: map<string, seq<string>>, inpDir: string, par: string, v1: string, v2: string)
    requires par in vals && v1 in vals[par] && v2 in vals[par]
    requires OutDirs(vals, inpDir)[par][v1] == OutDirs(vals, inpDir)[par][v2]
    ensures v1 == v2
  {
    var b1, b2 := par + "_" + v1, par + "_" + v2;
    assert b1[0] == b2[0] by {
      if par == [] {
        assert b1[0] == '_' && b2[0] == '_';
      } else {
        assert b1[0] == par[0] && b2[0] == par[0];
      }
    }
    var d := Paths.DirPrefix(inpDir);
    if b1[0] != '/' {
      assert d + b1 == d + b2;
      assert b1 == (d + b1)[|d|..];
      assert b2 == (d + b2)[|d|..];
    }
    assert b1 == b2;
    assert v1 == b1[|par| + 1..];
    assert v2 == b2[|par| + 1..];
  }

  /** `get_par_val`: the file's `astro_params` attribute `par`, or `None` when the group or the attribute is missing. */
  function GetParVal(astro: Option<map<string, string>>, par: string): (r: Option<string>)
    ensures r.None? <==> astro.None? || par !in astro.value
    ensures r.Some? ==> r.value == astro.value[par]
  {
    match astro
    case None => None
    case Some(attrs) => if par in attrs then Some(attrs[par]) else None
  }

  /** `do_cmd_hf`'s destination: the source's basename inside `out_dir`. */
  function DoCmdTarget(inpHf: string, outDir: string): string
  {
    Paths.Join(outDir, Paths.Basename(inpHf))
  }

  /** The destination keeps the source's basename. */
  lemma DoCmdTargetKeepsBasename(inpHf: string, outDir: string)
    ensures Paths.Basename(DoCmdTarget(inpHf, outDir)) == Paths.Basename(inpHf)
  {
    Paths.BasenameOfJoin(outDir, Paths.Basename(inpHf));
  }

  /** The listed values without repeats, in order of first appearance: the key order of a dict built from them. */
  function Dedup(s: seq<string>): (r: seq<string>)
    ensures forall x :: x in r <==> x in s
    ensures forall i, j :: 0 <= i < j < |r| ==> r[i] != r[j]
  {
    if s == [] then []
    else
      var d := Dedup(s[..|s| - 1]);
      if s[|s| - 1] in d then d else d + [s[|s| - 1]]
  }

  /** `out_dirs[par].values()`, in iteration order. */
  function ValueDirs(vals: map<string, seq<string>>, inpDir: string, par: string): (r: seq<string>)
    requires par in vals
    ensures |r| == |Dedup(vals[par])|
    ensures forall i :: 0 <= i < |r| ==> r[i] == OutDirs(vals, inpDir)[par][Dedup(vals[par])[i]]
  {
    var d := Dedup(vals[par]);
    seq(|d|, i requires 0 <= i < |d| => OutDirs(vals, inpDir)[par][d[i]])
  }

  /** One file-system call of the script: `os.makedirs`, `os.symlink` or `os.rename`. */
  datatype Action = MakeDirs(dir: string) | Symlink(src: string, dst: string) | Move(src: string, dst: string)

  /** The calls made so far, and the value whose lookup in `out_dirs[par]` raised `KeyError`, if one did. */
  datatype Run = Run(actions: seq<Action>, failure: Option<string>)

  /** Running `b` after `a`: nothing runs after a failure. */
  function Then(a: Run, b: Run): (r: Run)
    ensures a.failure.Some? ==> r == a
    ensures a.failure.None? ==> r.actions == a.actions + b.actions && r.failure == b.failure
  {
    if a.failure.Some? then a else Run(a.actions + b.actions, b.failure)
  }

  /** A sequence of steps run one after the other, stopping at the first failure. */
  function Chain(runs: seq<Run>): Run
  {
    if runs == [] then Run([], None) else Then(Chain(runs[..|runs| - 1]), runs[|runs| - 1])
  }

  /** Once a prefix of the steps has failed, the later steps change nothing. */
  lemma {:induction false} ChainStops(runs: seq<Run>, k: nat)
    requires k <= |runs| && Chain(runs[..k]).failure.Some?
    ensures Chain(runs) == Chain(runs[..k])
  {
    if k < |runs| {
      var init := runs[..|runs| - 1];
      assert init[..k] == runs[..k];
      ChainStops(init, k);
    } else {
      assert runs[..k] == runs;
    }
  }

  /** A property of single calls holds of every call of a chain when it holds of every call of every step. */
  lemma {:induction false} ChainActions(runs: seq<Run>, hfs: set<string>, made: set<string>)
    requires forall i, a :: 0 <= i < |runs| && a in runs[i].actions ==> Placed(a, hfs, made)
    ensures forall a :: a in Chain(runs).actions ==> Placed(a, hfs, made)
  {
    if runs != [] {
      ChainActions(runs[..|runs| - 1], hfs, made);
    }
  }

  /** `os.makedirs(out_dir)` for every directory of `out_dirs`, parameter by parameter. */
  function MakeDirsPlan(vals: map<string, seq<string>>, inpDir: string, order: seq<string>): (r: seq<Action>)
    requires forall k :: 0 <= k < |order| ==> order[k] in vals
    ensures forall a :: a in r ==> a.MakeDirs?
  {
    if order == [] then []
    else MakeDirsPlan(vals, inpDir, order[..|order| - 1]) + MakeAll(ValueDirs(vals, inpDir, order[|order| - 1]))
  }

  /** `os.makedirs(out_dir)` for each of `dirs`. */
  function MakeAll(dirs: seq<string>): seq<Action>
  {
    seq(|dirs|, i requires 0 <= i < |dirs| => MakeDirs(dirs[i]))
  }

  /** The directories the makedirs loop creates. */
  function MadeDirs(plan: seq<Action>): set<string>
  {
    set a | a in plan && a.MakeDirs? :: a.dir
  }

  lemma MadeDirsConcat(a: seq<Action>, b: seq<Action>)
    ensures MadeDirs(a + b) == MadeDirs(a) + MadeDirs(b)
  {
    forall d | d in MadeDirs(a + b)
      ensures d in MadeDirs(a) + MadeDirs(b)
    {
      var x :| x in a + b && x.MakeDirs? && x.dir == d;
      if x in a {
        assert d in MadeDirs(a);
      } else {
        assert d in MadeDirs(b);
      }
    }
  }

  /** Every directory of `out_dirs` is made: each listed value's directory, for each parameter. */
  lemma {:induction false} MakeDirsCovers(vals: map<string, seq<string>>, inpDir: string, order: seq<string>, par: string, v: string)
    requires forall k :: 0 <= k < |order| ==> order[k] in vals
    requires par in order && v in vals[par]
    ensures OutDirs(vals, inpDir)[par][v] in MadeDirs(MakeDirsPlan(vals, inpDir, order))
  {
    var init := order[..|order| - 1];
    var last := order[|order| - 1];
    var dirs := ValueDirs(vals, inpDir, last);
    MadeDirsConcat(MakeDirsPlan(vals, inpDir, init), MakeAll(dirs));
    if par == last {
      var d := Dedup(vals[par]);
      var i :| 0 <= i < |d| && d[i] == v;
      assert MakeAll(dirs)[i] == MakeDirs(dirs[i]);
      assert dirs[i] in MadeDirs(MakeAll(dirs));
    } else {
      assert par in init;
      MakeDirsCovers(vals, inpDir, init, par, v);
    }
  }

  /**
   * A symlink or a move takes one of the cached files as its source and
   * a made directory as the destination's directory, keeping the basename.
   */
  predicate Placed(a: Action, hfs: set<string>, made: set<string>)
  {
    a.MakeDirs? ||
    (a.src in hfs && Paths.Basename(a.dst) == Paths.Basename(a.src) &&
     exists d :: d in made && a.dst == DoCmdTarget(a.src, d))
  }

  /** `for out_dir in out_dirs[par].values(): do_cmd_hf(inp_hf, out_dir, os.symlink)` */
  function LinkAll(hf: string, dirs: seq<string>): seq<Action>
  {
    seq(|dirs|, i requires 0 <= i < |dirs| => Symlink(hf, DoCmdTarget(hf, dirs[i])))
  }

  /**
   * One parameter for one file: a file without the parameter is
   * symlinked into every directory of the parameter; a file with a
   * listed value is moved into that value's directory; any other value
   * raises `KeyError`.
   */
  function ParRun(hf: string, vals: map<string, seq<string>>, inpDir: string,
                  astro: Option<map<string, string>>, par: string): (r: Run)
    requires par in vals
    ensures GetParVal(astro, par).None? ==>
              r.failure.None? && |r.actions| == |Dedup(vals[par])| &&
              forall i :: 0 <= i < |r.actions| ==>
                r.actions[i] == Symlink(hf, DoCmdTarget(hf, OutDirs(vals, inpDir)[par][Dedup(vals[par])[i]]))
    ensures GetParVal(astro, par).Some? && GetParVal(astro, par).value in vals[par] ==>
              r == Run([Move(hf, DoCmdTarget(hf, OutDirs(vals, inpDir)[par][GetParVal(astro, par).value]))], None)
    ensures GetParVal(astro, par).Some? && GetParVal(astro, par).value !in vals[par] ==>
              r == Run([], Some(GetParVal(astro, par).value))
  {
    match GetParVal(astro, par)
    case None => Run(LinkAll(hf, ValueDirs(vals, inpDir, par)), None)
    case Some(v) =>
      if v in OutDirs(vals, inpDir)[par] then Run([Move(hf, DoCmdTarget(hf, OutDirs(vals, inpDir)[par][v]))], None)
      else Run([], Some(v))
  }

  /** A file lacking the parameter gets one symlink per distinct listed value, and no move. */
  lemma SymlinkedIntoEveryDir(hf: string, vals: map<string, seq<string>>, inpDir: string,
                              astro: Option<map<string, string>>, par: string, v: string)
    requires par in vals && v in vals[par]
    requires GetParVal(astro, par).None?
    ensures Symlink(hf, DoCmdTarget(hf, OutDirs(vals, inpDir)[par][v])) in ParRun(hf, vals, inpDir, astro, par).actions
    ensures forall a :: a in ParRun(hf, vals, inpDir, astro, par).actions ==> a.Symlink?
  {
    var dirs := ValueDirs(vals, inpDir, par);
    var acts := ParRun(hf, vals, inpDir, astro, par).actions;
    assert acts == LinkAll(hf, dirs);
    var d := Dedup(vals[par]);
    var i :| 0 <= i < |d| && d[i] == v;
    assert acts[i] == Symlink(hf, DoCmdTarget(hf, dirs[i]));
    forall a | a in acts
      ensures a.Symlink?
    {
      var j :| 0 <= j < |acts| && acts[j] == a;
      assert acts[j] == Symlink(hf, DoCmdTarget(hf, dirs[j]));
    }
  }

  /** The steps of one file: one `ParRun` per parameter, in key order. */
  function ParRuns(hf: string, vals: map<string, seq<string>>, inpDir: string,
                   astro: Option<map<string, string>>, order: seq<string>): (r: seq<Run>)
    requires forall k :: 0 <= k < |order| ==> order[k] in vals
    ensures |r| == |order|
    ensures forall k :: 0 <= k < |order| ==> r[k] == ParRun(hf, vals, inpDir, astro, order[k])
  {
    seq(|order|, k requires 0 <= k < |order| => ParRun(hf, vals, inpDir, astro, order[k]))
  }

  /** The steps of the whole loop: one chain of `ParRun`s per file, in `glob` order. */
  function FileRuns(hfs: seq<string>, vals: map<string, seq<string>>, inpDir: string,
                    astro: map<string, Option<map<string, string>>>, order: seq<string>): (r: seq<Run>)
    requires forall k :: 0 <= k < |order| ==> order[k] in vals
    requires forall h :: 0 <= h < |hfs| ==> hfs[h] in astro
    ensures |r| == |hfs|
    ensures forall h :: 0 <= h < |hfs| ==> r[h] == Chain(ParRuns(hfs[h], vals, inpDir, astro[hfs[h]], order))
  {
    seq(|hfs|, h requires 0 <= h < |hfs| => Chain(ParRuns(hfs[h], vals, inpDir, astro[hfs[h]], order)))
  }

  /** What the script does: make the directories, then run the file loop until it ends or fails. */
  function SplitRun(hfs: seq<string>, vals: map<string, seq<string>>, inpDir: string,
                    astro: map<string, Option<map<string, string>>>, order: seq<string>): Run
    requires forall k :: 0 <= k < |order| ==> order[k] in vals
    requires forall h :: 0 <= h < |hfs| ==> hfs[h] in astro
  {
    Then(Run(MakeDirsPlan(vals, inpDir, order), None), Chain(FileRuns(hfs, vals, inpDir, astro, order)))
  }

  /** Every call of one parameter step is placed as `Placed` says. */
  lemma ParRunPlaced(hf: string, vals: map<string, seq<string>>, inpDir: string,
                     astro: Option<map<string, string>>, order: seq<string>, par: string, hfs: set<string>)
    requires forall k :: 0 <= k < |order| ==> order[k] in vals
    requires par in order && hf in hfs
    ensures forall a :: a in ParRun(hf, vals, inpDir, astro, par).actions ==>
              Placed(a, hfs, MadeDirs(MakeDirsPlan(vals, inpDir, order)))
  {
    var made := MadeDirs(MakeDirsPlan(vals, inpDir, order));
    var r := ParRun(hf, vals, inpDir, astro, par);
    forall a | a in r.actions
      ensures Placed(a, hfs, made)
    {
      var i :| 0 <= i < |r.actions| && r.actions[i] == a;
      var v := if GetParVal(astro, par).None? then Dedup(vals[par])[i] else GetParVal(astro, par).value;
      assert v in vals[par];
      MakeDirsCovers(vals, inpDir, order, par, v);
      DoCmdTargetKeepsBasename(hf, OutDirs(vals, inpDir)[par][v]);
      assert a.dst == DoCmdTarget(hf, OutDirs(vals, inpDir)[par][v]);
    }
  }

  /**
   * Whatever the files hold: the script makes every directory of
   * `out_dirs`, and each symlink or move it makes takes a cached file to
   * its own basename inside one of the made directories.
   */
  lemma SplitRunPlaced(hfs: seq<string>, vals: map<string, seq<string>>, inpDir: string,
                       astro: map<string, Option<map<string, string>>>, order: seq<string>)
    requires forall k :: 0 <= k < |order| ==> order[k] in vals
    requires forall h :: 0 <= h < |hfs| ==> hfs[h] in astro
    ensures forall par, v :: par in order && v in vals[par] ==>
              OutDirs(vals, inpDir)[par][v] in MadeDirs(SplitRun(hfs, vals, inpDir, astro, order).actions)
    ensures forall a :: a in SplitRun(hfs, vals, inpDir, astro, order).actions ==>
              Placed(a, (set h | h in hfs), MadeDirs(MakeDirsPlan(vals, inpDir, order)))
  {
    var plan := MakeDirsPlan(vals, inpDir, order);
    var made := MadeDirs(plan);
    var files := set h | h in hfs;
    var runs := FileRuns(hfs, vals, inpDir, astro, order);
    forall h, a | 0 <= h < |runs| && a in runs[h].actions
      ensures Placed(a, files, made)
    {
      var prs := ParRuns(hfs[h], vals, inpDir, astro[hfs[h]], order);
      forall k, b | 0 <= k < |prs| && b in prs[k].actions
        ensures Placed(b, files, made)
      {
        assert order[k] in order;
        ParRunPlaced(hfs[h], vals, inpDir, astro[hfs[h]], order, order[k], files);
      }
      ChainActions(prs, files, made);
    }
    ChainActions(runs, files, made);
    assert SplitRun(hfs, vals, inpDir, astro, order).actions == plan + Chain(runs).actions;
    forall par, v | par in order && v in vals[par]
      ensures OutDirs(vals, inpDir)[par][v] in MadeDirs(SplitRun(hfs, vals, inpDir, astro, order).actions)
    {
      MakeDirsCovers(vals, inpDir, order, par, v);
      assert plan <= SplitRun(hfs, vals, inpDir, astro, order).actions;
    }
  }

  // The script's loops

  /** The loop that makes the directories. */
  method MakeOutDirs(vals: map<string, seq<string>>, inpDir: string, order: seq<string>) returns (acts: seq<Action>)
    requires forall k :: 0 <= k < |order| ==> order[k] in vals
    ensures acts == MakeDirsPlan(vals, inpDir, order)
  {
    acts := [];
    for p := 0 to |order|
      invariant acts == MakeDirsPlan(vals, inpDir, order[..p])
    {
      var made := MakeValueDirs(ValueDirs(vals, inpDir, order[p]));
      acts := acts + made;
      assert order[..p + 1][..p] == order[..p];
    }
    assert order[..|order|] == order;
  }

  /** The inner loop: `os.makedirs` for each directory of one parameter, in order. */
  method MakeValueDirs(dirs: seq<string>) returns (acts: seq<Action>)
    ensures acts == MakeAll(dirs)
  {
    acts := [];
    for j := 0 to |dirs|
      invariant acts == MakeAll(dirs[..j])
    {
      assert MakeAll(dirs[..j + 1]) == MakeAll(dirs[..j]) + [MakeDirs(dirs[j])];
      acts := acts + [MakeDirs(dirs[j])];
    }
    assert dirs[..|dirs|] == dirs;
  }

  /** The symlink loop of one file and one parameter. */
  method SymlinkAll(hf: string, dirs: seq<string>) returns (acts: seq<Action>)
    ensures acts == LinkAll(hf, dirs)
  {
    acts := [];
    for j := 0 to |dirs|
      invariant |acts| == j
      invariant forall i :: 0 <= i < j ==> acts[i] == Symlink(hf, DoCmdTarget(hf, dirs[i]))
    {
      acts := acts + [Symlink(hf, DoCmdTarget(hf, dirs[j]))];
    }
    assert |acts| == |LinkAll(hf, dirs)|;
    assert forall i :: 0 <= i < |acts| ==> acts[i] == LinkAll(hf, dirs)[i];
  }

  /** The body of the parameter loop: symlink everywhere, move to the value's directory, or raise `KeyError`. */
  method DispatchParameter(hf: string, vals: map<string, seq<string>>, inpDir: string,
                           outDirs: map<string, map<string, string>>,
                           astro: Option<map<string, string>>, par: string) returns (step: Run)
    requires par in vals && outDirs == OutDirs(vals, inpDir)
    ensures step == ParRun(hf, vals, inpDir, astro, par)
  {
    var val := GetParVal(astro, par);
    if val.None? {
      var links := SymlinkAll(hf, ValueDirs(vals, inpDir, par));
      step := Run(links, None);
    } else if val.value in outDirs[par] {
      step := Run([Move(hf, DoCmdTarget(hf, outDirs[par][val.value]))], None);
    } else {
      step := Run([], Some(val.value));
    }
  }

  /** The body of the file loop: every parameter in key order, stopping at a `KeyError`. */
  method DispatchFile(hf: string, vals: map<string, seq<string>>, inpDir: string,
                      astro: Option<map<string, string>>, order: seq<string>) returns (r: Run)
    requires forall k :: 0 <= k < |order| ==> order[k] in vals
    ensures r == Chain(ParRuns(hf, vals, inpDir, astro, order))
  {
    var outDirs := OutDirs(vals, inpDir);
    var steps := ParRuns(hf, vals, inpDir, astro, order);
    r := Run([], None);
    for p := 0 to |order|
      invariant r == Chain(steps[..p])
      invariant r.failure.None?
    {
      var step := DispatchParameter(hf, vals, inpDir, outDirs, astro, order[p]);
      assert steps[..p + 1][..p] == steps[..p];
      r := Then(r, step);
      if r.failure.Some? {
        ChainStops(steps, p + 1);
        return;
      }
    }
    assert steps[..|order|] == steps;
  }

  /**
   * The main block: make the directories, then dispatch every file,
   * aborting at the first `KeyError`.
   */
  method SplitCache(hfs: seq<string>, vals: map<string, seq<string>>, inpDir: string,
                    astro: map<string, Option<map<string, string>>>, order: seq<string>) returns (r: Run)
    requires forall k :: 0 <= k < |order| ==> order[k] in vals
    requires forall h :: 0 <= h < |hfs| ==> hfs[h] in astro
    ensures r == SplitRun(hfs, vals, inpDir, astro, order)
  {
    var made := MakeOutDirs(vals, inpDir, order);
    var done := DispatchFiles(hfs, vals, inpDir, astro, order);
    r := Run(made + done.actions, done.failure);
  }

  /** The loop over the files: dispatches each in turn and stops at the first failure. */
  method DispatchFiles(hfs: seq<string>, vals: map<string, seq<string>>, inpDir: string,
                       astro: map<string, Option<map<string, string>>>, order: seq<string>) returns (done: Run)
    requires forall k :: 0 <= k < |order| ==> order[k] in vals
    requires forall h :: 0 <= h < |hfs| ==> hfs[h] in astro
    ensures done == Chain(FileRuns(hfs, vals, inpDir, astro, order))
  {
    var runs := FileRuns(hfs, vals, inpDir, astro, order);
    done := Run([], None);
    for h := 0 to |hfs|
      invariant done == Chain(runs[..h])
      invariant done.failure.None?
    {
      var step := DispatchFile(hfs[h], vals, inpDir, astro[hfs[h]], order);
      assert runs[..h + 1][..h] == runs[..h];
      done := Then(done, step);
      if done.failure.Some? {
        ChainStops(runs, h + 1);
        return;
      }
    }
    assert runs[..|hfs|] == runs;
  }
}
