/**
 * Quick imaging of the target and calibrator fields (`run_tclean`): the
 * bandwidth-driven choice of Taylor terms, deconvolver and image suffix, the
 * keepmms-driven parallel mode and extension, the image and input names, and
 * the loops that image every field whose image name no file on disk matches.
 *
 * The file system is a set of path names. `glob(name + '*')` matching
 * anything is `Blocked(files, name)`. Every imaging job leaves behind the
 * image exportfits reads and the FITS file it writes.
 */
module QuickTclean {
  import opened Outcomes
  import opened PyText
  import opened PyPath
  import opened FieldTable

  /** Bandwidth (MHz) from which on two Taylor terms are used. */
  const TaylorThresholdMHz: real := 100.0

  /** Image sizes (pixels per side) for targets and calibrators. */
  const TargetImsize: int := 2048
  const CalibratorImsize: int := 512

  /** Whether tclean runs in parallel and which extension the split data carries. */
  datatype Mode = Mode(parallel: bool, extn: string)

  /** Number of Taylor terms, deconvolver and the suffix of the image exportfits reads. */
  datatype ImagingParams = ImagingParams(terms: int, deconvolver: string, suffix: string)

  /** The field-id lists of the config: targets, gain calibrators, bandpass calibrator. */
  datatype FieldIds = FieldIds(targetfield: string, gainfields: string, bpassfield: string)

  /** The arguments of one tclean call that vary between calls. */
  datatype TClean = TClean(vis: string, imagename: string, imsize: int,
                           deconvolver: string, nterms: int, parallel: bool)

  /** The arguments of the exportfits call that follows it. */
  datatype ExportFits = ExportFits(imagename: string, fitsimage: string)

  datatype Job = Job(clean: TClean, fits: ExportFits)

  /** What stays fixed during one run. */
  datatype Setting = Setting(visname: string, impath: string, names: map<int, string>,
                             params: ImagingParams, mode: Mode)

  /** The jobs issued so far, the files on disk, and the exception that ended the run, if any. */
  datatype Run = Run(jobs: seq<Job>, files: set<string>, failure: Option<Error>)

  // ---------------------------------------------------------------------------
  // Classification

  function ModeFor(keepmms: bool): Mode
  {
    if keepmms then Mode(true, "mms") else Mode(false, "ms")
  }

  /** `msmd.bandwidths(-1) / 1e6`: the bandwidth in MHz. */
  function BandwidthMHz(bandwidthHz: real): real
  {
    bandwidthHz / 1000000.0
  }

  function ChooseImaging(bwMHz: real): ImagingParams
  {
    if bwMHz < TaylorThresholdMHz then ImagingParams(1, "clark", "")
    else ImagingParams(2, "mtmfs", ".tt0")
  }

  /** Below 100 MHz: one Taylor term, Clark deconvolution, no image suffix. */
  lemma NarrowBandImaging(bwMHz: real)
    requires bwMHz < 100.0
    ensures ChooseImaging(bwMHz) == ImagingParams(1, "clark", "")
  {
  }

  /** From 100 MHz up, 100 itself included: two Taylor terms, mtmfs, suffix `.tt0`. */
  lemma WideBandImaging(bwMHz: real)
    requires bwMHz >= 100.0
    ensures ChooseImaging(bwMHz) == ImagingParams(2, "mtmfs", ".tt0")
  {
  }

  /** The three choices always agree with each other and with the threshold. */
  lemma ImagingChoicesAgree(bwMHz: real)
    ensures var p := ChooseImaging(bwMHz);
      && (p.terms == 2 <==> p.deconvolver == "mtmfs")
      && (p.deconvolver == "mtmfs" <==> p.suffix == ".tt0")
      && (p.terms == 2 <==> bwMHz >= 100.0)
      && (p.terms == 1 || p.terms == 2)
  {
  }

  /** keepmms selects parallel imaging of `mms` data; otherwise serial imaging of `ms` data. */
  lemma ModeChoice(keepmms: bool)
    ensures ModeFor(keepmms).parallel == keepmms
    ensures ModeFor(keepmms).extn == (if keepmms then "mms" else "ms")
  {
  }

  // ---------------------------------------------------------------------------
  // Names

  /** `os.path.join(os.getcwd(), 'images/')` */
  function ImagePath(cwd: string): string
  {
    Join(cwd, "images/")
  }

  /** `os.path.join(impath, splitext(visname)[0] + '_<fname>.im')` */
  function ImageName(impath: string, visname: string, fname: string): string
  {
    Join(impath, SplitExt(visname).0 + "_" + fname + ".im")
  }

  /** `'%s.%s.%s' % (splitext(visname)[0], fname, extn)`: the split data of one field. */
  function InputName(visname: string, fname: string, extn: string): string
  {
    SplitExt(visname).0 + "." + fname + "." + extn
  }

  /** The image directory is `images/` under the working directory (or `images/` itself). */
  lemma ImagePathShape(cwd: string)
    ensures var p := ImagePath(cwd); |p| >= 7 && p[|p| - 7..] == "images/"
  {
  }

  /** A relative visibility name puts the image under the image directory. */
  lemma ImageNameUnderImagePath(cwd: string, visname: string, fname: string)
    requires visname == "" || visname[0] != '/'
    ensures ImageName(ImagePath(cwd), visname, fname)
         == ImagePath(cwd) + (SplitExt(visname).0 + "_" + fname + ".im")
  {
    var impath := ImagePath(cwd);
    ImagePathShape(cwd);
    var root := SplitExt(visname).0;
    var name := root + "_" + fname + ".im";
    if root != "" {
      assert root[0] == (root + SplitExt(visname).1)[0] == visname[0];
      assert name[0] == root[0];
    } else {
      assert name[0] == '_';
    }
    JoinRelative(impath, name);
  }

  /** An absolute visibility name replaces the image directory: the image lands beside the data. */
  lemma ImageNameOfAbsoluteVis(impath: string, visname: string, fname: string)
    requires visname != "" && visname[0] == '/'
    ensures ImageName(impath, visname, fname) == SplitExt(visname).0 + "_" + fname + ".im"
  {
    var root := SplitExt(visname).0;
    assert root != "";
    assert root[0] == (root + SplitExt(visname).1)[0];
    assert (root + "_" + fname + ".im")[0] == '/';
  }

  /** The job that images the field called fname at the given size. */
  function JobFor(st: Setting, fname: string, imsize: int): Job
  {
    var imagename := ImageName(st.impath, st.visname, fname);
    Job(TClean(InputName(st.visname, fname, st.mode.extn), imagename, imsize,
               st.params.deconvolver, st.params.terms, st.mode.parallel),
        ExportFits(imagename + ".image" + st.params.suffix, imagename + ".fits"))
  }

  /** The image exportfits reads and the FITS file it writes. */
  function Products(job: Job): set<string>
  {
    {job.fits.imagename, job.fits.fitsimage}
  }

  /** `glob(prefix + '*')` lists f: f extends prefix within the same directory. */
  predicate GlobMatch(prefix: string, f: string)
  {
    |prefix| <= |f| && f[..|prefix|] == prefix && '/' !in f[|prefix|..]
  }

  /** Some file on disk matches `prefix + '*'`: imaging under that name is skipped. */
  predicate Blocked(files: set<string>, prefix: string)
  {
    exists f :: f in files && GlobMatch(prefix, f)
  }

  // ---------------------------------------------------------------------------
  // Specification of the loops

  /** The target image names, one per id in order, or the first failing lookup. */
  function TargetNames(st: Setting, tokens: seq<string>): Result<seq<string>>
  {
    if tokens == [] then Ok([])
    else match TargetNames(st, tokens[..|tokens| - 1])
      case Err(e) => Err(e)
      case Ok(ns) =>
        match FieldName(st.names, tokens[|tokens| - 1])
        case Err(e) => Err(e)
        case Ok(fname) => Ok(ns + [ImageName(st.impath, st.visname, fname)])
  }

  /** Image the field one id token names, unless something under its image name exists. */
  function ImageStep(st: Setting, run: Run, token: string, imsize: int): Run
  {
    if run.failure.Some? then run
    else match FieldName(st.names, token)
      case Err(e) => run.(failure := Some(e))
      case Ok(fname) =>
        var job := JobFor(st, fname, imsize);
        if Blocked(run.files, job.clean.imagename) then run
        else Run(run.jobs + [job], run.files + Products(job), None)
  }

  /** One step for a token whose field is found: image it under name unless name is taken. */
  lemma ImageStepFound(st: Setting, run: Run, token: string, imsize: int, fname: string)
    requires run.failure.None? && FieldName(st.names, token) == Ok(fname)
    ensures var job := JobFor(st, fname, imsize);
      ImageStep(st, run, token, imsize)
        == if Blocked(run.files, job.clean.imagename) then run
           else Run(run.jobs + [job], run.files + Products(job), None)
  {
  }

  /** ImageStep over the tokens in order. */
  function ImageAll(st: Setting, run: Run, tokens: seq<string>, imsize: int): Run
  {
    if tokens == [] then run
    else ImageStep(st, ImageAll(st, run, tokens[..|tokens| - 1], imsize), tokens[|tokens| - 1], imsize)
  }

  /** ImageAll over one more token is one more ImageStep. */
  lemma ImageAllSnoc(st: Setting, run: Run, tokens: seq<string>, k: int, imsize: int)
    requires 0 <= k < |tokens|
    ensures ImageAll(st, run, tokens[..k + 1], imsize) == ImageStep(st, ImageAll(st, run, tokens[..k], imsize), tokens[k], imsize)
  {
    assert tokens[..k + 1][..k] == tokens[..k];
  }

  /** ImageAll over the comma-separated sub-fields of each group in order. */
  function ImageGroups(st: Setting, run: Run, groups: seq<string>, imsize: int): Run
  {
    if groups == [] then run
    else ImageAll(st, ImageGroups(st, run, groups[..|groups| - 1], imsize),
                  SplitComma(groups[|groups| - 1]), imsize)
  }

  function SettingFor(visname: string, keepmms: bool, bandwidthHz: real, cwd: string,
                      names: map<int, string>): Setting
  {
    Setting(visname, ImagePath(cwd), names, ChooseImaging(BandwidthMHz(bandwidthHz)), ModeFor(keepmms))
  }

  /** run_tclean: targets at 2048 pixels, then gain and bandpass calibrators at 512. */
  function TcleanSpec(visname: string, fields: FieldIds, keepmms: bool, bandwidthHz: real,
                      cwd: string, names: map<int, string>, existing: set<string>): Run
  {
    var st := SettingFor(visname, keepmms, bandwidthHz, cwd, names);
    var targets := SplitComma(fields.targetfield);
    match TargetNames(st, targets)
    case Err(e) => Run([], existing, Some(e))
    case Ok(_) =>
      ImageGroups(st, ImageAll(st, Run([], existing, None), targets, TargetImsize),
                  [fields.gainfields, fields.bpassfield], CalibratorImsize)
  }

  // ---------------------------------------------------------------------------
  // The script

  /** Builds targimname: one image name per comma-separated target id. */
  method TargetImageNames(st: Setting, targetfield: string) returns (r: Result<seq<string>>)
    ensures r == TargetNames(st, SplitComma(targetfield))
  {
    var tokens := SplitComma(targetfield);
    var targimname: seq<string> := [];
    if |tokens| > 1 {
      var i := 0;
      while i < |tokens|
        invariant 0 <= i <= |tokens|
        invariant TargetNames(st, tokens[..i]) == Ok(targimname)
      {
        assert tokens[..i + 1][..i] == tokens[..i];
        var fname := FieldName(st.names, tokens[i]);
        if fname.Err? {
          assert TargetNames(st, tokens[..i + 1]) == Err(fname.error);
          TargetNamesErrSticks(st, tokens, i + 1);
          return Err(fname.error);
        }
        targimname := targimname + [ImageName(st.impath, st.visname, fname.value)];
        i := i + 1;
      }
      assert tokens[..i] == tokens;
      assert TargetNames(st, tokens) == Ok(targimname);
    } else {
      SplitSingle(targetfield);
      assert tokens == [targetfield];
      assert tokens[..0] == [];
      var fname := FieldName(st.names, targetfield);
      if fname.Err? {
        return Err(fname.error);
      }
      targimname := [ImageName(st.impath, st.visname, fname.value)];
      assert TargetNames(st, tokens[..0]) == Ok([]);
      assert TargetNames(st, tokens) == Ok([] + targimname);
      assert [] + targimname == targimname;
    }
    return Ok(targimname);
  }

  /** run_tclean, with the bandwidth, working directory, field table and files on disk given. */
  method RunTclean(visname: string, fields: FieldIds, keepmms: bool, bandwidthHz: real,
                   cwd: string, names: map<int, string>, existing: set<string>)
    returns (jobs: seq<Job>, files: set<string>, failure: Option<Error>)
    ensures Run(jobs, files, failure) == TcleanSpec(visname, fields, keepmms, bandwidthHz, cwd, names, existing)
  {
    var bw := BandwidthMHz(bandwidthHz);
    var mode := if keepmms then Mode(true, "mms") else Mode(false, "ms");
    var params := if bw < 100.0 then ImagingParams(1, "clark", "") else ImagingParams(2, "mtmfs", ".tt0");
    var impath := ImagePath(cwd);
    var st := Setting(visname, impath, names, params, mode);
    assert st == SettingFor(visname, keepmms, bandwidthHz, cwd, names);

    var targimname := TargetImageNames(st, fields.targetfield);
    if targimname.Err? {
      return [], existing, Some(targimname.error);
    }
    jobs, files := ImageTargets(st, fields.targetfield, targimname.value, existing);
    jobs, files, failure := ImageCalibrators(st, [fields.gainfields, fields.bpassfield], jobs, files);
  }

  /** The loop over targimname: image each target unless its name is taken. */
  method ImageTargets(st: Setting, targetfield: string, tt: seq<string>, existing: set<string>)
    returns (jobs: seq<Job>, files: set<string>)
    requires TargetNames(st, SplitComma(targetfield)) == Ok(tt)
    ensures Run(jobs, files, None) == ImageAll(st, Run([], existing, None), SplitComma(targetfield), TargetImsize)
  {
    var tokens := SplitComma(targetfield);
    TargetNamesLength(st, tokens);
    if |tt| == 1 {
      SplitSingle(targetfield);
    }
    ghost var start := Run([], existing, None);
    jobs, files := [], existing;
    var ind := 0;
    while ind < |tt|
      invariant 0 <= ind <= |tt| == |tokens|
      invariant Run(jobs, files, None) == ImageAll(st, start, tokens[..ind], TargetImsize)
    {
      ImageAllSnoc(st, start, tokens, ind, TargetImsize);
      ghost var next := ImageStep(st, Run(jobs, files, None), tokens[ind], TargetImsize);
      TargetNameAt(st, tokens, tt, ind);
      var field := if |tt| > 1 then tokens[ind] else targetfield;
      assert field == tokens[ind];
      var fname := FieldName(st.names, field).value;
      ImageStepFound(st, Run(jobs, files, None), field, TargetImsize, fname);
      var job := JobFor(st, fname, TargetImsize);
      assert job.clean.imagename == tt[ind];
      if !Blocked(files, tt[ind]) {
        jobs := jobs + [job];
        files := files + Products(job);
      }
      assert Run(jobs, files, None) == next;
      ind := ind + 1;
    }
    assert tokens[..ind] == tokens;
  }

  /** The nested loop over the gain and bandpass calibrator fields and their sub-fields. */
  method ImageCalibrators(st: Setting, groups: seq<string>, jobs0: seq<Job>, files0: set<string>)
    returns (jobs: seq<Job>, files: set<string>, failure: Option<Error>)
    ensures Run(jobs, files, failure) == ImageGroups(st, Run(jobs0, files0, None), groups, CalibratorImsize)
  {
    ghost var start := Run(jobs0, files0, None);
    jobs, files, failure := jobs0, files0, None;
    var g := 0;
    while g < |groups|
      invariant 0 <= g <= |groups|
      invariant Run(jobs, files, failure) == ImageGroups(st, start, groups[..g], CalibratorImsize)
      invariant failure.None?
    {
      assert groups[..g + 1][..g] == groups[..g];
      assert ImageGroups(st, start, groups[..g + 1], CalibratorImsize)
          == ImageAll(st, Run(jobs, files, failure), SplitComma(groups[g]), CalibratorImsize);
      jobs, files, failure := ImageSubfields(st, groups[g], jobs, files);
      if failure.Some? {
        ImageGroupsFailureSticks(st, start, groups, g + 1, CalibratorImsize);
        assert groups[..|groups|] == groups;
        return;
      }
      g := g + 1;
    }
    assert groups[..g] == groups;
  }

  /** The inner loop: image each comma-separated calibrator id of one field group. */
  method ImageSubfields(st: Setting, field: string, jobs0: seq<Job>, files0: set<string>)
    returns (jobs: seq<Job>, files: set<string>, failure: Option<Error>)
    ensures Run(jobs, files, failure) == ImageAll(st, Run(jobs0, files0, None), SplitComma(field), CalibratorImsize)
  {
    ghost var start := Run(jobs0, files0, None);
    var subfs := SplitComma(field);
    jobs, files, failure := jobs0, files0, None;
    var k := 0;
    while k < |subfs|
      invariant 0 <= k <= |subfs|
      invariant Run(jobs, files, failure) == ImageAll(st, start, subfs[..k], CalibratorImsize)
      invariant failure.None?
    {
      assert subfs[..k + 1][..k] == subfs[..k];
      assert ImageAll(st, start, subfs[..k + 1], CalibratorImsize)
          == ImageStep(st, Run(jobs, files, failure), subfs[k], CalibratorImsize);
      var fname := FieldName(st.names, subfs[k]);
      if fname.Err? {
        failure := Some(fname.error);
        assert Run(jobs, files, failure) == ImageAll(st, start, subfs[..k + 1], CalibratorImsize);
        ImageAllFailureSticks(st, start, subfs, k + 1, CalibratorImsize);
        assert subfs[..|subfs|] == subfs;
        return;
      }
      ImageStepFound(st, Run(jobs, files, None), subfs[k], CalibratorImsize, fname.value);
      var secimname := ImageName(st.impath, st.visname, fname.value);
      var job := JobFor(st, fname.value, CalibratorImsize);
      if !Blocked(files, secimname) {
        jobs := jobs + [job];
        files := files + Products(job);
      }
      k := k + 1;
    }
    assert subfs[..k] == subfs;
  }

  // ---------------------------------------------------------------------------
  // Lemmas used by the methods

  /** Once a prefix of the target ids fails, the whole list fails with that error. */
  lemma {:induction false} TargetNamesErrSticks(st: Setting, tokens: seq<string>, k: nat)
    requires k <= |tokens| && TargetNames(st, tokens[..k]).Err?
    ensures TargetNames(st, tokens) == TargetNames(st, tokens[..k])
    decreases |tokens| - k
  {
    if k < |tokens| {
      assert tokens[..k + 1][..k] == tokens[..k];
      TargetNamesErrSticks(st, tokens, k + 1);
    } else {
      assert tokens[..k] == tokens;
    }
  }

  /** A failed run stays as it is. */
  lemma {:induction false} ImageAllFailed(st: Setting, run: Run, tokens: seq<string>, imsize: int)
    requires run.failure.Some?
    ensures ImageAll(st, run, tokens, imsize) == run
  {
    if tokens != [] {
      ImageAllFailed(st, run, tokens[..|tokens| - 1], imsize);
    }
  }

  lemma {:induction false} ImageAllFailureSticks(st: Setting, run: Run, tokens: seq<string>, k: nat, imsize: int)
    requires k <= |tokens| && ImageAll(st, run, tokens[..k], imsize).failure.Some?
    ensures ImageAll(st, run, tokens, imsize) == ImageAll(st, run, tokens[..k], imsize)
    decreases |tokens| - k
  {
    if k < |tokens| {
      assert tokens[..k + 1][..k] == tokens[..k];
      ImageAllFailureSticks(st, run, tokens, k + 1, imsize);
    } else {
      assert tokens[..k] == tokens;
    }
  }

  lemma {:induction false} ImageGroupsFailureSticks(st: Setting, run: Run, groups: seq<string>, k: nat, imsize: int)
    requires k <= |groups| && ImageGroups(st, run, groups[..k], imsize).failure.Some?
    ensures ImageGroups(st, run, groups, imsize) == ImageGroups(st, run, groups[..k], imsize)
    decreases |groups| - k
  {
    if k < |groups| {
      assert groups[..k + 1][..k] == groups[..k];
      ImageAllFailed(st, ImageGroups(st, run, groups[..k], imsize), SplitComma(groups[k]), imsize);
      ImageGroupsFailureSticks(st, run, groups, k + 1, imsize);
    } else {
      assert groups[..k] == groups;
    }
  }

  // ---------------------------------------------------------------------------
  // Properties

  /** The target names succeed exactly when every target id is found. */
  lemma {:induction false} TargetNamesOkIff(st: Setting, tokens: seq<string>)
    ensures TargetNames(st, tokens).Ok? <==> forall i :: 0 <= i < |tokens| ==> FieldName(st.names, tokens[i]).Ok?
  {
    if tokens != [] {
      var init := tokens[..|tokens| - 1];
      TargetNamesOkIff(st, init);
      if TargetNames(st, tokens).Ok? {
        assert TargetNames(st, init).Ok? && FieldName(st.names, tokens[|init|]).Ok?;
        forall i | 0 <= i < |tokens| ensures FieldName(st.names, tokens[i]).Ok? {
          if i < |init| {
            assert init[i] == tokens[i];
          } else {
            assert i == |init|;
          }
        }
      } else if TargetNames(st, init).Ok? {
        assert FieldName(st.names, tokens[|init|]).Err?;
      } else {
        var j :| 0 <= j < |init| && FieldName(st.names, init[j]).Err?;
        assert tokens[j] == init[j];
      }
    }
  }

  /** On success there is one image name per target id, in the order of the ids. */
  lemma {:induction false} TargetNamesAt(st: Setting, tokens: seq<string>)
    ensures TargetNames(st, tokens).Ok? ==>
      && |TargetNames(st, tokens).value| == |tokens|
      && forall i :: 0 <= i < |tokens| ==>
           && FieldName(st.names, tokens[i]).Ok?
           && TargetNames(st, tokens).value[i] == ImageName(st.impath, st.visname, FieldName(st.names, tokens[i]).value)
  {
    if tokens != [] && TargetNames(st, tokens).Ok? {
      var init := tokens[..|tokens| - 1];
      var last := tokens[|tokens| - 1];
      TargetNamesAt(st, init);
      var ns := TargetNames(st, init).value;
      assert FieldName(st.names, last).Ok?;
      assert TargetNames(st, tokens).value == ns + [ImageName(st.impath, st.visname, FieldName(st.names, last).value)];
      forall i | 0 <= i < |tokens|
        ensures FieldName(st.names, tokens[i]).Ok?
        ensures TargetNames(st, tokens).value[i] == ImageName(st.impath, st.visname, FieldName(st.names, tokens[i]).value)
      {
        if i < |init| {
          assert init[i] == tokens[i];
        }
      }
    }
  }

  lemma {:induction false} TargetNamesLength(st: Setting, tokens: seq<string>)
    ensures TargetNames(st, tokens).Ok? ==> |TargetNames(st, tokens).value| == |tokens|
  {
    if tokens != [] {
      TargetNamesLength(st, tokens[..|tokens| - 1]);
    }
  }

  /** The image name at one index of a successful TargetNames. */
  lemma TargetNameAt(st: Setting, tokens: seq<string>, tt: seq<string>, i: int)
    requires TargetNames(st, tokens) == Ok(tt) && 0 <= i < |tt|
    ensures i < |tokens| && FieldName(st.names, tokens[i]).Ok?
    ensures tt[i] == ImageName(st.impath, st.visname, FieldName(st.names, tokens[i]).value)
  {
    TargetNamesAt(st, tokens);
  }

  /** On failure the error is that of the first target id that is not found. */
  lemma {:induction false} TargetNamesFirstError(st: Setting, tokens: seq<string>)
    ensures TargetNames(st, tokens).Err? ==>
      exists k :: 0 <= k < |tokens|
        && FieldName(st.names, tokens[k]).Err?
        && TargetNames(st, tokens).error == FieldName(st.names, tokens[k]).error
        && forall i :: 0 <= i < k ==> FieldName(st.names, tokens[i]).Ok?
  {
    if tokens != [] && TargetNames(st, tokens).Err? {
      var init := tokens[..|tokens| - 1];
      assert forall i :: 0 <= i < |init| ==> init[i] == tokens[i];
      if TargetNames(st, init).Err? {
        TargetNamesFirstError(st, init);
        var k :| 0 <= k < |init| && FieldName(st.names, init[k]).Err?
          && TargetNames(st, init).error == FieldName(st.names, init[k]).error
          && forall i :: 0 <= i < k ==> FieldName(st.names, init[i]).Ok?;
        assert FieldName(st.names, tokens[k]).Err?;
      } else {
        TargetNamesOkIff(st, init);
        assert FieldName(st.names, tokens[|init|]).Err?;
      }
    }
  }

  /** What every issued job looks like. */
  predicate WellFormed(st: Setting, job: Job)
  {
    && (job.clean.imsize == TargetImsize || job.clean.imsize == CalibratorImsize)
    && job.clean.deconvolver == st.params.deconvolver
    && job.clean.nterms == st.params.terms
    && job.clean.parallel == st.mode.parallel
    && job.fits.imagename == job.clean.imagename + ".image" + st.params.suffix
    && job.fits.fitsimage == job.clean.imagename + ".fits"
    && exists id :: id in st.names
         && job.clean.imagename == ImageName(st.impath, st.visname, st.names[id])
         && job.clean.vis == InputName(st.visname, st.names[id], st.mode.extn)
  }

  /** Every file the given jobs leave behind, in issue order. */
  function AllProducts(jobs: seq<Job>): set<string>
  {
    if jobs == [] then {} else AllProducts(jobs[..|jobs| - 1]) + Products(jobs[|jobs| - 1])
  }

  /** The files on disk when job i of a run started on initial was issued. */
  function FilesBefore(initial: set<string>, jobs: seq<Job>, i: int): set<string>
    requires 0 <= i <= |jobs|
  {
    initial + AllProducts(jobs[..i])
  }

  /**
   * The invariant of a run started on the files `initial`: the files are the
   * initial ones plus the products of the jobs issued; every job is well
   * formed and its image name was not taken by any file on disk when it was
   * issued (initial or written by an earlier job); its image name is now
   * taken; and no image name is issued twice.
   */
  predicate Sound(st: Setting, initial: set<string>, run: Run)
  {
    && run.files == initial + AllProducts(run.jobs)
    && (forall i :: 0 <= i < |run.jobs| ==> JobSound(st, initial, run.jobs, run.files, i))
    && (forall i, j :: 0 <= i < j < |run.jobs| ==> run.jobs[i].clean.imagename != run.jobs[j].clean.imagename)
  }

  /** Job i is well formed, was not blocked when issued, and its name is taken in files. */
  predicate JobSound(st: Setting, initial: set<string>, jobs: seq<Job>, files: set<string>, i: int)
    requires 0 <= i < |jobs|
  {
    && WellFormed(st, jobs[i])
    && !Blocked(FilesBefore(initial, jobs, i), jobs[i].clean.imagename)
    && Blocked(files, jobs[i].clean.imagename)
  }

  /** One more job adds its products. */
  lemma AllProductsSnoc(jobs: seq<Job>, job: Job)
    ensures AllProducts(jobs + [job]) == AllProducts(jobs) + Products(job)
  {
    assert (jobs + [job])[..|jobs|] == jobs;
  }

  /** A file some job left behind was left by one particular job. */
  lemma {:induction false} AllProductsFrom(jobs: seq<Job>, f: string)
    requires f in AllProducts(jobs)
    ensures exists j :: 0 <= j < |jobs| && f in Products(jobs[j])
  {
    var init := jobs[..|jobs| - 1];
    if f !in Products(jobs[|jobs| - 1]) {
      AllProductsFrom(init, f);
      var j :| 0 <= j < |init| && f in Products(init[j]);
      assert jobs[j] == init[j];
    }
  }

  lemma BlockedMonotone(files: set<string>, more: set<string>, prefix: string)
    requires files <= more && Blocked(files, prefix)
    ensures Blocked(more, prefix)
  {
  }

  /** The FITS file of a job makes its image name taken. */
  lemma ProductsBlock(job: Job, name: string)
    requires job.fits.fitsimage == name + ".fits"
    ensures Blocked(Products(job), name)
  {
    var f := name + ".fits";
    assert f[..|name|] == name && f[|name|..] == ".fits";
    assert GlobMatch(name, f);
  }

  /** Issuing a well-formed job whose name is not taken keeps the invariant. */
  lemma SoundAppend(st: Setting, initial: set<string>, run: Run, job: Job)
    requires Sound(st, initial, run) && run.failure.None?
    requires WellFormed(st, job) && !Blocked(run.files, job.clean.imagename)
    ensures Sound(st, initial, Run(run.jobs + [job], run.files + Products(job), None))
  {
    var name := job.clean.imagename;
    var jobs, files := run.jobs + [job], run.files + Products(job);
    AllProductsSnoc(run.jobs, job);
    assert jobs[..|run.jobs|] == run.jobs;
    ProductsBlock(job, name);
    BlockedMonotone(Products(job), files, name);
    assert JobSound(st, initial, jobs, files, |run.jobs|);
    forall i | 0 <= i < |run.jobs| ensures JobSound(st, initial, jobs, files, i) {
      JobSoundGrows(st, initial, run.jobs, run.files, i, job, files);
    }
    forall i | 0 <= i < |run.jobs| ensures run.jobs[i].clean.imagename != name {
      assert JobSound(st, initial, run.jobs, run.files, i);
    }
  }

  /** An earlier job stays sound when a job is appended and files grow. */
  lemma JobSoundGrows(st: Setting, initial: set<string>, jobs: seq<Job>, files: set<string>, i: int,
                      job: Job, more: set<string>)
    requires 0 <= i < |jobs| && JobSound(st, initial, jobs, files, i) && files <= more
    ensures JobSound(st, initial, jobs + [job], more, i)
  {
    assert (jobs + [job])[i] == jobs[i];
    assert (jobs + [job])[..i] == jobs[..i];
    BlockedMonotone(files, more, jobs[i].clean.imagename);
  }

  lemma {:induction false} ImageStepSound(st: Setting, initial: set<string>, run: Run, token: string, imsize: int)
    requires Sound(st, initial, run)
    requires imsize == TargetImsize || imsize == CalibratorImsize
    ensures Sound(st, initial, ImageStep(st, run, token, imsize))
  {
    if run.failure.None? && FieldName(st.names, token).Ok? {
      var fname := FieldName(st.names, token).value;
      var job := JobFor(st, fname, imsize);
      if !Blocked(run.files, job.clean.imagename) {
        var id := ParseInt(token).value;
        assert id in st.names && st.names[id] == fname;
        assert WellFormed(st, job);
        SoundAppend(st, initial, run, job);
      }
    }
  }

  lemma {:induction false} ImageAllSound(st: Setting, initial: set<string>, run: Run, tokens: seq<string>, imsize: int)
    requires Sound(st, initial, run)
    requires imsize == TargetImsize || imsize == CalibratorImsize
    ensures Sound(st, initial, ImageAll(st, run, tokens, imsize))
  {
    if tokens != [] {
      ImageAllSound(st, initial, run, tokens[..|tokens| - 1], imsize);
      ImageStepSound(st, initial, ImageAll(st, run, tokens[..|tokens| - 1], imsize), tokens[|tokens| - 1], imsize);
    }
  }

  lemma {:induction false} ImageGroupsSound(st: Setting, initial: set<string>, run: Run, groups: seq<string>, imsize: int)
    requires Sound(st, initial, run)
    requires imsize == TargetImsize || imsize == CalibratorImsize
    ensures Sound(st, initial, ImageGroups(st, run, groups, imsize))
  {
    if groups != [] {
      ImageGroupsSound(st, initial, run, groups[..|groups| - 1], imsize);
      ImageAllSound(st, initial, ImageGroups(st, run, groups[..|groups| - 1], imsize), SplitComma(groups[|groups| - 1]), imsize);
    }
  }

  /**
   * Every job run_tclean issues images one field of the table under its image
   * name, reading that field's split data, with the run's deconvolver, terms
   * and mode, and exports `<name>.image<suffix>` to `<name>.fits`. The files
   * afterwards are those on disk before plus the jobs' products. No job is
   * issued for a name some file then on disk extends (whether it was there
   * at the start or written by an earlier job), no name is imaged twice, and
   * every imaged name is taken afterwards.
   */
  lemma RunTcleanSound(visname: string, fields: FieldIds, keepmms: bool, bandwidthHz: real,
                       cwd: string, names: map<int, string>, existing: set<string>)
    ensures Sound(SettingFor(visname, keepmms, bandwidthHz, cwd, names), existing,
                  TcleanSpec(visname, fields, keepmms, bandwidthHz, cwd, names, existing))
  {
    var st := SettingFor(visname, keepmms, bandwidthHz, cwd, names);
    var targets := SplitComma(fields.targetfield);
    assert AllProducts([]) == {};
    if TargetNames(st, targets).Ok? {
      var start := Run([], existing, None);
      ImageAllSound(st, existing, start, targets, TargetImsize);
      ImageGroupsSound(st, existing, ImageAll(st, start, targets, TargetImsize),
                       [fields.gainfields, fields.bpassfield], CalibratorImsize);
    }
  }

  /** One step that ends without an exception found its field and left its image name taken. */
  lemma ImageStepCovers(st: Setting, run: Run, token: string, imsize: int)
    requires ImageStep(st, run, token, imsize).failure.None?
    ensures run.failure.None? && run.files <= ImageStep(st, run, token, imsize).files
    ensures Covered(st, ImageStep(st, run, token, imsize).files, token)
  {
    var fname := FieldName(st.names, token).value;
    var job := JobFor(st, fname, imsize);
    if !Blocked(run.files, job.clean.imagename) {
      ProductsBlock(job, job.clean.imagename);
      BlockedMonotone(Products(job), ImageStep(st, run, token, imsize).files, job.clean.imagename);
    }
  }

  /** The field a token names is found, and its image name is taken in files. */
  predicate Covered(st: Setting, files: set<string>, token: string)
  {
    FieldName(st.names, token).Ok? && Blocked(files, ImageName(st.impath, st.visname, FieldName(st.names, token).value))
  }

  lemma CoveredMonotone(st: Setting, files: set<string>, more: set<string>, token: string)
    requires files <= more && Covered(st, files, token)
    ensures Covered(st, more, token)
  {
    BlockedMonotone(files, more, ImageName(st.impath, st.visname, FieldName(st.names, token).value));
  }

  /**
   * A run that ends without an exception leaves every requested name taken:
   * each id token was found, and some file extends its image name, either on
   * disk at the start or written during the run (by its own job or another).
   */
  lemma {:induction false} ImageAllCovers(st: Setting, run: Run, tokens: seq<string>, imsize: int)
    requires ImageAll(st, run, tokens, imsize).failure.None?
    ensures run.files <= ImageAll(st, run, tokens, imsize).files
    ensures forall i :: 0 <= i < |tokens| ==> Covered(st, ImageAll(st, run, tokens, imsize).files, tokens[i])
  {
    if tokens != [] {
      var init := tokens[..|tokens| - 1];
      var mid := ImageAll(st, run, init, imsize);
      var end := ImageAll(st, run, tokens, imsize);
      ImageStepCovers(st, mid, tokens[|tokens| - 1], imsize);
      ImageAllCovers(st, run, init, imsize);
      assert end == ImageStep(st, mid, tokens[|tokens| - 1], imsize);
      forall i | 0 <= i < |tokens| ensures Covered(st, end.files, tokens[i]) {
        if i < |init| {
          assert tokens[i] == init[i];
          assert Covered(st, mid.files, init[i]);
          CoveredMonotone(st, mid.files, end.files, tokens[i]);
        } else {
          assert i == |tokens| - 1;
        }
      }
    }
  }

  /** Every token of a group is covered in files. */
  predicate GroupCovered(st: Setting, files: set<string>, group: string)
  {
    forall i :: 0 <= i < |SplitComma(group)| ==> Covered(st, files, SplitComma(group)[i])
  }

  lemma GroupCoveredMonotone(st: Setting, files: set<string>, more: set<string>, group: string)
    requires files <= more && GroupCovered(st, files, group)
    ensures GroupCovered(st, more, group)
  {
    forall i | 0 <= i < |SplitComma(group)| ensures Covered(st, more, SplitComma(group)[i]) {
      CoveredMonotone(st, files, more, SplitComma(group)[i]);
    }
  }

  lemma {:induction false} ImageGroupsCovers(st: Setting, run: Run, groups: seq<string>, imsize: int)
    requires ImageGroups(st, run, groups, imsize).failure.None?
    ensures run.files <= ImageGroups(st, run, groups, imsize).files
    ensures forall g :: 0 <= g < |groups| ==> GroupCovered(st, ImageGroups(st, run, groups, imsize).files, groups[g])
  {
    if groups != [] {
      var init := groups[..|groups| - 1];
      var mid := ImageGroups(st, run, init, imsize);
      var last := SplitComma(groups[|groups| - 1]);
      var end := ImageGroups(st, run, groups, imsize);
      assert end == ImageAll(st, mid, last, imsize);
      if mid.failure.Some? {
        ImageAllFailed(st, mid, last, imsize);
      }
      ImageGroupsCovers(st, run, init, imsize);
      ImageAllCovers(st, mid, last, imsize);
      assert GroupCovered(st, end.files, groups[|groups| - 1]);
      forall g | 0 <= g < |groups| ensures GroupCovered(st, end.files, groups[g]) {
        if g < |init| {
          assert groups[g] == init[g];
          GroupCoveredMonotone(st, mid.files, end.files, groups[g]);
        } else {
          assert g == |groups| - 1;
        }
      }
    }
  }

  /**
   * When run_tclean ends without an exception, every target, gain and
   * bandpass field has its image name taken by some file, on disk at the
   * start or written during the run (RunTcleanImagesUnblocked says which).
   */
  lemma RunTcleanCovers(visname: string, fields: FieldIds, keepmms: bool, bandwidthHz: real,
                        cwd: string, names: map<int, string>, existing: set<string>)
    requires TcleanSpec(visname, fields, keepmms, bandwidthHz, cwd, names, existing).failure.None?
    ensures var st := SettingFor(visname, keepmms, bandwidthHz, cwd, names);
      var files := TcleanSpec(visname, fields, keepmms, bandwidthHz, cwd, names, existing).files;
      GroupCovered(st, files, fields.targetfield) && GroupCovered(st, files, fields.gainfields)
      && GroupCovered(st, files, fields.bpassfield)
  {
    var st := SettingFor(visname, keepmms, bandwidthHz, cwd, names);
    var targets := SplitComma(fields.targetfield);
    var groups := [fields.gainfields, fields.bpassfield];
    var afterTargets := ImageAll(st, Run([], existing, None), targets, TargetImsize);
    var end := ImageGroups(st, afterTargets, groups, CalibratorImsize);
    assert TcleanSpec(visname, fields, keepmms, bandwidthHz, cwd, names, existing).files == end.files;
    if afterTargets.failure.Some? {
      assert groups[..0] == [];
      ImageGroupsFailureSticks(st, afterTargets, groups, 0, CalibratorImsize);
      assert false;
    }
    ImageAllCovers(st, Run([], existing, None), targets, TargetImsize);
    ImageGroupsCovers(st, afterTargets, groups, CalibratorImsize);
    assert GroupCovered(st, afterTargets.files, fields.targetfield);
    GroupCoveredMonotone(st, afterTargets.files, end.files, fields.targetfield);
    assert groups[0] == fields.gainfields && groups[1] == fields.bpassfield;
  }

  /**
   * In a sound run, a taken name that no initial file extends, and that no
   * job under another name left a product extending, was imaged itself.
   */
  lemma UnblockedNameImaged(st: Setting, initial: set<string>, run: Run, name: string)
    requires Sound(st, initial, run) && Blocked(run.files, name) && !Blocked(initial, name)
    requires forall j :: 0 <= j < |run.jobs| && run.jobs[j].clean.imagename != name ==>
               !Blocked(Products(run.jobs[j]), name)
    ensures exists j :: 0 <= j < |run.jobs| && run.jobs[j].clean.imagename == name
  {
    var f :| f in run.files && GlobMatch(name, f);
    assert f !in initial;
    AllProductsFrom(run.jobs, f);
    var j :| 0 <= j < |run.jobs| && f in Products(run.jobs[j]);
    assert Blocked(Products(run.jobs[j]), name);
  }

  /**
   * When run_tclean ends without an exception, a target, gain or bandpass
   * field is imaged by a job of its own unless its image name was skipped
   * because a file extended it: one on disk at the start, or a product of
   * the job for another field (such as `<name>.im.fits` of a field called
   * `<fname>.im`). RunTcleanSound gives the converse: no job is issued for a
   * name taken when it is reached.
   */
  lemma RunTcleanImagesUnblocked(visname: string, fields: FieldIds, keepmms: bool, bandwidthHz: real,
                                 cwd: string, names: map<int, string>, existing: set<string>,
                                 group: string, token: string)
    requires TcleanSpec(visname, fields, keepmms, bandwidthHz, cwd, names, existing).failure.None?
    requires group == fields.targetfield || group == fields.gainfields || group == fields.bpassfield
    requires token in SplitComma(group)
    ensures FieldName(names, token).Ok?
    ensures var run := TcleanSpec(visname, fields, keepmms, bandwidthHz, cwd, names, existing);
      var name := ImageName(ImagePath(cwd), visname, FieldName(names, token).value);
      !Blocked(existing, name)
      && (forall j :: 0 <= j < |run.jobs| && run.jobs[j].clean.imagename != name ==>
            !Blocked(Products(run.jobs[j]), name))
      ==> exists j :: 0 <= j < |run.jobs| && run.jobs[j].clean.imagename == name
  {
    var st := SettingFor(visname, keepmms, bandwidthHz, cwd, names);
    var run := TcleanSpec(visname, fields, keepmms, bandwidthHz, cwd, names, existing);
    RunTcleanCovers(visname, fields, keepmms, bandwidthHz, cwd, names, existing);
    RunTcleanSound(visname, fields, keepmms, bandwidthHz, cwd, names, existing);
    var k :| 0 <= k < |SplitComma(group)| && SplitComma(group)[k] == token;
    assert GroupCovered(st, run.files, group);
    assert Covered(st, run.files, token);
    var name := ImageName(ImagePath(cwd), visname, FieldName(names, token).value);
    if !Blocked(existing, name)
       && forall j :: 0 <= j < |run.jobs| && run.jobs[j].clean.imagename != name ==>
            !Blocked(Products(run.jobs[j]), name) {
      UnblockedNameImaged(st, existing, run, name);
    }
  }

  lemma {:induction false} ImageAllSucceeds(st: Setting, run: Run, tokens: seq<string>, imsize: int)
    requires run.failure.None?
    requires forall i :: 0 <= i < |tokens| ==> FieldName(st.names, tokens[i]).Ok?
    ensures ImageAll(st, run, tokens, imsize).failure.None?
  {
    if tokens != [] {
      var init := tokens[..|tokens| - 1];
      assert forall i :: 0 <= i < |init| ==> init[i] == tokens[i];
      ImageAllSucceeds(st, run, init, imsize);
      assert FieldName(st.names, tokens[|tokens| - 1]).Ok?;
    }
  }

  lemma {:induction false} ImageGroupsSucceeds(st: Setting, run: Run, groups: seq<string>, imsize: int)
    requires run.failure.None?
    requires forall g :: 0 <= g < |groups| ==> AllFound(st.names, groups[g])
    ensures ImageGroups(st, run, groups, imsize).failure.None?
  {
    if groups != [] {
      var init := groups[..|groups| - 1];
      assert forall g :: 0 <= g < |init| ==> init[g] == groups[g];
      ImageGroupsSucceeds(st, run, init, imsize);
      assert AllFound(st.names, groups[|groups| - 1]);
      ImageAllSucceeds(st, ImageGroups(st, run, init, imsize), SplitComma(groups[|groups| - 1]), imsize);
    }
  }

  /**
   * run_tclean ends without an exception exactly when every target, gain
   * and bandpass id is a readable id the field table holds.
   */
  lemma RunTcleanSucceedsIff(visname: string, fields: FieldIds, keepmms: bool, bandwidthHz: real,
                             cwd: string, names: map<int, string>, existing: set<string>)
    ensures TcleanSpec(visname, fields, keepmms, bandwidthHz, cwd, names, existing).failure.None?
        <==> AllFound(names, fields.targetfield) && AllFound(names, fields.gainfields)
             && AllFound(names, fields.bpassfield)
  {
    var st := SettingFor(visname, keepmms, bandwidthHz, cwd, names);
    if TcleanSpec(visname, fields, keepmms, bandwidthHz, cwd, names, existing).failure.None? {
      RunTcleanCovers(visname, fields, keepmms, bandwidthHz, cwd, names, existing);
    }
    if AllFound(names, fields.targetfield) && AllFound(names, fields.gainfields)
       && AllFound(names, fields.bpassfield) {
      var targets := SplitComma(fields.targetfield);
      TargetNamesOkIff(st, targets);
      var start := Run([], existing, None);
      ImageAllSucceeds(st, start, targets, TargetImsize);
      var groups := [fields.gainfields, fields.bpassfield];
      ImageGroupsSucceeds(st, ImageAll(st, start, targets, TargetImsize), groups, CalibratorImsize);
    }
  }
}
