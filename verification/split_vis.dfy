/**
 * Splitting the calibrated data into one measurement set per field
 * (`split_vis`): for every comma-separated sub-field of every field group,
 * an mstransform request writing `<vis without extension>.<field name>.<extn>`,
 * unless that file already exists.
 *
 * The file system is a set of path names; `os.path.exists(name)` is
 * membership, and every request adds its output.
 */
module SplitVis {
  import opened Outcomes
  import opened PyText
  import opened PyPath
  import opened FieldTable

  /** The arguments of one mstransform call. */
  datatype SplitRequest = SplitRequest(
    vis: string, outputvis: string, datacolumn: string, field: string, spw: string,
    keepflags: bool, createmms: bool, chanaverage: bool, chanbin: int,
    timeaverage: bool, timebin: string, usewtspectrum: bool)

  /** What stays fixed during one call of split_vis. */
  datatype Setting = Setting(visname: string, spw: string, specavg: int, timeavg: string,
                             keepmms: bool, names: map<int, string>)

  /** The requests issued so far, the files on disk, and the exception that ended the run, if any. */
  datatype Run = Run(requests: seq<SplitRequest>, files: set<string>, failure: Option<Error>)

  function Extension(keepmms: bool): string
  {
    if keepmms then "mms" else "ms"
  }

  /** Channel averaging is switched off for a bin of fewer than two channels. */
  function ChanAverage(specavg: int): bool
  {
    if specavg < 2 then false else true
  }

  /** `'%s.%s.%s' % (splitext(visname)[0], fname, extn)` */
  function OutputName(visname: string, fname: string, extn: string): string
  {
    SplitExt(visname).0 + "." + fname + "." + extn
  }

  /** The request that splits out the field called fname. */
  function RequestFor(st: Setting, fname: string): SplitRequest
  {
    SplitRequest(st.visname, OutputName(st.visname, fname, Extension(st.keepmms)), "corrected",
                 fname, st.spw, false, st.keepmms, ChanAverage(st.specavg), st.specavg,
                 true, st.timeavg, true)
  }

  /** The output name one sub-field id leads to, when the id is found. */
  function OutputOf(st: Setting, token: string): string
    requires FieldName(st.names, token).Ok?
  {
    OutputName(st.visname, FieldName(st.names, token).value, Extension(st.keepmms))
  }

  // ---------------------------------------------------------------------------
  // Specification of the loops

  /** Split out the field one id token names, unless its output exists. */
  function SplitStep(st: Setting, run: Run, token: string): Run
  {
    if run.failure.Some? then run
    else match FieldName(st.names, token)
      case Err(e) => run.(failure := Some(e))
      case Ok(fname) =>
        var req := RequestFor(st, fname);
        if req.outputvis in run.files then run
        else Run(run.requests + [req], run.files + {req.outputvis}, None)
  }

  /** SplitStep over the tokens in order. */
  function SplitAll(st: Setting, run: Run, tokens: seq<string>): Run
  {
    if tokens == [] then run
    else SplitStep(st, SplitAll(st, run, tokens[..|tokens| - 1]), tokens[|tokens| - 1])
  }

  /** SplitAll over one more token is one more SplitStep. */
  lemma SplitAllSnoc(st: Setting, run: Run, tokens: seq<string>, k: int)
    requires 0 <= k < |tokens|
    ensures SplitAll(st, run, tokens[..k + 1]) == SplitStep(st, SplitAll(st, run, tokens[..k]), tokens[k])
  {
    assert tokens[..k + 1][..k] == tokens[..k];
  }

  /** SplitAll over the comma-separated sub-fields of each field group in order. */
  function SplitGroups(st: Setting, run: Run, fields: seq<string>): Run
  {
    if fields == [] then run
    else SplitAll(st, SplitGroups(st, run, fields[..|fields| - 1]), SplitComma(fields[|fields| - 1]))
  }

  // ---------------------------------------------------------------------------
  // The script

  /** split_vis, with the field table and the files on disk given. */
  method SplitVisibilities(visname: string, spw: string, fields: seq<string>, specavg: int,
                           timeavg: string, keepmms: bool, names: map<int, string>,
                           existing: set<string>)
    returns (requests: seq<SplitRequest>, files: set<string>, failure: Option<Error>)
    ensures Run(requests, files, failure)
         == SplitGroups(Setting(visname, spw, specavg, timeavg, keepmms, names), Run([], existing, None), fields)
  {
    var st := Setting(visname, spw, specavg, timeavg, keepmms, names);
    ghost var start := Run([], existing, None);
    requests, files, failure := [], existing, None;
    var i := 0;
    while i < |fields|
      invariant 0 <= i <= |fields|
      invariant Run(requests, files, failure) == SplitGroups(st, start, fields[..i])
      invariant failure.None?
    {
      assert fields[..i + 1][..i] == fields[..i];
      requests, files, failure := SplitSubfields(st, fields[i], requests, files);
      if failure.Some? {
        SplitGroupsFailureSticks(st, start, fields, i + 1);
        assert fields[..|fields|] == fields;
        return;
      }
      i := i + 1;
    }
    assert fields[..i] == fields;
  }

  /** The inner loop over the sub-fields of one field group. */
  method SplitSubfields(st: Setting, field: string, requests0: seq<SplitRequest>, files0: set<string>)
    returns (requests: seq<SplitRequest>, files: set<string>, failure: Option<Error>)
    ensures Run(requests, files, failure) == SplitAll(st, Run(requests0, files0, None), SplitComma(field))
  {
    ghost var start := Run(requests0, files0, None);
    var outputbase := SplitExt(st.visname).0;
    var extn := if st.keepmms then "mms" else "ms";
    var subfs := SplitComma(field);
    requests, files, failure := requests0, files0, None;
    var k := 0;
    while k < |subfs|
      invariant 0 <= k <= |subfs|
      invariant Run(requests, files, failure) == SplitAll(st, start, subfs[..k])
      invariant failure.None?
    {
      SplitAllSnoc(st, start, subfs, k);
      ghost var next := SplitStep(st, Run(requests, files, failure), subfs[k]);
      var fname := FieldName(st.names, subfs[k]);
      if fname.Err? {
        failure := Some(fname.error);
        assert Run(requests, files, failure) == next;
        SplitAllFailureSticks(st, start, subfs, k + 1);
        assert subfs[..|subfs|] == subfs;
        return;
      }
      var outname := outputbase + "." + fname.value + "." + extn;
      if outname !in files {
        var chanaverage: bool;
        if st.specavg < 2 {
          chanaverage := false;
        } else {
          chanaverage := true;
        }
        var req := SplitRequest(st.visname, outname, "corrected", fname.value, st.spw, false,
                                st.keepmms, chanaverage, st.specavg, true, st.timeavg, true);
        assert req == RequestFor(st, fname.value);
        requests := requests + [req];
        files := files + {outname};
      }
      assert Run(requests, files, failure) == next;
      k := k + 1;
    }
    assert subfs[..k] == subfs;
  }

  // ---------------------------------------------------------------------------
  // Lemmas used by the methods

  lemma {:induction false} SplitAllFailed(st: Setting, run: Run, tokens: seq<string>)
    requires run.failure.Some?
    ensures SplitAll(st, run, tokens) == run
  {
    if tokens != [] {
      SplitAllFailed(st, run, tokens[..|tokens| - 1]);
    }
  }

  lemma {:induction false} SplitAllFailureSticks(st: Setting, run: Run, tokens: seq<string>, k: nat)
    requires k <= |tokens| && SplitAll(st, run, tokens[..k]).failure.Some?
    ensures SplitAll(st, run, tokens) == SplitAll(st, run, tokens[..k])
    decreases |tokens| - k
  {
    if k < |tokens| {
      assert tokens[..k + 1][..k] == tokens[..k];
      SplitAllFailureSticks(st, run, tokens, k + 1);
    } else {
      assert tokens[..k] == tokens;
    }
  }

  lemma {:induction false} SplitGroupsFailureSticks(st: Setting, run: Run, fields: seq<string>, k: nat)
    requires k <= |fields| && SplitGroups(st, run, fields[..k]).failure.Some?
    ensures SplitGroups(st, run, fields) == SplitGroups(st, run, fields[..k])
    decreases |fields| - k
  {
    if k < |fields| {
      assert fields[..k + 1][..k] == fields[..k];
      SplitAllFailed(st, SplitGroups(st, run, fields[..k]), SplitComma(fields[k]));
      SplitGroupsFailureSticks(st, run, fields, k + 1);
    } else {
      assert fields[..k] == fields;
    }
  }

  // ---------------------------------------------------------------------------
  // Properties

  /** keepmms selects the `mms` extension, otherwise `ms`. */
  lemma ExtensionChoice(keepmms: bool)
    ensures Extension(keepmms) == "mms" <==> keepmms
    ensures Extension(keepmms) == "ms" <==> !keepmms
  {
  }

  /** Channel averaging is off exactly for specavg below 2. */
  lemma ChanAverageChoice(specavg: int)
    ensures !ChanAverage(specavg) <==> specavg < 2
  {
  }

  /** The outputs named by a list of requests. */
  function Outputs(requests: seq<SplitRequest>): set<string>
  {
    set i | 0 <= i < |requests| :: requests[i].outputvis
  }

  /** What every request looks like. */
  predicate WellFormed(st: Setting, req: SplitRequest)
  {
    && req.vis == st.visname
    && req.datacolumn == "corrected"
    && req.spw == st.spw
    && !req.keepflags
    && req.createmms == st.keepmms
    && (req.chanaverage <==> st.specavg >= 2)
    && req.chanbin == st.specavg
    && req.timeaverage
    && req.timebin == st.timeavg
    && req.usewtspectrum
    && exists id :: id in st.names && req.field == st.names[id]
         && req.outputvis == OutputName(st.visname, st.names[id], Extension(st.keepmms))
  }

  /**
   * The invariant of a run started on the files `initial`: the files are
   * the initial ones plus the requested outputs; every request is well
   * formed, writes a file that did not exist, and no output is written twice.
   */
  predicate Sound(st: Setting, initial: set<string>, run: Run)
  {
    && run.files == initial + Outputs(run.requests)
    && (forall i :: 0 <= i < |run.requests| ==>
          WellFormed(st, run.requests[i]) && run.requests[i].outputvis !in initial)
    && (forall i, j :: 0 <= i < j < |run.requests| ==> run.requests[i].outputvis != run.requests[j].outputvis)
  }

  lemma OutputsAppend(requests: seq<SplitRequest>, req: SplitRequest)
    ensures Outputs(requests + [req]) == Outputs(requests) + {req.outputvis}
  {
    var rs := requests + [req];
    assert rs[|requests|] == req;
    forall f | f in Outputs(requests) ensures f in Outputs(rs) {
      var i :| 0 <= i < |requests| && requests[i].outputvis == f;
      assert rs[i] == requests[i];
    }
  }

  lemma SplitStepSound(st: Setting, initial: set<string>, run: Run, token: string)
    requires Sound(st, initial, run)
    ensures Sound(st, initial, SplitStep(st, run, token))
  {
    if run.failure.None? && FieldName(st.names, token).Ok? {
      var fname := FieldName(st.names, token).value;
      var req := RequestFor(st, fname);
      if req.outputvis !in run.files {
        OutputsAppend(run.requests, req);
        var id := ParseInt(token).value;
        assert id in st.names && st.names[id] == fname;
        assert WellFormed(st, req);
        forall i | 0 <= i < |run.requests| ensures run.requests[i].outputvis != req.outputvis {
          assert run.requests[i].outputvis in Outputs(run.requests);
        }
      }
    }
  }

  lemma {:induction false} SplitAllSound(st: Setting, initial: set<string>, run: Run, tokens: seq<string>)
    requires Sound(st, initial, run)
    ensures Sound(st, initial, SplitAll(st, run, tokens))
  {
    if tokens != [] {
      SplitAllSound(st, initial, run, tokens[..|tokens| - 1]);
      SplitStepSound(st, initial, SplitAll(st, run, tokens[..|tokens| - 1]), tokens[|tokens| - 1]);
    }
  }

  lemma {:induction false} SplitGroupsSound(st: Setting, initial: set<string>, run: Run, fields: seq<string>)
    requires Sound(st, initial, run)
    ensures Sound(st, initial, SplitGroups(st, run, fields))
  {
    if fields != [] {
      SplitGroupsSound(st, initial, run, fields[..|fields| - 1]);
      SplitAllSound(st, initial, SplitGroups(st, run, fields[..|fields| - 1]), SplitComma(fields[|fields| - 1]));
    }
  }

  /**
   * Every request split_vis issues splits one field of the table out of
   * visname into `<base>.<name>.<extn>`, with chanbin = specavg, channel
   * averaging exactly when specavg >= 2, timebin = timeavg, createmms =
   * keepmms and the spw text unchanged; it never overwrites an existing
   * file and never writes the same output twice; afterwards the files are
   * the existing ones plus the requested outputs.
   */
  lemma SplitVisSound(visname: string, spw: string, fields: seq<string>, specavg: int,
                      timeavg: string, keepmms: bool, names: map<int, string>, existing: set<string>)
    ensures var st := Setting(visname, spw, specavg, timeavg, keepmms, names);
      Sound(st, existing, SplitGroups(st, Run([], existing, None), fields))
  {
    var st := Setting(visname, spw, specavg, timeavg, keepmms, names);
    assert Outputs([]) == {};
    SplitGroupsSound(st, existing, Run([], existing, None), fields);
  }

  /** A step that ends without an exception found its field, and its output exists afterwards. */
  lemma SplitStepCovers(st: Setting, run: Run, token: string)
    requires SplitStep(st, run, token).failure.None?
    ensures run.failure.None? && run.files <= SplitStep(st, run, token).files
    ensures FieldName(st.names, token).Ok? && OutputOf(st, token) in SplitStep(st, run, token).files
  {
  }

  /** A run that ends without an exception leaves an output for every sub-field it was given. */
  lemma {:induction false} SplitAllCovers(st: Setting, run: Run, tokens: seq<string>)
    requires SplitAll(st, run, tokens).failure.None?
    ensures run.files <= SplitAll(st, run, tokens).files
    ensures forall i :: 0 <= i < |tokens| ==>
      FieldName(st.names, tokens[i]).Ok? && OutputOf(st, tokens[i]) in SplitAll(st, run, tokens).files
  {
    if tokens != [] {
      var init := tokens[..|tokens| - 1];
      var mid := SplitAll(st, run, init);
      var end := SplitAll(st, run, tokens);
      assert end == SplitStep(st, mid, tokens[|tokens| - 1]);
      SplitStepCovers(st, mid, tokens[|tokens| - 1]);
      SplitAllCovers(st, run, init);
      forall i | 0 <= i < |tokens|
        ensures FieldName(st.names, tokens[i]).Ok? && OutputOf(st, tokens[i]) in end.files
      {
        if i < |init| {
          assert tokens[i] == init[i];
        } else {
          assert i == |init|;
        }
      }
    }
  }

  lemma {:induction false} SplitGroupsCovers(st: Setting, run: Run, fields: seq<string>)
    requires SplitGroups(st, run, fields).failure.None?
    ensures run.files <= SplitGroups(st, run, fields).files
    ensures forall g, i :: 0 <= g < |fields| && 0 <= i < |SplitComma(fields[g])| ==>
      FieldName(st.names, SplitComma(fields[g])[i]).Ok?
      && OutputOf(st, SplitComma(fields[g])[i]) in SplitGroups(st, run, fields).files
  {
    if fields != [] {
      var init := fields[..|fields| - 1];
      var mid := SplitGroups(st, run, init);
      var last := SplitComma(fields[|fields| - 1]);
      if mid.failure.Some? {
        SplitAllFailed(st, mid, last);
      }
      SplitGroupsCovers(st, run, init);
      SplitAllCovers(st, mid, last);
      var end := SplitGroups(st, run, fields);
      forall g, i | 0 <= g < |fields| && 0 <= i < |SplitComma(fields[g])|
        ensures FieldName(st.names, SplitComma(fields[g])[i]).Ok?
        ensures OutputOf(st, SplitComma(fields[g])[i]) in end.files
      {
        if g < |init| {
          assert fields[g] == init[g];
        } else {
          assert SplitComma(fields[g]) == last;
        }
      }
    }
  }

  /**
   * After a run without an exception, a sub-field's output was requested
   * exactly when it did not exist before: the outputs created are exactly
   * the missing ones.
   */
  lemma SplitCreatesExactlyMissing(visname: string, spw: string, fields: seq<string>, specavg: int,
                                   timeavg: string, keepmms: bool, names: map<int, string>,
                                   existing: set<string>)
    requires SplitGroups(Setting(visname, spw, specavg, timeavg, keepmms, names), Run([], existing, None), fields).failure.None?
    ensures var st := Setting(visname, spw, specavg, timeavg, keepmms, names);
      var run := SplitGroups(st, Run([], existing, None), fields);
      forall g, i :: 0 <= g < |fields| && 0 <= i < |SplitComma(fields[g])| ==>
        && FieldName(names, SplitComma(fields[g])[i]).Ok?
        && (OutputOf(st, SplitComma(fields[g])[i]) in Outputs(run.requests)
            <==> OutputOf(st, SplitComma(fields[g])[i]) !in existing)
  {
    var st := Setting(visname, spw, specavg, timeavg, keepmms, names);
    var run := SplitGroups(st, Run([], existing, None), fields);
    SplitVisSound(visname, spw, fields, specavg, timeavg, keepmms, names, existing);
    SplitGroupsCovers(st, Run([], existing, None), fields);
    forall f | f in Outputs(run.requests) ensures f !in existing {
      var i :| 0 <= i < |run.requests| && run.requests[i].outputvis == f;
    }
  }

  /** A step that starts clean and finds its field ends clean. */
  lemma {:induction false} SplitAllSucceeds(st: Setting, run: Run, tokens: seq<string>)
    requires run.failure.None?
    requires forall i :: 0 <= i < |tokens| ==> FieldName(st.names, tokens[i]).Ok?
    ensures SplitAll(st, run, tokens).failure.None?
  {
    if tokens != [] {
      var init := tokens[..|tokens| - 1];
      assert forall i :: 0 <= i < |init| ==> init[i] == tokens[i];
      SplitAllSucceeds(st, run, init);
      assert FieldName(st.names, tokens[|tokens| - 1]).Ok?;
    }
  }

  lemma {:induction false} SplitGroupsSucceeds(st: Setting, run: Run, fields: seq<string>)
    requires run.failure.None?
    requires forall g :: 0 <= g < |fields| ==> AllFound(st.names, fields[g])
    ensures SplitGroups(st, run, fields).failure.None?
  {
    if fields != [] {
      var init := fields[..|fields| - 1];
      assert forall g :: 0 <= g < |init| ==> init[g] == fields[g];
      SplitGroupsSucceeds(st, run, init);
      var last := SplitComma(fields[|fields| - 1]);
      assert AllFound(st.names, fields[|fields| - 1]);
      SplitAllSucceeds(st, SplitGroups(st, run, init), last);
    }
  }

  /**
   * split_vis ends without an exception exactly when every id of every
   * field group is a readable id the field table holds.
   */
  lemma SplitSucceedsIff(visname: string, spw: string, fields: seq<string>, specavg: int,
                         timeavg: string, keepmms: bool, names: map<int, string>, existing: set<string>)
    ensures SplitGroups(Setting(visname, spw, specavg, timeavg, keepmms, names), Run([], existing, None), fields).failure.None?
        <==> forall g :: 0 <= g < |fields| ==> AllFound(names, fields[g])
  {
    var st := Setting(visname, spw, specavg, timeavg, keepmms, names);
    var start := Run([], existing, None);
    if SplitGroups(st, start, fields).failure.None? {
      SplitGroupsCovers(st, start, fields);
      forall g | 0 <= g < |fields| ensures AllFound(names, fields[g]) {
        forall i | 0 <= i < |SplitComma(fields[g])| ensures FieldName(names, SplitComma(fields[g])[i]).Ok? {
        }
      }
    }
    if forall g :: 0 <= g < |fields| ==> AllFound(names, fields[g]) {
      SplitGroupsSucceeds(st, start, fields);
    }
  }
}
