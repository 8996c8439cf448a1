/**
 * How the split and imaging scripts meet: split_vis writes each field's data
 * under the name run_tclean later reads it from.
 */
module Handoff {
  import opened PyText
  import opened FieldTable
  import opened Outcomes
  import SplitVis
  import QuickTclean

  /** Both scripts name a field's data `<vis without extension>.<field name>.<extn>` with the same extn. */
  lemma SameFieldDataName(visname: string, fname: string, keepmms: bool)
    ensures SplitVis.OutputName(visname, fname, SplitVis.Extension(keepmms))
         == QuickTclean.InputName(visname, fname, QuickTclean.ModeFor(keepmms).extn)
  {
  }

  /**
   * After split_vis has run without an exception over some field groups,
   * the imaging job run_tclean would issue for any of those fields, with
   * the same vis name and keepmms, reads a file that is on disk.
   */
  lemma ImagingReadsSplitOutput(visname: string, spw: string, fields: seq<string>, specavg: int,
                                timeavg: string, keepmms: bool, names: map<int, string>,
                                existing: set<string>, bandwidthHz: real, cwd: string,
                                g: int, i: int, imsize: int)
    requires SplitVis.SplitGroups(SplitVis.Setting(visname, spw, specavg, timeavg, keepmms, names),
                                  SplitVis.Run([], existing, None), fields).failure.None?
    requires 0 <= g < |fields| && 0 <= i < |SplitComma(fields[g])|
    ensures FieldName(names, SplitComma(fields[g])[i]).Ok?
    ensures
      QuickTclean.JobFor(QuickTclean.SettingFor(visname, keepmms, bandwidthHz, cwd, names),
                         FieldName(names, SplitComma(fields[g])[i]).value, imsize).clean.vis
      in SplitVis.SplitGroups(SplitVis.Setting(visname, spw, specavg, timeavg, keepmms, names),
                              SplitVis.Run([], existing, None), fields).files
  {
    var st := SplitVis.Setting(visname, spw, specavg, timeavg, keepmms, names);
    SplitVis.SplitGroupsCovers(st, SplitVis.Run([], existing, None), fields);
  }
}
