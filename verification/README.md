# MeerKAT calibration scripts: partition, split and quick imaging

This project models three CASA scripts of the MeerKAT processing pipeline in
Dafny, and proves properties of the model.

- `partition.py` turns the input measurement set (MS) into a multi-MS (MMS).
  It derives the MMS name, plans the sub-bands and requests one
  `mstransform`. `main` then writes both names back into the config, each
  wrapped in single quotes.
- `split.py` (`split_vis`) writes one MS per calibrator or target field with
  `mstransform`. It skips any output that already exists.
- `quick_tclean.py` (`run_tclean`) runs a quick `tclean` plus `exportfits` on
  every target, gain and bandpass field. It skips a field when something
  already matches its image name.

## How the model is built

- **Metadata as parameters.** The `msmd` metadata tool becomes parameters.
  - The field table is a `map<int, string>` from field id to field name.
  - The scan count, bandwidth and channel width are values in an
    `Observation`. `run_tclean` gets its bandwidth in Hz.
- **The disk as a set.** The files on disk are a `set<string>`, passed in
  and returned.
  - `os.path.exists(name)` is membership.
  - `glob(name + '*')` finding anything is `Blocked`: some file extends
    `name` with no further `/`.
- **CASA calls as records.** Each `mstransform`, `tclean` and `exportfits`
  call becomes a record of its varying arguments, and the record is appended
  to the run.
  - A split request adds its output file to the set.
  - An imaging job adds the image that `exportfits` reads
    (`<name>.image<suffix>`) and the FITS file it writes (`<name>.fits`).
- **Exceptions.** A field id that `int()` rejects, or that the table does not
  hold, raises in the script. In the model it ends the run with an `Error`.
  The jobs already issued are kept.
- **Loops as methods.** The scripts' loops are Dafny methods with `while`
  loops. Each is proved equal to a left-fold specification function
  (`TargetNames`, `ImageAll`/`ImageGroups`, `SplitAll`/`SplitGroups`). The
  properties are proved about those functions.
- **Python built-ins.** The model writes out exactly what the scripts depend
  on:
  - `os.path.splitext`, `os.path.split(...)[1]` and `os.path.join` (POSIX)
  - `str.split(',')`
  - `int()` on one field id, as Python 2.7 reads it: ASCII whitespace, an
    optional sign, more whitespace after the sign, decimal digits
  - `int(np.round(...))` (round half to even)

What `do_partition` does with the widths it is given:
- It has no lower bound of one channel per sub-band.
- Only a zero channel width or a zero bandwidth fails (a division by zero).
  A negative bandwidth or channel width is accepted; a negative channel
  width gives a negative channel count.
- The fractional bandwidth is the constant 0.1.

## Model

| member | source | states |
|---|---|---|
| Partition.MultiMsName | processMeerKAT/cal_scripts/partition.py:15-18 | the MMS name ends in `.mms` and holds no directory separator |
| Partition.MultiMsNameOf | processMeerKAT/cal_scripts/partition.py:15-18 | for `dir/stem.ext` (stem not all dots, ext a single extension) the MMS name is `stem.mms`: the directory is dropped and only the last extension is replaced |
| Partition.MultiMsNameOfDotFile | processMeerKAT/cal_scripts/partition.py:15-18 | a dot file has no extension of its own: `/data/.ms` gives `.ms.mms` |
| Partition.DoPartition | processMeerKAT/cal_scripts/partition.py:13-43 | when the transform is requested, it reads the input name and writes to exactly the name do_partition returns |
| Partition.PlanFailsOnlyOnZero | processMeerKAT/cal_scripts/partition.py:31-34 | the plan fails if and only if the channel width or the bandwidth is zero; a zero channel width is reported first |
| Partition.MaxSubBandIsTenth | processMeerKAT/cal_scripts/partition.py:31-32 | a sub-band spans exactly a tenth of the band |
| Partition.SubBandCountIsTen | processMeerKAT/cal_scripts/partition.py:31-34 | for every nonzero bandwidth and channel width, of either sign, there are exactly 10 sub-bands |
| Partition.ChannelsPerSubBandNearest | processMeerKAT/cal_scripts/partition.py:27-33 | for every nonzero channel width, of either sign, nchan channels are within half a channel (in magnitude) of a sub-band; a tie goes to an even nchan; no other integer is that close |
| Partition.PlanCoversBand | processMeerKAT/cal_scripts/partition.py:27-34 | for every nonzero bandwidth and channel width, nspw * nchan channels cover the band to within five channel widths in magnitude |
| Partition.NarrowBandGivesNoChannels | processMeerKAT/cal_scripts/partition.py:31-33 | a band narrower in magnitude than five channels gives zero channels per sub-band, whatever the signs; there is no lower bound of one |
| Partition.PlanGigahertzBand | processMeerKAT/cal_scripts/partition.py:31-34 | 1 GHz of 1 MHz channels gives 100 MHz sub-bands of 100 channels, 10 of them |
| Partition.PartitionRequestFields | processMeerKAT/cal_scripts/partition.py:36-38 | for a nonzero bandwidth and channel width the request is a scan-separated MMS of `nscan` sub-MSs with column `DATA`, regridded to `round(bw/10/cw)` channels in 10 windows, the spw text unchanged |
| Partition.SpwDoesNotAffectPlan | processMeerKAT/cal_scripts/partition.py:13-38 | the spw text is only passed through: it changes neither success, nchan nor nspw, only the request's spw |
| Partition.Quote | processMeerKAT/cal_scripts/partition.py:59-60 | the quoted name is two characters longer and starts and ends with a single quote |
| Partition.ConfigStoresQuotedNames | processMeerKAT/cal_scripts/partition.py:58-63 | main succeeds exactly when do_partition does; it stores the MMS name and the original name, each quoted, and unquoting gives them back |
| Rounding.RoundHalfEven | processMeerKAT/cal_scripts/partition.py:33-34 | the rounding is within one half of its argument and even on a tie |
| Rounding.RoundHalfEvenUnique | processMeerKAT/cal_scripts/partition.py:33-34 | it is the only integer with those two properties |
| Rounding.RoundInteger | processMeerKAT/cal_scripts/partition.py:34 | an integral value rounds to itself |
| PyPath.SplitExtParts | processMeerKAT/cal_scripts/partition.py:15 | splitext cuts the name into root + extension; the extension is empty or a dot followed by no `/` and no other dot |
| PyPath.SplitExtFindsExtension | processMeerKAT/cal_scripts/partition.py:15 | there is an extension exactly when the last path component has a dot somewhere after a non-dot character |
| PyPath.Tail | processMeerKAT/cal_scripts/partition.py:16 | the last component is a suffix of the path, holds no `/`, and is the whole path or follows a `/` |
| PyPath.TailOf | processMeerKAT/cal_scripts/partition.py:16 | the last component of `dir/name` is `name` |
| PyPath.JoinShape | pipelines/processMeerKAT/cal_scripts/quick_tclean.py:46 | join ends with its second argument; it starts with the first unless the second is absolute, and is the second when it is absolute |
| PyPath.JoinRelative | pipelines/processMeerKAT/cal_scripts/quick_tclean.py:56 | joining a relative name onto a directory ending in `/` concatenates them |
| PyText.SplitComma | pipelines/processMeerKAT/cal_scripts/quick_tclean.py:52-53 | `split(',')` gives at least one piece and no piece holds a comma |
| PyText.JoinSplit | pipelines/processMeerKAT/cal_scripts/quick_tclean.py:53 | joining the pieces with commas gives the field list back |
| PyText.SplitJoin | pipelines/processMeerKAT/cal_scripts/quick_tclean.py:53 | splitting a comma-join of comma-free pieces gives the pieces back |
| PyText.SplitSingle | pipelines/processMeerKAT/cal_scripts/quick_tclean.py:52-58 | a list that splits into one piece is that piece, so the single-target branch reads the same id as the loop would |
| PyText.ParseFormat | pipelines/processMeerKAT/cal_scripts/quick_tclean.py:54 | `int(str(n)) == n` for every integer n |
| PyText.SpaceAfterSign | pipelines/processMeerKAT/cal_scripts/quick_tclean.py:54 | a sign, whitespace and digits read as the signed number: `int('+ 5') == 5` and `int('- 5') == -5` |
| FieldTable.FieldNameOk | pipelines/processMeerKAT/cal_scripts/quick_tclean.py:54 | a lookup succeeds if and only if `int()` reads the id and the table holds it, and then gives a field name of the table |
| FieldTable.FieldNameOfId | pipelines/processMeerKAT/cal_scripts/quick_tclean.py:54 | an id written in decimal finds the field stored under it |
| QuickTclean.ModeChoice | pipelines/processMeerKAT/cal_scripts/quick_tclean.py:29-34 | keepmms gives parallel imaging of `mms` data; otherwise serial imaging of `ms` data |
| QuickTclean.NarrowBandImaging | pipelines/processMeerKAT/cal_scripts/quick_tclean.py:36-40 | below 100 MHz: one Taylor term, the clark deconvolver, no suffix |
| QuickTclean.WideBandImaging | pipelines/processMeerKAT/cal_scripts/quick_tclean.py:41-44 | from 100 MHz up, 100 included: two terms, mtmfs, suffix `.tt0` |
| QuickTclean.ImagingChoicesAgree | pipelines/processMeerKAT/cal_scripts/quick_tclean.py:36-44 | the term count, deconvolver and suffix always agree with each other and with the 100 MHz threshold |
| QuickTclean.ImagePathShape | pipelines/processMeerKAT/cal_scripts/quick_tclean.py:46 | the image directory ends in `images/` |
| QuickTclean.ImageNameUnderImagePath | pipelines/processMeerKAT/cal_scripts/quick_tclean.py:55-56 | for a relative vis name the image name is the image directory followed by `<root>_<field>.im` |
| QuickTclean.ImageNameOfAbsoluteVis | pipelines/processMeerKAT/cal_scripts/quick_tclean.py:55-56 | for an absolute vis name, join discards the image directory: the image is named `<root>_<field>.im` beside the data |
| QuickTclean.TargetImageNames | pipelines/processMeerKAT/cal_scripts/quick_tclean.py:50-60 | building targimname, in both the multi-target loop and the single-target branch, gives the target-name fold: one image name per id in order, or the first lookup error |
| QuickTclean.TargetNamesOkIff | pipelines/processMeerKAT/cal_scripts/quick_tclean.py:50-60 | the target names are built if and only if every target id is found |
| QuickTclean.TargetNamesAt | pipelines/processMeerKAT/cal_scripts/quick_tclean.py:50-60 | on success there is one name per id, and the i-th is the image name of the i-th id's field |
| QuickTclean.TargetNamesFirstError | pipelines/processMeerKAT/cal_scripts/quick_tclean.py:50-60 | on failure the error is that of the first id not found; all ids before it are found |
| QuickTclean.RunTclean | pipelines/processMeerKAT/cal_scripts/quick_tclean.py:18-102 | the jobs, files and outcome of run_tclean are those of the specification: target names first, then targets at 2048 pixels, then gain and bandpass sub-fields at 512 |
| QuickTclean.ImageTargets | pipelines/processMeerKAT/cal_scripts/quick_tclean.py:62-80 | the target loop, which re-reads the id of each name, images exactly as the fold over the target ids does |
| QuickTclean.ImageCalibrators | pipelines/processMeerKAT/cal_scripts/quick_tclean.py:83-99 | the calibrator loop over the gain and bandpass lists equals the fold over the groups; the first failing id stops it |
| QuickTclean.ImageSubfields | pipelines/processMeerKAT/cal_scripts/quick_tclean.py:85-99 | the inner loop over one list's sub-fields equals the fold over its ids |
| QuickTclean.ProductsBlock | pipelines/processMeerKAT/cal_scripts/quick_tclean.py:72-80 | the FITS file a job writes matches the glob of its image name |
| QuickTclean.ImageStepSound | pipelines/processMeerKAT/cal_scripts/quick_tclean.py:69-80 | one imaging step keeps the run invariant: the files are the initial ones plus the products of the jobs issued; each job is well formed and its name was not matched by any file on disk when it was issued, initial or written by an earlier job; its name is matched now; names are distinct |
| QuickTclean.RunTcleanSound | pipelines/processMeerKAT/cal_scripts/quick_tclean.py:62-99 | every job reads its field's split data and uses the run's deconvolver, terms and mode. Its image size is 2048 or 512, and it exports `<name>.image<suffix>` to `<name>.fits`. The files afterwards are those on disk before plus every job's products. No job is issued for a name that a file then on disk matches, whether that file was there at the start or written earlier in the run, and no name is imaged twice |
| QuickTclean.UnblockedNameImaged | pipelines/processMeerKAT/cal_scripts/quick_tclean.py:72-80 | in a run that keeps the invariant, a matched name that no initial file and no product of a job under another name matches was imaged by a job of its own |
| QuickTclean.RunTcleanImagesUnblocked | pipelines/processMeerKAT/cal_scripts/quick_tclean.py:62-99 | after a run without an exception, a target, gain or bandpass field was imaged by its own job unless its name was matched by a file on disk at the start or by a product of another field's job (for a field called `X.im`, the `..._X.im.im.fits` it writes matches `..._X.im`) |
| QuickTclean.ImageAllCovers | pipelines/processMeerKAT/cal_scripts/quick_tclean.py:72-80 | after a clean pass over a list, every id was found and its image name is matched by some file: on disk at the start or written during the run (its own image or another job's) |
| QuickTclean.ImageGroupsCovers | pipelines/processMeerKAT/cal_scripts/quick_tclean.py:84-99 | the same for every sub-field of every calibrator list |
| QuickTclean.RunTcleanCovers | pipelines/processMeerKAT/cal_scripts/quick_tclean.py:62-99 | after a run without an exception, every target, gain and bandpass id was found and its image name is matched by a file, one on disk at the start or one written during the run (RunTcleanImagesUnblocked says which) |
| QuickTclean.RunTcleanSucceedsIff | pipelines/processMeerKAT/cal_scripts/quick_tclean.py:50-99 | run_tclean ends without an exception if and only if every target, gain and bandpass id is found |
| SplitVis.ExtensionChoice | pipelines/processMeerKAT/cal_scripts/split.py:21 | the extension is `mms` exactly when keepmms, otherwise `ms` |
| SplitVis.ChanAverageChoice | pipelines/processMeerKAT/cal_scripts/split.py:29-33 | channel averaging is off exactly when specavg is below 2 |
| SplitVis.SplitVisibilities | pipelines/processMeerKAT/cal_scripts/split.py:17-38 | split_vis issues the requests and leaves the files given by the fold over the field groups; the first failing id stops it |
| SplitVis.SplitSubfields | pipelines/processMeerKAT/cal_scripts/split.py:24-38 | the inner loop over one group's sub-fields equals the fold over its ids |
| SplitVis.SplitVisSound | pipelines/processMeerKAT/cal_scripts/split.py:23-38 | every request splits one table field into `<base>.<name>.<extn>`: chanbin is specavg, channel averaging is on exactly for specavg >= 2, timebin is timeavg, createmms is keepmms, the spw text and datacolumn `corrected` are used. No existing file is overwritten and no output is written twice. The files afterwards are the initial ones plus the outputs |
| SplitVis.SplitAllCovers | pipelines/processMeerKAT/cal_scripts/split.py:24-38 | after a clean pass over a group, every id was found and its output exists |
| SplitVis.SplitGroupsCovers | pipelines/processMeerKAT/cal_scripts/split.py:23-38 | the same for every sub-field of every group |
| SplitVis.SplitCreatesExactlyMissing | pipelines/processMeerKAT/cal_scripts/split.py:27-38 | after a clean run, a sub-field's output was requested exactly when it did not exist before |
| SplitVis.SplitSucceedsIff | pipelines/processMeerKAT/cal_scripts/split.py:23-25 | split_vis ends without an exception if and only if every id of every group is found |
| Handoff.SameFieldDataName | pipelines/processMeerKAT/cal_scripts/split.py:18-27 | split's output name for a field equals the input name quick_tclean reads for it (quick_tclean.py:70 and 89), for the same vis name and keepmms |
| Handoff.ImagingReadsSplitOutput | pipelines/processMeerKAT/cal_scripts/quick_tclean.py:69-73 | after split_vis runs cleanly over some field lists, the tclean job for any of those fields reads a file that is on disk |

## Left out

- `msmd` queries (`nscans`, `bandwidths`, `chanwidths`, `namesforfields`) are parameters. A negative id, or any other special argument of `namesforfields`, is just an id the table lacks.
- `run_tclean` takes `msmd.bandwidths(-1)` as a single number, as for single-window MeerKAT data. The model does not compare an array of bandwidths with 100 MHz.
- Floating point is not modelled: the arithmetic is on exact reals. In IEEE doubles, `bandwidth / (0.1 * bandwidth)` can miss 10.0 by an ulp, and it still rounds to 10.
- Partition.PlanSubBands: numpy's `inf`/`nan` results for a zero divisor are modelled as the error they lead to, not as values.
- The executions of `mstransform`, `tclean` and `exportfits` are records. Their fixed arguments (niter 1000, cell `2arcsec`, Briggs weighting with robust 0, `mfs`, the standard gridder, pblimit 0, and the rest) are not carried.
- A job's products are modelled as the two files `exportfits` names. Other files `tclean` writes (`.residual`, `.psf`, ...) only ever extend the same glob, so they change nothing observable.
- `os.makedirs` of the image directory is not modelled: the set of files has no directories.
- Glob metacharacters (`*`, `?`, `[`) inside names are read literally.
- `int()`: Python 2.7, as used by CASA 5, is assumed, including its skipping of whitespace between the sign and the digits. Python 3 underscores and non-ASCII digits are not modelled.
- `main` of partition.py reads the config and overwrites it. Reading is not modelled; the writes are the `ConfigUpdate` record. The config parser and `bookkeeping.get_field_ids` are not part of this model.
- `main` blocks of split.py and quick_tclean.py only read the config; they are not modelled.
- xx_yy_solve.py is not part of this model.
