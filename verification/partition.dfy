/**
 * Partitioning of a measurement set into a multi-MS (`do_partition` and the
 * config update in `main`): the output name, and the sub-band plan derived
 * from the total bandwidth and channel width of spectral window 0.
 */
module Partition {
  import opened Outcomes
  import opened PyPath
  import opened Rounding

  /** Largest fraction of the total bandwidth a single sub-band may span. */
  const MaxFracBand: real := 0.1

  /** What the metadata queries report for spectral window 0. */
  datatype Observation = Observation(nscan: int, bandwidth: real, chanwidth: real)

  /** maxspwbw, nchan and nspw as the script derives them. */
  datatype SubBandPlan = SubBandPlan(maxspwbw: real, nchan: int, nspw: int)

  /** The arguments of the mstransform call that writes the multi-MS. */
  datatype PartitionRequest = PartitionRequest(
    vis: string, outputvis: string, createmms: bool, separationaxis: string,
    numsubms: int, spw: string, datacolumn: string, regridms: bool,
    width: int, nspw: int)

  /** What do_partition hands back (the name) and what it asks the transform to do. */
  datatype Partitioned = Partitioned(mvis: string, request: PartitionRequest)

  /** The entries main writes into the config's data section. */
  datatype ConfigUpdate = ConfigUpdate(vis: string, origVis: string)

  /** The multi-MS name: last path component, final extension replaced by `.mms`. */
  function MultiMsName(visname: string): (r: string)
    ensures |r| >= 4 && r[|r| - 4..] == ".mms"
    ensures '/' !in r
  {
    Tail(SplitExt(visname).0) + ".mms"
  }

  /**
   * Sub-band plan: a sub-band spans a tenth of the band; nchan and nspw are
   * the ratios rounded half to even. A zero channel width or bandwidth makes
   * the division (and so the script) fail; nothing else is rejected.
   */
  function PlanSubBands(bandwidth: real, chanwidth: real): Result<SubBandPlan>
  {
    var maxspwbw := MaxFracBand * bandwidth;
    if chanwidth == 0.0 then Err(ZeroChannelWidth)
    else
      var nchan := RoundHalfEven(maxspwbw / chanwidth);
      if maxspwbw == 0.0 then Err(ZeroBandwidth)
      else Ok(SubBandPlan(maxspwbw, nchan, RoundHalfEven(bandwidth / maxspwbw)))
  }

  /** do_partition: derive the name and the plan, then request the transform. */
  function DoPartition(visname: string, spw: string, obs: Observation): (r: Result<Partitioned>)
    ensures r.Ok? ==> r.value.request.outputvis == r.value.mvis && r.value.request.vis == visname
  {
    var mvis := MultiMsName(visname);
    match PlanSubBands(obs.bandwidth, obs.chanwidth)
    case Err(e) => Err(e)
    case Ok(plan) =>
      Ok(Partitioned(mvis, PartitionRequest(
        visname, mvis, true, "scan", obs.nscan, spw, "DATA", true, plan.nchan, plan.nspw)))
  }

  /** `"'{0}'".format(s)` */
  function Quote(s: string): (r: string)
    ensures |r| == |s| + 2 && r[0] == '\'' && r[|r| - 1] == '\''
  {
    "'" + s + "'"
  }

  /** Drops the first and last character: the inverse of Quote. */
  function Unquote(s: string): string
    requires |s| >= 2
  {
    s[1..|s| - 1]
  }

  /** main: partition, then store the quoted new name as vis and the quoted old one as orig_vis. */
  function PartitionConfig(visname: string, spw: string, obs: Observation): Result<ConfigUpdate>
  {
    match DoPartition(visname, spw, obs)
    case Err(e) => Err(e)
    case Ok(p) => Ok(ConfigUpdate(Quote(p.mvis), Quote(visname)))
  }

  // ---------------------------------------------------------------------------
  // Output name

  /**
   * For `dir/stem.ext` the multi-MS is `stem.mms`: the directory part is
   * dropped and only the final extension is replaced.
   */
  lemma MultiMsNameOf(dir: string, stem: string, ext: string)
    requires dir == "" || dir[|dir| - 1] == '/'
    requires '/' !in stem && exists i :: 0 <= i < |stem| && stem[i] != '.'
    requires |ext| >= 1 && ext[0] == '.' && '/' !in ext && '.' !in ext[1..]
    ensures MultiMsName(dir + stem + ext) == stem + ".mms"
  {
    var p := dir + stem + ext;
    var dot := |dir| + |stem|;
    assert forall j :: dot < j < |p| ==> p[j] == ext[1..][j - dot - 1];
    RFindAt(p, '.', dot);
    var sep := RFind(p, '/');
    RFindLast(p, '/');
    assert forall j :: |dir| <= j < |p| ==> p[j] != '/' by {
      forall j | |dir| <= j < |p| ensures p[j] != '/' {
        if j < dot { assert p[j] == stem[j - |dir|]; } else { assert p[j] == ext[j - dot]; }
      }
    }
    assert sep < |dir|;
    var i :| 0 <= i < |stem| && stem[i] != '.';
    assert p[|dir| + i] == stem[i];
    assert HasNonDot(p, sep + 1, dot);
    assert SplitExt(p).0 == dir + stem;
    TailOf(dir, stem);
  }

  /** A name with no extension of its own (a dot file such as `.ms`) keeps its text and gains `.mms`. */
  lemma MultiMsNameOfDotFile()
    ensures MultiMsName("/data/.ms") == ".ms.mms"
  {
    var p := "/data/.ms";
    assert p[5] == '/' && p[6] == '.' && p[7] == 'm' && p[8] == 's';
    RFindAt(p, '/', 5);
    RFindAt(p, '.', 6);
    assert SplitExt(p).0 == p;
    TailOf("/data/", ".ms");
    assert "/data/" + ".ms" == p;
  }

  // ---------------------------------------------------------------------------
  // Sub-band plan

  /** The plan fails exactly on a zero channel width (checked first) or a zero bandwidth. */
  lemma PlanFailsOnlyOnZero(bandwidth: real, chanwidth: real)
    ensures PlanSubBands(bandwidth, chanwidth).Err? <==> chanwidth == 0.0 || bandwidth == 0.0
    ensures chanwidth == 0.0 ==> PlanSubBands(bandwidth, chanwidth) == Err(ZeroChannelWidth)
    ensures chanwidth != 0.0 && bandwidth == 0.0 ==> PlanSubBands(bandwidth, chanwidth) == Err(ZeroBandwidth)
  {
  }

  /** A sub-band spans exactly one tenth of the band. */
  lemma MaxSubBandIsTenth(bandwidth: real, chanwidth: real)
    requires PlanSubBands(bandwidth, chanwidth).Ok?
    ensures PlanSubBands(bandwidth, chanwidth).value.maxspwbw * 10.0 == bandwidth
  {
  }

  /** Whatever the bandwidth (of either sign) and channel width, there are 10 sub-bands. */
  lemma SubBandCountIsTen(bandwidth: real, chanwidth: real)
    requires bandwidth != 0.0 && chanwidth != 0.0
    ensures PlanSubBands(bandwidth, chanwidth).Ok?
    ensures PlanSubBands(bandwidth, chanwidth).value.nspw == 10
  {
    var maxspwbw := MaxFracBand * bandwidth;
    assert bandwidth / maxspwbw == 10.0;
    RoundInteger(10);
  }

  /** Magnitude of a width; CASA reports negative channel widths for a falling frequency axis. */
  function Abs(r: real): (a: real)
    ensures a >= 0.0 && (a == r || a == -r)
  {
    if r < 0.0 then -r else r
  }

  /**
   * nchan is the nearest whole number of channels to one sub-band: within
   * half a channel of it, the even candidate on a tie, and the only such
   * integer. For a negative channel width nchan is negative and the same
   * holds with the magnitude of the width.
   */
  lemma ChannelsPerSubBandNearest(bandwidth: real, chanwidth: real, m: int)
    requires bandwidth != 0.0 && chanwidth != 0.0
    ensures PlanSubBands(bandwidth, chanwidth).Ok?
    ensures var p := PlanSubBands(bandwidth, chanwidth).value;
      -Abs(chanwidth) / 2.0 <= p.nchan as real * chanwidth - p.maxspwbw <= Abs(chanwidth) / 2.0
    ensures var p := PlanSubBands(bandwidth, chanwidth).value;
      (p.nchan as real * chanwidth - p.maxspwbw == Abs(chanwidth) / 2.0 ||
       p.maxspwbw - p.nchan as real * chanwidth == Abs(chanwidth) / 2.0) ==> p.nchan % 2 == 0
    ensures var p := PlanSubBands(bandwidth, chanwidth).value;
      -Abs(chanwidth) / 2.0 < m as real * chanwidth - p.maxspwbw < Abs(chanwidth) / 2.0 ==> m == p.nchan
  {
    var maxspwbw := MaxFracBand * bandwidth;
    var x := maxspwbw / chanwidth;
    assert x * chanwidth == maxspwbw;
    NearestMultiple(x, chanwidth, maxspwbw, m);
  }

  /**
   * If x channels of width w make up y, the rounding of x is the whole
   * number of channels closest to y (ties to even), and no other is as close.
   */
  lemma NearestMultiple(x: real, w: real, y: real, m: int)
    requires w != 0.0 && x * w == y
    ensures var n := RoundHalfEven(x);
      -Abs(w) / 2.0 <= n as real * w - y <= Abs(w) / 2.0
    ensures var n := RoundHalfEven(x);
      (n as real * w - y == Abs(w) / 2.0 || y - n as real * w == Abs(w) / 2.0) ==> n % 2 == 0
    ensures -Abs(w) / 2.0 < m as real * w - y < Abs(w) / 2.0 ==> m == RoundHalfEven(x)
  {
    if w > 0.0 {
      NearestMultiplePositive(x, w, y, m);
    } else {
      // A negative width flips the sign of every distance.
      assert x * -w == -y;
      NearestMultiplePositive(x, -w, -y, m);
      FlipDistance(RoundHalfEven(x), w, y);
      FlipDistance(m, w, y);
    }
  }

  lemma FlipDistance(k: int, w: real, y: real)
    ensures k as real * -w - -y == -(k as real * w - y)
  {
  }

  lemma NearestMultiplePositive(x: real, w: real, y: real, m: int)
    requires w > 0.0 && x * w == y
    ensures var n := RoundHalfEven(x);
      -w / 2.0 <= n as real * w - y <= w / 2.0
    ensures var n := RoundHalfEven(x);
      (n as real * w - y == w / 2.0 || y - n as real * w == w / 2.0) ==> n % 2 == 0
    ensures -w / 2.0 < m as real * w - y < w / 2.0 ==> m == RoundHalfEven(x)
  {
    var n := RoundHalfEven(x);
    ScaledDistance(n, x, w, y);
    if -w / 2.0 < m as real * w - y < w / 2.0 {
      ScaledDistanceBack(m, x, w, y);
      RoundHalfEvenUnique(x, m);
    }
  }

  lemma ScaledDistance(n: int, x: real, w: real, y: real)
    requires w > 0.0 && x * w == y && -0.5 <= n as real - x <= 0.5
    ensures -w / 2.0 <= n as real * w - y <= w / 2.0
    ensures n as real * w - y == w / 2.0 <==> n as real - x == 0.5
    ensures y - n as real * w == w / 2.0 <==> x - n as real == 0.5
  {
    var d := n as real - x;
    assert n as real * w - y == d * w;
    ScaleHalf(d, w);
  }

  lemma ScaledDistanceBack(m: int, x: real, w: real, y: real)
    requires w > 0.0 && x * w == y && -w / 2.0 < m as real * w - y < w / 2.0
    ensures -0.5 < m as real - x < 0.5
  {
    var d := m as real - x;
    assert m as real * w - y == d * w;
    ScaleHalfBack(d, w);
  }

  /** Scaling by a positive width a distance of at most one half. */
  lemma ScaleHalf(d: real, w: real)
    requires w > 0.0 && -0.5 <= d <= 0.5
    ensures -w / 2.0 <= d * w <= w / 2.0
    ensures d * w == w / 2.0 <==> d == 0.5
    ensures d * w == -w / 2.0 <==> d == -0.5
  {
  }

  /** Dividing by a positive width a distance below half that width. */
  lemma ScaleHalfBack(d: real, w: real)
    requires w > 0.0 && -w / 2.0 < d * w < w / 2.0
    ensures -0.5 < d < 0.5
  {
  }

  /**
   * Ten sub-bands of nchan channels cover the band to within five channels,
   * the rounding error of nchan counted ten times, for either sign of the
   * channel width.
   */
  lemma PlanCoversBand(bandwidth: real, chanwidth: real)
    requires bandwidth != 0.0 && chanwidth != 0.0
    ensures PlanSubBands(bandwidth, chanwidth).Ok?
    ensures var p := PlanSubBands(bandwidth, chanwidth).value;
      -5.0 * Abs(chanwidth) <= (p.nspw * p.nchan) as real * chanwidth - bandwidth <= 5.0 * Abs(chanwidth)
  {
    SubBandCountIsTen(bandwidth, chanwidth);
    ChannelsPerSubBandNearest(bandwidth, chanwidth, 0);
    var p := PlanSubBands(bandwidth, chanwidth).value;
    assert (p.nspw * p.nchan) as real * chanwidth - bandwidth
        == 10.0 * (p.nchan as real * chanwidth - p.maxspwbw);
  }

  /**
   * There is no lower bound of one channel: a band narrower than five
   * channels gives sub-bands of zero channels, whatever the signs.
   */
  lemma NarrowBandGivesNoChannels(bandwidth: real, chanwidth: real)
    requires chanwidth != 0.0 && bandwidth != 0.0 && Abs(bandwidth) < 5.0 * Abs(chanwidth)
    ensures PlanSubBands(bandwidth, chanwidth).Ok?
    ensures PlanSubBands(bandwidth, chanwidth).value.nchan == 0
  {
    var y := MaxFracBand * bandwidth;
    var x := y / chanwidth;
    assert x * chanwidth == y;
    NearestMultiple(x, chanwidth, y, 0);
  }

  /** A 1 GHz band of 1 MHz channels: sub-bands of 100 MHz, 100 channels each, 10 of them. */
  lemma PlanGigahertzBand()
    ensures PlanSubBands(1000000000.0, 1000000.0) == Ok(SubBandPlan(100000000.0, 100, 10))
  {
    SubBandCountIsTen(1000000000.0, 1000000.0);
    assert MaxFracBand * 1000000000.0 / 1000000.0 == 100.0;
    RoundInteger(100);
  }

  // ---------------------------------------------------------------------------
  // The transform request and the config update

  /**
   * The transform is asked for one sub-MS per scan, nchan-channel regridding
   * into 10 windows, the caller's spw text unchanged, and output to the
   * multi-MS name, which is also what do_partition returns.
   */
  lemma PartitionRequestFields(visname: string, spw: string, obs: Observation)
    requires obs.bandwidth != 0.0 && obs.chanwidth != 0.0
    ensures DoPartition(visname, spw, obs).Ok?
    ensures var p := DoPartition(visname, spw, obs).value;
      && p.mvis == MultiMsName(visname)
      && p.request == PartitionRequest(visname, p.mvis, true, "scan", obs.nscan, spw, "DATA", true,
                                       RoundHalfEven(obs.bandwidth / 10.0 / obs.chanwidth), 10)
  {
    SubBandCountIsTen(obs.bandwidth, obs.chanwidth);
    var maxspwbw := MaxFracBand * obs.bandwidth;
    assert maxspwbw == obs.bandwidth / 10.0;
    var plan := PlanSubBands(obs.bandwidth, obs.chanwidth).value;
    assert plan.nchan == RoundHalfEven(obs.bandwidth / 10.0 / obs.chanwidth);
  }

  /** The spw selection is passed through and has no influence on nchan or nspw. */
  lemma SpwDoesNotAffectPlan(visname: string, spw1: string, spw2: string, obs: Observation)
    ensures DoPartition(visname, spw1, obs).Ok? == DoPartition(visname, spw2, obs).Ok?
    ensures DoPartition(visname, spw1, obs).Ok? ==>
      DoPartition(visname, spw1, obs).value.request.(spw := spw2) == DoPartition(visname, spw2, obs).value.request
  {
  }

  /** main stores the multi-MS name and the original name, each wrapped in single quotes. */
  lemma ConfigStoresQuotedNames(visname: string, spw: string, obs: Observation)
    ensures PartitionConfig(visname, spw, obs).Ok? == DoPartition(visname, spw, obs).Ok?
    ensures PartitionConfig(visname, spw, obs).Ok? ==>
      var c := PartitionConfig(visname, spw, obs).value;
      && |c.vis| >= 2 && |c.origVis| >= 2
      && c.vis[0] == '\'' == c.vis[|c.vis| - 1] && c.origVis[0] == '\'' == c.origVis[|c.origVis| - 1]
      && Unquote(c.vis) == DoPartition(visname, spw, obs).value.mvis
      && Unquote(c.origVis) == visname
  {
    if DoPartition(visname, spw, obs).Ok? {
      var m := DoPartition(visname, spw, obs).value.mvis;
      assert Quote(m)[1..|Quote(m)| - 1] == m;
      assert Quote(visname)[1..|Quote(visname)| - 1] == visname;
    }
  }
}
