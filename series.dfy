/** The peak-current series of dpvAnalysis.py. After every file has been
    analysed, the script walks the file names in sorted order twice. The
    numbers found in a name give a concentration and a time point. The first
    pass (the concentration plot) skips names containing " 0 min" and
    appends one entry per remaining file to `time`, `current` and
    `Molarity`. The second pass (the time plot) resets those three lists at
    every name containing " 0 min" and appends for every other name, and it
    starts from whatever the first pass left in them. */
module Series {
  import opened Common
  import Window

  /** One analysed file, in sorted name order: its name, the numbers that
      occur in the name (what `re.findall` and `float` extract), and its
      peak current Ip. */
  datatype Sample = Sample(name: string, numbers: seq<real>, ip: real)

  datatype Point = Point(concentration: real, timePoint: real)

  /** One appended entry of the three lists. */
  datatype Entry = Entry(point: Point, ip: real)

  /** The three parallel lists `time`, `current` and `Molarity`. */
  datatype Lists = Lists(time: seq<real>, current: seq<real>, molarity: seq<real>)
  {
    predicate Aligned() { |time| == |current| == |molarity| }

    function Append(e: Entry): Lists
    {
      Lists(time + [e.point.timePoint], current + [e.ip], molarity + [e.point.concentration])
    }
  }

  const NoLists := Lists([], [], [])

  const ZeroMin := " 0 min"
  const FreshZeroMin := "f 0 min"

  /** How the count of numbers in a name decides the point: one number is a
      time point at concentration 0; with two or three, the first is the
      concentration and the last the time point (a middle one is ignored);
      any other count has no reading. */
  function Interpret(numbers: seq<real>): (r: Option<Point>)
    ensures r.Some? <==> 1 <= |numbers| <= 3
    ensures r.Some? ==> r.value.timePoint == numbers[|numbers| - 1]
    ensures r.Some? ==> r.value.concentration == if |numbers| == 1 then 0.0 else numbers[0]
  {
    if |numbers| == 2 then Some(Point(numbers[0], numbers[1]))
    else if |numbers| == 3 then Some(Point(numbers[0], numbers[2]))
    else if |numbers| == 1 then Some(Point(0.0, numbers[0]))
    else None
  }

  /** Every name containing "f 0 min" also contains " 0 min". */
  lemma {:induction false} FreshNameHasZeroMin(s: string)
    requires Contains(s, FreshZeroMin)
    ensures Contains(s, ZeroMin)
    decreases |s|
  {
    if s[..|FreshZeroMin|] == FreshZeroMin {
      assert s[1..][..|ZeroMin|] == ZeroMin;
    } else {
      FreshNameHasZeroMin(s[1..]);
    }
  }

  /** The three lists of a sequence of entries. */
  function Columns(es: seq<Entry>): (r: Lists)
    ensures r.Aligned() && |r.time| == |es|
    ensures forall k :: 0 <= k < |es| ==>
      r.time[k] == es[k].point.timePoint && r.current[k] == es[k].ip &&
      r.molarity[k] == es[k].point.concentration
  {
    Lists(seq(|es|, k requires 0 <= k < |es| => es[k].point.timePoint),
          seq(|es|, k requires 0 <= k < |es| => es[k].ip),
          seq(|es|, k requires 0 <= k < |es| => es[k].point.concentration))
  }

  lemma ColumnsAppend(es: seq<Entry>, e: Entry)
    ensures Columns(es + [e]) == Columns(es).Append(e)
  {
    var l := Columns(es + [e]);
    var m := Columns(es).Append(e);
    assert l.time == m.time && l.current == m.current && l.molarity == m.molarity;
  }

  function Concat(a: Lists, b: Lists): Lists
  {
    Lists(a.time + b.time, a.current + b.current, a.molarity + b.molarity)
  }

  /** `filename.split("-")[0]` of each name. */
  function Legends(files: seq<Sample>): (r: seq<string>)
    ensures |r| == |files|
  {
    seq(|files|, k requires 0 <= k < |files| => FirstField(files[k].name))
  }

  lemma LegendsAppend(files: seq<Sample>, f: Sample)
    ensures Legends(files + [f]) == Legends(files) + [FirstField(f.name)]
  {
  }

  // ---------------------------------------------------------------------
  // First pass: the concentration plot

  /** The files the first pass does not skip, in order. */
  function Survivors(files: seq<Sample>): (r: seq<Sample>)
    ensures |r| <= |files|
  {
    if |files| == 0 then []
    else
      var n := |files| - 1;
      Survivors(files[..n]) + (if Contains(files[n].name, ZeroMin) then [] else [files[n]])
  }

  /** Which names the first pass keeps: those without " 0 min". */
  function UnmarkedMask(files: seq<Sample>): (m: seq<bool>)
    ensures |m| == |files|
    ensures forall k :: 0 <= k < |files| ==> (m[k] <==> !Contains(files[k].name, ZeroMin))
  {
    seq(|files|, k requires 0 <= k < |files| => !Contains(files[k].name, ZeroMin))
  }

  /** The first pass keeps exactly the names without " 0 min", in their
      sorted order: the survivors are the files selected by that mask. */
  lemma {:induction false} SurvivorsAreUnmarkedFiles(files: seq<Sample>)
    ensures Survivors(files) == Window.Filter(files, UnmarkedMask(files))
  {
    if |files| > 0 {
      var n := |files| - 1;
      SurvivorsAreUnmarkedFiles(files[..n]);
      assert UnmarkedMask(files)[..n] == UnmarkedMask(files[..n]);
    }
  }

  /** The survivors of a prefix are a prefix of the survivors. */
  lemma {:induction false} SurvivorsOfPrefix(files: seq<Sample>, m: nat)
    requires m <= |files|
    ensures |Survivors(files[..m])| <= |Survivors(files)|
    ensures Survivors(files)[..|Survivors(files[..m])|] == Survivors(files[..m])
    decreases |files|
  {
    if m < |files| {
      var n := |files| - 1;
      assert files[..n][..m] == files[..m];
      SurvivorsOfPrefix(files[..n], m);
    } else {
      assert files[..m] == files;
    }
  }

  /** A name without the skip marker appends one entry; a name with none,
      four or more numbers stops the run with the first such name. */
  function ParsedEntries(survivors: seq<Sample>): (r: Result<seq<Entry>>)
    ensures r.Ok? ==> |r.value| == |survivors|
  {
    if |survivors| == 0 then Ok([])
    else
      var n := |survivors| - 1;
      ParsedStep(ParsedEntries(survivors[..n]), survivors[n])
  }

  /** One iteration of the first pass on a name it does not skip. */
  function ParsedStep(front: Result<seq<Entry>>, f: Sample): (r: Result<seq<Entry>>)
    ensures r.Ok? ==> front.Ok? && |r.value| == |front.value| + 1
  {
    match front
    case Err(e) => Err(e)
    case Ok(es) =>
      match Interpret(f.numbers)
      case None => Err(BadNumberCount(f.name, |f.numbers|))
      case Some(p) => Ok(es + [Entry(p, f.ip)])
  }

  lemma ParsedEntriesAppend(survivors: seq<Sample>, f: Sample)
    ensures ParsedEntries(survivors + [f]) == ParsedStep(ParsedEntries(survivors), f)
  {
    assert (survivors + [f])[..|survivors|] == survivors;
  }

  /** The first pass succeeds exactly when every kept name has a reading;
      then the k-th entry is the k-th kept file's point and peak current.
      Otherwise it stops at the first kept name without a reading. */
  lemma {:induction false} ParsedEntriesMeaning(survivors: seq<Sample>)
    ensures var r := ParsedEntries(survivors);
      && (r.Ok? <==> forall k :: 0 <= k < |survivors| ==> Interpret(survivors[k].numbers).Some?)
      && (r.Ok? ==> forall k :: 0 <= k < |survivors| ==>
            r.value[k] == Entry(Interpret(survivors[k].numbers).value, survivors[k].ip))
      && (r.Err? ==> exists k :: (
            && 0 <= k < |survivors|
            && r.error == BadNumberCount(survivors[k].name, |survivors[k].numbers|)
            && Interpret(survivors[k].numbers).None?
            && forall j :: 0 <= j < k ==> Interpret(survivors[j].numbers).Some?))
    decreases |survivors|
  {
    if |survivors| > 0 {
      var n := |survivors| - 1;
      var front := survivors[..n];
      ParsedEntriesMeaning(front);
      assert forall k :: 0 <= k < n ==> front[k] == survivors[k];
    }
  }

  /** Once a prefix has stopped the run, nothing after it changes the outcome. */
  lemma {:induction false} ParsedErrorPersists(survivors: seq<Sample>, m: nat)
    requires m <= |survivors| && ParsedEntries(survivors[..m]).Err?
    ensures ParsedEntries(survivors) == ParsedEntries(survivors[..m])
    decreases |survivors|
  {
    if m < |survivors| {
      var n := |survivors| - 1;
      assert survivors[..n][..m] == survivors[..m];
      ParsedErrorPersists(survivors[..n], m);
    } else {
      assert survivors[..m] == survivors;
    }
  }

  /** What the first pass leaves behind: the three lists, `legendList`, and
      the concentration and time point of the last file it read (None when it
      read none), which stay assigned for the second pass. */
  datatype ConcentrationPlot = ConcentrationPlot(lists: Lists, legend: seq<string>, last: Option<Point>)

  function LastPoint(es: seq<Entry>, before: Option<Point>): Option<Point>
  {
    if |es| == 0 then before else Some(es[|es| - 1].point)
  }

  /** The first pass as a whole, read off the survivors. */
  function ConcentrationPass(files: seq<Sample>): Result<ConcentrationPlot>
  {
    var survivors := Survivors(files);
    match ParsedEntries(survivors)
    case Err(e) => Err(e)
    case Ok(es) => Ok(ConcentrationPlot(Columns(es), Legends(survivors), LastPoint(es, None)))
  }

  lemma SurvivorsStep(files: seq<Sample>, i: nat)
    requires i < |files|
    ensures Contains(files[i].name, ZeroMin) ==> Survivors(files[..i + 1]) == Survivors(files[..i])
    ensures !Contains(files[i].name, ZeroMin) ==> Survivors(files[..i + 1]) == Survivors(files[..i]) + [files[i]]
  {
    assert files[..i + 1][..i] == files[..i];
  }

  /** A kept name without a reading ends the first pass with its error. */
  lemma ConcentrationStopsAt(files: seq<Sample>, i: nat)
    requires i < |files| && !Contains(files[i].name, ZeroMin)
    requires ParsedEntries(Survivors(files[..i])).Ok? && Interpret(files[i].numbers).None?
    ensures ConcentrationPass(files) == Err(BadNumberCount(files[i].name, |files[i].numbers|))
  {
    SurvivorsStep(files, i);
    ParsedEntriesAppend(Survivors(files[..i]), files[i]);
    SurvivorsOfPrefix(files, i + 1);
    assert files[..|files|] == files;
    ParsedErrorPersists(Survivors(files), |Survivors(files[..i + 1])|);
  }

  /** A kept name with a reading appends its entry to each list, its
      legend to the legend list, and becomes the last point. */
  lemma ConcentrationAppends(files: seq<Sample>, i: nat, plot: ConcentrationPlot)
    requires i < |files| && !Contains(files[i].name, ZeroMin)
    requires ConcentrationPass(files[..i]) == Ok(plot)
    requires Interpret(files[i].numbers).Some?
    ensures var p := Interpret(files[i].numbers).value;
      ConcentrationPass(files[..i + 1]) ==
        Ok(ConcentrationPlot(plot.lists.Append(Entry(p, files[i].ip)), plot.legend + [FirstField(files[i].name)], Some(p)))
  {
    SurvivorsStep(files, i);
    var survivors := Survivors(files[..i]);
    var es := ParsedEntries(survivors).value;
    ParsedEntriesAppend(survivors, files[i]);
    LegendsAppend(survivors, files[i]);
    ColumnsAppend(es, Entry(Interpret(files[i].numbers).value, files[i].ip));
  }

  /** A failed first pass on a prefix is the failure of the whole pass. */
  lemma ConcentrationErrorPersists(files: seq<Sample>, m: nat)
    requires m <= |files| && ConcentrationPass(files[..m]).Err?
    ensures ConcentrationPass(files) == ConcentrationPass(files[..m])
  {
    SurvivorsOfPrefix(files, m);
    assert files[..|files|] == files;
    ParsedErrorPersists(Survivors(files), |Survivors(files[..m])|);
  }

  /** One iteration of the first loop on the plot built so far: a " 0 min"
      name is skipped, a kept name without a reading stops the pass, and any
      other name appends its entry and its legend. */
  function ConcentrationStep(front: Result<ConcentrationPlot>, f: Sample): Result<ConcentrationPlot>
  {
    match front
    case Err(e) => Err(e)
    case Ok(plot) =>
      if Contains(f.name, ZeroMin) then front
      else
        match Interpret(f.numbers)
        case None => Err(BadNumberCount(f.name, |f.numbers|))
        case Some(p) =>
          Ok(ConcentrationPlot(plot.lists.Append(Entry(p, f.ip)), plot.legend + [FirstField(f.name)], Some(p)))
  }

  /** The first pass as the loop performs it, one name at a time. */
  function ConcentrationFold(files: seq<Sample>): Result<ConcentrationPlot>
  {
    if |files| == 0 then Ok(ConcentrationPlot(NoLists, [], None))
    else
      var n := |files| - 1;
      ConcentrationStep(ConcentrationFold(files[..n]), files[n])
  }

  /** Performed name by name, the first pass gives its closed form: the
      kept names' entries, their legends and the last point, or the error of
      the first kept name without a reading. */
  lemma {:induction false} ConcentrationFoldIsPass(files: seq<Sample>)
    ensures ConcentrationFold(files) == ConcentrationPass(files)
  {
    if |files| == 0 {
      assert Columns([]) == NoLists;
      assert Legends([]) == [];
    } else {
      var n := |files| - 1;
      ConcentrationFoldIsPass(files[..n]);
      assert files[..n + 1] == files;
      var f := files[n];
      match ConcentrationPass(files[..n])
      case Err(_) =>
        ConcentrationErrorPersists(files, n);
      case Ok(plot) =>
        if Contains(f.name, ZeroMin) {
          SurvivorsStep(files, n);
        } else if Interpret(f.numbers).None? {
          ConcentrationStopsAt(files, n);
        } else {
          ConcentrationAppends(files, n, plot);
        }
    }
  }

  lemma {:induction false} ConcentrationFoldErrorPersists(files: seq<Sample>, m: nat)
    requires m <= |files| && ConcentrationFold(files[..m]).Err?
    ensures ConcentrationFold(files) == ConcentrationFold(files[..m])
    decreases |files|
  {
    if m < |files| {
      var n := |files| - 1;
      assert files[..n][..m] == files[..m];
      ConcentrationFoldErrorPersists(files[..n], m);
    } else {
      assert files[..m] == files;
    }
  }

  /** The loop of dpvAnalysis.py lines 205-243, on lists that start empty. */
  method ConcentrationLoop(files: seq<Sample>) returns (r: Result<ConcentrationPlot>)
    ensures r == ConcentrationPass(files)
  {
    var time: seq<real>, current: seq<real>, molarity: seq<real> := [], [], [];
    var legendList: seq<string> := [];
    var last: Option<Point> := None;
    var i := 0;
    while i < |files|
      invariant 0 <= i <= |files|
      invariant ConcentrationFold(files[..i]) == Ok(ConcentrationPlot(Lists(time, current, molarity), legendList, last))
    {
      var f := files[i];
      assert files[..i + 1][..i] == files[..i];
      if Contains(f.name, ZeroMin) {
      } else {
        var parsed := Interpret(f.numbers);
        if parsed.None? {
          ConcentrationFoldErrorPersists(files, i + 1);
          ConcentrationFoldIsPass(files);
          return Err(BadNumberCount(f.name, |f.numbers|));
        }
        if Contains(f.name, FreshZeroMin) {
          // the reset of lines 230-233 cannot be reached
          FreshNameHasZeroMin(f.name);
          assert false;
        }
        time, current, molarity := time + [parsed.value.timePoint], current + [f.ip], molarity + [parsed.value.concentration];
        legendList := legendList + [FirstField(f.name)];
        last := parsed;
      }
      i := i + 1;
    }
    assert files[..i] == files;
    ConcentrationFoldIsPass(files);
    r := Ok(ConcentrationPlot(Lists(time, current, molarity), legendList, last));
  }

  /** The first pass never resets: each file it keeps adds exactly one entry
      to each list, and the entries are those of the kept files in order. */
  lemma ConcentrationPassAppendsOncePerSurvivor(files: seq<Sample>)
    requires ConcentrationPass(files).Ok?
    ensures var plot := ConcentrationPass(files).value;
      var survivors := Survivors(files);
      plot.lists.Aligned() && |plot.lists.time| == |survivors| && |plot.legend| == |survivors| &&
      forall k :: 0 <= k < |survivors| ==>
        Interpret(survivors[k].numbers) == Some(Point(plot.lists.molarity[k], plot.lists.time[k])) &&
        plot.lists.current[k] == survivors[k].ip
  {
    ParsedEntriesMeaning(Survivors(files));
  }

  // ---------------------------------------------------------------------
  // Second pass: the time plot

  /** The point each file contributes in the second pass. A name with a
      reading uses it. A name without one prints a message and goes on with
      the concentration and time point still assigned from before (the
      previous file, or the first pass when it is the first file); with
      nothing assigned the print raises a NameError. */
  function EffectiveEntries(files: seq<Sample>, carried: Option<Point>): (r: Result<seq<Entry>>)
    ensures r.Ok? ==> |r.value| == |files|
  {
    if |files| == 0 then Ok([])
    else
      var n := |files| - 1;
      EffectiveStep(EffectiveEntries(files[..n], carried), files[n], carried)
  }

  /** One iteration of the second pass. */
  function EffectiveStep(front: Result<seq<Entry>>, f: Sample, carried: Option<Point>): (r: Result<seq<Entry>>)
    ensures r.Ok? ==> front.Ok? && |r.value| == |front.value| + 1
  {
    match front
    case Err(e) => Err(e)
    case Ok(es) =>
      match Interpret(f.numbers)
      case Some(p) => Ok(es + [Entry(p, f.ip)])
      case None =>
        var previous := LastPoint(es, carried);
        if previous.Some? then Ok(es + [Entry(previous.value, f.ip)])
        else Err(UndefinedPoint(f.name))
  }

  /** With a point carried in, the second pass never fails. */
  lemma {:induction false} CarriedPointNeverFails(files: seq<Sample>, carried: Option<Point>)
    requires carried.Some?
    ensures EffectiveEntries(files, carried).Ok?
  {
    if |files| > 0 {
      CarriedPointNeverFails(files[..|files| - 1], carried);
    }
  }

  /** Each file contributes its own peak current, and its own point when
      its name has a reading; otherwise the point before it (the carried
      one for the first file). */
  lemma {:induction false} EffectiveEntryAt(files: seq<Sample>, carried: Option<Point>, k: nat)
    requires EffectiveEntries(files, carried).Ok? && k < |files|
    ensures var es := EffectiveEntries(files, carried).value;
      && es[k].ip == files[k].ip
      && (Interpret(files[k].numbers).Some? ==> es[k].point == Interpret(files[k].numbers).value)
      && (Interpret(files[k].numbers).None? && k == 0 ==> carried == Some(es[k].point))
      && (Interpret(files[k].numbers).None? && k > 0 ==> es[k].point == es[k - 1].point)
  {
    var n := |files| - 1;
    var front := files[..n];
    var fs := EffectiveEntries(front, carried).value;
    var es := EffectiveEntries(files, carried).value;
    assert es[..n] == fs;
    if k < n {
      EffectiveEntryAt(front, carried, k);
      assert front[k] == files[k];
    }
  }

  /** The pass fails only when nothing was assigned before it, at a name
      without a reading that no name with a reading precedes. */
  lemma {:induction false} EffectiveEntriesFailure(files: seq<Sample>, carried: Option<Point>)
    requires EffectiveEntries(files, carried).Err?
    ensures carried.None?
    ensures exists k :: (
      && 0 <= k < |files|
      && EffectiveEntries(files, carried).error == UndefinedPoint(files[k].name)
      && forall j :: 0 <= j <= k ==> Interpret(files[j].numbers).None?)
  {
    var n := |files| - 1;
    var front := files[..n];
    var before := EffectiveEntries(front, carried);
    if before.Err? {
      EffectiveEntriesFailure(front, carried);
      var k :| 0 <= k < n && before.error == UndefinedPoint(front[k].name)
        && forall j :: 0 <= j <= k ==> Interpret(front[j].numbers).None?;
      assert forall j :: 0 <= j <= k ==> front[j] == files[j];
    } else {
      assert Interpret(files[n].numbers).None? && LastPoint(before.value, carried).None?;
      assert n == 0;
    }
  }
  /** Since the first name already has no reading and no point is assigned,
      a failing second pass fails at the very first name. */
  lemma EffectiveEntriesFailsAtFirstName(files: seq<Sample>, carried: Option<Point>)
    requires EffectiveEntries(files, carried).Err?
    ensures |files| > 0 && EffectiveEntries(files, carried).error == UndefinedPoint(files[0].name)
  {
    EffectiveEntriesFailure(files, carried);
    assert files[..0] == [];
    TimeStopsAt(files, NoLists, carried, 0, []);
  }


  lemma EffectiveEntriesAppend(files: seq<Sample>, f: Sample, carried: Option<Point>)
    ensures EffectiveEntries(files + [f], carried) == EffectiveStep(EffectiveEntries(files, carried), f, carried)
  {
    assert (files + [f])[..|files|] == files;
  }

  lemma {:induction false} EffectiveErrorPersists(files: seq<Sample>, carried: Option<Point>, m: nat)
    requires m <= |files| && EffectiveEntries(files[..m], carried).Err?
    ensures EffectiveEntries(files, carried) == EffectiveEntries(files[..m], carried)
    decreases |files|
  {
    if m < |files| {
      var n := |files| - 1;
      assert files[..n][..m] == files[..m];
      EffectiveErrorPersists(files[..n], carried, m);
    } else {
      assert files[..m] == files;
    }
  }

  /** The index of the last name containing " 0 min", or -1. */
  function LastReset(files: seq<Sample>): (r: int)
    ensures -1 <= r < |files|
    ensures r >= 0 ==> Contains(files[r].name, ZeroMin)
    ensures forall k :: r < k < |files| ==> !Contains(files[k].name, ZeroMin)
  {
    if |files| == 0 then -1
    else
      var n := |files| - 1;
      if Contains(files[n].name, ZeroMin) then n else LastReset(files[..n])
  }

  /** The lists after the second pass: the entries from the last reset on,
      or, with no reset, the starting lists followed by every entry. */
  function Arranged(files: seq<Sample>, start: Lists, es: seq<Entry>): Lists
    requires |es| == |files|
  {
    var j := LastReset(files);
    if j < 0 then Concat(start, Columns(es)) else Columns(es[j..])
  }

  datatype TimePlot = TimePlot(lists: Lists, legend: seq<string>)

  /** The second pass as a whole. `legendList` is emptied before it and
      grows with every name that does not reset the lists. */
  function TimePass(files: seq<Sample>, start: Lists, carried: Option<Point>): Result<TimePlot>
  {
    match EffectiveEntries(files, carried)
    case Err(e) => Err(e)
    case Ok(es) => Ok(TimePlot(Arranged(files, start, es), Legends(Survivors(files))))
  }

  /** A name without a reading, with nothing assigned before it, ends the
      second pass with a NameError. */
  lemma TimeStopsAt(files: seq<Sample>, start: Lists, carried: Option<Point>, i: nat, es: seq<Entry>)
    requires i < |files| && EffectiveEntries(files[..i], carried) == Ok(es)
    requires Interpret(files[i].numbers).None? && LastPoint(es, carried).None?
    ensures TimePass(files, start, carried) == Err(UndefinedPoint(files[i].name))
  {
    assert files[..i + 1] == files[..i] + [files[i]];
    EffectiveEntriesAppend(files[..i], files[i], carried);
    EffectiveErrorPersists(files, carried, i + 1);
  }

  lemma LastResetStep(files: seq<Sample>, i: nat)
    requires i < |files|
    ensures Contains(files[i].name, ZeroMin) ==> LastReset(files[..i + 1]) == i
    ensures !Contains(files[i].name, ZeroMin) ==> LastReset(files[..i + 1]) == LastReset(files[..i])
  {
    assert files[..i + 1][..i] == files[..i];
  }

  /** The lists after one more entry: a reset leaves that entry alone, any
      other name appends it. */
  lemma ArrangedStep(files: seq<Sample>, start: Lists, i: nat, es: seq<Entry>, e: Entry)
    requires i < |files| && |es| == i
    ensures Contains(files[i].name, ZeroMin) ==>
      Arranged(files[..i + 1], start, es + [e]) == Lists([e.point.timePoint], [e.ip], [e.point.concentration])
    ensures !Contains(files[i].name, ZeroMin) ==>
      Arranged(files[..i + 1], start, es + [e]) == Arranged(files[..i], start, es).Append(e)
  {
    LastResetStep(files, i);
    var es' := es + [e];
    if Contains(files[i].name, ZeroMin) {
      assert es'[i..] == [e];
    } else {
      var j := LastReset(files[..i]);
      if j >= 0 {
        assert es'[j..] == es[j..] + [e];
        ColumnsAppend(es[j..], e);
      } else {
        ColumnsAppend(es, e);
      }
    }
  }

  /** One iteration of the second pass: a name containing " 0 min" makes
      its entry the only one, any other name appends its entry and its
      legend. */
  lemma TimeAdvances(files: seq<Sample>, start: Lists, carried: Option<Point>, i: nat, es: seq<Entry>, e: Entry)
    requires i < |files| && EffectiveEntries(files[..i], carried) == Ok(es)
    requires e.ip == files[i].ip
    requires Interpret(files[i].numbers).Some? ==> e.point == Interpret(files[i].numbers).value
    requires Interpret(files[i].numbers).None? ==> LastPoint(es, carried) == Some(e.point)
    ensures EffectiveEntries(files[..i + 1], carried) == Ok(es + [e])
    ensures Contains(files[i].name, ZeroMin) ==>
      Arranged(files[..i + 1], start, es + [e]) == Lists([e.point.timePoint], [e.ip], [e.point.concentration]) &&
      Legends(Survivors(files[..i + 1])) == Legends(Survivors(files[..i]))
    ensures !Contains(files[i].name, ZeroMin) ==>
      Arranged(files[..i + 1], start, es + [e]) == Arranged(files[..i], start, es).Append(e) &&
      Legends(Survivors(files[..i + 1])) == Legends(Survivors(files[..i])) + [FirstField(files[i].name)]
  {
    assert files[..i + 1] == files[..i] + [files[i]];
    EffectiveEntriesAppend(files[..i], files[i], carried);
    SurvivorsStep(files, i);
    LegendsAppend(Survivors(files[..i]), files[i]);
    ArrangedStep(files, start, i, es, e);
  }

  /** What the second loop carries from one name to the next: the three
      lists, the legend and the point last assigned. */
  datatype TimeState = TimeState(lists: Lists, legend: seq<string>, point: Option<Point>)

  /** One iteration of the second loop: a name with a reading assigns its
      point; a name without one keeps the point assigned before, and with
      none assigned stops the pass. A " 0 min" name then makes its entry the
      only one; any other name appends its entry and its legend. */
  function TimeStep(front: Result<TimeState>, f: Sample): Result<TimeState>
  {
    match front
    case Err(e) => Err(e)
    case Ok(st) =>
      var parsed := Interpret(f.numbers);
      var point := if parsed.Some? then parsed else st.point;
      if point.None? then Err(UndefinedPoint(f.name))
      else if Contains(f.name, ZeroMin) then
        Ok(TimeState(Lists([point.value.timePoint], [f.ip], [point.value.concentration]), st.legend, point))
      else
        Ok(TimeState(st.lists.Append(Entry(point.value, f.ip)), st.legend + [FirstField(f.name)], point))
  }

  /** The second pass as the loop performs it, one name at a time. */
  function TimeFold(files: seq<Sample>, start: Lists, carried: Option<Point>): Result<TimeState>
  {
    if |files| == 0 then Ok(TimeState(start, [], carried))
    else
      var n := |files| - 1;
      TimeStep(TimeFold(files[..n], start, carried), files[n])
  }

  /** Performed name by name, the second pass gives its closed form: the
      lists arranged from the last reset, the legends of the names without
      " 0 min", and the point of the last entry; or the NameError of the
      first name that finds no point assigned. */
  lemma {:induction false} TimeFoldIsPass(files: seq<Sample>, start: Lists, carried: Option<Point>)
    ensures var folded := TimeFold(files, start, carried);
      && (folded.Err? ==> TimePass(files, start, carried) == Err(folded.error))
      && (folded.Ok? ==>
            && EffectiveEntries(files, carried).Ok?
            && folded.value.point == LastPoint(EffectiveEntries(files, carried).value, carried)
            && TimePass(files, start, carried) == Ok(TimePlot(folded.value.lists, folded.value.legend)))
  {
    if |files| > 0 {
      var n := |files| - 1;
      var f := files[n];
      TimeFoldIsPass(files[..n], start, carried);
      assert files[..n + 1] == files;
      match TimeFold(files[..n], start, carried)
      case Err(_) =>
        EffectiveErrorPersists(files, carried, n);
      case Ok(st) =>
        TimeStepAgrees(files, start, carried, st, EffectiveEntries(files[..n], carried).value);
    } else {
      assert Columns([]) == NoLists;
      assert start.time + [] == start.time && start.current + [] == start.current && start.molarity + [] == start.molarity;
    }
  }

  /** The inductive step of TimeFoldIsPass when the prefix completes. */
  lemma TimeStepAgrees(files: seq<Sample>, start: Lists, carried: Option<Point>, st: TimeState, es: seq<Entry>)
    requires |files| > 0
    requires EffectiveEntries(files[..|files| - 1], carried) == Ok(es)
    requires st.point == LastPoint(es, carried)
    requires st.lists == Arranged(files[..|files| - 1], start, es)
    requires st.legend == Legends(Survivors(files[..|files| - 1]))
    ensures var folded := TimeStep(Ok(st), files[|files| - 1]);
      && (folded.Err? ==> TimePass(files, start, carried) == Err(folded.error))
      && (folded.Ok? ==>
            && EffectiveEntries(files, carried).Ok?
            && folded.value.point == LastPoint(EffectiveEntries(files, carried).value, carried)
            && TimePass(files, start, carried) == Ok(TimePlot(folded.value.lists, folded.value.legend)))
  {
    var n := |files| - 1;
    var f := files[n];
    assert files[..n + 1] == files;
    var parsed := Interpret(f.numbers);
    var point := if parsed.Some? then parsed else st.point;
    if point.None? {
      TimeStopsAt(files, start, carried, n, es);
    } else {
      TimeAdvances(files, start, carried, n, es, Entry(point.value, f.ip));
    }
  }

  lemma {:induction false} TimeFoldErrorPersists(files: seq<Sample>, start: Lists, carried: Option<Point>, m: nat)
    requires m <= |files| && TimeFold(files[..m], start, carried).Err?
    ensures TimeFold(files, start, carried) == TimeFold(files[..m], start, carried)
    decreases |files|
  {
    if m < |files| {
      var n := |files| - 1;
      assert files[..n][..m] == files[..m];
      TimeFoldErrorPersists(files[..n], start, carried, m);
    } else {
      assert files[..m] == files;
    }
  }

  /** The loop of dpvAnalysis.py lines 258-294, on the lists `start` left by
      whatever ran before it and the point `carried` still assigned. */
  method TimeLoop(files: seq<Sample>, start: Lists, carried: Option<Point>) returns (r: Result<TimePlot>)
    ensures r == TimePass(files, start, carried)
  {
    var time, current, molarity := start.time, start.current, start.molarity;
    var legendList: seq<string> := [];
    var point := carried;
    var i := 0;
    while i < |files|
      invariant 0 <= i <= |files|
      invariant TimeFold(files[..i], start, carried) == Ok(TimeState(Lists(time, current, molarity), legendList, point))
    {
      var f := files[i];
      assert files[..i + 1][..i] == files[..i];
      var parsed := Interpret(f.numbers);
      if parsed.Some? {
        point := parsed;
      } else if point.None? {
        TimeFoldErrorPersists(files, start, carried, i + 1);
        TimeFoldIsPass(files, start, carried);
        return Err(UndefinedPoint(f.name));
      }
      if Contains(f.name, ZeroMin) {
        time, current, molarity := [point.value.timePoint], [f.ip], [point.value.concentration];
      } else {
        time, current, molarity := time + [point.value.timePoint], current + [f.ip], molarity + [point.value.concentration];
        legendList := legendList + [FirstField(f.name)];
      }
      i := i + 1;
    }
    assert files[..i] == files;
    TimeFoldIsPass(files, start, carried);
    r := Ok(TimePlot(Lists(time, current, molarity), legendList));
  }

  /** The second pass keeps the three lists of equal length. */
  lemma TimePassKeepsListsAligned(files: seq<Sample>, start: Lists, carried: Option<Point>)
    requires start.Aligned() && TimePass(files, start, carried).Ok?
    ensures TimePass(files, start, carried).value.lists.Aligned()
  {
  }

  /** After a name containing " 0 min", the lists hold exactly that file's
      entry and the entries of the files after it. */
  lemma TimePassStartsAtLastReset(files: seq<Sample>, start: Lists, carried: Option<Point>, j: nat)
    requires TimePass(files, start, carried).Ok?
    requires j < |files| && Contains(files[j].name, ZeroMin)
    requires forall k :: j < k < |files| ==> !Contains(files[k].name, ZeroMin)
    ensures var lists := TimePass(files, start, carried).value.lists;
      var es := EffectiveEntries(files, carried).value;
      |lists.time| == |files| - j && lists == Columns(es[j..])
  {
  }

  lemma {:induction false} NoMarkerNoReset(files: seq<Sample>)
    requires forall k :: 0 <= k < |files| ==> !Contains(files[k].name, ZeroMin)
    ensures LastReset(files) == -1
  {
    if |files| > 0 {
      NoMarkerNoReset(files[..|files| - 1]);
    }
  }

  /** Without any " 0 min" name the second pass continues the starting
      lists, adding one entry per file. */
  lemma TimePassContinuesStart(files: seq<Sample>, start: Lists, carried: Option<Point>)
    requires TimePass(files, start, carried).Ok?
    requires forall k :: 0 <= k < |files| ==> !Contains(files[k].name, ZeroMin)
    ensures var lists := TimePass(files, start, carried).value.lists;
      var es := EffectiveEntries(files, carried).value;
      lists == Concat(start, Columns(es)) && |lists.time| == |start.time| + |files|
  {
    NoMarkerNoReset(files);
  }

  // ---------------------------------------------------------------------
  // The two passes in sequence

  /** The script as written: the second pass starts from the lists and the
      point left by the first. */
  function TimeSeriesAsWritten(files: seq<Sample>): (r: Result<TimePlot>)
    ensures ConcentrationPass(files).Err? ==> r == Err(ConcentrationPass(files).error)
    ensures r.Ok? ==> |r.value.lists.time| <= |Survivors(files)| + |files|
    ensures r.Ok? ==> |r.value.legend| == |Survivors(files)|
  {
    match ConcentrationPass(files)
    case Err(e) => Err(e)
    case Ok(plot) => TimePass(files, plot.lists, plot.last)
  }

  /** The time plot as evidently intended: the three lists are emptied
      before the second pass, as `legendList` is. */
  function TimeSeries(files: seq<Sample>): (r: Result<TimePlot>)
    ensures ConcentrationPass(files).Err? ==> r == Err(ConcentrationPass(files).error)
    ensures r.Ok? ==> r.value.lists.Aligned() && |r.value.lists.time| <= |files|
    ensures r.Ok? ==> |r.value.legend| == |Survivors(files)|
  {
    match ConcentrationPass(files)
    case Err(e) => Err(e)
    case Ok(plot) => TimePass(files, NoLists, plot.last)
  }

  lemma {:induction false} NoMarkerKeepsAll(files: seq<Sample>)
    requires forall k :: 0 <= k < |files| ==> !Contains(files[k].name, ZeroMin)
    ensures Survivors(files) == files
  {
    if |files| > 0 {
      var n := |files| - 1;
      NoMarkerKeepsAll(files[..n]);
      assert files[..n] + [files[n]] == files;
    }
  }

  /** When every name has a reading, the second pass sees the same entries
      as the first. */
  lemma {:induction false} EffectiveIsParsed(files: seq<Sample>, carried: Option<Point>)
    requires ParsedEntries(files).Ok?
    ensures EffectiveEntries(files, carried) == ParsedEntries(files)
  {
    if |files| > 0 {
      var n := |files| - 1;
      EffectiveIsParsed(files[..n], carried);
    }
  }

  /** As written, a batch without any " 0 min" name puts every file into the
      time plot twice: once left over from the first pass and once from the
      second. */
  lemma AsWrittenRepeatsEveryFile(files: seq<Sample>)
    requires forall k :: 0 <= k < |files| ==> !Contains(files[k].name, ZeroMin)
    requires ConcentrationPass(files).Ok?
    ensures TimeSeriesAsWritten(files).Ok?
    ensures var first := ConcentrationPass(files).value.lists;
      var lists := TimeSeriesAsWritten(files).value.lists;
      lists == Concat(first, first) && |lists.time| == 2 * |files|
  {
    NoMarkerKeepsAll(files);
    var plot := ConcentrationPass(files).value;
    var es := ParsedEntries(files).value;
    assert plot.lists == Columns(es);
    EffectiveIsParsed(files, plot.last);
    TimePassContinuesStart(files, plot.lists, plot.last);
    assert TimeSeriesAsWritten(files) == TimePass(files, plot.lists, plot.last);
  }

  /** A concrete case: one file "T5" whose name holds the number 5 and whose
      peak current is 2. */
  lemma AsWrittenSingleFileExample()
    ensures TimeSeriesAsWritten([Sample("T5", [5.0], 2.0)]).Ok?
    ensures TimeSeriesAsWritten([Sample("T5", [5.0], 2.0)]).value.lists.time == [5.0, 5.0]
  {
    var files := [Sample("T5", [5.0], 2.0)];
    assert !Contains(files[0].name, ZeroMin);
    assert Interpret(files[0].numbers) == Some(Point(0.0, 5.0));
    assert Survivors(files) == files by { NoMarkerKeepsAll(files); }
    AsWrittenRepeatsEveryFile(files);
    assert ConcentrationPass(files).value.lists.time == [5.0];
  }

  // Continuing empty lists gives the lists appended.
  lemma ConcatOntoNoLists(l: Lists)
    ensures Concat(NoLists, l) == l
  {
    assert [] + l.time == l.time && [] + l.current == l.current && [] + l.molarity == l.molarity;
  }

  /** As intended, a batch without any " 0 min" name puts every file into
      the time plot exactly once, in order. */
  lemma TimeSeriesHasEveryFileOnce(files: seq<Sample>)
    requires forall k :: 0 <= k < |files| ==> !Contains(files[k].name, ZeroMin)
    requires ConcentrationPass(files).Ok?
    ensures TimeSeries(files).Ok?
    ensures TimeSeries(files).value.lists == ConcentrationPass(files).value.lists
  {
    var plot := ConcentrationPass(files).value;
    NoMarkerKeepsAll(files);
    var es := ParsedEntries(files).value;
    assert plot.lists == Columns(es);
    EffectiveIsParsed(files, plot.last);
    assert TimeSeries(files) == TimePass(files, NoLists, plot.last);
    assert TimePass(files, NoLists, plot.last) == Ok(TimePlot(Arranged(files, NoLists, es), Legends(files)));
    TimePassContinuesStart(files, NoLists, plot.last);
    ConcatOntoNoLists(Columns(es));
  }
}
