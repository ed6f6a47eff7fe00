/**
 * The values the queue display computes: per-file durations and their
 * total, the quick-files hint, the processing estimate, and which of the
 * three screens the entry point shows. Printing is not modelled; every
 * computed figure is a field of the report instead.
 */
module QueueStatus {
  import opened Wrappers
  import opened Size
  import opened Duration
  import opened Estimate
  import opened QueueFiles

  /** A recording under this many milliseconds counts as quick. */
  const QuickLimitMs: nat := 60000

  /** Above this many files the queue counts as large. */
  const LargeQueueFiles: nat := 10

  /** The duration `probe` reports for each file, in file order. */
  function Durations(files: seq<QueueFile>, probe: QueueFile -> Option<nat>): (ds: seq<Option<nat>>)
    ensures |ds| == |files|
    ensures forall i :: 0 <= i < |files| ==> ds[i] == probe(files[i])
  {
    seq(|files|, i requires 0 <= i < |files| => probe(files[i]))
  }

  predicate AllKnown(ds: seq<Option<nat>>) {
    forall i :: 0 <= i < |ds| ==> ds[i].Some?
  }

  /** The sum of the known durations; unknown ones add nothing. */
  function SumKnown(ds: seq<Option<nat>>): (total: nat) {
    if ds == [] then 0
    else SumKnown(ds[..|ds| - 1]) + (match ds[|ds| - 1] case Some(d) => d case None => 0)
  }

  /** The number of known durations under a minute: the generator expression of the quick-files check. */
  function QuickCount(ds: seq<Option<nat>>): (count: nat)
    ensures count <= |ds|
  {
    if ds == [] then 0
    else QuickCount(ds[..|ds| - 1]) + (if ds[|ds| - 1].Some? && ds[|ds| - 1].value < QuickLimitMs then 1 else 0)
  }

  /** The sum of the sizes of the files, in bytes. */
  function TotalSize(files: seq<QueueFile>): (total: nat)
    ensures forall i :: 0 <= i < |files| ==> files[i].size <= total
  {
    if files == [] then 0 else TotalSize(files[..|files| - 1]) + files[|files| - 1].size
  }

  /**
   * The loop that probes every file once, in order, keeping each result,
   * adding up the known durations and noting whether any was unknown.
   */
  method AggregateDurations(files: seq<QueueFile>, probe: QueueFile -> Option<nat>)
    returns (fileDurations: seq<Option<nat>>, totalMs: nat, available: bool)
    ensures |fileDurations| == |files|
    ensures forall i :: 0 <= i < |files| ==> fileDurations[i] == probe(files[i])
    ensures totalMs == SumKnown(fileDurations)
    ensures available <==> forall i :: 0 <= i < |files| ==> probe(files[i]).Some?
  {
    totalMs := 0;
    available := true;
    fileDurations := [];
    for i := 0 to |files|
      invariant |fileDurations| == i
      invariant forall j :: 0 <= j < i ==> fileDurations[j] == probe(files[j])
      invariant totalMs == SumKnown(fileDurations)
      invariant available <==> forall j :: 0 <= j < i ==> probe(files[j]).Some?
    {
      var durationMs := probe(files[i]);
      fileDurations := fileDurations + [durationMs];
      assert fileDurations[..i] == fileDurations[..|fileDurations| - 1];
      if durationMs.Some? {
        totalMs := totalMs + durationMs.value;
      } else {
        available := false;
      }
    }
  }

  /** Known durations add up to zero exactly when each of them is zero. */
  lemma {:induction false} SumKnownZero(ds: seq<Option<nat>>)
    requires AllKnown(ds)
    ensures SumKnown(ds) == 0 <==> forall i :: 0 <= i < |ds| ==> ds[i] == Some(0)
  {
    if ds != [] {
      var init := ds[..|ds| - 1];
      SumKnownZero(init);
      assert forall i :: 0 <= i < |init| ==> init[i] == ds[i];
    }
  }

  /** The quick count reaches the number of files exactly when every duration is known and under a minute. */
  lemma {:induction false} QuickCountAll(ds: seq<Option<nat>>)
    ensures QuickCount(ds) == |ds| <==>
      forall i :: 0 <= i < |ds| ==> ds[i].Some? && ds[i].value < QuickLimitMs
  {
    if ds != [] {
      var init := ds[..|ds| - 1];
      QuickCountAll(init);
      assert forall i :: 0 <= i < |init| ==> init[i] == ds[i];
    }
  }

  /** The total-duration line: an approximate duration, "0 seconds", or unavailable. */
  datatype TotalDuration = Approx(parts: DurationText) | ZeroSeconds | Unavailable

  /** One line of the file list: 1-based position, name, size, and duration when known. */
  datatype FileLine = FileLine(position: nat, name: string, size: SizeText, duration: Option<DurationText>)

  /** Everything the status screen shows, field by field. */
  datatype StatusReport = StatusReport(
    fileCount: nat,
    totalSize: SizeText,
    totalDuration: TotalDuration,
    lines: seq<FileLine>,
    estimate: Option<Estimate>,
    largeQueue: bool,
    quickFiles: bool)

  /** The line shown for the file at `position` with the duration the probe gave it. */
  function FileLineOf(position: nat, f: QueueFile, d: Option<nat>): (line: FileLine) {
    FileLine(position, f.name, SizeTextOf(f.size),
             match d case Some(ms) => Some(DurationParts(ms)) case None => None)
  }

  /**
   * What the status screen shows for `files`: the count and total size, the
   * total duration, one line per file in order, the processing estimate
   * (only when every duration is known and the total is positive), the
   * large-queue note and the quick-files hint (only when every file is
   * known to last under a minute).
   */
  predicate ReportsOn(report: StatusReport, files: seq<QueueFile>, probe: QueueFile -> Option<nat>) {
    var ds := Durations(files, probe);
    && report.fileCount == |files|
    && report.totalSize == SizeTextOf(TotalSize(files))
    && (report.totalDuration.Unavailable? <==> exists i :: 0 <= i < |files| && probe(files[i]).None?)
    && (report.totalDuration.ZeroSeconds? <==> forall i :: 0 <= i < |files| ==> probe(files[i]) == Some(0))
    && (report.totalDuration.Approx? ==> report.totalDuration.parts == DurationParts(SumKnown(ds)))
    && |report.lines| == |files|
    && (forall i :: 0 <= i < |files| ==> report.lines[i] == FileLineOf(i + 1, files[i], probe(files[i])))
    && (report.estimate.Some? <==> report.totalDuration.Approx?)
    && (report.estimate.Some? <==> AllKnown(ds) && SumKnown(ds) > 0)
    && (report.estimate.Some? ==> report.estimate.value == EstimateProcessingTime(SumKnown(ds)))
    && (report.largeQueue <==> |files| > LargeQueueFiles)
    && (report.quickFiles <==>
          |files| > 0 && forall i :: 0 <= i < |files| ==> probe(files[i]).Some? && probe(files[i]).value < QuickLimitMs)
  }

  /** `display_queue_status` without the printing: the report it shows for `files`. */
  method DisplayQueueStatus(files: seq<QueueFile>, probe: QueueFile -> Option<nat>)
    returns (report: StatusReport)
    ensures ReportsOn(report, files, probe)
  {
    var fileCount := |files|;
    var totalSize := FormatSize(TotalSize(files));

    var fileDurations, totalMs, available := AggregateDurations(files, probe);
    assert fileDurations == Durations(files, probe);
    if available {
      SumKnownZero(fileDurations);
    }
    var totalDuration :=
      if available && totalMs > 0 then Approx(DurationParts(totalMs))
      else if available then ZeroSeconds
      else Unavailable;

    var lines := FileLines(files, fileDurations);

    var estimate := if available && totalMs > 0 then Some(EstimateProcessingTime(totalMs)) else None;

    var quickFiles := false;
    if fileCount > 0 {
      var quick := QuickCount(fileDurations);
      QuickCountAll(fileDurations);
      quickFiles := quick == fileCount && fileCount > 0;
    }

    report := StatusReport(fileCount, totalSize, totalDuration, lines, estimate,
                           fileCount > LargeQueueFiles, quickFiles);
    assert available <==> AllKnown(fileDurations);
    assert report.estimate.Some? <==> AllKnown(fileDurations) && SumKnown(fileDurations) > 0;
    assert report.totalDuration.ZeroSeconds? <==>
      forall i :: 0 <= i < |files| ==> probe(files[i]) == Some(0);
  }

  /** The file list, lines 1 to n: each file's name, size and duration when known, in order. */
  method FileLines(files: seq<QueueFile>, fileDurations: seq<Option<nat>>) returns (lines: seq<FileLine>)
    requires |fileDurations| == |files|
    ensures |lines| == |files|
    ensures forall j :: 0 <= j < |files| ==> lines[j] == FileLineOf(j + 1, files[j], fileDurations[j])
  {
    lines := [];
    for i := 0 to |files|
      invariant |lines| == i
      invariant forall j :: 0 <= j < i ==> lines[j] == FileLineOf(j + 1, files[j], fileDurations[j])
    {
      var size := FormatSize(files[i].size);
      var duration := match fileDurations[i] case Some(ms) => Some(DurationParts(ms)) case None => None;
      lines := lines + [FileLine(i + 1, files[i].name, size, duration)];
    }
  }

  /** The three screens the entry point can show. */
  datatype Screen = CreatedQueue | EmptyQueue | Status(report: StatusReport)

  /**
   * `main` without the printing: an absent queue directory is created and
   * shown empty; a directory without supported files is shown empty;
   * otherwise the status screen is the full report on the files the search
   * found, every supported file, newest first. `shown` names those files.
   */
  method ShowQueue(dir: Directory, probe: QueueFile -> Option<nat>) returns (screen: Screen, ghost shown: seq<QueueFile>)
    ensures dir.Missing? <==> screen.CreatedQueue?
    ensures screen.EmptyQueue? <==>
      dir.Present? && forall f :: f in dir.listing ==> f.ext !in SupportedFormats
    ensures screen.Status? ==>
      && multiset(shown) == multiset(Matching(dir.listing, SupportedFormats))
      && NewestFirst(shown)
      && ReportsOn(screen.report, shown, probe)
  {
    if dir.Missing? {
      return CreatedQueue, [];
    }
    var files := FindQueueFiles(dir);
    MatchingEmpty(dir.listing, SupportedFormats);
    assert |files| == |multiset(files)| == |Matching(dir.listing, SupportedFormats)|;
    if files == [] {
      return EmptyQueue, files;
    }
    var report := DisplayQueueStatus(files, probe);
    return Status(report), files;
  }
}
