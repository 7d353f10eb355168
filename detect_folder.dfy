/** The batch scan of detect_folder.py's main(): select the images of one
    camera in a folder, sort them by name, run detection on each in turn
    and print one line per detection, naming its label, its score and the
    image. The folder listing, the interpreter's outputs for each image and
    the lines of the labels file are parameters. */
module DetectFolder {
  import opened Wrappers
  import opened Labels
  import opened Detect

  // ---------------------------------------------------------------------
  // Selecting the images: glob("<camera>*.jpg"), then sorted()
  // ---------------------------------------------------------------------

  /** `name` matches the pattern <camera>*.jpg: it starts with the camera
      name and ends in ".jpg", with any (possibly empty) text between. */
  predicate MatchesPattern(camera: string, name: string) {
    && |camera| + 4 <= |name|
    && name[..|camera|] == camera
    && name[|name| - 4..] == ".jpg"
  }

  /** The star may match nothing; the extension is compared as written. */
  lemma ExamplePatterns()
    ensures MatchesPattern("frontdoor", "frontdoor.jpg")
    ensures MatchesPattern("frontdoor", "frontdoor_0412.jpg")
    ensures !MatchesPattern("frontdoor", "frontdoor_0412.JPG")
    ensures !MatchesPattern("frontdoor", "backyard_0412.jpg")
  {
    assert "frontdoor.jpg"[..9] == "frontdoor";
    assert "frontdoor_0412.jpg"[..9] == "frontdoor";
    assert "frontdoor_0412.JPG"[14..] != ".jpg" by {
      assert "frontdoor_0412.JPG"[14..][1] == 'J';
    }
    assert "backyard_0412.jpg"[..9] != "frontdoor" by {
      assert "backyard_0412.jpg"[..9][0] == 'b';
    }
  }

  /** The entries of the listing that match the pattern, with their multiplicities. */
  function Matching(camera: string, listing: seq<string>): (r: seq<string>)
    ensures forall x :: x in r <==> x in listing && MatchesPattern(camera, x)
    ensures forall x :: multiset(r)[x] == if MatchesPattern(camera, x) then multiset(listing)[x] else 0
  {
    if listing == [] then []
    else
      assert listing == [listing[0]] + listing[1..];
      var rest := Matching(camera, listing[1..]);
      if MatchesPattern(camera, listing[0]) then [listing[0]] + rest else rest
  }

  /** Python's `<` on str: lexicographic order by code point, a proper
      prefix coming first. Paths from one folder compare as their names do. */
  predicate Below(a: string, b: string) {
    if a == [] then b != []
    else b != [] && (a[0] < b[0] || (a[0] == b[0] && Below(a[1..], b[1..])))
  }

  /** Python's `<=` on str. */
  predicate NotAbove(a: string, b: string) {
    a == b || Below(a, b)
  }

  /** Names are ordered character by character, not by the numbers in them. */
  lemma ExampleNameOrder()
    ensures Below("frontdoor10.jpg", "frontdoor2.jpg")
    ensures Below("frontdoor", "frontdoor.jpg")
  {
    assert Below("10.jpg", "2.jpg");
    assert "frontdoor" + "10.jpg" == "frontdoor10.jpg";
    assert "frontdoor" + "2.jpg" == "frontdoor2.jpg";
    assert "frontdoor" + ".jpg" == "frontdoor.jpg";
    CommonPrefixBelow("frontdoor", "10.jpg", "2.jpg");
    PrefixBelow("frontdoor", ".jpg");
  }

  /** A shared prefix does not change the order. */
  lemma {:induction false} CommonPrefixBelow(p: string, a: string, b: string)
    requires Below(a, b)
    ensures Below(p + a, p + b)
  {
    if p == [] {
      assert p + a == a && p + b == b;
    } else {
      assert (p + a)[0] == p[0] == (p + b)[0];
      assert (p + a)[1..] == p[1..] + a && (p + b)[1..] == p[1..] + b;
      CommonPrefixBelow(p[1..], a, b);
    }
  }

  /** A proper prefix comes first. */
  lemma {:induction false} PrefixBelow(a: string, rest: string)
    requires rest != []
    ensures Below(a, a + rest)
  {
    if a != [] {
      assert (a + rest)[1..] == a[1..] + rest;
      PrefixBelow(a[1..], rest);
    }
  }

  predicate Sorted(s: seq<string>) {
    forall i, j :: 0 <= i < j < |s| ==> NotAbove(s[i], s[j])
  }

  lemma {:induction false} BelowIrreflexive(a: string)
    ensures !Below(a, a)
  {
    if a != [] {
      BelowIrreflexive(a[1..]);
    }
  }

  lemma {:induction false} BelowTransitive(a: string, b: string, c: string)
    requires Below(a, b) && Below(b, c)
    ensures Below(a, c)
  {
    if a != [] && a[0] == b[0] && b[0] == c[0] {
      BelowTransitive(a[1..], b[1..], c[1..]);
    }
  }

  /** Any two strings are comparable, so sorting is well defined. */
  lemma {:induction false} BelowTotal(a: string, b: string)
    ensures a == b || Below(a, b) || Below(b, a)
  {
    if a != [] && b != [] && a[0] == b[0] {
      BelowTotal(a[1..], b[1..]);
      assert a == [a[0]] + a[1..] && b == [b[0]] + b[1..];
    }
  }

  lemma BelowAsymmetric(a: string, b: string)
    requires Below(a, b)
    ensures !Below(b, a)
  {
    if Below(b, a) {
      BelowTransitive(a, b, a);
      BelowIrreflexive(a);
    }
  }

  lemma NotAboveAntisymmetric(a: string, b: string)
    requires NotAbove(a, b) && NotAbove(b, a)
    ensures a == b
  {
    if a != b {
      BelowAsymmetric(a, b);
    }
  }

  /** The first element of a sorted sequence is at or below all of it. */
  lemma SortedHead(s: seq<string>, y: string)
    requires Sorted(s) && y in s
    ensures NotAbove(s[0], y)
  {
    var k :| 0 <= k < |s| && s[k] == y;
    if k > 0 {
      assert NotAbove(s[0], s[k]);
    }
  }

  lemma SortedTail(s: seq<string>)
    requires Sorted(s) && s != []
    ensures Sorted(s[1..])
  {
    forall i, j | 0 <= i < j < |s| - 1 ensures NotAbove(s[1..][i], s[1..][j]) {
      assert s[1..][i] == s[i + 1] && s[1..][j] == s[j + 1];
    }
  }

  /** Insert x into a sequence before the first element not below it. */
  function Insert(x: string, s: seq<string>): (r: seq<string>)
    ensures multiset(r) == multiset(s) + multiset{x}
    ensures forall y :: y in r <==> y == x || y in s
  {
    if s == [] then [x]
    else if NotAbove(x, s[0]) then
      assert s == [s[0]] + s[1..];
      [x] + s
    else
      assert s == [s[0]] + s[1..];
      [s[0]] + Insert(x, s[1..])
  }

  /** Inserting into a sorted sequence keeps it sorted. */
  lemma {:induction false} InsertSorted(x: string, s: seq<string>)
    requires Sorted(s)
    ensures Sorted(Insert(x, s))
  {
    if s == [] {
    } else if NotAbove(x, s[0]) {
      forall j | 0 <= j < |s| ensures NotAbove(x, s[j]) {
        SortedHead(s, s[j]);
        if x != s[0] && s[0] != s[j] {
          BelowTransitive(x, s[0], s[j]);
        }
      }
    } else {
      BelowTotal(x, s[0]);
      var tail := Insert(x, s[1..]);
      InsertSorted(x, s[1..]);
      forall j | 0 <= j < |tail| ensures NotAbove(s[0], tail[j]) {
        if tail[j] != x {
          assert tail[j] in s[1..];
          assert tail[j] in s;
          SortedHead(s, tail[j]);
        }
      }
      assert Insert(x, s) == [s[0]] + tail;
    }
  }

  /** Insertion sort under Python's string order. */
  function Sort(s: seq<string>): (r: seq<string>)
    ensures Sorted(r)
    ensures multiset(r) == multiset(s)
  {
    if s == [] then []
    else
      assert s == [s[0]] + s[1..];
      var sorted := Sort(s[1..]);
      InsertSorted(s[0], sorted);
      Insert(s[0], sorted)
  }

  /** There is only one sorted arrangement of a multiset of strings, so
      Sort agrees with any other sort, Python's sorted() included. */
  lemma {:induction false} SortedUnique(a: seq<string>, b: seq<string>)
    requires Sorted(a) && Sorted(b) && multiset(a) == multiset(b)
    ensures a == b
  {
    if a == [] {
      assert |b| == |multiset(b)|;
    } else {
      assert a[0] in multiset(b);
      assert b != [];
      assert b[0] in multiset(a);
      SortedHead(a, b[0]);
      SortedHead(b, a[0]);
      NotAboveAntisymmetric(a[0], b[0]);
      assert a == [a[0]] + a[1..] && b == [b[0]] + b[1..];
      assert multiset(a[1..]) == multiset(a) - multiset{a[0]};
      assert multiset(b[1..]) == multiset(b) - multiset{b[0]};
      SortedTail(a);
      SortedTail(b);
      SortedUnique(a[1..], b[1..]);
    }
  }

  /** sorted(images.glob("<camera>*.jpg")): exactly the matching entries of
      the listing, each as often as listed, in Python's string order. */
  function SelectImages(listing: seq<string>, camera: string): (files: seq<string>)
    ensures forall x :: x in files <==> x in listing && MatchesPattern(camera, x)
    ensures forall x :: multiset(files)[x] == if MatchesPattern(camera, x) then multiset(listing)[x] else 0
    ensures Sorted(files)
  {
    var matching := Matching(camera, listing);
    var files := Sort(matching);
    assert forall x :: x in files <==> x in multiset(files);
    assert forall x :: x in matching <==> x in multiset(matching);
    files
  }

  // ---------------------------------------------------------------------
  // Reporting: one printed line per detection
  // ---------------------------------------------------------------------

  /** A line on standard output. */
  datatype Line =
    | FilePathInvalid
    | Found(labelName: string, score: real, fileName: string)

  /** Why a scan stopped before its last image. */
  datatype Failure =
    | DetectFailed(fileName: string, error: DetectError)
    | MissingLabel(fileName: string, classId: real)

  datatype Status = NoImages | Completed | Crashed(failure: Failure)

  /** What a scan prints, and how it ends. */
  datatype Run = Run(lines: seq<Line>, status: Status)

  /** labels[class_id] with the class id a float: it finds the integer key
      equal to the id, and nothing for a fractional or negative id. */
  function LabelFor(labels: map<nat, string>, classId: real): (r: Option<string>)
    ensures forall k :: k in labels && k as real == classId ==> r == Some(labels[k])
    ensures r.Some? ==> exists k :: k in labels && k as real == classId && r.value == labels[k]
  {
    var k := classId.Floor;
    if 0 <= k && k as real == classId && k as nat in labels then Some(labels[k as nat]) else None
  }

  /** The lines printed for the first m results of one image. */
  function Report<B>(labels: map<nat, string>, fileName: string, results: seq<Detection<B, real>>, m: nat): (r: Run)
    requires m <= |results|
    ensures !r.status.NoImages?
    ensures |r.lines| <= m
    ensures r.status.Completed? ==> |r.lines| == m
  {
    if m == 0 then Run([], Completed)
    else
      var prev := Report(labels, fileName, results, m - 1);
      if !prev.status.Completed? then prev
      else
        match LabelFor(labels, results[m - 1].classId)
        case None => Run(prev.lines, Crashed(MissingLabel(fileName, results[m - 1].classId)))
        case Some(name) => Run(prev.lines + [Found(name, results[m - 1].score, fileName)], Completed)
  }

  /** The lines printed for the first n sorted images. */
  function ScanUpTo<B>(labels: map<nat, string>, files: seq<string>, outputsOf: string -> Outputs<B, real>,
                       threshold: real, n: nat): (r: Run)
    requires n <= |files|
    ensures !r.status.NoImages?
  {
    if n == 0 then Run([], Completed)
    else
      var prev := ScanUpTo(labels, files, outputsOf, threshold, n - 1);
      if !prev.status.Completed? then prev
      else
        match Extract(outputsOf(files[n - 1]), threshold)
        case Err(e) => Run(prev.lines, Crashed(DetectFailed(files[n - 1], e)))
        case Ok(results) =>
          var report := Report(labels, files[n - 1], results, |results|);
          Run(prev.lines + report.lines, report.status)
  }

  /** What main() prints for a labels file, a folder listing, a camera name,
      the interpreter's outputs for each image and a threshold. */
  function Scan<B>(labelLines: seq<string>, listing: seq<string>, camera: string,
                   outputsOf: string -> Outputs<B, real>, threshold: real): Run
  {
    var files := SelectImages(listing, camera);
    if files == [] then Run([FilePathInvalid], NoImages)
    else ScanUpTo(LabelsOf(labelLines), files, outputsOf, threshold, |files|)
  }

  /** The loop printing one line per result of one image; it stops at the
      first class id the labels do not name. */
  method PrintResults<B>(labels: map<nat, string>, imagePath: string, found: seq<Detection<B, real>>)
    returns (printed: seq<Line>, status: Status)
    ensures Run(printed, status) == Report(labels, imagePath, found, |found|)
  {
    printed := [];
    for d := 0 to |found|
      invariant Report(labels, imagePath, found, d) == Run(printed, Completed)
    {
      var labelName := LabelFor(labels, found[d].classId);
      if labelName.None? {
        status := Crashed(MissingLabel(imagePath, found[d].classId));
        ReportCrashPersists(labels, imagePath, found, d + 1, |found|);
        return;
      }
      printed := printed + [Found(labelName.value, found[d].score, imagePath)];
    }
    status := Completed;
  }

  /** The loop over the sorted images: detect, then print each result. */
  method ScanImages<B>(labels: map<nat, string>, imagePaths: seq<string>,
                       outputsOf: string -> Outputs<B, real>, threshold: real) returns (run: Run)
    ensures run == ScanUpTo(labels, imagePaths, outputsOf, threshold, |imagePaths|)
  {
    var lines := [];
    for f := 0 to |imagePaths|
      invariant ScanUpTo(labels, imagePaths, outputsOf, threshold, f) == Run(lines, Completed)
    {
      var imagePath := imagePaths[f];
      var results := DetectObjects(outputsOf(imagePath), threshold);
      if results.Err? {
        run := Run(lines, Crashed(DetectFailed(imagePath, results.error)));
        ScanCrashPersists(labels, imagePaths, outputsOf, threshold, f + 1, |imagePaths|);
        return;
      }
      var printed, status := PrintResults(labels, imagePath, results.value);
      ScanStep(labels, imagePaths, outputsOf, threshold, f, lines, results.value);
      lines := lines + printed;
      if !status.Completed? {
        run := Run(lines, status);
        ScanCrashPersists(labels, imagePaths, outputsOf, threshold, f + 1, |imagePaths|);
        return;
      }
    }
    run := Run(lines, Completed);
  }

  /** main() from loading the labels on. */
  method ScanFolder<B>(labelLines: seq<string>, listing: seq<string>, camera: string,
                       outputsOf: string -> Outputs<B, real>, threshold: real) returns (run: Run)
    ensures run == Scan(labelLines, listing, camera, outputsOf, threshold)
  {
    var labels := LoadLabels(labelLines);
    var imagePaths := SelectImages(listing, camera);
    if |imagePaths| == 0 {
      return Run([FilePathInvalid], NoImages);
    }
    run := ScanImages(labels, imagePaths, outputsOf, threshold);
  }

  /** One more image after a run that has not crashed. */
  lemma ScanStep<B>(labels: map<nat, string>, files: seq<string>, outputsOf: string -> Outputs<B, real>,
                    threshold: real, f: nat, lines: seq<Line>, results: seq<Detection<B, real>>)
    requires f < |files| && ScanUpTo(labels, files, outputsOf, threshold, f) == Run(lines, Completed)
    requires Extract(outputsOf(files[f]), threshold) == Ok(results)
    ensures var report := Report(labels, files[f], results, |results|);
      ScanUpTo(labels, files, outputsOf, threshold, f + 1) == Run(lines + report.lines, report.status)
  {
  }

  lemma {:induction false} ReportCrashPersists<B>(labels: map<nat, string>, fileName: string,
                                                  results: seq<Detection<B, real>>, m: nat, m': nat)
    requires m <= m' <= |results| && Report(labels, fileName, results, m).status.Crashed?
    ensures Report(labels, fileName, results, m') == Report(labels, fileName, results, m)
    decreases m' - m
  {
    if m < m' {
      ReportCrashPersists(labels, fileName, results, m, m' - 1);
    }
  }

  /** Once a crash happens, no later image is processed. */
  lemma {:induction false} ScanCrashPersists<B>(labels: map<nat, string>, files: seq<string>,
                                                outputsOf: string -> Outputs<B, real>, threshold: real, n: nat, n': nat)
    requires n <= n' <= |files| && ScanUpTo(labels, files, outputsOf, threshold, n).status.Crashed?
    ensures ScanUpTo(labels, files, outputsOf, threshold, n') == ScanUpTo(labels, files, outputsOf, threshold, n)
    decreases n' - n
  {
    if n < n' {
      ScanCrashPersists(labels, files, outputsOf, threshold, n, n' - 1);
    }
  }

  // ---------------------------------------------------------------------
  // What the scan prints
  // ---------------------------------------------------------------------

  /** Line i printed for an image is a Found line for that image with the
      score of result i. */
  predicate LinesOfImage<B>(lines: seq<Line>, fileName: string, results: seq<Detection<B, real>>) {
    && |lines| <= |results|
    && forall i :: 0 <= i < |lines| ==>
         lines[i].Found? && lines[i].fileName == fileName && lines[i].score == results[i].score
  }

  /** The lines printed for an image report its results in order. */
  lemma {:induction false} ReportLines<B>(labels: map<nat, string>, fileName: string,
                                          results: seq<Detection<B, real>>, m: nat)
    requires m <= |results|
    ensures LinesOfImage(Report(labels, fileName, results, m).lines, fileName, results)
  {
    if m > 0 {
      ReportLines(labels, fileName, results, m - 1);
    }
  }

  /** Line i names the label whose key equals the class id of result i. */
  predicate LabelledBy<B>(lines: seq<Line>, labels: map<nat, string>, results: seq<Detection<B, real>>) {
    forall i :: 0 <= i < |lines| && i < |results| ==>
      && lines[i].Found?
      && exists k :: k in labels && k as real == results[i].classId && lines[i].labelName == labels[k]
  }

  /** Each line printed for an image names the label of its result. */
  lemma {:induction false} ReportLabels<B>(labels: map<nat, string>, fileName: string,
                                           results: seq<Detection<B, real>>, m: nat)
    requires m <= |results|
    ensures LabelledBy(Report(labels, fileName, results, m).lines, labels, results)
  {
    if m > 0 {
      ReportLabels(labels, fileName, results, m - 1);
      var prev := Report(labels, fileName, results, m - 1);
      var r := Report(labels, fileName, results, m);
      if prev.status.Completed? && LabelFor(labels, results[m - 1].classId).Some? {
        assert r.lines == prev.lines + [Found(LabelFor(labels, results[m - 1].classId).value, results[m - 1].score, fileName)];
        forall i | 0 <= i < |r.lines|
          ensures r.lines[i].Found?
          ensures exists k :: k in labels && k as real == results[i].classId && r.lines[i].labelName == labels[k]
        {
          if i < |prev.lines| {
            assert r.lines[i] == prev.lines[i];
          }
        }
      }
    }
  }

  /** Printing stops at the first result whose class id no key equals, and
      nothing is printed for that result. */
  lemma {:induction false} ReportCrash<B>(labels: map<nat, string>, fileName: string,
                                          results: seq<Detection<B, real>>, m: nat)
    requires m <= |results| && Report(labels, fileName, results, m).status.Crashed?
    ensures var c := |Report(labels, fileName, results, m).lines|;
      && c < m
      && Report(labels, fileName, results, m).status.failure == MissingLabel(fileName, results[c].classId)
      && forall k :: k in labels ==> k as real != results[c].classId
  {
    if Report(labels, fileName, results, m - 1).status.Crashed? {
      ReportCrash(labels, fileName, results, m - 1);
    }
  }

  /** Every line reports a detection at or above the threshold in one of
      the first n images. */
  predicate FromImages(lines: seq<Line>, threshold: real, files: seq<string>, n: nat)
    requires n <= |files|
  {
    forall i :: 0 <= i < |lines| ==>
      && lines[i].Found? && lines[i].score >= threshold
      && exists j :: 0 <= j < n && lines[i].fileName == files[j]
  }

  /** Appending the lines of image n - 1 keeps every line reporting a
      detection of the first n images. */
  lemma FromImagesAppend<B>(prev: seq<Line>, report: seq<Line>, threshold: real, files: seq<string>, n: nat,
                            results: seq<Detection<B, real>>)
    requires 0 < n <= |files|
    requires FromImages(prev, threshold, files, n - 1)
    requires LinesOfImage(report, files[n - 1], results)
    requires forall k :: 0 <= k < |results| ==> results[k].score >= threshold
    ensures FromImages(prev + report, threshold, files, n)
  {
    var lines := prev + report;
    forall i | 0 <= i < |lines|
      ensures lines[i].Found? && lines[i].score >= threshold
      ensures exists j :: 0 <= j < n && lines[i].fileName == files[j]
    {
      if i < |prev| {
        assert lines[i] == prev[i];
        var j :| 0 <= j < n - 1 && prev[i].fileName == files[j];
      } else {
        assert lines[i] == report[i - |prev|];
        assert lines[i].fileName == files[n - 1];
      }
    }
  }

  /** The lines printed while scanning the first n images all report
      detections at or above the threshold in those images. */
  lemma {:induction false} ScanLines<B>(labels: map<nat, string>, files: seq<string>,
                                        outputsOf: string -> Outputs<B, real>, threshold: real, n: nat)
    requires n <= |files|
    ensures FromImages(ScanUpTo(labels, files, outputsOf, threshold, n).lines, threshold, files, n)
  {
    if n > 0 {
      ScanLines(labels, files, outputsOf, threshold, n - 1);
      var prev := ScanUpTo(labels, files, outputsOf, threshold, n - 1);
      var o := outputsOf(files[n - 1]);
      if prev.status.Completed? && Extract(o, threshold).Ok? {
        var results := Extract(o, threshold).value;
        ExtractIsFilter(o, threshold);
        ReportLines(labels, files[n - 1], results, |results|);
        FromImagesAppend(prev.lines, Report(labels, files[n - 1], results, |results|).lines,
                         threshold, files, n, results);
      } else {
        assert FromImages(prev.lines, threshold, files, n) by {
          forall i | 0 <= i < |prev.lines| ensures exists j :: 0 <= j < n && prev.lines[i].fileName == files[j] {
            var j :| 0 <= j < n - 1 && prev.lines[i].fileName == files[j];
          }
        }
      }
    }
  }

  /** The lines name their images in Python's string order. */
  predicate InImageOrder(lines: seq<Line>) {
    forall i, j :: 0 <= i < j < |lines| && lines[i].Found? && lines[j].Found? ==>
      NotAbove(lines[i].fileName, lines[j].fileName)
  }

  /** Over sorted images, the lines come in image order. */
  lemma {:induction false} ScanInFileOrder<B>(labels: map<nat, string>, files: seq<string>,
                                              outputsOf: string -> Outputs<B, real>, threshold: real, n: nat)
    requires n <= |files| && Sorted(files)
    ensures InImageOrder(ScanUpTo(labels, files, outputsOf, threshold, n).lines)
  {
    if n > 0 {
      ScanInFileOrder(labels, files, outputsOf, threshold, n - 1);
      var prev := ScanUpTo(labels, files, outputsOf, threshold, n - 1);
      if prev.status.Completed? && Extract(outputsOf(files[n - 1]), threshold).Ok? {
        var results := Extract(outputsOf(files[n - 1]), threshold).value;
        var report := Report(labels, files[n - 1], results, |results|);
        ScanLines(labels, files, outputsOf, threshold, n - 1);
        ReportLines(labels, files[n - 1], results, |results|);
        var lines := prev.lines + report.lines;
        forall i, j | 0 <= i < j < |lines| && lines[i].Found? && lines[j].Found?
          ensures NotAbove(lines[i].fileName, lines[j].fileName)
        {
          if j >= |prev.lines| {
            assert lines[j] == report.lines[j - |prev.lines|];
            if i < |prev.lines| {
              var k :| 0 <= k < n - 1 && prev.lines[i].fileName == files[k];
              assert lines[i] == prev.lines[i];
              assert NotAbove(files[k], files[n - 1]);
            } else {
              assert lines[i] == report.lines[i - |prev.lines|];
            }
          } else {
            assert lines[i] == prev.lines[i] && lines[j] == prev.lines[j];
          }
        }
      }
    }
  }

  /** How many results detect_objects gives for one image. */
  function DetectionCount<B, C>(o: Outputs<B, C>, threshold: real): nat {
    match Extract(o, threshold)
    case Ok(results) => |results|
    case Err(_) => 0
  }

  /** Sum of the result counts of the first n images. */
  function TotalDetections<B>(files: seq<string>, outputsOf: string -> Outputs<B, real>, threshold: real, n: nat): nat
    requires n <= |files|
  {
    if n == 0 then 0
    else TotalDetections(files, outputsOf, threshold, n - 1) + DetectionCount(outputsOf(files[n - 1]), threshold)
  }

  /** A scan that completes ran detection successfully on every image and
      printed one line per result. */
  lemma {:induction false} ScanCompletedCount<B>(labels: map<nat, string>, files: seq<string>,
                                                 outputsOf: string -> Outputs<B, real>, threshold: real, n: nat)
    requires n <= |files| && ScanUpTo(labels, files, outputsOf, threshold, n).status.Completed?
    ensures forall j :: 0 <= j < n ==> Extract(outputsOf(files[j]), threshold).Ok?
    ensures |ScanUpTo(labels, files, outputsOf, threshold, n).lines| == TotalDetections(files, outputsOf, threshold, n)
  {
    if n > 0 {
      ScanCompletedCount(labels, files, outputsOf, threshold, n - 1);
    }
  }

  /** A crash names an image that was selected, and its cause: the error
      detection raised there, or a class id no label key equals. */
  lemma {:induction false} ScanCrashCause<B>(labels: map<nat, string>, files: seq<string>,
                                             outputsOf: string -> Outputs<B, real>, threshold: real, n: nat)
    requires n <= |files|
    ensures var st := ScanUpTo(labels, files, outputsOf, threshold, n).status;
      && (st.Crashed? && st.failure.DetectFailed? ==>
            st.failure.fileName in files[..n] && Extract(outputsOf(st.failure.fileName), threshold) == Err(st.failure.error))
      && (st.Crashed? && st.failure.MissingLabel? ==>
            st.failure.fileName in files[..n] && forall k :: k in labels ==> k as real != st.failure.classId)
  {
    if n > 0 {
      ScanCrashCause(labels, files, outputsOf, threshold, n - 1);
      assert files[..n] == files[..n - 1] + [files[n - 1]];
      var prev := ScanUpTo(labels, files, outputsOf, threshold, n - 1);
      if prev.status.Completed? && Extract(outputsOf(files[n - 1]), threshold).Ok? {
        var results := Extract(outputsOf(files[n - 1]), threshold).value;
        if Report(labels, files[n - 1], results, |results|).status.Crashed? {
          ReportCrash(labels, files[n - 1], results, |results|);
        }
      }
    }
  }

  /** "File Path is invalid" is printed, and nothing else, exactly when no
      entry of the folder matches the camera's pattern. */
  lemma ScanNoImages<B>(labelLines: seq<string>, listing: seq<string>, camera: string,
                        outputsOf: string -> Outputs<B, real>, threshold: real)
    ensures var run := Scan(labelLines, listing, camera, outputsOf, threshold);
      run.status.NoImages? <==> forall x :: x in listing ==> !MatchesPattern(camera, x)
    ensures var run := Scan(labelLines, listing, camera, outputsOf, threshold);
      run.status.NoImages? ==> run.lines == [FilePathInvalid]
  {
    var files := SelectImages(listing, camera);
    if files != [] {
      assert files[0] in files;
    }
  }

  /** When some image matches, every printed line reports a detection at
      or above the threshold in a matching entry of the folder. */
  lemma ScanReportsDetections<B>(labelLines: seq<string>, listing: seq<string>, camera: string,
                                 outputsOf: string -> Outputs<B, real>, threshold: real)
    ensures var run := Scan(labelLines, listing, camera, outputsOf, threshold);
      !run.status.NoImages? ==>
        forall i :: 0 <= i < |run.lines| ==>
          && run.lines[i].Found? && run.lines[i].score >= threshold
          && run.lines[i].fileName in listing && MatchesPattern(camera, run.lines[i].fileName)
  {
    var files := SelectImages(listing, camera);
    if files != [] {
      var lines := ScanUpTo(LabelsOf(labelLines), files, outputsOf, threshold, |files|).lines;
      ScanLines(LabelsOf(labelLines), files, outputsOf, threshold, |files|);
      forall i | 0 <= i < |lines| ensures lines[i].fileName in files {
        var j :| 0 <= j < |files| && lines[i].fileName == files[j];
      }
    }
  }

  /** The printed lines come in sorted image order. */
  lemma ScanReportsInOrder<B>(labelLines: seq<string>, listing: seq<string>, camera: string,
                              outputsOf: string -> Outputs<B, real>, threshold: real)
    ensures InImageOrder(Scan(labelLines, listing, camera, outputsOf, threshold).lines)
  {
    var files := SelectImages(listing, camera);
    if files != [] {
      ScanInFileOrder(LabelsOf(labelLines), files, outputsOf, threshold, |files|);
    }
  }

  /** A completed scan prints one line per detection over all the sorted images. */
  lemma ScanCount<B>(labelLines: seq<string>, listing: seq<string>, camera: string,
                     outputsOf: string -> Outputs<B, real>, threshold: real)
    requires Scan(labelLines, listing, camera, outputsOf, threshold).status.Completed?
    ensures var files := SelectImages(listing, camera);
      |Scan(labelLines, listing, camera, outputsOf, threshold).lines| == TotalDetections(files, outputsOf, threshold, |files|)
  {
    var files := SelectImages(listing, camera);
    ScanCompletedCount(LabelsOf(labelLines), files, outputsOf, threshold, |files|);
  }
}
