/**
 * The batch processor: every non-blank line of the input becomes one audio
 * file, named with consecutive indices starting after the highest index
 * already in the output directory.
 */
module Batch {

  import opened Wrappers
  import opened Bytes
  import opened Seqs
  import opened OutputIndex
  import opened Formats
  import opened Delivery

  const OutputDir: string := "output"

  /** str.isspace for one character: the whitespace of Python's Unicode database. */
  predicate IsSpace(c: char) {
    || 0x09 <= c as int <= 0x0D
    || 0x1C <= c as int <= 0x20
    || c as int == 0x85 || c as int == 0xA0 || c as int == 0x1680
    || 0x2000 <= c as int <= 0x200A
    || c as int == 0x2028 || c as int == 0x2029 || c as int == 0x202F
    || c as int == 0x205F || c as int == 0x3000
  }

  /** s.lstrip(): s without its leading whitespace. */
  function TrimStart(s: string): (r: string)
    ensures |r| <= |s|
  {
    if s != [] && IsSpace(s[0]) then TrimStart(s[1..]) else s
  }

  /** s.rstrip(): s without its trailing whitespace. */
  function TrimEnd(s: string): (r: string)
    ensures |r| <= |s|
  {
    if s != [] && IsSpace(s[|s| - 1]) then TrimEnd(s[..|s| - 1]) else s
  }

  /** s.strip(). */
  function Strip(s: string): string {
    TrimEnd(TrimStart(s))
  }

  /** lstrip removes a whitespace prefix, and exactly the longest one. */
  lemma {:induction false} TrimStartSpec(s: string)
    ensures var r := TrimStart(s);
            r == s[|s| - |r|..] &&
            (forall i :: 0 <= i < |s| - |r| ==> IsSpace(s[i])) &&
            (r != [] ==> !IsSpace(r[0]))
  {
    if s != [] && IsSpace(s[0]) {
      var t := s[1..];
      TrimStartSpec(t);
      var r := TrimStart(t);
      assert t[|t| - |r|..] == s[|s| - |r|..];
      forall i | 0 <= i < |s| - |r| ensures IsSpace(s[i]) {
        if i > 0 {
          assert s[i] == t[i - 1];
        }
      }
    }
  }

  /** rstrip removes a whitespace suffix, and exactly the longest one. */
  lemma {:induction false} TrimEndSpec(s: string)
    ensures var r := TrimEnd(s);
            r == s[..|r|] &&
            (forall i :: |r| <= i < |s| ==> IsSpace(s[i])) &&
            (r != [] ==> !IsSpace(r[|r| - 1]))
  {
    if s != [] && IsSpace(s[|s| - 1]) {
      var t := s[..|s| - 1];
      TrimEndSpec(t);
      var r := TrimEnd(t);
      assert t[..|r|] == s[..|r|];
      forall i | |r| <= i < |s| ensures IsSpace(s[i]) {
        if i < |t| {
          assert s[i] == t[i];
        }
      }
    }
  }

  /** A stripped string neither starts nor ends with whitespace. */
  lemma StripEnds(s: string)
    ensures var r := Strip(s);
            r == [] || (!IsSpace(r[0]) && !IsSpace(r[|r| - 1]))
  {
    var t := TrimStart(s);
    TrimStartSpec(s);
    TrimEndSpec(t);
    var r := TrimEnd(t);
    if r != [] {
      assert r[0] == t[0];
    }
  }

  /** [line.strip() for line in file if line.strip()]. */
  function NonBlankLines(raw: seq<string>): (lines: seq<string>)
    ensures |lines| <= |raw|
  {
    if raw == [] then []
    else
      var rest := NonBlankLines(raw[1..]);
      var line := Strip(raw[0]);
      if line == [] then rest else [line] + rest
  }

  /** os.path.join('output', f'output_{n:04}.{ext}') with the POSIX separator. */
  function OutputPath(n: nat, ext: string): string {
    OutputDir + "/" + OutputName(n, ext)
  }

  /** Whether the outcome of one line ends the batch: an exception that leaves main. */
  predicate Stops(outcome: Outcome, lastFailureRaises: bool) {
    outcome.Raised? || (outcome == LastAttemptFailed && lastFailureRaises)
  }

  /** Strip keeps the text between the leading and the trailing whitespace. */
  lemma StripSlice(s: string)
    ensures var i := |s| - |TrimStart(s)|;
            var r := Strip(s);
            i + |r| <= |s| && r == s[i..i + |r|] &&
            (forall k :: 0 <= k < i ==> IsSpace(s[k])) &&
            (forall k :: i + |r| <= k < |s| ==> IsSpace(s[k]))
  {
    var t := TrimStart(s);
    var i := |s| - |t|;
    TrimStartSpec(s);
    TrimEndSpec(t);
    var r := TrimEnd(t);
    SliceOfSlice(s, i, |s|, 0, |r|);
    forall k | i + |r| <= k < |s| ensures IsSpace(s[k]) {
      assert s[k] == t[k - i];
    }
  }

  /** A line is dropped exactly when it is all whitespace. */
  lemma StripBlank(s: string)
    ensures Strip(s) == [] <==> forall k :: 0 <= k < |s| ==> IsSpace(s[k])
  {
    StripSlice(s);
    StripEnds(s);
    var r := Strip(s);
    if r != [] {
      assert r[0] == s[|s| - |TrimStart(s)|];
    }
  }

  lemma StripIdempotent(s: string)
    ensures Strip(Strip(s)) == Strip(s)
  {
    var r := Strip(s);
    StripEnds(s);
    assert TrimStart(r) == r;
    assert TrimEnd(r) == r;
  }

  /** Every line kept is non-empty and already stripped. */
  lemma {:induction false} NonBlankLinesStripped(raw: seq<string>, i: nat)
    requires i < |NonBlankLines(raw)|
    ensures NonBlankLines(raw)[i] != [] && Strip(NonBlankLines(raw)[i]) == NonBlankLines(raw)[i]
  {
    var rest := NonBlankLines(raw[1..]);
    if Strip(raw[0]) == [] {
      NonBlankLinesStripped(raw[1..], i);
    } else if i == 0 {
      StripIdempotent(raw[0]);
    } else {
      NonBlankLinesStripped(raw[1..], i - 1);
    }
  }

  /** Reading two parts of the file gives the lines of each, in order. */
  lemma {:induction false} NonBlankLinesAppend(a: seq<string>, b: seq<string>)
    ensures NonBlankLines(a + b) == NonBlankLines(a) + NonBlankLines(b)
  {
    if a == [] {
      assert a + b == b;
    } else {
      assert (a + b)[0] == a[0];
      assert (a + b)[1..] == a[1..] + b;
      NonBlankLinesAppend(a[1..], b);
    }
  }

  /** The batch's paths for different indices differ. */
  lemma OutputPathInjective(a: nat, b: nat, ext: string)
    requires IsOutputExtension(ext) && OutputPath(a, ext) == OutputPath(b, ext)
    ensures a == b
  {
    var p := OutputDir + "/";
    assert OutputPath(a, ext) == p + OutputName(a, ext);
    assert OutputPath(b, ext) == p + OutputName(b, ext);
    assert (p + OutputName(a, ext))[|p|..] == OutputName(a, ext);
    assert (p + OutputName(b, ext))[|p|..] == OutputName(b, ext);
    OutputNameInjective(a, b, ext);
  }

  /** The paths of count consecutive indices from start, in order. */
  function BatchPaths(start: nat, count: nat, ext: string): (paths: seq<string>)
    ensures |paths| == count
  {
    if count == 0 then [] else BatchPaths(start, count - 1, ext) + [OutputPath(start + count - 1, ext)]
  }

  lemma {:induction false} BatchPathsAt(start: nat, count: nat, ext: string, k: nat)
    requires k < count
    ensures BatchPaths(start, count, ext)[k] == OutputPath(start + k, ext)
  {
    if k < count - 1 {
      BatchPathsAt(start, count - 1, ext, k);
    }
  }

  /** No element occurs twice. */
  predicate Distinct(s: seq<string>) {
    forall k, l :: 0 <= k < l < |s| ==> s[k] != s[l]
  }

  lemma BatchPathsDiffer(start: nat, count: nat, ext: string, k: nat, l: nat)
    requires IsOutputExtension(ext) && k < l < count
    ensures BatchPaths(start, count, ext)[k] != BatchPaths(start, count, ext)[l]
  {
    BatchPathsAt(start, count, ext, k);
    BatchPathsAt(start, count, ext, l);
    if BatchPaths(start, count, ext)[k] == BatchPaths(start, count, ext)[l] {
      OutputPathInjective(start + k, start + l, ext);
    }
  }

  /** One path per index and no path twice. */
  lemma BatchPathsDistinct(start: nat, count: nat, ext: string)
    requires IsOutputExtension(ext)
    ensures Distinct(BatchPaths(start, count, ext))
  {
    forall k, l | 0 <= k < l < count ensures BatchPaths(start, count, ext)[k] != BatchPaths(start, count, ext)[l] {
      BatchPathsDiffer(start, count, ext, k, l);
    }
  }

  /**
   * A run numbered from the corrected scan never writes over a file that
   * was already in the output directory.
   */
  lemma BatchPathsFresh(existing: seq<string>, count: nat, ext: string)
    requires IsOutputExtension(ext)
    ensures var start := CorrectedNextOutputNumber(existing);
            forall k :: 0 <= k < count ==>
              BatchPaths(start, count, ext)[k] == OutputDir + "/" + OutputName(start + k, ext) &&
              OutputName(start + k, ext) !in existing
  {
    var start := CorrectedNextOutputNumber(existing);
    forall k | 0 <= k < count
      ensures BatchPaths(start, count, ext)[k] == OutputDir + "/" + OutputName(start + k, ext)
      ensures OutputName(start + k, ext) !in existing
    {
      BatchPathsAt(start, count, ext, k);
      CorrectedNextOutputNumberIsFresh(existing, ext, start + k);
    }
  }

  /** text_to_speech_file(line, ...) for line number k, under the default retries. */
  function LineDelivery(outputFormat: string, respond: (nat, string) -> (nat -> Attempt)): (nat, string) -> Outcome {
    (k: nat, line: string) => DeliveryOutcome(outputFormat, DefaultRetries, respond(k, line))
  }

  /** The outcomes of the first count lines, line k delivered by deliver(k, lines[k]). */
  function BatchOutcomes(deliver: (nat, string) -> Outcome, lines: seq<string>, count: nat): (outcomes: seq<Outcome>)
    requires count <= |lines|
    ensures |outcomes| == count
  {
    if count == 0 then [] else BatchOutcomes(deliver, lines, count - 1) + [deliver(count - 1, lines[count - 1])]
  }

  lemma {:induction false} BatchOutcomesAt(deliver: (nat, string) -> Outcome, lines: seq<string>, count: nat, k: nat)
    requires k < count <= |lines|
    ensures BatchOutcomes(deliver, lines, count)[k] == deliver(k, lines[k])
  {
    if k < count - 1 {
      BatchOutcomesAt(deliver, lines, count - 1, k);
    }
  }

  /** The files a run leaves behind, path by path: a later write to a path replaces an earlier one. */
  function Written(paths: seq<string>, outcomes: seq<Outcome>): map<string, seq<byte>>
    requires |paths| == |outcomes|
  {
    if paths == [] then map[]
    else
      var n := |paths| - 1;
      var before := Written(paths[..n], outcomes[..n]);
      if outcomes[n].Saved? then before[paths[n] := outcomes[n].content] else before
  }

  /** A saved line's content is in the map under its path: no other line of the run has that path. */
  lemma {:induction false} WrittenAt(paths: seq<string>, outcomes: seq<Outcome>, k: nat)
    requires |paths| == |outcomes| && Distinct(paths)
    requires k < |paths| && outcomes[k].Saved?
    ensures paths[k] in Written(paths, outcomes) && Written(paths, outcomes)[paths[k]] == outcomes[k].content
  {
    var n := |paths| - 1;
    if k < n {
      var ps, os := paths[..n], outcomes[..n];
      assert ps[k] == paths[k] && os[k] == outcomes[k];
      assert Distinct(ps) by {
        forall a, b | 0 <= a < b < |ps| ensures ps[a] != ps[b] {
          assert ps[a] == paths[a] && ps[b] == paths[b];
        }
      }
      WrittenAt(ps, os, k);
      assert paths[n] != paths[k];
    }
  }

  /** Every path in the map belongs to a saved line. */
  lemma {:induction false} WrittenFrom(paths: seq<string>, outcomes: seq<Outcome>, p: string) returns (k: nat)
    requires |paths| == |outcomes| && p in Written(paths, outcomes)
    ensures k < |paths| && paths[k] == p && outcomes[k].Saved?
  {
    var n := |paths| - 1;
    var ps, os := paths[..n], outcomes[..n];
    if outcomes[n].Saved? && p == paths[n] {
      k := n;
    } else {
      k := WrittenFrom(ps, os, p);
      assert ps[k] == paths[k] && os[k] == outcomes[k];
    }
  }

  /**
   * With distinct paths, a run writes exactly the paths whose line was saved,
   * each with the content saved for it.
   */
  lemma WrittenContents(paths: seq<string>, outcomes: seq<Outcome>)
    requires |paths| == |outcomes| && Distinct(paths)
    ensures var w := Written(paths, outcomes);
            (forall p :: p in w <==> exists k :: 0 <= k < |paths| && paths[k] == p && outcomes[k].Saved?) &&
            (forall k :: 0 <= k < |paths| && outcomes[k].Saved? ==> w[paths[k]] == outcomes[k].content)
  {
    var w := Written(paths, outcomes);
    forall k | 0 <= k < |paths| && outcomes[k].Saved? ensures paths[k] in w && w[paths[k]] == outcomes[k].content {
      WrittenAt(paths, outcomes, k);
    }
    forall p | p in w ensures exists k :: 0 <= k < |paths| && paths[k] == p && outcomes[k].Saved? {
      var k := WrittenFrom(paths, outcomes, p);
    }
  }

  /**
   * main(): read the lines, find the first free index, and convert the lines
   * in order. pattern is the scan's pattern: main() as written uses
   * MatchIndex; with the corrected MatchIndexWide the run never writes over
   * an existing file (BatchPathsFresh). Whether the unwritten branch after
   * the last failed retry raises is not known, so lastFailureRaises says
   * which way it goes. respond(k, line) is what the service does on each
   * attempt for line
   * number k. The files the run leaves are Written(paths, outcomes).
   */
  method BatchConvert(existing: seq<string>, pattern: string -> Option<nat>, rawLines: seq<string>,
                      outputFormat: string, respond: (nat, string) -> (nat -> Attempt), lastFailureRaises: bool)
    returns (paths: seq<string>, outcomes: seq<Outcome>)
    ensures var lines := NonBlankLines(rawLines);
            |outcomes| <= |lines| && outcomes == BatchOutcomes(LineDelivery(outputFormat, respond), lines, |outcomes|) &&
            (|outcomes| < |lines| ==> outcomes != [] && Stops(outcomes[|outcomes| - 1], lastFailureRaises))
    ensures |paths| == |outcomes|
    ensures paths == BatchPaths(MaxMatched(existing, pattern) + 1, |paths|, Extension(outputFormat))
    ensures forall k :: 0 <= k < |outcomes| - 1 ==> !Stops(outcomes[k], lastFailureRaises)
  {
    var nextNumber := GetNextOutputNumber(existing, pattern);
    var lines := NonBlankLines(rawLines);
    paths, outcomes := ConvertLines(nextNumber, lines, outputFormat, respond, lastFailureRaises);
  }

  /**
   * The state after the first |outcomes| lines: their paths are consecutive
   * from start, their outcomes are the deliveries of those lines, and no
   * line but possibly the last stopped the batch.
   */
  predicate Converted(start: nat, lines: seq<string>, ext: string, deliver: (nat, string) -> Outcome,
                      lastFailureRaises: bool, paths: seq<string>, outcomes: seq<Outcome>)
  {
    && |outcomes| <= |lines| && outcomes == BatchOutcomes(deliver, lines, |outcomes|)
    && |paths| == |outcomes| && paths == BatchPaths(start, |paths|, ext)
    && (forall k :: 0 <= k < |outcomes| - 1 ==> !Stops(outcomes[k], lastFailureRaises))
  }

  /**
   * The numbering loop of main(): each line gets the next index and one
   * text_to_speech_file call; an exception from that call ends the batch.
   */
  method ConvertLines(start: nat, lines: seq<string>, outputFormat: string,
                      respond: (nat, string) -> (nat -> Attempt), lastFailureRaises: bool)
    returns (paths: seq<string>, outcomes: seq<Outcome>)
    ensures Converted(start, lines, Extension(outputFormat), LineDelivery(outputFormat, respond),
                      lastFailureRaises, paths, outcomes)
    ensures |outcomes| < |lines| ==> outcomes != [] && Stops(outcomes[|outcomes| - 1], lastFailureRaises)
  {
    paths, outcomes := [], [];
    var nextNumber := start;
    while |outcomes| < |lines|
      invariant nextNumber == start + |outcomes|
      invariant Converted(start, lines, Extension(outputFormat), LineDelivery(outputFormat, respond),
                          lastFailureRaises, paths, outcomes)
      invariant outcomes != [] ==> !Stops(outcomes[|outcomes| - 1], lastFailureRaises)
      decreases |lines| - |outcomes|
    {
      var outputFilename, outcome := ConvertLine(start, lines, outputFormat, respond, lastFailureRaises,
                                                 paths, outcomes, nextNumber);
      paths, outcomes := paths + [outputFilename], outcomes + [outcome];
      if Stops(outcome, lastFailureRaises) {
        return;
      }
      nextNumber := nextNumber + 1;
    }
  }

  /**
   * One pass of the numbering loop: the line at index |outcomes| is given
   * output number nextNumber and sent through text_to_speech_file.
   */
  method ConvertLine(start: nat, lines: seq<string>, outputFormat: string,
                     respond: (nat, string) -> (nat -> Attempt), lastFailureRaises: bool,
                     paths: seq<string>, outcomes: seq<Outcome>, nextNumber: nat)
    returns (path: string, outcome: Outcome)
    requires Converted(start, lines, Extension(outputFormat), LineDelivery(outputFormat, respond),
                       lastFailureRaises, paths, outcomes)
    requires |outcomes| < |lines| && (outcomes != [] ==> !Stops(outcomes[|outcomes| - 1], lastFailureRaises))
    requires nextNumber == start + |paths|
    ensures Converted(start, lines, Extension(outputFormat), LineDelivery(outputFormat, respond),
                      lastFailureRaises, paths + [path], outcomes + [outcome])
  {
    var i := |outcomes|;
    path := OutputPath(nextNumber, Extension(outputFormat));
    var written, sleeps;
    outcome, written, sleeps := TextToSpeechFile(outputFormat, DefaultRetries, respond(i, lines[i]));
    ConvertStep(start, lines, Extension(outputFormat), LineDelivery(outputFormat, respond), lastFailureRaises,
                paths, outcomes, path, outcome);
  }

  /** One more line converted extends the paths and the outcomes by that line's. */
  lemma ConvertStep(start: nat, lines: seq<string>, ext: string, deliver: (nat, string) -> Outcome,
                    lastFailureRaises: bool, paths: seq<string>, outcomes: seq<Outcome>, path: string, outcome: Outcome)
    requires Converted(start, lines, ext, deliver, lastFailureRaises, paths, outcomes)
    requires |outcomes| < |lines| && (outcomes != [] ==> !Stops(outcomes[|outcomes| - 1], lastFailureRaises))
    requires path == OutputPath(start + |paths|, ext)
    requires outcome == deliver(|outcomes|, lines[|outcomes|])
    ensures Converted(start, lines, ext, deliver, lastFailureRaises, paths + [path], outcomes + [outcome])
  {
    var n := |outcomes|;
    var paths', outcomes' := paths + [path], outcomes + [outcome];
    assert outcomes' == BatchOutcomes(deliver, lines, n + 1);
    assert paths' == BatchPaths(start, n + 1, ext);
    forall k | 0 <= k < n ensures !Stops(outcomes'[k], lastFailureRaises) {
      assert outcomes'[k] == outcomes[k];
    }
  }

  /**
   * What a run leaves behind: one distinct path per line it reached, and
   * exactly the saved ones written, each with the content saved for it.
   */
  lemma BatchWrites(start: nat, ext: string, outcomes: seq<Outcome>)
    requires IsOutputExtension(ext)
    ensures var paths := BatchPaths(start, |outcomes|, ext);
            var w := Written(paths, outcomes);
            (forall p :: p in w <==> exists k :: 0 <= k < |paths| && paths[k] == p && outcomes[k].Saved?) &&
            (forall k :: 0 <= k < |paths| && outcomes[k].Saved? ==> w[paths[k]] == outcomes[k].content)
  {
    BatchPathsDistinct(start, |outcomes|, ext);
    WrittenContents(BatchPaths(start, |outcomes|, ext), outcomes);
  }
}
