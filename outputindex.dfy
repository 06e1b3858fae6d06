/**
 * Output file names 'output_NNNN.ext' and the scan that picks the next
 * index from the names already in the output directory.
 */
module OutputIndex {

  import opened Wrappers
  import opened Seqs
  import opened Decimal

  predicate IsOutputExtension(ext: string) {
    ext == "mp3" || ext == "wav"
  }

  /** f'output_{n:04}.{ext}' */
  function OutputName(n: nat, ext: string): string {
    "output_" + Pad4(n) + "." + ext
  }

  /**
   * The pattern output_(\d{4})\.(mp3|wav) with \d read as an ASCII digit,
   * and int(group(1)) of a match: anchored at the start of the name only,
   * so anything may follow the extension.
   */
  function MatchIndex(name: string): Option<nat> {
    if |name| >= 15 && name[..7] == "output_" && AllDigits(name[7..11]) && name[11] == '.'
       && IsOutputExtension(name[12..15])
    then Some(DigitsValue(name[7..11]))
    else None
  }

  /** The largest index m finds among names, or 0: the value of max_number after the scan. */
  function MaxMatched(names: seq<string>, m: string -> Option<nat>): nat {
    if names == [] then 0
    else
      var previous := MaxMatched(names[..|names| - 1], m);
      match m(names[|names| - 1])
      case Some(k) => if k > previous then k else previous
      case None => previous
  }

  /**
   * get_next_output_number over the listing of the output directory, in
   * listing order. pattern is the compiled expression's match followed by
   * int(match.group(1)): MatchIndex is the one the source compiles,
   * MatchIndexWide the corrected one.
   */
  method GetNextOutputNumber(names: seq<string>, pattern: string -> Option<nat>) returns (next: nat)
    ensures next == MaxMatched(names, pattern) + 1
    ensures forall i :: 0 <= i < |names| && pattern(names[i]).Some? ==> pattern(names[i]).value < next
    ensures next == 1 || exists i :: 0 <= i < |names| && pattern(names[i]) == Some(next - 1)
  {
    var maxNumber := 0;
    for i := 0 to |names|
      invariant maxNumber == MaxMatched(names[..i], pattern)
    {
      assert names[..i + 1][..i] == names[..i];
      var found := pattern(names[i]);
      if found.Some? {
        var number := found.value;
        if number > maxNumber {
          maxNumber := number;
        }
      }
    }
    assert names[..|names|] == names;
    MaxMatchedIsUpperBound(names, pattern);
    MaxMatchedIsAttained(names, pattern);
    next := maxNumber + 1;
  }

  lemma {:induction false} MaxMatchedIsUpperBound(names: seq<string>, m: string -> Option<nat>)
    ensures forall i :: 0 <= i < |names| && m(names[i]).Some? ==> m(names[i]).value <= MaxMatched(names, m)
  {
    if names != [] {
      var front := names[..|names| - 1];
      MaxMatchedIsUpperBound(front, m);
      assert forall i :: 0 <= i < |front| ==> front[i] == names[i];
    }
  }

  lemma {:induction false} MaxMatchedIsAttained(names: seq<string>, m: string -> Option<nat>)
    ensures MaxMatched(names, m) == 0 || exists i :: 0 <= i < |names| && m(names[i]) == Some(MaxMatched(names, m))
  {
    if names != [] {
      var front := names[..|names| - 1];
      MaxMatchedIsAttained(front, m);
      if MaxMatched(names, m) == MaxMatched(front, m) && MaxMatched(front, m) != 0 {
        var i :| 0 <= i < |front| && m(front[i]) == Some(MaxMatched(front, m));
        assert names[i] == front[i];
      }
    }
  }

  /** The scan's result does not depend on the order the directory is listed in. */
  lemma MaxMatchedIgnoresOrder(a: seq<string>, b: seq<string>, m: string -> Option<nat>)
    requires multiset(a) == multiset(b)
    ensures MaxMatched(a, m) == MaxMatched(b, m)
  {
    MaxMatchedBelow(a, b, m);
    MaxMatchedBelow(b, a, m);
  }

  lemma MaxMatchedBelow(a: seq<string>, b: seq<string>, m: string -> Option<nat>)
    requires multiset(a) <= multiset(b)
    ensures MaxMatched(a, m) <= MaxMatched(b, m)
  {
    MaxMatchedIsAttained(a, m);
    MaxMatchedIsUpperBound(b, m);
    if MaxMatched(a, m) != 0 {
      var i :| 0 <= i < |a| && m(a[i]) == Some(MaxMatched(a, m));
      assert a[i] in multiset(b);
      var j :| 0 <= j < |b| && b[j] == a[i];
    }
  }

  /** A name the scan accepts is a four-digit output name, possibly followed by more text. */
  lemma MatchIndexIsOutputName(name: string)
    requires MatchIndex(name).Some?
    ensures var k := MatchIndex(name).value;
            k < 10000 && IsOutputExtension(name[12..15]) && name[..15] == OutputName(k, name[12..15])
  {
    var digits, ext := name[7..11], name[12..15];
    var k := DigitsValue(digits);
    ZeroPadOfDigitsValue(digits);
    Pad4Length(k);
    var built := "output_" + digits + "." + ext;
    assert |built| == 15;
    forall i | 0 <= i < 15 ensures built[i] == name[i] {
      if i < 7 {
        assert built[i] == name[..7][i];
      } else if i < 11 {
        assert built[i] == digits[i - 7];
      } else if i >= 12 {
        assert built[i] == ext[i - 12];
      }
    }
  }

  /** The scan finds the index of every name the batch writes, while that index has four digits. */
  lemma MatchIndexOfOutputName(k: nat, ext: string, rest: string)
    requires IsOutputExtension(ext)
    ensures MatchIndex(OutputName(k, ext) + rest) == if k < 10000 then Some(k) else None
  {
    Pad4Length(k);
    Pad4Value(k);
    MatchIndexSplit("output_", Pad4(k), ext, rest);
  }

  lemma MatchIndexSplit(prefix: string, digits: string, ext: string, rest: string)
    requires prefix == "output_" && AllDigits(digits) && |digits| >= 4 && IsOutputExtension(ext)
    ensures MatchIndex(prefix + digits + "." + ext + rest) == if |digits| == 4 then Some(DigitsValue(digits)) else None
  {
    var name := prefix + digits + "." + ext + rest;
    var d := |digits|;
    assert |name| == 11 + d + |rest|;
    assert name[..7] == prefix by {
      forall i | 0 <= i < 7 ensures name[i] == prefix[i] {}
    }
    if d == 4 {
      assert name[7..11] == digits by {
        forall i | 0 <= i < 4 ensures name[7 + i] == digits[i] {}
      }
      assert name[11] == '.';
      assert name[12..15] == ext by {
        forall i | 0 <= i < 3 ensures name[12 + i] == ext[i] {}
      }
    } else {
      assert name[11] == digits[4];
      assert IsDigit(digits[4]);
    }
  }

  /** Two batch names with the same extension are equal only for the same index. */
  lemma OutputNameInjective(a: nat, b: nat, ext: string)
    requires IsOutputExtension(ext)
    requires OutputName(a, ext) == OutputName(b, ext)
    ensures a == b
  {
    MatchIndexWideOfOutputName(a, ext, []);
    MatchIndexWideOfOutputName(b, ext, []);
    assert OutputName(a, ext) + [] == OutputName(a, ext);
    assert OutputName(b, ext) + [] == OutputName(b, ext);
  }

  /** Below index 10000 the scan's result is fresh: no later index of this run names an existing file. */
  lemma NextOutputNumberIsFreshBelow10000(names: seq<string>, ext: string, n: nat)
    requires IsOutputExtension(ext)
    requires MaxMatched(names, MatchIndex) < n < 10000
    ensures OutputName(n, ext) !in names
  {
    MaxMatchedIsUpperBound(names, MatchIndex);
    MatchIndexOfOutputName(n, ext, []);
    assert OutputName(n, ext) + [] == OutputName(n, ext);
  }

  /**
   * Past index 9999 the writer's names get five digits, which the scan does
   * not match: after output_9999.wav and output_10000.wav the next run starts
   * again at 10000 and reuses a name already in the directory.
   */
  lemma NextOutputNumberReusesName(existing: seq<string>, ext: string, last: nat)
    requires IsOutputExtension(ext) && last == 9999
    requires existing == [OutputName(last, ext), OutputName(last + 1, ext)]
    ensures var next := MaxMatched(existing, MatchIndex) + 1;
            next == 10000 && OutputName(next, ext) in existing
  {
    MatchIndexOfOutputName(last, ext, []);
    MatchIndexOfOutputName(last + 1, ext, []);
    assert OutputName(last, ext) + [] == existing[0];
    assert OutputName(last + 1, ext) + [] == existing[1];
    assert existing[..1] == [existing[0]] && existing[..1][..0] == [];
    assert MaxMatched(existing[..1], MatchIndex) == last;
  }

  /** The number of ASCII digits at the front of s. */
  function DigitRun(s: string): (n: nat)
    ensures n <= |s|
  {
    if s != [] && IsDigit(s[0]) then 1 + DigitRun(s[1..]) else 0
  }

  /** The run is all digits and stops at the first character that is not one. */
  lemma {:induction false} DigitRunSpec(s: string)
    ensures var n := DigitRun(s); AllDigits(s[..n]) && (n < |s| ==> !IsDigit(s[n]))
  {
    if s != [] && IsDigit(s[0]) {
      DigitRunSpec(s[1..]);
      var n := DigitRun(s);
      assert s[..n] == [s[0]] + s[1..][..n - 1];
    }
  }

  /**
   * The pattern output_(\d{4,})\.(mp3|wav): four or more digits, like the
   * names f'output_{n:04}' writes for every n.
   */
  function MatchIndexWide(name: string): Option<nat> {
    if |name| >= 7 && name[..7] == "output_" then MatchWideTail(name[7..]) else None
  }

  /** (\d{4,})\.(mp3|wav) at the front of the text after 'output_'. */
  function MatchWideTail(after: string): Option<nat> {
    var d := DigitRun(after);
    DigitRunSpec(after);
    if d >= 4 && |after| >= d + 4 && after[d] == '.' && IsOutputExtension(after[d + 1..d + 4])
    then Some(DigitsValue(after[..d]))
    else None
  }

  /** The corrected get_next_output_number: one more than every index written so far. */
  function CorrectedNextOutputNumber(names: seq<string>): nat {
    MaxMatched(names, MatchIndexWide) + 1
  }

  lemma {:induction false} DigitRunOfDigits(digits: string, tail: string)
    requires AllDigits(digits) && tail != [] && !IsDigit(tail[0])
    ensures DigitRun(digits + tail) == |digits|
  {
    if digits != [] {
      assert (digits + tail)[1..] == digits[1..] + tail;
      DigitRunOfDigits(digits[1..], tail);
    } else {
      assert digits + tail == tail;
    }
  }

  /** The tail pattern matches digits, '.', an extension, and reads the digits' value. */
  lemma MatchWideTailAt(after: string, digits: string, ext: string)
    requires |after| >= |digits| + 4 && after[..|digits|] == digits && AllDigits(digits) && |digits| >= 4
    requires after[|digits|] == '.' && after[|digits| + 1..|digits| + 4] == ext && IsOutputExtension(ext)
    ensures MatchWideTail(after) == Some(DigitsValue(digits))
  {
    var d := |digits|;
    assert after == digits + after[d..];
    DigitRunOfDigits(digits, after[d..]);
  }

  /** The facts the corrected pattern checks, known without the concatenation that built the name. */
  lemma MatchIndexWideAt(name: string, digits: string, ext: string)
    requires |name| >= 11 + |digits| && name[..7] == "output_"
    requires name[7..7 + |digits|] == digits && AllDigits(digits) && |digits| >= 4
    requires name[7 + |digits|] == '.' && name[8 + |digits|..11 + |digits|] == ext && IsOutputExtension(ext)
    ensures MatchIndexWide(name) == Some(DigitsValue(digits))
  {
    TailParts(name, digits, ext);
    MatchWideTailAt(name[7..], digits, ext);
  }

  lemma TailParts(name: string, digits: string, ext: string)
    requires |name| >= 11 + |digits| && name[7..7 + |digits|] == digits
    requires name[7 + |digits|] == '.' && name[8 + |digits|..11 + |digits|] == ext
    ensures var after, d := name[7..], |digits|;
            |after| >= d + 4 && after[..d] == digits && after[d] == '.' && after[d + 1..d + 4] == ext
  {
    var d := |digits|;
    SliceOfSlice(name, 7, |name|, 0, d);
    SliceOfSlice(name, 7, |name|, d + 1, d + 4);
  }

  /** Every name output_<four or more digits>.<mp3|wav>, whatever follows, is matched with its digits' value. */
  lemma MatchIndexWideOf(digits: string, ext: string, rest: string)
    requires AllDigits(digits) && |digits| >= 4 && IsOutputExtension(ext)
    ensures MatchIndexWide("output_" + digits + "." + ext + rest) == Some(DigitsValue(digits))
  {
    NameParts("output_", digits, ext, rest);
    MatchIndexWideAt("output_" + digits + "." + ext + rest, digits, ext);
  }

  /** Where the pieces of prefix + digits + "." + ext + rest sit. */
  lemma NameParts(prefix: string, digits: string, ext: string, rest: string)
    requires |prefix| == 7 && |ext| == 3
    ensures var name, d := prefix + digits + "." + ext + rest, |digits|;
            && |name| >= 11 + d && name[..7] == prefix && name[7..7 + d] == digits
            && name[7 + d] == '.' && name[8 + d..11 + d] == ext
  {
    var d := |digits|;
    var l1 := prefix + digits;
    var l2 := l1 + ".";
    var l3 := l2 + ext;
    PrefixSlices(l3, rest, 0, 7);
    PrefixSlices(l2, ext, 0, 7);
    PrefixSlices(l1, ".", 0, 7);
    assert l1[0..7] == prefix;
    PrefixSlices(l3, rest, 7, 7 + d);
    PrefixSlices(l2, ext, 7, 7 + d);
    PrefixSlices(l1, ".", 7, 7 + d);
    assert l1[7..7 + d] == digits;
    PrefixSlices(l3, rest, 8 + d, 11 + d);
    assert l3[8 + d..11 + d] == ext;
  }

  /** The corrected scan finds the index of every name the batch writes. */
  lemma MatchIndexWideOfOutputName(k: nat, ext: string, rest: string)
    requires IsOutputExtension(ext)
    ensures MatchIndexWide(OutputName(k, ext) + rest) == Some(k)
  {
    Pad4Length(k);
    Pad4Value(k);
    MatchIndexWideOf(Pad4(k), ext, rest);
  }

  /** The corrected scan accepts every name the original one does, with the same index. */
  lemma MatchIndexWideExtends(name: string)
    requires MatchIndex(name).Some?
    ensures MatchIndexWide(name) == MatchIndex(name)
  {
    MatchIndexWideAt(name, name[7..11], name[12..15]);
  }

  /** With the corrected scan no index of the new run names a file already in the directory. */
  lemma CorrectedNextOutputNumberIsFresh(names: seq<string>, ext: string, n: nat)
    requires IsOutputExtension(ext)
    requires n >= CorrectedNextOutputNumber(names)
    ensures OutputName(n, ext) !in names
  {
    MaxMatchedIsUpperBound(names, MatchIndexWide);
    MatchIndexWideOfOutputName(n, ext, []);
    assert OutputName(n, ext) + [] == OutputName(n, ext);
  }
}
