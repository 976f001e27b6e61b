/** The file-name sanitiser of both upload pages: `name.replace(/\s+/g, '_')`.
    The global regular expression finds, from left to right, each leftmost
    longest run of whitespace and replaces it with one underscore. */
module SafeName {
  import opened Text

  /** Length of the run of whitespace at the start of `s`: the greedy
      match of `\s+` when it starts at position 0. */
  function LeadingRun(s: string): (k: nat)
    ensures k <= |s|
    ensures forall i :: 0 <= i < k ==> IsWhitespace(s[i])
    ensures k < |s| ==> !IsWhitespace(s[k])
  {
    if |s| == 0 || !IsWhitespace(s[0]) then 0 else 1 + LeadingRun(s[1..])
  }

  /** The sanitised file name. */
  function Sanitize(name: string): (safe: string)
    ensures HasNoWhitespace(safe)
    ensures |safe| <= |name|
    decreases |name|
  {
    if |name| == 0 then []
    else if IsWhitespace(name[0]) then "_" + Sanitize(name[LeadingRun(name)..])
    else [name[0]] + Sanitize(name[1..])
  }

  /** The characters of `s` that are not whitespace, in order. */
  function Strip(s: string): string {
    if |s| == 0 then []
    else if IsWhitespace(s[0]) then Strip(s[1..])
    else [s[0]] + Strip(s[1..])
  }

  /** Number of maximal whitespace runs in `s`, counted by a scan that
      remembers whether the previous character was whitespace. */
  function RunStarts(s: string, afterWhitespace: bool): nat {
    if |s| == 0 then 0
    else (if IsWhitespace(s[0]) && !afterWhitespace then 1 else 0)
         + RunStarts(s[1..], IsWhitespace(s[0]))
  }

  function WhitespaceRuns(s: string): nat {
    RunStarts(s, false)
  }

  /** `s` with every occurrence of `x` removed. */
  function Without(s: string, x: char): string {
    if |s| == 0 then []
    else if s[0] == x then Without(s[1..], x)
    else [s[0]] + Without(s[1..], x)
  }

  /** `a` occurs in `b` in order, possibly with other characters between. */
  predicate IsSubsequence(a: string, b: string) {
    if |a| == 0 then true
    else if |b| == 0 then false
    else (a[0] == b[0] && IsSubsequence(a[1..], b[1..])) || IsSubsequence(a, b[1..])
  }

  /** Skipping a leading whitespace run leaves the stripped text unchanged. */
  lemma {:induction false} StripSkipsRun(s: string)
    ensures Strip(s) == Strip(s[LeadingRun(s)..])
    decreases |s|
  {
    if |s| > 0 && IsWhitespace(s[0]) {
      StripSkipsRun(s[1..]);
      assert s[1..][LeadingRun(s[1..])..] == s[LeadingRun(s)..];
    }
  }

  /** Inside a whitespace run the scan counts nothing until the run ends. */
  lemma {:induction false} RunStartsSkipsRun(s: string)
    requires 0 < |s| && IsWhitespace(s[0])
    ensures RunStarts(s[1..], true) == RunStarts(s[LeadingRun(s)..], true)
    decreases |s|
  {
    var t := s[1..];
    if |t| > 0 && IsWhitespace(t[0]) {
      RunStartsSkipsRun(t);
      assert t[LeadingRun(t)..] == s[LeadingRun(s)..];
    } else {
      assert LeadingRun(s) == 1;
    }
  }

  /** After a run, the next character is not whitespace, so whether the
      scan was inside a run no longer matters. */
  lemma RunStartsAfterRun(s: string)
    requires |s| == 0 || !IsWhitespace(s[0])
    ensures RunStarts(s, true) == RunStarts(s, false)
  {
  }

  /** Each whitespace run becomes one underscore and every other character
      is kept, so the length is the stripped length plus the run count. */
  lemma {:induction false} SanitizeLength(s: string)
    ensures |Sanitize(s)| == |Strip(s)| + WhitespaceRuns(s)
    decreases |s|
  {
    if |s| == 0 {
    } else if IsWhitespace(s[0]) {
      var rest := s[LeadingRun(s)..];
      SanitizeLength(rest);
      StripSkipsRun(s);
      RunStartsSkipsRun(s);
      RunStartsAfterRun(rest);
    } else {
      SanitizeLength(s[1..]);
    }
  }

  /** Every non-whitespace character of the name survives, in order. */
  lemma {:induction false} SanitizeKeepsText(s: string)
    ensures IsSubsequence(Strip(s), Sanitize(s))
    decreases |s|
  {
    if |s| == 0 {
    } else if IsWhitespace(s[0]) {
      var rest := s[LeadingRun(s)..];
      SanitizeKeepsText(rest);
      StripSkipsRun(s);
      assert ("_" + Sanitize(rest))[1..] == Sanitize(rest);
    } else {
      SanitizeKeepsText(s[1..]);
      assert ([s[0]] + Sanitize(s[1..]))[1..] == Sanitize(s[1..]);
      assert ([s[0]] + Strip(s[1..]))[1..] == Strip(s[1..]);
    }
  }

  /** Apart from underscores, the sanitised name is exactly the name's
      non-whitespace text: the only character ever inserted is `_`. */
  lemma {:induction false} SanitizeOnlyAddsUnderscores(s: string)
    ensures Without(Sanitize(s), '_') == Without(Strip(s), '_')
    decreases |s|
  {
    if |s| == 0 {
    } else if IsWhitespace(s[0]) {
      var rest := s[LeadingRun(s)..];
      SanitizeOnlyAddsUnderscores(rest);
      StripSkipsRun(s);
      assert ("_" + Sanitize(rest))[1..] == Sanitize(rest);
    } else {
      SanitizeOnlyAddsUnderscores(s[1..]);
      assert ([s[0]] + Sanitize(s[1..]))[1..] == Sanitize(s[1..]);
      assert ([s[0]] + Strip(s[1..]))[1..] == Strip(s[1..]);
    }
  }

  /** A name is left unchanged exactly when it holds no whitespace. */
  lemma {:induction false} SanitizeFixedPoint(s: string)
    ensures Sanitize(s) == s <==> HasNoWhitespace(s)
    decreases |s|
  {
    if HasNoWhitespace(s) && |s| > 0 {
      SanitizeFixedPoint(s[1..]);
      assert HasNoWhitespace(s[1..]) by {
        forall i | 0 <= i < |s[1..]| ensures !IsWhitespace(s[1..][i]) {
          assert s[1..][i] == s[i + 1];
        }
      }
      assert !IsWhitespace(s[0]);
    }
  }

  /** A whitespace run followed by a non-whitespace character (or by the
      end) is exactly the greedy match at the start. */
  lemma {:induction false} LeadingRunOfRun(w: string, rest: string)
    requires forall i :: 0 <= i < |w| ==> IsWhitespace(w[i])
    requires |rest| == 0 || !IsWhitespace(rest[0])
    ensures LeadingRun(w + rest) == |w|
    decreases |w|
  {
    if |w| > 0 {
      assert (w + rest)[1..] == w[1..] + rest;
      LeadingRunOfRun(w[1..], rest);
    } else {
      assert w + rest == rest;
    }
  }

  /** Where the underscore goes: after a whitespace-free text `a`, a
      maximal whitespace run `w` becomes one `_` in its place, and the
      rest is sanitised on its own. */
  lemma {:induction false} SanitizeRunInPlace(a: string, w: string, rest: string)
    requires HasNoWhitespace(a)
    requires 0 < |w| && forall i :: 0 <= i < |w| ==> IsWhitespace(w[i])
    requires |rest| == 0 || !IsWhitespace(rest[0])
    ensures Sanitize(a + w + rest) == a + "_" + Sanitize(rest)
    decreases |a|
  {
    if |a| == 0 {
      assert a + w + rest == w + rest;
      LeadingRunOfRun(w, rest);
      assert (w + rest)[|w|..] == rest;
    } else {
      assert HasNoWhitespace(a[1..]) by {
        forall i | 0 <= i < |a[1..]| ensures !IsWhitespace(a[1..][i]) {
          assert a[1..][i] == a[i + 1];
        }
      }
      SanitizeRunInPlace(a[1..], w, rest);
      assert !IsWhitespace(a[0]);
      SanitizeCons(a[0], a[1..] + w + rest);
      assert a + w + rest == [a[0]] + (a[1..] + w + rest);
      assert a + "_" + Sanitize(rest) == [a[0]] + (a[1..] + "_" + Sanitize(rest));
    }
  }

  /** Sanitising a sanitised name changes nothing. */
  lemma SanitizeIdempotent(s: string)
    ensures Sanitize(Sanitize(s)) == Sanitize(s)
  {
    SanitizeFixedPoint(Sanitize(s));
  }

  /** A character that is not whitespace is copied as it is. */
  lemma SanitizeCons(c: char, rest: string)
    requires !IsWhitespace(c)
    ensures Sanitize([c] + rest) == [c] + Sanitize(rest)
  {
    assert ([c] + rest)[1..] == rest;
  }

  /** One space between two whitespace-free words becomes one underscore
      and nothing else changes. */
  lemma SanitizeSpaceBetween(a: string, b: string)
    requires HasNoWhitespace(a) && HasNoWhitespace(b)
    ensures Sanitize(a + " " + b) == a + "_" + b
  {
    SanitizeRunInPlace(a, " ", b);
    SanitizeFixedPoint(b);
  }

  /** Printable ASCII other than the space is not whitespace. */
  lemma PrintableAsciiHasNoWhitespace(s: string)
    requires forall i :: 0 <= i < |s| ==> '!' <= s[i] <= '~'
    ensures HasNoWhitespace(s)
  {
  }

  /** The worked example: the space in `My File.png` becomes `_`. */
  lemma SanitizeExample(name: string)
    requires name == "My File.png"
    ensures Sanitize(name) == "My_File.png"
  {
    var word, rest := name[..2], name[3..];
    assert name == word + " " + rest;
    PrintableAsciiHasNoWhitespace(word);
    PrintableAsciiHasNoWhitespace(rest);
    SanitizeSpaceBetween(word, rest);
    assert word + "_" + rest == "My_File.png";
  }
}
