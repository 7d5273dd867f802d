/** The storage key under which a résumé is uploaded:
    `${Date.now()}_${name.replace(/\s+/g, '_')}.${file.name.split('.').pop()}`. */
module StorageKey {
  import Phone

  /** Number of occurrences of `c` in `s`. */
  function Count(s: string, c: char): nat {
    if s == [] then 0 else (if s[0] == c then 1 else 0) + Count(s[1..], c)
  }

  lemma {:induction false} CountZero(s: string, c: char)
    ensures Count(s, c) == 0 <==> c !in s
  {
    if s != [] {
      CountZero(s[1..], c);
      assert s == [s[0]] + s[1..];
    }
  }

  /** The pieces joined back together with `sep` between them. */
  function Join(parts: seq<string>, sep: char): string
    requires |parts| > 0
  {
    if |parts| == 1 then parts[0] else parts[0] + [sep] + Join(parts[1..], sep)
  }

  /** `s.split(sep)`: the maximal `sep`-free pieces, one more than there are separators. */
  function Split(s: string, sep: char): (parts: seq<string>)
    ensures |parts| == Count(s, sep) + 1
    ensures forall i :: 0 <= i < |parts| ==> sep !in parts[i]
    ensures Join(parts, sep) == s
  {
    if s == [] then [[]]
    else
      var rest := Split(s[1..], sep);
      if s[0] == sep then
        assert ([[]] + rest)[1..] == rest;
        [[]] + rest
      else
        var parts := [[s[0]] + rest[0]] + rest[1..];
        assert |rest| > 1 ==> parts[1..] == rest[1..] && Join(rest, sep) == rest[0] + [sep] + Join(rest[1..], sep);
        assert s == [s[0]] + s[1..];
        parts
  }

  /** `file.name.split('.').pop()`: the file extension. It has no dot; it is
      the text after the last dot of the file name when there is one, and the
      whole name otherwise. */
  function Extension(fileName: string): (e: string)
    ensures '.' !in e
    ensures '.' !in fileName ==> e == fileName
    ensures '.' in fileName ==>
      |e| < |fileName| && fileName[|fileName| - |e| - 1] == '.' && fileName[|fileName| - |e|..] == e
  {
    var parts := Split(fileName, '.');
    CountZero(fileName, '.');
    if '.' in fileName then
      JoinEndsWithLast(parts, '.');
      parts[|parts| - 1]
    else
      parts[|parts| - 1]
  }

  lemma {:induction false} JoinEndsWithLast(parts: seq<string>, sep: char)
    requires |parts| > 1
    ensures var j, last := Join(parts, sep), parts[|parts| - 1];
      |last| < |j| && j[|j| - |last| - 1] == sep && j[|j| - |last|..] == last
    decreases |parts|
  {
    if |parts| > 2 {
      JoinEndsWithLast(parts[1..], sep);
    }
  }

  /** A dot-free suffix that follows a dot is the extension. */
  lemma ExtensionOfSuffix(prefix: string, ext: string)
    requires '.' !in ext
    ensures Extension(prefix + "." + ext) == ext
  {
    var s := prefix + "." + ext;
    assert s[|prefix|] == '.';
    var e := Extension(s);
    assert |e| == |ext|;
    assert s[|s| - |ext|..] == ext;
  }

  /** The rest of `s` after its leading run of whitespace. */
  function SkipWhitespace(s: string): (r: string)
    ensures |r| <= |s| && r == s[|s| - |r|..]
    ensures forall i :: 0 <= i < |s| - |r| ==> Phone.IsWhitespace(s[i])
    ensures r == [] || !Phone.IsWhitespace(r[0])
  {
    if s != [] && Phone.IsWhitespace(s[0]) then SkipWhitespace(s[1..]) else s
  }

  /** `s.replace(/\s+/g, '_')`: each maximal run of whitespace becomes one underscore.
      The cleaned name contains no whitespace. */
  function Clean(s: string): (r: string)
    ensures NoWhitespace(r)
    decreases |s|
  {
    if s == [] then []
    else
      var head, tail := if Phone.IsWhitespace(s[0]) then '_' else s[0],
                        if Phone.IsWhitespace(s[0]) then SkipWhitespace(s) else s[1..];
      var r := [head] + Clean(tail);
      assert forall i :: 0 < i < |r| ==> r[i] == Clean(tail)[i - 1];
      r
  }

  predicate NoWhitespace(s: string) {
    forall i :: 0 <= i < |s| ==> !Phone.IsWhitespace(s[i])
  }

  /** Skipping a whitespace run lands on what follows it. */
  lemma {:induction false} SkipWhitespaceRun(w: string, b: string)
    requires forall i :: 0 <= i < |w| ==> Phone.IsWhitespace(w[i])
    requires b == [] || !Phone.IsWhitespace(b[0])
    ensures SkipWhitespace(w + b) == b
    decreases |w|
  {
    var wb := w + b;
    if w == [] {
      assert wb == b;
      if b != [] {
        SkipStop(b);
      }
    } else {
      assert wb[0] == w[0] && wb[1..] == w[1..] + b;
      SkipStep(wb);
      SkipWhitespaceRun(w[1..], b);
    }
  }

  /** A maximal whitespace run, however long, becomes a single underscore. */
  lemma CleanRun(w: string, b: string)
    requires w != [] && forall i :: 0 <= i < |w| ==> Phone.IsWhitespace(w[i])
    requires b == [] || !Phone.IsWhitespace(b[0])
    ensures Clean(w + b) == "_" + Clean(b)
  {
    assert (w + b)[0] == w[0];
    SkipWhitespaceRun(w, b);
  }

  /** A name without whitespace is left as it is. */
  lemma {:induction false} CleanKeepsWhitespaceFree(s: string)
    requires NoWhitespace(s)
    ensures Clean(s) == s
    decreases |s|
  {
    if s != [] {
      assert !Phone.IsWhitespace(s[0]);
      CleanKeepsWhitespaceFree(s[1..]);
      assert s == [s[0]] + s[1..];
    }
  }

  /** Cleaning is idempotent. */
  lemma {:induction false} CleanIdempotent(s: string)
    ensures Clean(Clean(s)) == Clean(s)
  {
    CleanKeepsWhitespaceFree(Clean(s));
  }

  /** `s` with every whitespace character and every underscore dropped. */
  function Erase(s: string): string {
    if s == [] then []
    else if Phone.IsWhitespace(s[0]) || s[0] == '_' then Erase(s[1..])
    else [s[0]] + Erase(s[1..])
  }

  lemma {:induction false} EraseAllWhitespace(s: string, n: nat)
    requires n <= |s|
    requires forall i :: 0 <= i < n ==> Phone.IsWhitespace(s[i])
    ensures Erase(s) == Erase(s[n..])
    decreases n
  {
    if n > 0 {
      EraseAllWhitespace(s[1..], n - 1);
      assert s[1..][n - 1..] == s[n..];
    }
  }

  /** Cleaning only turns whitespace into underscores: every other character
      survives, in order. */
  lemma {:induction false} CleanKeepsText(s: string)
    ensures Erase(Clean(s)) == Erase(s)
    decreases |s|
  {
    if s != [] {
      if Phone.IsWhitespace(s[0]) {
        var r := SkipWhitespace(s);
        CleanKeepsText(r);
        EraseAllWhitespace(s, |s| - |r|);
        assert ("_" + Clean(r))[1..] == Clean(r);
      } else {
        CleanKeepsText(s[1..]);
        assert ([s[0]] + Clean(s[1..]))[1..] == Clean(s[1..]);
      }
    }
  }

  /** Skipping the leading whitespace of `a` is unaffected by what follows,
      as long as `a` does not consist of whitespace only. */
  lemma {:induction false} SkipConcat(a: string, b: string)
    requires SkipWhitespace(a) != []
    ensures SkipWhitespace(a + b) == SkipWhitespace(a) + b
    decreases |a|
  {
    var ab := a + b;
    assert ab[0] == a[0];
    if Phone.IsWhitespace(a[0]) {
      assert ab[1..] == a[1..] + b;
      SkipStep(a);
      SkipStep(ab);
      SkipConcat(a[1..], b);
    } else {
      SkipStop(a);
      SkipStop(ab);
    }
  }

  lemma SkipStep(s: string)
    requires s != [] && Phone.IsWhitespace(s[0])
    ensures SkipWhitespace(s) == SkipWhitespace(s[1..])
  {
  }

  lemma SkipStop(s: string)
    requires s != [] && !Phone.IsWhitespace(s[0])
    ensures SkipWhitespace(s) == s
  {
  }

  /** A character that is not whitespace is kept as it is. */
  lemma CleanKeep(s: string)
    requires s != [] && !Phone.IsWhitespace(s[0])
    ensures Clean(s) == [s[0]] + Clean(s[1..])
  {
  }

  /** A leading whitespace run becomes one underscore. */
  lemma CleanSkip(s: string)
    requires s != [] && Phone.IsWhitespace(s[0])
    ensures Clean(s) == "_" + Clean(SkipWhitespace(s))
  {
  }

  /** Cleaning two pieces separately is cleaning them together, unless the
      cut splits a whitespace run (which would then give two underscores). */
  lemma {:induction false} CleanConcat(a: string, b: string)
    requires a == [] || b == [] || !Phone.IsWhitespace(a[|a| - 1]) || !Phone.IsWhitespace(b[0])
    ensures Clean(a + b) == Clean(a) + Clean(b)
    decreases |a|, 1
  {
    if a == [] {
      assert a + b == b;
    } else if b == [] {
      assert a + b == a;
    } else if !Phone.IsWhitespace(a[0]) {
      CleanConcatWord(a, b);
    } else {
      CleanConcatRun(a, b);
    }
  }

  /** `CleanConcat` when `a` starts with a character that is kept. */
  lemma {:induction false} CleanConcatWord(a: string, b: string)
    requires a != [] && b != [] && !Phone.IsWhitespace(a[0])
    requires !Phone.IsWhitespace(a[|a| - 1]) || !Phone.IsWhitespace(b[0])
    ensures Clean(a + b) == Clean(a) + Clean(b)
    decreases |a|, 0
  {
    var ab := a + b;
    assert ab[0] == a[0] && ab[1..] == a[1..] + b;
    assert a[1..] == [] || a[1..][|a| - 2] == a[|a| - 1];
    CleanKeep(ab);
    CleanConcat(a[1..], b);
    CleanKeep(a);
    AppendAssoc([a[0]], Clean(a[1..]), Clean(b));
  }

  /** `CleanConcat` when `a` starts with a whitespace run. */
  lemma {:induction false} CleanConcatRun(a: string, b: string)
    requires a != [] && b != [] && Phone.IsWhitespace(a[0])
    requires !Phone.IsWhitespace(a[|a| - 1]) || !Phone.IsWhitespace(b[0])
    ensures Clean(a + b) == Clean(a) + Clean(b)
    decreases |a|, 0
  {
    var r := SkipWhitespace(a);
    if r == [] {
      CleanAllWhitespace(a, b);
    } else {
      assert r[|r| - 1] == a[|a| - 1];
      CleanSkipConcat(a, b);
      CleanConcat(r, b);
      CleanSkip(a);
      AppendAssoc("_", Clean(r), Clean(b));
    }
  }

  /** A string of whitespace only cleans to one underscore, also in front of
      text that does not continue the run. */
  lemma CleanAllWhitespace(a: string, b: string)
    requires a != [] && SkipWhitespace(a) == []
    requires b == [] || !Phone.IsWhitespace(b[0])
    ensures Clean(a) == "_" && Clean(a + b) == "_" + Clean(b)
  {
    CleanRun(a, b);
    CleanSkip(a);
  }

  /** Skipping the leading run of `a + b` when `a` holds more than its run. */
  lemma CleanSkipConcat(a: string, b: string)
    requires a != [] && Phone.IsWhitespace(a[0]) && SkipWhitespace(a) != []
    ensures Clean(a + b) == "_" + Clean(SkipWhitespace(a) + b)
  {
    assert (a + b)[0] == a[0];
    CleanSkip(a + b);
    SkipConcat(a, b);
  }

  lemma AppendAssoc<T>(x: seq<T>, y: seq<T>, z: seq<T>)
    ensures x + (y + z) == (x + y) + z
  {
  }

  /** Two words separated by any whitespace run are joined by one underscore. */
  lemma {:induction false} CleanJoinsWords(first: string, gap: string, last: string)
    requires NoWhitespace(first) && NoWhitespace(last)
    requires gap != [] && forall i :: 0 <= i < |gap| ==> Phone.IsWhitespace(gap[i])
    ensures Clean(first + gap + last) == first + "_" + last
    decreases |first|
  {
    if first == [] {
      assert first + gap + last == gap + last;
      CleanRun(gap, last);
      CleanKeepsWhitespaceFree(last);
    } else {
      assert !Phone.IsWhitespace(first[0]);
      CleanJoinsWords(first[1..], gap, last);
      assert (first + gap + last)[1..] == first[1..] + gap + last;
      assert first + "_" + last == [first[0]] + (first[1..] + "_" + last);
    }
  }

  /** A name of three words, such as "Mary Ann Smith", with any whitespace
      runs between them, keeps its words joined by one underscore per gap. */
  lemma CleanThreeWords(first: string, gap1: string, middle: string, gap2: string, last: string)
    requires NoWhitespace(first) && middle != [] && NoWhitespace(middle) && NoWhitespace(last)
    requires gap1 != [] && forall i :: 0 <= i < |gap1| ==> Phone.IsWhitespace(gap1[i])
    requires gap2 != [] && forall i :: 0 <= i < |gap2| ==> Phone.IsWhitespace(gap2[i])
    ensures Clean(first + gap1 + middle + gap2 + last) == first + "_" + middle + "_" + last
  {
    var left := first + gap1 + middle;
    CleanJoinsWords(first, gap1, middle);
    assert left[|left| - 1] == middle[|middle| - 1];
    CleanConcat(left, gap2 + last);
    CleanRun(gap2, last);
    CleanKeepsWhitespaceFree(last);
    AppendAssoc(left, gap2, last);
    AppendAssoc(first + "_" + middle, "_", last);
  }

  /** The character for the digit `d`. */
  function DigitChar(d: nat): (c: char)
    requires d < 10
    ensures Phone.IsDigit(c)
  {
    "0123456789"[d]
  }

  function DigitValue(c: char): nat
    requires Phone.IsDigit(c)
  {
    (c as int) - ('0' as int)
  }

  /** The decimal notation of `n`, as a template literal prints an integer. */
  function Decimal(n: nat): (r: string)
    ensures |r| > 0
    ensures forall i :: 0 <= i < |r| ==> Phone.IsDigit(r[i])
    ensures r[0] == '0' <==> n == 0
    ensures r[0] != '0' || r == "0"
    decreases n
  {
    if n < 10 then [DigitChar(n)] else Decimal(n / 10) + [DigitChar(n % 10)]
  }

  /** The value of a string of decimal digits. */
  function ParseDecimal(s: string): nat
    requires forall i :: 0 <= i < |s| ==> Phone.IsDigit(s[i])
  {
    if s == [] then 0 else 10 * ParseDecimal(s[..|s| - 1]) + DigitValue(s[|s| - 1])
  }

  /** Reading the decimal notation back gives the number. */
  lemma {:induction false} ParseDecimalOfDecimal(n: nat)
    ensures ParseDecimal(Decimal(n)) == n
    decreases n
  {
    if n >= 10 {
      ParseDecimalOfDecimal(n / 10);
      var s := Decimal(n);
      assert s[..|s| - 1] == Decimal(n / 10);
    }
  }

  /** The leading run of digits of `s`. */
  function LeadingDigits(s: string): (r: string)
    ensures forall i :: 0 <= i < |r| ==> Phone.IsDigit(r[i])
  {
    if s != [] && Phone.IsDigit(s[0]) then [s[0]] + LeadingDigits(s[1..]) else []
  }

  lemma {:induction false} LeadingDigitsOfConcat(digits: string, rest: string)
    requires forall i :: 0 <= i < |digits| ==> Phone.IsDigit(digits[i])
    requires rest != [] && !Phone.IsDigit(rest[0])
    ensures LeadingDigits(digits + rest) == digits
    decreases |digits|
  {
    if digits != [] {
      LeadingDigitsOfConcat(digits[1..], rest);
      assert (digits + rest)[1..] == digits[1..] + rest;
    } else {
      assert digits + rest == rest;
    }
  }

  /** The resume bucket of the storage service. */
  const Bucket := "resumes"

  /** The storage key built from the submission time in milliseconds, the
      applicant's name and the selected file's name. It starts with the
      submission time, which can be read back from it. */
  function Key(now: nat, applicantName: string, fileName: string): (key: string)
    ensures KeyTimestamp(key) == now
  {
    var rest := "_" + Clean(applicantName) + "." + Extension(fileName);
    TimestampPrefix(now, rest);
    Decimal(now) + rest
  }

  lemma TimestampPrefix(now: nat, rest: string)
    requires rest != [] && rest[0] == '_'
    ensures KeyTimestamp(Decimal(now) + rest) == now
  {
    LeadingDigitsOfConcat(Decimal(now), rest);
    ParseDecimalOfDecimal(now);
  }

  /** The timestamp the key was built from. */
  function KeyTimestamp(key: string): nat {
    ParseDecimal(LeadingDigits(key))
  }

  /** The key keeps the uploaded file's extension. */
  lemma KeyKeepsExtension(now: nat, applicantName: string, fileName: string)
    ensures Extension(Key(now, applicantName, fileName)) == Extension(fileName)
  {
    var head, ext := Decimal(now) + "_" + Clean(applicantName), Extension(fileName);
    assert Key(now, applicantName, fileName) == Decimal(now) + ("_" + Clean(applicantName) + "." + ext);
    assert Key(now, applicantName, fileName) == head + "." + ext;
    ExtensionOfSuffix(head, ext);
  }

  /** Submissions at different times get different keys, whatever the names. */
  lemma KeysDifferInTime(now1: nat, now2: nat, name1: string, name2: string, file1: string, file2: string)
    requires now1 != now2
    ensures Key(now1, name1, file1) != Key(now2, name2, file2)
  {
    assert KeyTimestamp(Key(now1, name1, file1)) == now1;
  }

  /** The cleaned form of "Jane Doe". */
  lemma JaneDoeCleaned(applicantName: string)
    requires applicantName == "Jane Doe"
    ensures Clean(applicantName) == "Jane_Doe"
  {
    var first, gap, last := applicantName[..4], applicantName[4..5], applicantName[5..];
    assert applicantName == first + gap + last;
    assert NoWhitespace(first) && NoWhitespace(last);
    CleanJoinsWords(first, gap, last);
  }

  /** The extension of "resume.pdf". */
  lemma ResumeExtension(fileName: string)
    requires fileName == "resume.pdf"
    ensures Extension(fileName) == "pdf"
  {
    var stem, ext := fileName[..6], fileName[7..];
    assert fileName == stem + "." + ext;
    ExtensionOfSuffix(stem, ext);
  }

  /** The key of "Jane Doe" uploading "resume.pdf". */
  lemma JaneDoeKey(now: nat, applicantName: string, fileName: string)
    requires applicantName == "Jane Doe" && fileName == "resume.pdf"
    ensures Key(now, applicantName, fileName) == Decimal(now) + "_Jane_Doe.pdf"
  {
    JaneDoeCleaned(applicantName);
    ResumeExtension(fileName);
    assert Key(now, applicantName, fileName) == Decimal(now) + ("_" + "Jane_Doe" + "." + "pdf");
  }
}
