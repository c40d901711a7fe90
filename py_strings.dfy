/**
 * The few Python string operations the parsers rely on, with their exact
 * Python semantics: `str.strip()`, `str.strip(chars)`, `str.startswith`,
 * `str.endswith`, `str.split(sep)`, `str.split()` and `str(n)` for a
 * non-negative integer.
 */
module PyStrings {

  /** Python's `str.isspace()` for one character (ASCII and Unicode white space). */
  predicate IsSpace(c: char) {
    var n := c as int;
    (9 <= n <= 13) || (28 <= n <= 32) || n == 0x85 || n == 0xA0 || n == 0x1680
    || (0x2000 <= n <= 0x200A) || n == 0x2028 || n == 0x2029 || n == 0x202F
    || n == 0x205F || n == 0x3000
  }

  /** `s.startswith(prefix)`, compared character by character. */
  predicate StartsWith(s: string, prefix: string) {
    |prefix| == 0 || (|s| > 0 && s[0] == prefix[0] && StartsWith(s[1..], prefix[1..]))
  }

  /** `s.endswith(suffix)`, compared character by character from the end. */
  predicate EndsWith(s: string, suffix: string) {
    |suffix| == 0
    || (|s| > 0 && s[|s| - 1] == suffix[|suffix| - 1]
        && EndsWith(s[..|s| - 1], suffix[..|suffix| - 1]))
  }

  /** `StartsWith` holds exactly when `prefix` is the first `|prefix|` characters of `s`. */
  lemma {:induction false} StartsWithIsPrefix(s: string, prefix: string)
    ensures StartsWith(s, prefix) <==> |prefix| <= |s| && s[..|prefix|] == prefix
  {
    if |prefix| > 0 && |s| > 0 {
      StartsWithIsPrefix(s[1..], prefix[1..]);
      if |prefix| <= |s| {
        assert s[..|prefix|] == [s[0]] + s[1..][..|prefix| - 1];
        assert prefix == [prefix[0]] + prefix[1..];
      }
    }
  }

  /** `EndsWith` holds exactly when `suffix` is the last `|suffix|` characters of `s`. */
  lemma {:induction false} EndsWithIsSuffix(s: string, suffix: string)
    ensures EndsWith(s, suffix) <==> |suffix| <= |s| && s[|s| - |suffix|..] == suffix
  {
    if |suffix| > 0 && |s| > 0 {
      var s', x' := s[..|s| - 1], suffix[..|suffix| - 1];
      EndsWithIsSuffix(s', x');
      if |suffix| <= |s| {
        assert s[|s| - |suffix|..] == s'[|s'| - |x'|..] + [s[|s| - 1]];
        assert suffix == x' + [suffix[|suffix| - 1]];
      }
    }
  }

  /** The characters a strip removes: white space (`strip()`) or one given character (`strip(c)`). */
  datatype Stripped = WhiteSpace | OnlyChar(c: char)

  predicate Drops(what: Stripped, x: char) {
    match what
    case WhiteSpace => IsSpace(x)
    case OnlyChar(c) => x == c
  }

  /** How many leading characters the strip removes. */
  function LeadCount(s: string, what: Stripped): (n: nat)
    ensures n <= |s|
  {
    if |s| > 0 && Drops(what, s[0]) then 1 + LeadCount(s[1..], what) else 0
  }

  /** Drops the leading characters that the strip removes. */
  function TrimLeft(s: string, what: Stripped): string {
    s[LeadCount(s, what)..]
  }

  /** `TrimLeft` removes only dropped characters and stops at a kept one (or the end). */
  lemma {:induction false} TrimLeftRemovesRun(s: string, what: Stripped)
    ensures forall k :: 0 <= k < LeadCount(s, what) ==> Drops(what, s[k])
    ensures LeadCount(s, what) == |s| || !Drops(what, s[LeadCount(s, what)])
  {
    if |s| > 0 && Drops(what, s[0]) {
      TrimLeftRemovesRun(s[1..], what);
      forall k | 0 <= k < LeadCount(s, what) ensures Drops(what, s[k]) {
        if k > 0 { assert s[k] == s[1..][k - 1]; }
      }
    }
  }

  /** How many trailing characters the strip removes. */
  function TrailCount(s: string, what: Stripped): (n: nat)
    ensures n <= |s|
  {
    if |s| > 0 && Drops(what, s[|s| - 1]) then 1 + TrailCount(s[..|s| - 1], what) else 0
  }

  /** Drops the trailing characters that the strip removes. */
  function TrimRight(s: string, what: Stripped): string {
    s[..|s| - TrailCount(s, what)]
  }

  /** `TrimRight` removes only dropped characters and stops at a kept one (or the start). */
  lemma {:induction false} TrimRightRemovesRun(s: string, what: Stripped)
    ensures forall k :: |s| - TrailCount(s, what) <= k < |s| ==> Drops(what, s[k])
    ensures TrailCount(s, what) == |s| || !Drops(what, s[|s| - TrailCount(s, what) - 1])
  {
    if |s| > 0 && Drops(what, s[|s| - 1]) {
      TrimRightRemovesRun(s[..|s| - 1], what);
      forall k | |s| - TrailCount(s, what) <= k < |s| ensures Drops(what, s[k]) {
        if k < |s| - 1 { assert s[k] == s[..|s| - 1][k]; }
      }
    }
  }

  /** `s.strip()`: leading and trailing white space removed. */
  function Strip(s: string): string {
    TrimRight(TrimLeft(s, WhiteSpace), WhiteSpace)
  }

  /** `s.strip(c)` for a one-character argument. */
  function StripChar(s: string, c: char): string {
    TrimRight(TrimLeft(s, OnlyChar(c)), OnlyChar(c))
  }

  /** The pieces of `parts` joined with `sep` between them: Python's `sep.join(parts)`. */
  function Join(parts: seq<string>, sep: char): string
    requires |parts| >= 1
  {
    if |parts| == 1 then parts[0] else parts[0] + [sep] + Join(parts[1..], sep)
  }

  /** `s.split(sep)` for a one-character separator: never empty, and no piece holds `sep`. */
  function Split(s: string, sep: char): (r: seq<string>)
    ensures |r| >= 1
  {
    if |s| == 0 then [""]
    else
      var rest := Split(s[1..], sep);
      if s[0] == sep then [""] + rest else [[s[0]] + rest[0]] + rest[1..]
  }

  /** No piece `Split` returns holds the separator. */
  lemma {:induction false} SplitHasNoSeparator(s: string, sep: char)
    ensures forall i :: 0 <= i < |Split(s, sep)| ==> sep !in Split(s, sep)[i]
  {
    if |s| > 0 {
      SplitHasNoSeparator(s[1..], sep);
    }
  }

  /** Joining what `Split` returns with the same separator gives back the string. */
  lemma {:induction false} JoinSplit(s: string, sep: char)
    ensures Join(Split(s, sep), sep) == s
  {
    if |s| > 0 {
      var rest := Split(s[1..], sep);
      JoinSplit(s[1..], sep);
      if s[0] != sep {
        var r := Split(s, sep);
        assert r == [[s[0]] + rest[0]] + rest[1..];
        if |rest| == 1 {
          assert Join(r, sep) == [s[0]] + rest[0];
        } else {
          assert r[1..] == rest[1..];
          assert Join(r, sep) == [s[0]] + rest[0] + [sep] + Join(rest[1..], sep);
        }
      }
    }
  }

  /** Splitting pieces that hold no separator after joining them gives the pieces back. */
  lemma {:induction false} SplitJoin(parts: seq<string>, sep: char)
    requires |parts| >= 1
    requires forall i :: 0 <= i < |parts| ==> sep !in parts[i]
    ensures Split(Join(parts, sep), sep) == parts
  {
    if |parts| == 1 {
      SplitNoSeparator(parts[0], sep);
    } else {
      SplitJoin(parts[1..], sep);
      SplitAfterSeparator(parts[0], Join(parts[1..], sep), sep);
    }
  }

  lemma {:induction false} SplitNoSeparator(s: string, sep: char)
    requires sep !in s
    ensures Split(s, sep) == [s]
  {
    if |s| > 0 {
      assert sep !in s[1..] by { assert forall k :: 0 <= k < |s| - 1 ==> s[1..][k] == s[k + 1]; }
      SplitNoSeparator(s[1..], sep);
      assert [s[0]] + s[1..] == s;
    }
  }

  lemma {:induction false} SplitAfterSeparator(w: string, t: string, sep: char)
    requires sep !in w
    ensures Split(w + [sep] + t, sep) == [w] + Split(t, sep)
  {
    var s := w + [sep] + t;
    if |w| == 0 {
      assert s[1..] == t;
    } else {
      assert s[1..] == w[1..] + [sep] + t;
      assert sep !in w[1..] by { assert forall k :: 0 <= k < |w| - 1 ==> w[1..][k] == w[k + 1]; }
      SplitAfterSeparator(w[1..], t, sep);
      assert [w[0]] + w[1..] == w;
    }
  }

  /** The length of the longest prefix of `s` without white space. */
  function WordLength(s: string): (n: nat)
    ensures n <= |s|
  {
    if |s| == 0 || IsSpace(s[0]) then 0 else 1 + WordLength(s[1..])
  }

  /** The longest prefix of `s` without white space. */
  function Word(s: string): string {
    s[..WordLength(s)]
  }

  /** `Word` holds no white space and ends at white space or at the end of `s`. */
  lemma {:induction false} WordIsMaximalRun(s: string)
    ensures forall k :: 0 <= k < WordLength(s) ==> !IsSpace(s[k])
    ensures WordLength(s) == |s| || IsSpace(s[WordLength(s)])
  {
    if |s| > 0 && !IsSpace(s[0]) {
      WordIsMaximalRun(s[1..]);
      forall k | 0 <= k < WordLength(s) ensures !IsSpace(s[k]) {
        if k > 0 { assert s[k] == s[1..][k - 1]; }
      }
    }
  }

  /** The characters of `s` that are not white space, in order. */
  function NonSpace(s: string): string {
    if |s| == 0 then [] else (if IsSpace(s[0]) then [] else [s[0]]) + NonSpace(s[1..])
  }

  function Concat(parts: seq<string>): string {
    if |parts| == 0 then [] else parts[0] + Concat(parts[1..])
  }

  /** A non-empty run of characters none of which is white space. */
  predicate IsWord(w: string) {
    w != [] && forall k :: 0 <= k < |w| ==> !IsSpace(w[k])
  }

  /** `s.split()`: the maximal runs of non-white-space characters, in order. */
  function Words(s: string): seq<string>
    decreases |s|
  {
    var t := TrimLeft(s, WhiteSpace);
    if t == [] then []
    else
      var w := Word(t);
      assert w != [] by { TrimLeftRemovesRun(s, WhiteSpace); assert !IsSpace(t[0]); }
      [w] + Words(t[|w|..])
  }

  /** Every piece `s.split()` returns is a non-empty run without white space. */
  lemma {:induction false} WordsAreWords(s: string)
    ensures forall i :: 0 <= i < |Words(s)| ==> IsWord(Words(s)[i])
    decreases |s|
  {
    var t := TrimLeft(s, WhiteSpace);
    if t != [] {
      var w := Word(t);
      assert IsWord(w) by { FirstWordIsWord(s); }
      var rest := Words(t[|w|..]);
      WordsAreWords(t[|w|..]);
      var r := Words(s);
      assert r == [w] + rest;
      forall i | 0 <= i < |r| ensures IsWord(r[i]) {
        if i > 0 { assert r[i] == rest[i - 1]; }
      }
    }
  }

  /** The run `Words` takes first is a word. */
  lemma FirstWordIsWord(s: string)
    requires TrimLeft(s, WhiteSpace) != []
    ensures IsWord(Word(TrimLeft(s, WhiteSpace)))
  {
    var t := TrimLeft(s, WhiteSpace);
    TrimLeftRemovesRun(s, WhiteSpace);
    assert !IsSpace(t[0]);
    WordIsMaximalRun(t);
  }

  lemma {:induction false} NonSpaceAppend(a: string, b: string)
    ensures NonSpace(a + b) == NonSpace(a) + NonSpace(b)
  {
    if |a| > 0 {
      assert (a + b)[1..] == a[1..] + b;
      NonSpaceAppend(a[1..], b);
    } else {
      assert a + b == b;
    }
  }

  lemma {:induction false} NonSpaceAllSpace(s: string)
    requires forall k :: 0 <= k < |s| ==> IsSpace(s[k])
    ensures NonSpace(s) == []
  {
    if |s| > 0 { NonSpaceAllSpace(s[1..]); }
  }

  lemma {:induction false} NonSpaceNoSpace(s: string)
    requires forall k :: 0 <= k < |s| ==> !IsSpace(s[k])
    ensures NonSpace(s) == s
  {
    if |s| > 0 { NonSpaceNoSpace(s[1..]); }
  }

  /** The words `s.split()` returns, laid end to end, are exactly the
      non-white-space characters of `s`: nothing is lost, nothing reordered. */
  lemma {:induction false} WordsKeepNonSpace(s: string)
    ensures Concat(Words(s)) == NonSpace(s)
    decreases |s|
  {
    var t := TrimLeft(s, WhiteSpace);
    NonSpaceSkipsLead(s);
    if t != [] {
      var w := Word(t);
      TrimLeftRemovesRun(s, WhiteSpace);
      NonSpaceOfWord(t);
      WordsKeepNonSpace(t[|w|..]);
      var ws := Words(s);
      assert ws == [w] + Words(t[|w|..]);
      assert ws[0] == w && ws[1..] == Words(t[|w|..]);
    }
  }

  /** Leading white space adds nothing to the non-white-space characters. */
  lemma NonSpaceSkipsLead(s: string)
    ensures NonSpace(s) == NonSpace(TrimLeft(s, WhiteSpace))
  {
    var t := TrimLeft(s, WhiteSpace);
    var skipped := s[..|s| - |t|];
    assert s == skipped + t;
    NonSpaceAppend(skipped, t);
    TrimLeftRemovesRun(s, WhiteSpace);
    NonSpaceAllSpace(skipped);
  }

  /** A string that starts with a word keeps all of that word, then the
      non-white-space characters after it. */
  lemma NonSpaceOfWord(t: string)
    requires t != [] && !IsSpace(t[0])
    ensures NonSpace(t) == Word(t) + NonSpace(t[|Word(t)|..])
  {
    var w := Word(t);
    WordIsMaximalRun(t);
    assert t == w + t[|w|..];
    NonSpaceAppend(w, t[|w|..]);
    NonSpaceNoSpace(w);
  }

  /** Leading white space of `x + y`: that of `x`, or all of `x` and then that of `y`. */
  lemma {:induction false} LeadCountAppend(x: string, y: string)
    ensures LeadCount(x + y, WhiteSpace) ==
      if LeadCount(x, WhiteSpace) < |x| then LeadCount(x, WhiteSpace) else |x| + LeadCount(y, WhiteSpace)
  {
    if |x| > 0 {
      assert (x + y)[0] == x[0] && (x + y)[1..] == x[1..] + y;
      LeadCountAppend(x[1..], y);
    } else {
      assert x + y == y;
    }
  }

  /** The first word of `x + y`: within `x`, or all of `x` and then the first word of `y`. */
  lemma {:induction false} WordLengthAppend(x: string, y: string)
    ensures WordLength(x + y) == if WordLength(x) < |x| then WordLength(x) else |x| + WordLength(y)
  {
    if |x| > 0 {
      assert (x + y)[0] == x[0] && (x + y)[1..] == x[1..] + y;
      WordLengthAppend(x[1..], y);
    } else {
      assert x + y == y;
    }
  }

  /** A string without white space is one word: `"GSM1".split() == ["GSM1"]`. */
  lemma WordsOfWord(w: string)
    requires IsWord(w)
    ensures Words(w) == [w]
  {
    assert LeadCount(w, WhiteSpace) == 0;
    assert TrimLeft(w, WhiteSpace) == w;
    WordLengthAppend(w, []);
    assert WordLength(w) == |w| by { WordLengthOfWord(w); }
    assert Word(w) == w;
    assert Words(w[|w|..]) == [];
  }

  lemma {:induction false} WordLengthOfWord(w: string)
    requires forall k :: 0 <= k < |w| ==> !IsSpace(w[k])
    ensures WordLength(w) == |w|
  {
    if |w| > 0 {
      WordLengthOfWord(w[1..]);
    }
  }

  /** White space before a white-space character and `b` leaves exactly the words of `b`. */
  lemma WordsAfterSpaceRun(a: string, c: char, b: string)
    requires LeadCount(a, WhiteSpace) == |a| && IsSpace(c)
    ensures Words(a + [c] + b) == Words(b)
  {
    assert a + [c] + b == a + ([c] + b);
    LeadCountAppend(a, [c] + b);
    assert ([c] + b)[1..] == b;
    assert TrimLeft(a + [c] + b, WhiteSpace) == TrimLeft(b, WhiteSpace);
  }

  /**
   * When `a` holds a word, `a + [c] + b` starts with that same word (the
   * white-space `c` ends it at the latest), and what follows it is the rest
   * of `a`, then `c`, then `b`.
   */
  lemma WordBeforeSpace(a: string, c: char, b: string)
    requires LeadCount(a, WhiteSpace) < |a| && IsSpace(c)
    ensures var t := TrimLeft(a, WhiteSpace);
      var w := Word(t);
      w != []
      && Words(a) == [w] + Words(t[|w|..])
      && Words(a + [c] + b) == [w] + Words(t[|w|..] + [c] + b)
  {
    var t := TrimLeft(a, WhiteSpace);
    var w := Word(t);
    assert w != [] by { FirstWordIsWord(a); }
    assert a + [c] + b == a + ([c] + b);
    LeadCountAppend(a, [c] + b);
    assert TrimLeft(a + [c] + b, WhiteSpace) == t + ([c] + b);
    WordLengthAppend(t, [c] + b);
    assert Word(t + ([c] + b)) == w;
    assert (t + ([c] + b))[|w|..] == t[|w|..] + [c] + b;
  }

  /**
   * `split()` breaks at every white-space character: the words of `a`, a
   * white-space character, then `b` are the words of `a` followed by those
   * of `b`. So `"GSM1 GSM2".split()` is `["GSM1", "GSM2"]`.
   */
  lemma {:induction false} WordsAcrossSpace(a: string, c: char, b: string)
    requires IsSpace(c)
    ensures Words(a + [c] + b) == Words(a) + Words(b)
    decreases |a|
  {
    if LeadCount(a, WhiteSpace) == |a| {
      WordsAfterSpaceRun(a, c, b);
      assert Words(a) == [];
    } else {
      WordBeforeSpace(a, c, b);
      var t := TrimLeft(a, WhiteSpace);
      var w := Word(t);
      WordsAcrossSpace(t[|w|..], c, b);
      AppendAssociates([w], Words(t[|w|..]), Words(b));
    }
  }

  lemma AppendAssociates<T>(x: seq<T>, y: seq<T>, z: seq<T>)
    ensures x + (y + z) == (x + y) + z
  {
  }

  /** The digit character for `d`. */
  function DigitChar(d: nat): char
    requires d < 10
  {
    ['0', '1', '2', '3', '4', '5', '6', '7', '8', '9'][d]
  }

  function DigitValue(c: char): nat {
    if '0' <= c <= '9' then (c as int - '0' as int) as nat else 0
  }

  /** `str(n)` for a non-negative integer: its decimal digits, no leading zero. */
  function Decimal(n: nat): (r: string)
    ensures |r| >= 1
    ensures forall k :: 0 <= k < |r| ==> '0' <= r[k] <= '9'
  {
    if n < 10 then [DigitChar(n)] else Decimal(n / 10) + [DigitChar(n % 10)]
  }

  /** The value of a string of decimal digits: Python's `int(s)` on such a string. */
  function ParseDecimal(s: string): nat {
    if |s| == 0 then 0 else ParseDecimal(s[..|s| - 1]) * 10 + DigitValue(s[|s| - 1])
  }

  /** `int(str(n)) == n`. */
  lemma {:induction false} ParseDecimalOfDecimal(n: nat)
    ensures ParseDecimal(Decimal(n)) == n
  {
    if n < 10 {
      DigitRoundTrip(n);
      assert Decimal(n)[..0] == [];
    } else {
      var r := Decimal(n);
      assert r[..|r| - 1] == Decimal(n / 10);
      ParseDecimalOfDecimal(n / 10);
      DigitRoundTrip(n % 10);
      assert ParseDecimal(r) == (n / 10) * 10 + n % 10;
    }
  }

  lemma DigitRoundTrip(d: nat)
    requires d < 10
    ensures DigitValue(DigitChar(d)) == d
  {
  }

  /** Different numbers have different decimal strings. */
  lemma DecimalInjective(m: nat, n: nat)
    requires Decimal(m) == Decimal(n)
    ensures m == n
  {
    ParseDecimalOfDecimal(m);
    ParseDecimalOfDecimal(n);
  }
}
