/** The string functions of Go the gateway reads and writes text with: Fields, Join, Split, Cut, Atoi, Itoa. */
module Text {
  import opened Common

  /** unicode.IsSpace. */
  predicate IsSpace(c: char) {
    || '\t' <= c <= '\r' || c == ' ' || c == '\U{85}' || c == '\U{a0}' || c == '\U{1680}'
    || '\U{2000}' <= c <= '\U{200a}' || c == '\U{2028}' || c == '\U{2029}' || c == '\U{202f}'
    || c == '\U{205f}' || c == '\U{3000}'
  }

  ghost predicate IsWord(w: string) {
    w != "" && forall i :: 0 <= i < |w| ==> !IsSpace(w[i])
  }

  /** The longest prefix without white space. */
  function FirstWord(s: string): (w: string)
    ensures w <= s
    ensures forall i :: 0 <= i < |w| ==> !IsSpace(w[i])
    ensures |w| < |s| ==> IsSpace(s[|w|])
  {
    if s == "" || IsSpace(s[0]) then "" else [s[0]] + FirstWord(s[1..])
  }

  /** strings.Fields: the words between runs of white space. */
  function Fields(s: string): seq<string> {
    if s == "" then []
    else if IsSpace(s[0]) then Fields(s[1..])
    else var w := FirstWord(s); [w] + Fields(s[|w|..])
  }

  function Join(parts: seq<string>, sep: char): string {
    if parts == [] then ""
    else if |parts| == 1 then parts[0]
    else parts[0] + [sep] + Join(parts[1..], sep)
  }

  /** The text before the first separator, and all of it if there is none. */
  function Until(s: string, sep: char): (prefix: string)
    ensures prefix <= s && sep !in prefix
    ensures |prefix| < |s| ==> s[|prefix|] == sep
  {
    if s == "" || s[0] == sep then "" else [s[0]] + Until(s[1..], sep)
  }

  /** strings.Split: one part more than there are separators. */
  function Split(s: string, sep: char): (parts: seq<string>)
    ensures |parts| > 0
  {
    var first := Until(s, sep);
    if |first| == |s| then [s] else [first] + Split(s[|first| + 1..], sep)
  }

  /** strings.Cut: the texts on both sides of the first separator. */
  function Cut(s: string, sep: char): Option<(string, string)> {
    var first := Until(s, sep);
    if |first| == |s| then None else Some((first, s[|first| + 1..]))
  }

  lemma {:induction false} FieldsAreWords(s: string)
    ensures forall i :: 0 <= i < |Fields(s)| ==> IsWord(Fields(s)[i])
    decreases |s|
  {
    if s != "" {
      if IsSpace(s[0]) {
        FieldsAreWords(s[1..]);
      } else {
        var w := FirstWord(s);
        assert w[0] == s[0];
        FieldsAreWords(s[|w|..]);
      }
    }
  }

  lemma {:induction false} FirstWordOf(w: string, rest: string)
    requires forall i :: 0 <= i < |w| ==> !IsSpace(w[i])
    requires rest == "" || IsSpace(rest[0])
    ensures FirstWord(w + rest) == w
  {
    if w == "" {
      assert w + rest == rest;
    } else {
      assert (w + rest)[1..] == w[1..] + rest;
      FirstWordOf(w[1..], rest);
    }
  }

  ghost predicate IsBlank(s: string) {
    forall i :: 0 <= i < |s| ==> IsSpace(s[i])
  }

  /** White space before the rest gives no field. */
  lemma {:induction false} FieldsAfterBlank(blank: string, rest: string)
    requires IsBlank(blank)
    ensures Fields(blank + rest) == Fields(rest)
    decreases |blank|
  {
    if blank == "" {
      assert blank + rest == rest;
    } else {
      assert (blank + rest)[1..] == blank[1..] + rest;
      FieldsAfterBlank(blank[1..], rest);
    }
  }

  /** A word before white space, or at the end, gives one field. */
  lemma FieldsAfterWord(w: string, rest: string)
    requires IsWord(w) && (rest == "" || IsSpace(rest[0]))
    ensures Fields(w + rest) == [w] + Fields(rest)
  {
    FirstWordOf(w, rest);
    assert (w + rest)[0] == w[0];
    assert (w + rest)[|w|..] == rest;
  }

  /** Joining words with a blank and taking the fields gives the words back. */
  lemma {:induction false} FieldsOfJoin(words: seq<string>)
    requires forall i :: 0 <= i < |words| ==> IsWord(words[i])
    ensures Fields(Join(words, ' ')) == words
  {
    if words != [] {
      var w, rest := words[0], words[1..];
      var tail := if rest == [] then "" else [' '] + Join(rest, ' ');
      assert Join(words, ' ') == w + tail;
      FirstWordOf(w, tail);
      FieldsOfJoin(rest);
      assert (w + tail)[0] == w[0];
      assert (w + tail)[|w|..] == tail;
      if rest != [] {
        assert tail[1..] == Join(rest, ' ');
        assert Fields(tail) == Fields(tail[1..]);
      }
      assert words == [w] + rest;
    }
  }

  lemma {:induction false} UntilOf(prefix: string, rest: string, sep: char)
    requires sep !in prefix && (rest == "" || rest[0] == sep)
    ensures Until(prefix + rest, sep) == prefix
  {
    if prefix == "" {
      assert prefix + rest == rest;
    } else {
      assert (prefix + rest)[1..] == prefix[1..] + rest;
      UntilOf(prefix[1..], rest, sep);
    }
  }

  /** Cutting at the first separator is the inverse of writing one between two texts, the first without it. */
  lemma CutOf(before: string, after: string, sep: char)
    requires sep !in before
    ensures Cut(before + [sep] + after, sep) == Some((before, after))
  {
    UntilOf(before, [sep] + after, sep);
    assert before + [sep] + after == before + ([sep] + after);
  }

  lemma JoinOfCut(s: string, sep: char)
    ensures match Cut(s, sep)
            case None => sep !in s
            case Some((before, after)) => sep !in before && s == before + [sep] + after
  {
    var first := Until(s, sep);
    if |first| == |s| {
      assert first == s;
    } else {
      assert s == first + [sep] + s[|first| + 1..];
    }
  }

  /** Splitting undoes joining when no part holds the separator. */
  lemma {:induction false} SplitOfJoin(parts: seq<string>, sep: char)
    requires parts != [] && forall i :: 0 <= i < |parts| ==> sep !in parts[i]
    ensures Split(Join(parts, sep), sep) == parts
  {
    var first, rest := parts[0], parts[1..];
    assert parts == [first] + rest;
    if rest == [] {
      UntilOf(first, "", sep);
      assert first + "" == first;
    } else {
      var text := Join(parts, sep);
      UntilOf(first, [sep] + Join(rest, sep), sep);
      assert text == first + ([sep] + Join(rest, sep));
      assert text[|first| + 1..] == Join(rest, sep);
      SplitOfJoin(rest, sep);
    }
  }

  /** Joining undoes splitting, and no part of a split holds the separator. */
  lemma {:induction false} JoinOfSplit(s: string, sep: char)
    ensures Join(Split(s, sep), sep) == s
    ensures forall i :: 0 <= i < |Split(s, sep)| ==> sep !in Split(s, sep)[i]
    decreases |s|
  {
    var first := Until(s, sep);
    if |first| == |s| {
      assert first == s;
    } else {
      var rest := s[|first| + 1..];
      JoinOfSplit(rest, sep);
      assert Split(s, sep)[1..] == Split(rest, sep);
      assert s == first + [sep] + rest;
    }
  }

  const MAX_INT64 := 0x7FFF_FFFF_FFFF_FFFF

  predicate IsDigit(c: char) {
    '0' <= c <= '9'
  }

  predicate AllDigits(s: string) {
    forall i :: 0 <= i < |s| ==> IsDigit(s[i])
  }

  /** The value of a digit string. */
  function Decimal(s: string): nat
    requires AllDigits(s)
  {
    if s == "" then 0 else 10 * Decimal(s[..|s| - 1]) + (s[|s| - 1] - '0') as nat
  }

  /** strconv.Atoi: an optional sign and at least one digit, within 64 bits; leading zeros are allowed. */
  function Atoi(s: string): Option<int> {
    var negative := s != "" && s[0] == '-';
    var digits := if s != "" && (s[0] == '-' || s[0] == '+') then s[1..] else s;
    if digits == "" || !AllDigits(digits) then None else
    var n: int := if negative then -(Decimal(digits) as int) else Decimal(digits);
    if -MAX_INT64 - 1 <= n <= MAX_INT64 then Some(n) else None
  }

  /** strconv.Itoa of a non-negative number: its canonical decimal. */
  function Itoa(n: nat): (s: string)
    ensures s != "" && AllDigits(s)
  {
    var digit := [('0' as int + n % 10) as char];
    if n < 10 then digit else Itoa(n / 10) + digit
  }

  lemma {:induction false} DecimalOfItoa(n: nat)
    ensures Decimal(Itoa(n)) == n
  {
    var s := Itoa(n);
    if n >= 10 {
      DecimalOfItoa(n / 10);
      assert s[..|s| - 1] == Itoa(n / 10);
    } else {
      assert s[..|s| - 1] == "";
    }
  }

  /** Digits without a leading zero, unless there is but one. */
  predicate Canonical(s: string) {
    s != "" && AllDigits(s) && (|s| == 1 || s[0] != '0')
  }

  lemma {:induction false} ItoaIsCanonical(n: nat)
    ensures Canonical(Itoa(n)) && (n > 0 ==> Itoa(n)[0] != '0')
  {
    if n >= 10 {
      ItoaIsCanonical(n / 10);
      assert Itoa(n)[0] == Itoa(n / 10)[0];
    }
  }

  lemma {:induction false} ItoaOfDecimal(s: string)
    requires Canonical(s)
    ensures Itoa(Decimal(s)) == s
  {
    var front, last := s[..|s| - 1], s[|s| - 1];
    assert s == front + [last];
    if |s| == 1 {
      assert Decimal(front) == 0;
    } else {
      ItoaOfDecimal(front);
      assert front[0] == s[0];
      assert Decimal(front) > 0;
      assert Decimal(s) / 10 == Decimal(front) && Decimal(s) % 10 == (last - '0') as int;
    }
  }

  /** Writing a number gives the one canonical text of that value. */
  lemma ItoaExactly(s: string, n: nat)
    ensures s == Itoa(n) <==> Canonical(s) && Decimal(s) == n
  {
    ItoaIsCanonical(n);
    DecimalOfItoa(n);
    if Canonical(s) {
      ItoaOfDecimal(s);
    }
  }
}
