/** The few Python built-ins the warehouse core relies on, restricted to ASCII:
    `str.strip()`/`str.split()` (whitespace and tokens), `str.upper()`,
    `str(int)` and `int(str)`, `sep.join(...)`, and the code-point ordering
    that `sorted` applies to strings. */
module Text {

  datatype Option<+T> = None | Some(value: T)

  // ---------------------------------------------------------------------------
  // Whitespace and tokens
  // ---------------------------------------------------------------------------

  /** The ASCII characters Python treats as whitespace: \t \n \v \f \r,
      the separators \x1c-\x1f, and the space. */
  predicate IsSpace(c: char) {
    9 <= c as int <= 13 || 28 <= c as int <= 32
  }

  /** `s.strip()` is empty */
  predicate IsBlank(s: string) {
    forall i | 0 <= i < |s| :: IsSpace(s[i])
  }

  predicate NoSpace(s: string) {
    forall i | 0 <= i < |s| :: !IsSpace(s[i])
  }

  /** Length of the maximal run of non-whitespace characters at the front of `s`. */
  function TokenLength(s: string): (n: nat)
    ensures n <= |s|
    ensures NoSpace(s[..n])
    ensures n == |s| || IsSpace(s[n])
  {
    if s == [] || IsSpace(s[0]) then 0
    else
      var m := TokenLength(s[1..]);
      assert s[..m + 1] == [s[0]] + s[1..][..m];
      m + 1
  }

  /** `s.split()`: the maximal runs of non-whitespace characters, in order. */
  function Split(s: string): (words: seq<string>)
    ensures forall w | w in words :: w != [] && NoSpace(w)
    decreases |s|
  {
    if s == [] then []
    else if IsSpace(s[0]) then Split(s[1..])
    else
      var n := TokenLength(s);
      [s[..n]] + Split(s[n..])
  }

  /** `sep.join(parts)` */
  function Join(parts: seq<string>, sep: string): (r: string)
    ensures parts == [] ==> r == []
    ensures parts != [] ==> parts[0] <= r
  {
    if parts == [] then ""
    else if |parts| == 1 then parts[0]
    else parts[0] + sep + Join(parts[1..], sep)
  }

  /** A line that strips to nothing is exactly a line with no tokens. */
  lemma {:induction false} BlankIffNoWords(s: string)
    ensures IsBlank(s) <==> Split(s) == []
    decreases |s|
  {
    if s != [] && IsSpace(s[0]) {
      BlankIffNoWords(s[1..]);
      assert IsBlank(s) <==> IsBlank(s[1..]) by {
        if IsBlank(s[1..]) {
          forall i | 0 <= i < |s| ensures IsSpace(s[i]) {
            if i > 0 { assert s[i] == s[1..][i - 1]; }
          }
        }
      }
    }
  }

  lemma TokenLengthOfWord(w: string, rest: string)
    requires NoSpace(w)
    requires rest == [] || IsSpace(rest[0])
    ensures TokenLength(w + rest) == |w|
    decreases |w|
  {
    if w != [] {
      assert (w + rest)[1..] == w[1..] + rest;
      TokenLengthOfWord(w[1..], rest);
    }
  }

  /** A single word splits into itself. */
  lemma SingleWord(w: string)
    requires w != [] && NoSpace(w)
    ensures Split(w) == [w]
  {
    assert Join([w], " ") == w;
    SplitJoin([w]);
  }

  /** A word followed by a space splits into that word, then whatever
      follows splits into. */
  lemma WordThenSpace(w: string, rest: string)
    requires w != [] && NoSpace(w)
    ensures Split(w + " " + rest) == [w] + Split(rest)
  {
    var s := w + " " + rest;
    assert s == w + (" " + rest);
    TokenLengthOfWord(w, " " + rest);
    assert s[..|w|] == w;
    assert s[|w|..] == " " + rest;
    assert (" " + rest)[1..] == rest;
  }

  /** Splitting words joined by single spaces gives the words back. */
  lemma {:induction false} SplitJoin(words: seq<string>)
    requires forall w | w in words :: w != [] && NoSpace(w)
    ensures Split(Join(words, " ")) == words
  {
    if |words| == 1 {
      var w := words[0];
      TokenLengthOfWord(w, []);
      assert w + [] == w;
      assert w[|w|..] == [];
    } else if |words| > 1 {
      assert forall v | v in words[1..] :: v in words;
      SplitJoin(words[1..]);
      assert Join(words, " ") == words[0] + " " + Join(words[1..], " ");
      assert words[0] in words;
      WordThenSpace(words[0], Join(words[1..], " "));
      assert words == [words[0]] + words[1..];
    }
  }

  /** A token ends where `s` ends or at a whitespace character, so whatever
      follows a whitespace character does not change it. */
  lemma {:induction false} TokenLengthAppend(a: string, t: string)
    requires t == [] || IsSpace(t[0])
    ensures TokenLength(a + t) == TokenLength(a)
    decreases |a|
  {
    if a == [] {
      assert a + t == t;
    } else if !IsSpace(a[0]) {
      assert (a + t)[1..] == a[1..] + t;
      TokenLengthAppend(a[1..], t);
    }
  }

  /** Splitting around a whitespace character splits each side on its own. */
  lemma {:induction false} SplitAroundSpace(a: string, c: char, b: string)
    requires IsSpace(c)
    ensures Split(a + [c] + b) == Split(a) + Split(b)
    decreases |a|
  {
    var s := a + [c] + b;
    if a == [] {
      assert s == [c] + b && s[1..] == b;
    } else if IsSpace(a[0]) {
      assert s[1..] == a[1..] + [c] + b;
      SplitAroundSpace(a[1..], c, b);
    } else {
      var n := TokenLength(a);
      assert s == a + ([c] + b);
      TokenLengthAppend(a, [c] + b);
      assert s[..n] == a[..n];
      assert s[n..] == a[n..] + [c] + b;
      SplitAroundSpace(a[n..], c, b);
      assert Split(s) == [a[..n]] + Split(s[n..]);
    }
  }

  /** `s.split("\n")`: the pieces between newlines, empty ones included
      (so "" gives one empty line). */
  function Lines(s: string): (lines: seq<string>)
    ensures |lines| >= 1
    ensures forall l | l in lines :: '\n' !in l
  {
    if s == [] then [[]]
    else if s[0] == '\n' then [[]] + Lines(s[1..])
    else
      var rest := Lines(s[1..]);
      assert rest[0] in rest;
      [[s[0]] + rest[0]] + rest[1..]
  }

  /** A piece without a newline, then a newline, then more text, splits into
      that piece followed by the lines of the rest. */
  lemma {:induction false} LineThenRest(w: string, rest: string)
    requires '\n' !in w
    ensures Lines(w + "\n" + rest) == [w] + Lines(rest)
    decreases |w|
  {
    var s := w + "\n" + rest;
    if w == [] {
      assert s == "\n" + rest && s[1..] == rest;
    } else {
      assert s[0] == w[0] && s[1..] == w[1..] + "\n" + rest;
      LineThenRest(w[1..], rest);
      assert [w[0]] + w[1..] == w;
    }
  }

  /** Text without a newline is a single line. */
  lemma {:induction false} SingleLine(w: string)
    requires '\n' !in w
    ensures Lines(w) == [w]
    decreases |w|
  {
    if w != [] {
      assert w[1..] + [] == w[1..];
      SingleLine(w[1..]);
      assert [w[0]] + w[1..] == w;
    }
  }

  /** Splitting newline-joined lines at the newlines gives the lines back. */
  lemma {:induction false} LinesJoin(lines: seq<string>)
    requires |lines| >= 1 && forall l | l in lines :: '\n' !in l
    ensures Lines(Join(lines, "\n")) == lines
  {
    if |lines| == 1 {
      SingleLine(lines[0]);
    } else {
      assert forall l | l in lines[1..] :: l in lines;
      LinesJoin(lines[1..]);
      assert lines[0] in lines;
      LineThenRest(lines[0], Join(lines[1..], "\n"));
      assert lines == [lines[0]] + lines[1..];
    }
  }

  // ---------------------------------------------------------------------------
  // Upper case
  // ---------------------------------------------------------------------------

  function UpperChar(c: char): char {
    if 'a' <= c <= 'z' then (c as int - 32) as char else c
  }

  /** `s.upper()` on ASCII letters */
  function Upper(s: string): (u: string)
    ensures |u| == |s|
    ensures forall i | 0 <= i < |s| ::
      if 'a' <= s[i] <= 'z' then u[i] as int == s[i] as int - 32 else u[i] == s[i]
  {
    seq(|s|, i requires 0 <= i < |s| => UpperChar(s[i]))
  }

  /** Upper-casing keeps a word a word: no whitespace appears or disappears. */
  lemma UpperWord(w: string)
    requires w != [] && NoSpace(w)
    ensures Upper(w) != [] && NoSpace(Upper(w))
  {
  }

  /** Upper-casing is idempotent, so an upper-cased keyword is its own normal form. */
  lemma UpperIdempotent(s: string)
    ensures Upper(Upper(s)) == Upper(s)
  {
  }

  // ---------------------------------------------------------------------------
  // Decimal numbers: str(int) and int(str)
  // ---------------------------------------------------------------------------

  predicate IsDigit(c: char) {
    '0' <= c <= '9'
  }

  predicate AllDigits(s: string) {
    forall i | 0 <= i < |s| :: IsDigit(s[i])
  }

  function DigitValue(c: char): nat
    requires IsDigit(c)
  {
    c as int - '0' as int
  }

  function DigitChar(d: nat): (c: char)
    requires d < 10
    ensures IsDigit(c) && DigitValue(c) == d
  {
    ('0' as int + d) as char
  }

  /** Decimal digits of `n`, most significant first, with no leading zero. */
  function NatToString(n: nat): (r: string)
    ensures r != [] && AllDigits(r)
    ensures |r| > 1 ==> r[0] != '0'
    decreases n
  {
    if n < 10 then [DigitChar(n)] else NatToString(n / 10) + [DigitChar(n % 10)]
  }

  /** `str(i)` */
  function IntToString(i: int): (r: string)
    ensures r != [] && (r[0] == '-' <==> i < 0)
    ensures AllDigits(if i < 0 then r[1..] else r)
  {
    if i < 0 then "-" + NatToString(-i) else NatToString(i)
  }

  /** The value of a string of decimal digits (leading zeros allowed). */
  function DigitsValue(s: string): nat
    requires AllDigits(s)
  {
    if s == [] then 0 else 10 * DigitsValue(s[..|s| - 1]) + DigitValue(s[|s| - 1])
  }

  /** `int(s)` for an ASCII token: an optional sign followed by one or more digits. */
  function ParseInt(s: string): (r: Option<int>)
    ensures r.Some? <==>
      || (s != [] && AllDigits(s))
      || (|s| > 1 && (s[0] == '+' || s[0] == '-') && AllDigits(s[1..]))
    ensures r.Some? && r.value < 0 ==> s[0] == '-'
  {
    if s != [] && (s[0] == '+' || s[0] == '-') then
      if |s| > 1 && AllDigits(s[1..]) then
        var v: int := DigitsValue(s[1..]);
        Some(if s[0] == '-' then -v else v)
      else None
    else if s != [] && AllDigits(s) then Some(DigitsValue(s))
    else None
  }

  lemma {:induction false} DigitsValueOfNat(n: nat)
    ensures DigitsValue(NatToString(n)) == n
    decreases n
  {
    if n >= 10 {
      var r := NatToString(n);
      assert r[..|r| - 1] == NatToString(n / 10);
      DigitsValueOfNat(n / 10);
    }
  }

  /** A leading zero does not change the value of a digit string. */
  lemma {:induction false} DigitsValueLeadingZero(d: string)
    requires AllDigits(d)
    ensures AllDigits("0" + d) && DigitsValue("0" + d) == DigitsValue(d)
    decreases |d|
  {
    var z := "0" + d;
    if d != [] {
      var init := d[..|d| - 1];
      assert z[..|z| - 1] == "0" + init;
      assert z[|z| - 1] == d[|d| - 1];
      DigitsValueLeadingZero(init);
    }
  }

  /** `int("0" + d) == int(d)`: leading zeros are read past. */
  lemma ParseIntLeadingZero(d: string)
    requires d != [] && AllDigits(d)
    ensures ParseInt("0" + d) == ParseInt(d) == Some(DigitsValue(d))
  {
    DigitsValueLeadingZero(d);
  }

  /** `int("+" + d) == int(d)` and `int("-" + d) == -int(d)`. */
  lemma ParseIntSigned(d: string)
    requires d != [] && AllDigits(d)
    ensures ParseInt("+" + d) == ParseInt(d) == Some(DigitsValue(d))
    ensures ParseInt("-" + d).Some? && ParseInt("-" + d).value + DigitsValue(d) == 0
  {
    assert ("+" + d)[1..] == d;
    assert ("-" + d)[1..] == d;
  }

  /** Reading back what `str` printed gives the same integer. */
  lemma ParseIntToString(i: int)
    ensures ParseInt(IntToString(i)) == Some(i)
  {
    var d := NatToString(if i < 0 then -i else i);
    DigitsValueOfNat(if i < 0 then -i else i);
    ParseIntSigned(d);
    assert IntToString(i) == if i < 0 then "-" + d else d;
  }

  /** A printed integer is one word. */
  lemma IntToStringIsWord(i: int)
    ensures IntToString(i) != [] && NoSpace(IntToString(i))
  {
    var d := NatToString(if i < 0 then -i else i);
    assert AllDigits(d);
    if i < 0 {
      assert IntToString(i) == "-" + d;
      assert forall k | 1 <= k < |IntToString(i)| :: IntToString(i)[k] == d[k - 1];
    }
  }

  // ---------------------------------------------------------------------------
  // The ordering Python uses on strings (code point by code point)
  // ---------------------------------------------------------------------------

  /** `a <= b` on Python strings: lexicographic on code points, a prefix first. */
  predicate LexLessEq(a: string, b: string)
    decreases |a|
  {
    a == [] || (b != [] && (a[0] < b[0] || (a[0] == b[0] && LexLessEq(a[1..], b[1..]))))
  }

  predicate LexLess(a: string, b: string) {
    LexLessEq(a, b) && a != b
  }

  lemma {:induction false} LexAntisymmetric(a: string, b: string)
    requires LexLessEq(a, b) && LexLessEq(b, a)
    ensures a == b
    decreases |a|
  {
    if a != [] && b != [] {
      LexAntisymmetric(a[1..], b[1..]);
      assert a == [a[0]] + a[1..] && b == [b[0]] + b[1..];
    }
  }

  lemma {:induction false} LexTransitive(a: string, b: string, c: string)
    requires LexLessEq(a, b) && LexLessEq(b, c)
    ensures LexLessEq(a, c)
    decreases |a|
  {
    if a != [] && a[0] == b[0] && b[0] == c[0] {
      LexTransitive(a[1..], b[1..], c[1..]);
    }
  }

  lemma {:induction false} LexTotal(a: string, b: string)
    ensures LexLessEq(a, b) || LexLessEq(b, a)
    decreases |a|
  {
    if a != [] && b != [] && a[0] == b[0] {
      LexTotal(a[1..], b[1..]);
    }
  }

  predicate IsLeast(m: string, keys: set<string>) {
    m in keys && forall k | k in keys :: LexLessEq(m, k)
  }

  lemma {:induction false} LeastExists(keys: set<string>)
    requires keys != {}
    ensures exists m :: IsLeast(m, keys)
    decreases |keys|
  {
    var x :| x in keys;
    var rest := keys - {x};
    if rest == {} {
      assert keys == {x};
      LexTotal(x, x);
      assert IsLeast(x, keys);
    } else {
      LeastExists(rest);
      var m :| IsLeast(m, rest);
      LexTotal(x, m);
      if LexLessEq(x, m) {
        forall k | k in keys ensures LexLessEq(x, k) {
          if k != x { LexTransitive(x, m, k); } else { LexTotal(x, x); }
        }
        assert IsLeast(x, keys);
      } else {
        assert IsLeast(m, keys);
      }
    }
  }

  lemma LeastUnique(keys: set<string>)
    ensures forall m, m' | IsLeast(m, keys) && IsLeast(m', keys) :: m == m'
  {
    forall m, m' | IsLeast(m, keys) && IsLeast(m', keys) ensures m == m' {
      LexAntisymmetric(m, m');
    }
  }

  /** `sorted(keys)`: every key once, in strictly ascending order. */
  function SortedKeys(keys: set<string>): (r: seq<string>)
    ensures |r| == |keys|
    ensures forall i | 0 <= i < |r| :: r[i] in keys
    ensures forall k | k in keys :: k in r
    ensures forall i, j | 0 <= i < j < |r| :: LexLess(r[i], r[j])
    decreases |keys|
  {
    if keys == {} then []
    else
      LeastExists(keys);
      LeastUnique(keys);
      var m :| IsLeast(m, keys);
      var rest := SortedKeys(keys - {m});
      PrependLeast(m, keys, rest);
      [m] + rest
  }

  /** The least key, then the others in ascending order, lists every key in
      ascending order. */
  lemma PrependLeast(m: string, keys: set<string>, rest: seq<string>)
    requires IsLeast(m, keys)
    requires |rest| == |keys - {m}|
    requires forall i | 0 <= i < |rest| :: rest[i] in keys - {m}
    requires forall k | k in keys - {m} :: k in rest
    requires forall i, j | 0 <= i < j < |rest| :: LexLess(rest[i], rest[j])
    ensures var r := [m] + rest;
      && |r| == |keys|
      && (forall i | 0 <= i < |r| :: r[i] in keys)
      && (forall k | k in keys :: k in r)
      && (forall i, j | 0 <= i < j < |r| :: LexLess(r[i], r[j]))
  {
    var r := [m] + rest;
    forall i | 0 <= i < |rest| ensures LexLess(m, rest[i]) {
      assert rest[i] in keys && rest[i] != m;
    }
    forall i, j | 0 <= i < j < |r| ensures LexLess(r[i], r[j]) {
      if i > 0 { assert r[i] == rest[i - 1] && r[j] == rest[j - 1]; }
      else { assert r[j] == rest[j - 1]; }
    }
  }
}
