/** The JavaScript string and number built-ins the port killer relies on:
    `trim`, `split("\n")`, `split(/\s+/)`, `startsWith`, `parseInt(_, 10)`
    and the decimal rendering of an integer inside a template literal.
    A JavaScript string is modelled as a sequence of Unicode scalar values;
    every character these operations inspect is one of those. */
module JsString {
  import opened Wrappers

  /** The ECMAScript WhiteSpace and LineTerminator code points. `trim`, the
      `\s` class of a regular expression and the leading skip of `parseInt`
      all use exactly this set. */
  predicate IsSpace(c: char)
  {
    c == ' ' || c == '\t' || c == '\n' || c == '\r' || c == '\U{B}' || c == '\U{C}'
    || c == '\U{A0}' || c == '\U{1680}' || ('\U{2000}' <= c <= '\U{200A}')
    || c == '\U{2028}' || c == '\U{2029}' || c == '\U{202F}' || c == '\U{205F}'
    || c == '\U{3000}' || c == '\U{FEFF}'
  }

  predicate NoSpace(s: string)
  {
    forall i :: 0 <= i < |s| ==> !IsSpace(s[i])
  }

  predicate AllSpace(s: string)
  {
    forall i :: 0 <= i < |s| ==> IsSpace(s[i])
  }

  /** `s` has no white space at either end. */
  predicate Trimmed(s: string)
  {
    s == [] || (!IsSpace(s[0]) && !IsSpace(s[|s| - 1]))
  }

  // ---------------------------------------------------------------- trim

  /** `s.trimStart()`: the suffix left after removing the longest
      white-space prefix. */
  function TrimStart(s: string): (r: string)
    ensures |r| <= |s| && r == s[|s| - |r|..]
    ensures forall i :: 0 <= i < |s| - |r| ==> IsSpace(s[i])
    ensures r == [] || !IsSpace(r[0])
  {
    if |s| > 0 && IsSpace(s[0]) then
      var r := TrimStart(s[1..]);
      assert forall i :: 0 < i < |s| ==> s[i] == s[1..][i - 1];
      r
    else s
  }

  /** `s.trimEnd()`: the prefix left after removing the longest white-space
      suffix. */
  function TrimEnd(s: string): (r: string)
    ensures |r| <= |s| && r == s[..|r|]
    ensures forall i :: |r| <= i < |s| ==> IsSpace(s[i])
    ensures r == [] || !IsSpace(r[|r| - 1])
  {
    if |s| > 0 && IsSpace(s[|s| - 1]) then TrimEnd(s[..|s| - 1]) else s
  }

  /** `s.trim()`: the result has no white space at either end, is empty
      exactly when `s` is blank, and is `s` itself when `s` needs no trimming. */
  function Trim(s: string): (r: string)
    ensures Trimmed(r)
    ensures r == [] <==> AllSpace(s)
    ensures Trimmed(s) ==> r == s
  {
    var t := TrimStart(s);
    var r := TrimEnd(t);
    assert t != [] ==> t[0] == s[|s| - |t|];
    assert r != [] ==> r[0] == t[0];
    assert forall i :: |s| - |t| <= i < |s| ==> s[i] == t[i - (|s| - |t|)];
    r
  }

  // ------------------------------------------------------- split("\n")

  /** `s.split("\n")`: the pieces between the line feeds, empty pieces
      included; there is always at least one. */
  function SplitLines(s: string): (r: seq<string>)
    ensures |r| >= 1
    ensures forall i :: 0 <= i < |r| ==> '\n' !in r[i]
  {
    if s == [] then [[]]
    else
      var rest := SplitLines(s[1..]);
      if s[0] == '\n' then [[]] + rest
      else
        assert forall i :: 0 < i < |rest| ==> ([[s[0]] + rest[0]] + rest[1..])[i] == rest[i];
        [[s[0]] + rest[0]] + rest[1..]
  }

  /** `parts.join(sep)`. */
  function Join(parts: seq<string>, sep: string): string
    requires |parts| >= 1
  {
    if |parts| == 1 then parts[0] else parts[0] + sep + Join(parts[1..], sep)
  }

  lemma JoinPrepend(x: string, parts: seq<string>, sep: string)
    requires |parts| >= 1
    ensures Join([x + parts[0]] + parts[1..], sep) == x + Join(parts, sep)
  {
    var q := [x + parts[0]] + parts[1..];
    if |parts| > 1 {
      assert q[1..] == parts[1..];
    }
  }

  /** Joining two non-empty lists of pieces puts one separator between them. */
  lemma {:induction false} JoinAppend(a: seq<string>, b: seq<string>, sep: string)
    requires |a| >= 1 && |b| >= 1
    ensures Join(a + b, sep) == Join(a, sep) + sep + Join(b, sep)
  {
    if |a| > 1 {
      assert (a + b)[1..] == a[1..] + b;
      JoinAppend(a[1..], b, sep);
    } else {
      assert (a + b)[1..] == b;
    }
  }

  /** Splitting on line feeds and joining with line feeds gives back the text. */
  lemma {:induction false} JoinSplitLines(s: string)
    ensures Join(SplitLines(s), "\n") == s
  {
    if s != [] {
      var rest := SplitLines(s[1..]);
      JoinSplitLines(s[1..]);
      if s[0] == '\n' {
        assert ([[]] + rest)[1..] == rest;
      } else {
        JoinPrepend([s[0]], rest, "\n");
      }
    }
  }

  lemma {:induction false} SplitLinesPrefix(w: string, rest: string)
    requires '\n' !in w
    ensures SplitLines(w + rest) == [w + SplitLines(rest)[0]] + SplitLines(rest)[1..]
  {
    if w != [] {
      var s, S := w + rest, SplitLines(rest);
      assert s[0] == w[0] && w[0] != '\n';
      assert s[1..] == w[1..] + rest;
      assert '\n' !in w[1..];
      SplitLinesPrefix(w[1..], rest);
      var R := SplitLines(s[1..]);
      assert R == [w[1..] + S[0]] + S[1..];
      assert SplitLines(s) == [[w[0]] + R[0]] + R[1..];
      assert R[1..] == S[1..];
      assert [w[0]] + (w[1..] + S[0]) == w + S[0];
    } else {
      var S := SplitLines(rest);
      assert w + rest == rest && w + S[0] == S[0] && [S[0]] + S[1..] == S;
    }
  }

  /** Lines without a line feed, joined by line feeds, split back into
      themselves. */
  lemma {:induction false} SplitJoinLines(lines: seq<string>)
    requires |lines| >= 1
    requires forall i :: 0 <= i < |lines| ==> '\n' !in lines[i]
    ensures SplitLines(Join(lines, "\n")) == lines
  {
    if |lines| == 1 {
      SplitLinesPrefix(lines[0], []);
      assert lines[0] + [] == lines[0];
    } else {
      var tail := Join(lines[1..], "\n");
      SplitJoinLines(lines[1..]);
      assert lines[0] + "\n" + tail == lines[0] + ("\n" + tail);
      SplitLinesPrefix(lines[0], "\n" + tail);
      assert ("\n" + tail)[1..] == tail;
      assert lines[0] + [] == lines[0];
    }
  }

  /** A line feed between two texts separates their lines. */
  lemma SplitLinesConcat(a: string, b: string)
    ensures SplitLines(a + "\n" + b) == SplitLines(a) + SplitLines(b)
  {
    var la, lb := SplitLines(a), SplitLines(b);
    JoinSplitLines(a);
    JoinSplitLines(b);
    JoinAppend(la, lb, "\n");
    SplitJoinLines(la + lb);
  }

  // ------------------------------------------------------ split(/\s+/)

  /** `s.split(/\s+/)`: the pieces between maximal runs of white space; no
      piece holds white space. */
  function SplitWs(s: string): (r: seq<string>)
    ensures |r| >= 1
    ensures forall i :: 0 <= i < |r| ==> NoSpace(r[i])
    ensures r[0] == [] <==> s == [] || IsSpace(s[0])
    ensures s != [] && IsSpace(s[0]) ==> |r| >= 2
    decreases |s|
  {
    if s == [] then [[]]
    else if IsSpace(s[0]) then [[]] + SplitWs(TrimStart(s[1..]))
    else
      var rest := SplitWs(s[1..]);
      var r := [[s[0]] + rest[0]] + rest[1..];
      assert forall i :: 0 < i < |r| ==> r[i] == rest[i];
      assert NoSpace(r[0]) by {
        forall i | 0 <= i < |r[0]| ensures !IsSpace(r[0][i]) {
          assert i > 0 ==> r[0][i] == rest[0][i - 1];
        }
      }
      r
  }

  /** A trailing run of white space, and nothing else, makes the last piece
      of `split(/\s+/)` empty. */
  lemma {:induction false} SplitWsLast(s: string)
    ensures SplitWs(s)[|SplitWs(s)| - 1] == [] <==> s == [] || IsSpace(s[|s| - 1])
    decreases |s|
  {
    if s != [] {
      var u := s[1..];
      assert |u| > 0 ==> u[|u| - 1] == s[|s| - 1];
      if IsSpace(s[0]) {
        var t := TrimStart(u);
        assert SplitWs(s)[|SplitWs(s)| - 1] == SplitWs(t)[|SplitWs(t)| - 1];
        SplitWsLast(t);
        assert (t == [] || IsSpace(t[|t| - 1])) <==> IsSpace(s[|s| - 1]) by {
          if t == [] {
            assert |u| > 0 ==> IsSpace(u[|u| - 1]);
          } else {
            assert t[|t| - 1] == u[|u| - 1];
          }
        }
      } else {
        var rest := SplitWs(u);
        var r := SplitWs(s);
        assert |r| == |rest|;
        SplitWsLast(u);
        if |rest| == 1 {
          assert r[0] == [s[0]] + rest[0];
          assert rest[0] == [] ==> u == [];
        } else {
          assert r[|r| - 1] == rest[|rest| - 1];
        }
      }
    }
  }

  /** Every piece of `split(/\s+/)` between the first and the last is
      non-empty. */
  lemma {:induction false} SplitWsInterior(s: string)
    ensures forall i :: 0 < i < |SplitWs(s)| - 1 ==> SplitWs(s)[i] != []
    decreases |s|
  {
    if s != [] {
      if IsSpace(s[0]) {
        var t := TrimStart(s[1..]);
        SplitWsInterior(t);
        var R, r := SplitWs(t), SplitWs(s);
        assert t == [] ==> R == [[]];
        assert t != [] ==> R[0] != [];
        assert r == [[]] + R;
        forall i | 0 < i < |r| - 1 ensures r[i] != [] {
          assert r[i] == R[i - 1];
        }
      } else {
        SplitWsInterior(s[1..]);
        var rest, r := SplitWs(s[1..]), SplitWs(s);
        assert forall i :: 0 < i < |r| ==> r[i] == rest[i];
      }
    }
  }

  /** The pieces of a line that needs no trimming are all non-empty. */
  lemma SplitWsTrimmed(s: string)
    requires s != [] && Trimmed(s)
    ensures forall i :: 0 <= i < |SplitWs(s)| ==> SplitWs(s)[i] != []
  {
    SplitWsLast(s);
    SplitWsInterior(s);
  }

  lemma {:induction false} SplitWsPrefix(w: string, rest: string)
    requires NoSpace(w)
    ensures SplitWs(w + rest) == [w + SplitWs(rest)[0]] + SplitWs(rest)[1..]
  {
    if w != [] {
      var s, S := w + rest, SplitWs(rest);
      assert s[0] == w[0] && !IsSpace(w[0]);
      assert s[1..] == w[1..] + rest;
      assert NoSpace(w[1..]);
      SplitWsPrefix(w[1..], rest);
      var R := SplitWs(s[1..]);
      assert R == [w[1..] + S[0]] + S[1..];
      assert SplitWs(s) == [[w[0]] + R[0]] + R[1..];
      assert R[1..] == S[1..];
      assert [w[0]] + (w[1..] + S[0]) == w + S[0];
    } else {
      var S := SplitWs(rest);
      assert w + rest == rest && w + S[0] == S[0] && [S[0]] + S[1..] == S;
    }
  }

  /** Skipping a run of white space stops at the first character that is not
      white space. */
  lemma {:induction false} TrimStartRun(sp: string, rest: string)
    requires AllSpace(sp)
    requires rest == [] || !IsSpace(rest[0])
    ensures TrimStart(sp + rest) == rest
    decreases |sp|
  {
    if sp == [] {
      assert sp + rest == rest;
      TrimStartNoop(rest);
    } else {
      assert (sp + rest)[0] == sp[0];
      assert (sp + rest)[1..] == sp[1..] + rest;
      assert AllSpace(sp[1..]) by {
        forall i | 0 <= i < |sp[1..]| ensures IsSpace(sp[1..][i]) {
          assert sp[1..][i] == sp[i + 1];
        }
      }
      TrimStartRun(sp[1..], rest);
    }
  }

  lemma SplitWsLeadingSpace(t: string, rest: string)
    requires t != [] && IsSpace(t[0]) && TrimStart(t[1..]) == rest
    ensures SplitWs(t) == [[]] + SplitWs(rest)
  {
  }

  /** Text that begins with a white-space run has an empty first piece, and
      the pieces of what follows the run after it. */
  lemma SplitWsSpaceRun(sp: string, rest: string)
    requires sp != [] && AllSpace(sp)
    requires rest == [] || !IsSpace(rest[0])
    ensures SplitWs(sp + rest) == [[]] + SplitWs(rest)
  {
    var t := sp + rest;
    assert t[0] == sp[0] && t[1..] == sp[1..] + rest;
    assert AllSpace(sp[1..]) by {
      forall i | 0 <= i < |sp[1..]| ensures IsSpace(sp[1..][i]) {
        assert sp[1..][i] == sp[i + 1];
      }
    }
    TrimStartRun(sp[1..], rest);
    SplitWsLeadingSpace(t, rest);
  }

  lemma SplitWsBeforeSpace(w: string, t: string, pieces: seq<string>)
    requires NoSpace(w) && SplitWs(t) == [[]] + pieces
    ensures SplitWs(w + t) == [w] + pieces
  {
    SplitWsPrefix(w, t);
    assert w + [] == w;
  }

  /** A word, then a white-space run of any length, then text that does not
      begin with white space: the word is a piece of its own and the pieces of
      the text follow it. */
  lemma SplitWsRun(w: string, sp: string, rest: string)
    requires w != [] && NoSpace(w)
    requires sp != [] && AllSpace(sp)
    requires rest == [] || !IsSpace(rest[0])
    ensures SplitWs(w + sp + rest) == [w] + SplitWs(rest)
  {
    var t := sp + rest;
    assert w + sp + rest == w + t;
    assert SplitWs(t) == [[]] + SplitWs(rest) by {
      SplitWsSpaceRun(sp, rest);
    }
    SplitWsBeforeSpace(w, t, SplitWs(rest));
  }

  /** Words separated by the given runs of white space,
      `words[0] + seps[0] + words[1] + ... + words[|words| - 1]`: the shape of
      a line of column-padded output. */
  function JoinRuns(words: seq<string>, seps: seq<string>): string
    requires |words| >= 1 && |seps| == |words| - 1
  {
    if |words| == 1 then words[0] else words[0] + seps[0] + JoinRuns(words[1..], seps[1..])
  }

  lemma JoinRunsHead(words: seq<string>, seps: seq<string>)
    requires |words| >= 1 && |seps| == |words| - 1 && words[0] != []
    ensures JoinRuns(words, seps) != [] && JoinRuns(words, seps)[0] == words[0][0]
  {
  }

  /** Non-empty words without white space, separated by non-empty runs of
      white space of any length, split back into exactly those words. */
  lemma {:induction false} SplitWsJoinRuns(words: seq<string>, seps: seq<string>)
    requires |words| >= 1 && |seps| == |words| - 1
    requires forall i :: 0 <= i < |words| ==> words[i] != [] && NoSpace(words[i])
    requires forall i :: 0 <= i < |seps| ==> seps[i] != [] && AllSpace(seps[i])
    ensures SplitWs(JoinRuns(words, seps)) == words
  {
    if |words| == 1 {
      SplitWsPrefix(words[0], []);
      assert words[0] + [] == words[0];
    } else {
      var tail := JoinRuns(words[1..], seps[1..]);
      SplitWsJoinRuns(words[1..], seps[1..]);
      JoinRunsHead(words[1..], seps[1..]);
      SplitWsRun(words[0], seps[0], tail);
      assert [words[0]] + words[1..] == words;
    }
  }

  // ---------------------------------------------------------- startsWith

  /** `s.startsWith(p)`. */
  predicate StartsWith(s: string, p: string)
  {
    |p| <= |s| && s[..|p|] == p
  }

  // -------------------------------------------------------------- digits

  predicate IsDigit(c: char)
  {
    '0' <= c <= '9'
  }

  predicate AllDigits(s: string)
  {
    forall i :: 0 <= i < |s| ==> IsDigit(s[i])
  }

  function DigitValue(c: char): (v: nat)
    requires IsDigit(c)
    ensures v < 10
  {
    c as int - '0' as int
  }

  function DigitChar(v: nat): (c: char)
    requires v < 10
    ensures IsDigit(c) && DigitValue(c) == v
  {
    ('0' as int + v) as char
  }

  /** The value of a string of decimal digits; `0` for the empty string. */
  function DecimalValue(d: string): (v: nat)
    requires AllDigits(d)
  {
    if d == [] then 0 else 10 * DecimalValue(d[..|d| - 1]) + DigitValue(d[|d| - 1])
  }

  /** The decimal digits of `n`, without leading zeroes: no digit run is empty,
      and reading it back gives `n`. */
  function ToDecimal(n: nat): (d: string)
    ensures |d| >= 1 && AllDigits(d)
    ensures d[0] == '0' ==> n == 0 && d == "0"
    ensures DecimalValue(d) == n
  {
    if n < 10 then [DigitChar(n)]
    else
      var d := ToDecimal(n / 10) + [DigitChar(n % 10)];
      assert d[..|d| - 1] == ToDecimal(n / 10);
      d
  }

  /** The longest prefix of decimal digits. */
  function DigitPrefix(s: string): (r: string)
    ensures |r| <= |s| && r == s[..|r|] && AllDigits(r)
    ensures |r| == |s| || !IsDigit(s[|r|])
  {
    if s != [] && IsDigit(s[0]) then [s[0]] + DigitPrefix(s[1..]) else []
  }

  /** The longest suffix of decimal digits. */
  function DigitSuffix(s: string): (r: string)
    ensures |r| <= |s| && r == s[|s| - |r|..] && AllDigits(r)
    ensures |r| == |s| || !IsDigit(s[|s| - |r| - 1])
  {
    if s != [] && IsDigit(s[|s| - 1]) then DigitSuffix(s[..|s| - 1]) + [s[|s| - 1]] else []
  }

  // ------------------------------------------------------------ parseInt

  /** `parseInt(s, 10)`: skip leading white space, take an optional sign, then
      the longest run of decimal digits; `None` (JavaScript's `NaN`) when that
      run is empty. Anything after the digits is ignored. */
  function ParseInt(s: string): Option<int>
  {
    var t := TrimStart(s);
    var negative := |t| > 0 && t[0] == '-';
    var unsigned := if |t| > 0 && (t[0] == '+' || t[0] == '-') then t[1..] else t;
    var digits := DigitPrefix(unsigned);
    if digits == [] then None
    else
      var magnitude: int := DecimalValue(digits);
      Some(if negative then -magnitude else magnitude)
  }

  /** The decimal rendering of an integer: `${n}` in a template literal. */
  function FormatInt(n: int): string
  {
    if n < 0 then "-" + ToDecimal(-n) else ToDecimal(n)
  }

  /** `parseInt` gives `NaN` when, after the leading white space, neither a
      digit nor a sign followed by a digit begins the text. */
  lemma ParseIntNaN(s: string)
    requires s != [] && !IsSpace(s[0]) && !IsDigit(s[0])
    requires s[0] in "+-" ==> s[1..] == [] || !IsDigit(s[1])
    ensures ParseInt(s) == None
  {
    TrimStartNoop(s);
  }

  lemma TrimStartNoop(s: string)
    requires s == [] || !IsSpace(s[0])
    ensures TrimStart(s) == s
  {
  }

  lemma {:induction false} DigitPrefixOfDigits(d: string, rest: string)
    requires AllDigits(d)
    requires rest == [] || !IsDigit(rest[0])
    ensures DigitPrefix(d + rest) == d
  {
    if d == [] {
      assert d + rest == rest;
    } else {
      assert (d + rest)[0] == d[0];
      assert (d + rest)[1..] == d[1..] + rest;
      DigitPrefixOfDigits(d[1..], rest);
      assert [d[0]] + d[1..] == d;
    }
  }

  /** A run of digits parses to its decimal value, whatever follows it. */
  lemma ParseIntDigits(d: string, rest: string)
    requires d != [] && AllDigits(d)
    requires rest == [] || !IsDigit(rest[0])
    ensures ParseInt(d + rest) == Some(DecimalValue(d))
  {
    var s := d + rest;
    assert s[0] == d[0];
    DigitPrefixOfDigits(d, rest);
    ParseIntUnsigned(s, d);
  }

  /** Text that starts with a digit parses to the value of its digit prefix. */
  lemma ParseIntUnsigned(s: string, d: string)
    requires s != [] && IsDigit(s[0])
    requires d != [] && DigitPrefix(s) == d
    ensures ParseInt(s) == Some(DecimalValue(d))
  {
    assert !IsSpace(s[0]) && s[0] != '+' && s[0] != '-';
    TrimStartNoop(s);
  }

  /** A string made only of digits parses to its decimal value. */
  lemma ParseIntAllDigits(d: string)
    requires d != [] && AllDigits(d)
    ensures ParseInt(d) == Some(DecimalValue(d))
  {
    ParseIntDigits(d, []);
    assert d + [] == d;
  }

  /** Text that starts with a minus sign followed by the digit run `d` parses
      to the negated value of `d`. */
  lemma ParseIntMinus(s: string, d: string)
    requires s != [] && s[0] == '-'
    requires d != [] && AllDigits(d) && DigitPrefix(s[1..]) == d
    ensures ParseInt(s) == Some(-(DecimalValue(d) as int))
  {
    TrimStartNoop(s);
  }

  /** A minus sign followed by a run of digits parses to the negated value. */
  lemma ParseIntNegative(d: string, rest: string)
    requires d != [] && AllDigits(d)
    requires rest == [] || !IsDigit(rest[0])
    ensures ParseInt("-" + d + rest) == Some(-(DecimalValue(d) as int))
  {
    var s := "-" + d + rest;
    assert s[1..] == d + rest;
    DigitPrefixOfDigits(d, rest);
    ParseIntMinus(s, d);
  }

  /** Rendering an integer and parsing the rendering back gives the integer,
      whatever non-digit text follows it. */
  lemma ParseFormatInt(n: int, rest: string)
    requires rest == [] || !IsDigit(rest[0])
    ensures ParseInt(FormatInt(n) + rest) == Some(n)
  {
    if n < 0 {
      var d := ToDecimal(-n);
      assert FormatInt(n) + rest == "-" + d + rest;
      ParseIntNegative(d, rest);
    } else {
      ParseIntDigits(ToDecimal(n), rest);
    }
  }
}
