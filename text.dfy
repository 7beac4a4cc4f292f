/** The string operations of Python that the modelled code relies on:
    whitespace stripping and splitting, ASCII lower-casing, decimal
    formatting and parsing, `split(sep)[-1]`, substring tests and the
    code-point order in which Python compares strings. */
module Text {
  import opened Wrappers

  /** Python's `str.isspace()` for a single character. */
  predicate IsSpace(c: char) {
    var n := c as int;
    (9 <= n <= 13) || (28 <= n <= 32) || n == 0x85 || n == 0xA0 || n == 0x1680
    || (0x2000 <= n <= 0x200A) || n == 0x2028 || n == 0x2029 || n == 0x202F
    || n == 0x205F || n == 0x3000
  }

  predicate NoSpace(s: string) {
    forall i :: 0 <= i < |s| ==> !IsSpace(s[i])
  }

  /** Each element is a non-empty run of non-whitespace characters. */
  predicate Words(ws: seq<string>) {
    forall i :: 0 <= i < |ws| ==> ws[i] != [] && NoSpace(ws[i])
  }

  // ------------------------------------------------------------------
  // strip()

  function LStrip(s: string): (r: string)
    ensures |r| <= |s| && r == s[|s| - |r|..]
    ensures r == [] || !IsSpace(r[0])
    ensures forall i :: 0 <= i < |s| - |r| ==> IsSpace(s[i])
  {
    if s != [] && IsSpace(s[0]) then LStrip(s[1..]) else s
  }

  function RStrip(s: string): (r: string)
    ensures r <= s
    ensures r == [] || !IsSpace(r[|r| - 1])
    ensures forall i :: |r| <= i < |s| ==> IsSpace(s[i])
  {
    if s != [] && IsSpace(s[|s| - 1]) then RStrip(s[..|s| - 1]) else s
  }

  /** Python's `str.strip()` with no argument. */
  function Strip(s: string): string {
    RStrip(LStrip(s))
  }

  /** A stripped string neither starts nor ends with whitespace. */
  lemma {:induction false} StripEnds(s: string)
    ensures Strip(s) == [] || (!IsSpace(Strip(s)[0]) && !IsSpace(Strip(s)[|Strip(s)| - 1]))
  {
    var l := LStrip(s);
    var r := RStrip(l);
    if r != [] {
      assert r[0] == l[0];
    }
  }

  /** What `strip()` keeps is one contiguous slice of its input, starting
      at `k`. */
  lemma {:induction false} StripSlice(s: string) returns (k: nat)
    ensures k + |Strip(s)| <= |s| && Strip(s) == s[k..k + |Strip(s)|]
  {
    var l := LStrip(s);
    k := |s| - |l|;
    PrefixOfSuffix(s, k, l, RStrip(l));
  }

  lemma PrefixOfSuffix(s: string, k: nat, l: string, r: string)
    requires k <= |s| && l == s[k..] && r <= l
    ensures k + |r| <= |s| && r == s[k..k + |r|]
  {
  }

  // ------------------------------------------------------------------
  // split() and " ".join(...)

  /** The longest prefix of `s` that holds no whitespace. */
  function Word(s: string): (w: string)
    ensures w <= s && NoSpace(w)
    ensures |w| < |s| ==> IsSpace(s[|w|])
  {
    if s == [] || IsSpace(s[0]) then [] else [s[0]] + Word(s[1..])
  }

  /** Python's `str.split()` with no argument: the maximal runs of
      non-whitespace characters, in order. */
  function Split(s: string): (ws: seq<string>)
    ensures Words(ws)
    decreases |s|
  {
    if s == [] then []
    else if IsSpace(s[0]) then Split(s[1..])
    else
      var w := Word(s);
      [w] + Split(s[|w|..])
  }

  /** Python's `" ".join(ws)`. */
  function JoinSpace(ws: seq<string>): string {
    if ws == [] then []
    else if |ws| == 1 then ws[0]
    else ws[0] + " " + JoinSpace(ws[1..])
  }

  lemma {:induction false} WordStops(w: string, t: string)
    requires NoSpace(w)
    requires t == [] || IsSpace(t[0])
    ensures Word(w + t) == w
  {
    if w != [] {
      assert (w + t)[1..] == w[1..] + t;
      WordStops(w[1..], t);
    } else if t != [] {
      assert (w + t)[0] == t[0];
    }
  }

  /** Joining words with single spaces and splitting again gives the words back. */
  lemma {:induction false} SplitJoinSpace(ws: seq<string>)
    requires Words(ws)
    ensures Split(JoinSpace(ws)) == ws
  {
    if |ws| == 1 {
      var w := ws[0];
      WordStops(w, []);
      assert w + [] == w;
      assert w[|w|..] == [];
    } else if |ws| > 1 {
      var w := ws[0];
      var rest := JoinSpace(ws[1..]);
      var s := w + " " + rest;
      assert s == w + (" " + rest);
      WordStops(w, " " + rest);
      assert s[|w|..] == " " + rest;
      assert (" " + rest)[1..] == rest;
      assert Words(ws[1..]) by {
        forall i | 0 <= i < |ws[1..]| ensures ws[1..][i] != [] && NoSpace(ws[1..][i]) {
          assert ws[1..][i] == ws[i + 1];
        }
      }
      SplitJoinSpace(ws[1..]);
      assert [w] + ws[1..] == ws;
    }
  }

  /** The words of a " "-joined sequence carry no whitespace at either end. */
  lemma {:induction false} JoinSpaceEnds(ws: seq<string>)
    requires Words(ws)
    ensures JoinSpace(ws) == [] <==> ws == []
    ensures JoinSpace(ws) != [] ==> !IsSpace(JoinSpace(ws)[0])
    ensures JoinSpace(ws) != [] ==> !IsSpace(JoinSpace(ws)[|JoinSpace(ws)| - 1])
  {
    if |ws| > 1 {
      assert Words(ws[1..]) by {
        forall i | 0 <= i < |ws[1..]| ensures ws[1..][i] != [] && NoSpace(ws[1..][i]) {
          assert ws[1..][i] == ws[i + 1];
        }
      }
      JoinSpaceEnds(ws[1..]);
      var s := ws[0] + " " + JoinSpace(ws[1..]);
      assert s[0] == ws[0][0];
      assert s[|s| - 1] == JoinSpace(ws[1..])[|JoinSpace(ws[1..])| - 1];
    } else if |ws| == 1 {
      assert ws[0][0] == JoinSpace(ws)[0];
    }
  }

  /** Every whitespace character is a single ' ' between two characters
      that are not whitespace. */
  predicate SingleSpaced(s: string) {
    forall i :: 0 <= i < |s| && IsSpace(s[i]) ==>
      s[i] == ' ' && 0 < i < |s| - 1 && !IsSpace(s[i - 1]) && !IsSpace(s[i + 1])
  }

  /** Words joined by `" ".join` are separated by single spaces. */
  lemma {:induction false} JoinSpaceSingleSpaced(ws: seq<string>)
    requires Words(ws)
    ensures SingleSpaced(JoinSpace(ws))
  {
    if |ws| == 1 {
      assert NoSpace(ws[0]);
    } else if |ws| > 1 {
      var w := ws[0];
      assert Words(ws[1..]) by {
        forall i | 0 <= i < |ws[1..]| ensures ws[1..][i] != [] && NoSpace(ws[1..][i]) {
          assert ws[1..][i] == ws[i + 1];
        }
      }
      JoinSpaceSingleSpaced(ws[1..]);
      JoinSpaceEnds(ws[1..]);
      var r := JoinSpace(ws[1..]);
      var s := w + " " + r;
      assert w != [] && NoSpace(w) && r != [];
      forall i | 0 <= i < |s| && IsSpace(s[i])
        ensures s[i] == ' ' && 0 < i < |s| - 1 && !IsSpace(s[i - 1]) && !IsSpace(s[i + 1])
      {
        if i == |w| {
          assert s[i - 1] == w[|w| - 1] && s[i + 1] == r[0];
        } else if i > |w| {
          var j := i - |w| - 1;
          assert s[i] == r[j];
          assert s[i - 1] == r[j - 1] && s[i + 1] == r[j + 1];
        }
      }
    }
  }

  // ------------------------------------------------------------------
  // lower() and startswith()

  /** `lower()` of one character, for the ASCII letters. */
  function LowerChar(c: char): char {
    if 'A' <= c <= 'Z' then (c as int + 32) as char else c
  }

  /** `lower()` for ASCII text: each capital letter becomes its small
      letter, and every other character is kept. */
  function Lower(s: string): (r: string)
    ensures |r| == |s|
    ensures forall i :: 0 <= i < |r| ==> !('A' <= r[i] <= 'Z')
    ensures forall i :: 0 <= i < |s| && !('A' <= s[i] <= 'Z') ==> r[i] == s[i]
    ensures forall i :: 0 <= i < |s| && 'A' <= s[i] <= 'Z' ==>
              'a' <= r[i] <= 'z' && r[i] as int - 'a' as int == s[i] as int - 'A' as int
  {
    seq(|s|, i requires 0 <= i < |s| => LowerChar(s[i]))
  }

  /** Lowering twice is lowering once. */
  lemma LowerIdempotent(s: string)
    ensures Lower(Lower(s)) == Lower(s)
  {
    var l := Lower(s);
    assert forall i :: 0 <= i < |l| ==> Lower(l)[i] == l[i];
  }

  predicate StartsWith(s: string, prefix: string) {
    prefix <= s
  }

  /** Python's `needle in hay` for strings. */
  predicate Contains(hay: string, needle: string)
    decreases |hay|
  {
    needle <= hay || (hay != [] && Contains(hay[1..], needle))
  }

  // ------------------------------------------------------------------
  // str(int) and int(str)

  predicate IsDigit(c: char) {
    '0' <= c <= '9'
  }

  predicate AllDigits(s: string) {
    forall i :: 0 <= i < |s| ==> IsDigit(s[i])
  }

  function DigitChar(d: nat): (c: char)
    requires d < 10
    ensures IsDigit(c) && c as int - '0' as int == d
  {
    ('0' as int + d) as char
  }

  /** `str(n)` for a non-negative integer. */
  function NatToDecimal(n: nat): (s: string)
    ensures s != [] && AllDigits(s)
  {
    if n < 10 then [DigitChar(n)] else NatToDecimal(n / 10) + [DigitChar(n % 10)]
  }

  /** `str(i)` for any integer. */
  function IntToDecimal(i: int): string {
    if i < 0 then "-" + NatToDecimal(-i) else NatToDecimal(i)
  }

  function DigitsValue(s: string): nat
    requires AllDigits(s)
  {
    if s == [] then 0
    else DigitsValue(s[..|s| - 1]) * 10 + (s[|s| - 1] as int - '0' as int)
  }

  /** `int(s)` for an optional sign followed by ASCII digits; None where
      Python raises ValueError. */
  function ParseInt(s: string): Option<int> {
    if s != [] && (s[0] == '+' || s[0] == '-') then
      if |s| > 1 && AllDigits(s[1..]) then
        var v: int := DigitsValue(s[1..]);
        Some(if s[0] == '-' then -v else v)
      else None
    else if s != [] && AllDigits(s) then Some(DigitsValue(s))
    else None
  }

  lemma {:induction false} DigitsOfDecimal(n: nat)
    ensures DigitsValue(NatToDecimal(n)) == n
  {
    if n >= 10 {
      DigitsOfDecimal(n / 10);
      var s := NatToDecimal(n);
      assert s[..|s| - 1] == NatToDecimal(n / 10);
    }
  }

  /** `int(str(i)) == i`. */
  lemma ParseIntOfDecimal(i: int)
    ensures ParseInt(IntToDecimal(i)) == Some(i)
  {
    if i < 0 {
      DigitsOfDecimal(-i);
      assert ("-" + NatToDecimal(-i))[1..] == NatToDecimal(-i);
    } else {
      DigitsOfDecimal(i);
    }
  }

  /** Distinct integers print differently. */
  lemma DecimalInjective(i: int, j: int)
    requires IntToDecimal(i) == IntToDecimal(j)
    ensures i == j
  {
    ParseIntOfDecimal(i);
    ParseIntOfDecimal(j);
  }

  // ------------------------------------------------------------------
  // s.split(sep)[-1]

  /** Python's `s.split(sep)[-1]`: what follows the last `sep`, or all of `s`. */
  function LastSegment(s: string, sep: char): (r: string)
    ensures sep !in r
  {
    if s == [] then []
    else if s[|s| - 1] == sep then []
    else LastSegment(s[..|s| - 1], sep) + [s[|s| - 1]]
  }

  /** Python's `s.split(sep)[0]`: what precedes the first `sep`, or all of `s`. */
  function FirstSegment(s: string, sep: char): (r: string)
    ensures r <= s && sep !in r
    ensures |r| < |s| ==> s[|r|] == sep
  {
    if s == [] || s[0] == sep then [] else [s[0]] + FirstSegment(s[1..], sep)
  }

  lemma {:induction false} FirstSegmentBefore(a: string, sep: char, b: string)
    requires sep !in a
    ensures FirstSegment(a + [sep] + b, sep) == a
  {
    if a != [] {
      assert (a + [sep] + b)[1..] == a[1..] + [sep] + b;
      assert a[0] in a;
      FirstSegmentBefore(a[1..], sep, b);
    }
  }

  lemma {:induction false} FirstSegmentWhole(s: string, sep: char)
    requires sep !in s
    ensures FirstSegment(s, sep) == s
  {
    if s != [] {
      assert s[0] in s;
      FirstSegmentWhole(s[1..], sep);
    }
  }

  lemma {:induction false} LastSegmentAfter(a: string, sep: char, b: string)
    requires sep !in b
    ensures LastSegment(a + [sep] + b, sep) == b
  {
    if b != [] {
      var s := a + [sep] + b;
      assert s[..|s| - 1] == a + [sep] + b[..|b| - 1];
      assert b[|b| - 1] in b;
      LastSegmentAfter(a, sep, b[..|b| - 1]);
    } else {
      assert (a + [sep] + b)[|a + [sep] + b| - 1] == sep;
    }
  }

  lemma {:induction false} LastSegmentWhole(s: string, sep: char)
    requires sep !in s
    ensures LastSegment(s, sep) == s
  {
    if s != [] {
      assert s[|s| - 1] in s;
      assert forall c :: c in s[..|s| - 1] ==> c in s;
      LastSegmentWhole(s[..|s| - 1], sep);
    }
  }

  lemma DecimalHasNo(n: nat, c: char)
    requires !IsDigit(c)
    ensures c !in NatToDecimal(n)
  {
    var s := NatToDecimal(n);
    assert forall i :: 0 <= i < |s| ==> s[i] != c;
  }

  // ------------------------------------------------------------------
  // Python's string order (code point by code point)

  predicate LexLe(a: string, b: string)
    decreases |a|
  {
    a == [] || (b != [] && (a[0] < b[0] || (a[0] == b[0] && LexLe(a[1..], b[1..]))))
  }

  lemma {:induction false} LexTotal(a: string, b: string)
    ensures LexLe(a, b) || LexLe(b, a)
    decreases |a|
  {
    if a != [] && b != [] && a[0] == b[0] {
      LexTotal(a[1..], b[1..]);
    }
  }

  lemma {:induction false} LexTransitive(a: string, b: string, c: string)
    requires LexLe(a, b) && LexLe(b, c)
    ensures LexLe(a, c)
    decreases |a|
  {
    if a != [] && a[0] == b[0] && b[0] == c[0] {
      LexTransitive(a[1..], b[1..], c[1..]);
    }
  }

  lemma {:induction false} LexAntisymmetric(a: string, b: string)
    requires LexLe(a, b) && LexLe(b, a)
    ensures a == b
    decreases |a|
  {
    if a != [] {
      LexAntisymmetric(a[1..], b[1..]);
      assert a == [a[0]] + a[1..] && b == [b[0]] + b[1..];
    }
  }

  /** A non-empty set of strings has a least element. */
  lemma {:induction false} LeastExists(keys: set<string>)
    requires keys != {}
    ensures exists k :: k in keys && forall j :: j in keys ==> LexLe(k, j)
    decreases |keys|
  {
    var x :| x in keys;
    LexTotal(x, x);
    if keys == {x} {
      assert forall j :: j in keys ==> j == x;
    } else {
      var rest := keys - {x};
      assert |rest| < |keys|;
      LeastExists(rest);
      var m :| m in rest && forall j :: j in rest ==> LexLe(m, j);
      LexTotal(x, m);
      if LexLe(x, m) {
        forall j | j in keys ensures LexLe(x, j) {
          if j != x {
            assert j in rest;
            LexTransitive(x, m, j);
          }
        }
      } else {
        forall j | j in keys ensures LexLe(m, j) {
          if j != x {
            assert j in rest;
          }
        }
        assert m in keys;
      }
    }
  }

  lemma LexAntisymmetricAll()
    ensures forall a, b :: LexLe(a, b) && LexLe(b, a) ==> a == b
  {
    forall a, b | LexLe(a, b) && LexLe(b, a) ensures a == b {
      LexAntisymmetric(a, b);
    }
  }

  /** The strings of a set, each once, in string order. */
  function KeyList(keys: set<string>): (r: seq<string>)
    ensures |r| == |keys| && forall k :: k in keys <==> k in r
    decreases |keys|
  {
    if keys == {} then []
    else
      LeastExists(keys);
      LexAntisymmetricAll();
      var k :| k in keys && forall j :: j in keys ==> LexLe(k, j);
      [k] + KeyList(keys - {k})
  }

  /** Python's `max(s)` over strings: the first of the largest elements. */
  function MaxLex(s: seq<string>): string
    requires s != []
  {
    if |s| == 1 then s[0]
    else
      var m := MaxLex(s[..|s| - 1]);
      if LexLe(s[|s| - 1], m) then m else s[|s| - 1]
  }

  lemma {:induction false} MaxLexIsMaximum(s: seq<string>)
    requires s != []
    ensures MaxLex(s) in s
    ensures forall x :: x in s ==> LexLe(x, MaxLex(s))
  {
    if |s| == 1 {
      LexTotal(s[0], s[0]);
    } else {
      var init := s[..|s| - 1];
      var last := s[|s| - 1];
      MaxLexIsMaximum(init);
      var m := MaxLex(init);
      assert s == init + [last];
      if !LexLe(last, m) {
        LexTotal(last, m);
        forall x | x in s ensures LexLe(x, last) {
          if x in init {
            LexTransitive(x, m, last);
          } else {
            LexTotal(x, x);
          }
        }
      } else {
        forall x | x in s ensures LexLe(x, m) {
          if x !in init {
            assert x == last;
          }
        }
      }
    }
  }

  /** Concatenation is associative. */
  lemma Concat3<T>(a: seq<T>, b: seq<T>, c: seq<T>)
    ensures a + (b + c) == (a + b) + c
  {
  }
}
