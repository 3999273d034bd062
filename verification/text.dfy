/** String helpers with Python's meaning: `sep.join(parts)`, `s.split(c)`,
    `s.split()[0]`, `str(n)` for integers, and string concatenation in a loop. */
module Text {
  import opened Wrappers

  // ---------------------------------------------------------------------------
  // sep.join(parts) and its inverse s.split(c)
  // ---------------------------------------------------------------------------

  /** Sum of the lengths of `parts`. */
  function TotalLength(parts: seq<string>): nat
  {
    if |parts| == 0 then 0 else |parts[0]| + TotalLength(parts[1..])
  }

  /** Python's `sep.join(parts)`: the parts in order with `sep` between
      neighbours and no leading or trailing separator. */
  function Join(sep: string, parts: seq<string>): (r: string)
    ensures |parts| == 0 ==> r == ""
    ensures |parts| > 0 ==> |r| == TotalLength(parts) + |sep| * (|parts| - 1)
    ensures |parts| > 0 ==> r[..|parts[0]|] == parts[0]
  {
    if |parts| == 0 then ""
    else if |parts| == 1 then parts[0]
    else parts[0] + sep + Join(sep, parts[1..])
  }

  /** Joining two non-empty runs of parts puts exactly one separator between them. */
  lemma {:induction false} JoinAppend(sep: string, a: seq<string>, b: seq<string>)
    requires |a| > 0 && |b| > 0
    ensures Join(sep, a + b) == Join(sep, a) + sep + Join(sep, b)
    decreases |a|
  {
    if |a| == 1 {
      assert (a + b)[1..] == b;
    } else {
      assert (a + b)[1..] == a[1..] + b;
      JoinAppend(sep, a[1..], b);
    }
  }

  /** Joining four parts, written out. */
  lemma JoinFour(sep: string, a: string, b: string, c: string, d: string)
    ensures Join(sep, [a, b, c, d]) == a + sep + b + sep + c + sep + d
  {
    assert [a, b, c, d][1..] == [b, c, d];
    assert [b, c, d][1..] == [c, d];
    assert [c, d][1..] == [d];
    assert Join(sep, [c, d]) == c + sep + d;
    assert Join(sep, [b, c, d]) == b + sep + (c + sep + d);
    assert Join(sep, [a, b, c, d]) == a + sep + (b + sep + (c + sep + d));
  }

  /** Position in `Join(sep, parts)` at which part `i` begins. */
  function PartOffset(sep: string, parts: seq<string>, i: nat): nat
    requires i <= |parts|
  {
    if i == 0 then 0 else PartOffset(sep, parts, i - 1) + |parts[i - 1]| + |sep|
  }

  /** Every part occurs in the joined text, in order, at the offset given by the
      lengths of the parts and separators before it. */
  lemma {:induction false} JoinPartAt(sep: string, parts: seq<string>, i: nat)
    requires i < |parts|
    ensures PartOffset(sep, parts, i) + |parts[i]| <= |Join(sep, parts)|
    ensures Join(sep, parts)[PartOffset(sep, parts, i)..PartOffset(sep, parts, i) + |parts[i]|] == parts[i]
    decreases i
  {
    if i > 0 {
      var a, b := parts[..i], parts[i..];
      assert parts == a + b;
      JoinAppend(sep, a, b);
      PrefixOffset(sep, parts, i);
      var j := Join(sep, parts);
      var off := PartOffset(sep, parts, i);
      assert off == |Join(sep, a)| + |sep|;
      assert j == Join(sep, a) + sep + Join(sep, b);
      assert b[0] == parts[i];
      assert j[off..] == Join(sep, b);
      assert Join(sep, b)[..|parts[i]|] == parts[i];
    }
  }

  /** The offset of part `i` is the length of the joined first `i` parts plus one separator. */
  lemma {:induction false} PrefixOffset(sep: string, parts: seq<string>, i: nat)
    requires 0 < i <= |parts|
    ensures PartOffset(sep, parts, i) == |Join(sep, parts[..i])| + |sep|
    decreases i
  {
    if i > 1 {
      PrefixOffset(sep, parts, i - 1);
      assert parts[..i] == parts[..i - 1] + [parts[i - 1]];
      JoinAppend(sep, parts[..i - 1], [parts[i - 1]]);
    }
  }

  /** Index of the first occurrence of `c` in `s`. */
  function IndexOf(s: string, c: char): (i: nat)
    requires c in s
    ensures i < |s| && s[i] == c && c !in s[..i]
  {
    if s[0] == c then 0 else 1 + IndexOf(s[1..], c)
  }

  /** Python's `s.split(c)` for a one-character separator: the maximal pieces
      between occurrences of `c`; always at least one piece. */
  function Split(s: string, c: char): (parts: seq<string>)
    ensures |parts| > 0
    ensures forall k :: 0 <= k < |parts| ==> c !in parts[k]
    decreases |s|
  {
    if c !in s then [s]
    else
      var i := IndexOf(s, c);
      [s[..i]] + Split(s[i + 1..], c)
  }

  /** The first occurrence of `c` in `p + [c] + t` is the one right after `p`
      when `p` does not contain `c`. */
  lemma {:induction false} IndexOfAfter(p: string, c: char, t: string)
    requires c !in p
    ensures IndexOf(p + [c] + t, c) == |p|
    decreases |p|
  {
    var s := p + [c] + t;
    if |p| > 0 {
      assert s[0] == p[0] && p[0] != c;
      assert s[1..] == p[1..] + [c] + t;
      IndexOfAfter(p[1..], c, t);
    }
  }

  /** Splitting a joined text on its one-character separator gives back the
      parts, provided no part contains the separator. */
  lemma {:induction false} SplitJoin(c: char, parts: seq<string>)
    requires |parts| > 0
    requires forall k :: 0 <= k < |parts| ==> c !in parts[k]
    ensures Split(Join([c], parts), c) == parts
    decreases |parts|
  {
    if |parts| > 1 {
      var rest := Join([c], parts[1..]);
      var s := parts[0] + [c] + rest;
      assert Join([c], parts) == s;
      IndexOfAfter(parts[0], c, rest);
      assert c in s by { assert s[|parts[0]|] == c; }
      assert s[..|parts[0]|] == parts[0];
      assert s[|parts[0]| + 1..] == rest;
      SplitJoin(c, parts[1..]);
      assert parts == [parts[0]] + parts[1..];
    }
  }

  /** Three lines, each ended by a newline, split back into the three lines and
      the empty rest after the last newline. */
  lemma SplitLines(a: string, b: string, c: string)
    requires '\n' !in a && '\n' !in b && '\n' !in c
    ensures Split(a + "\n" + b + "\n" + c + "\n", '\n') == [a, b, c, ""]
  {
    JoinFour("\n", a, b, c, "");
    assert a + "\n" + b + "\n" + c + "\n" + "" == a + "\n" + b + "\n" + c + "\n";
    SplitJoin('\n', [a, b, c, ""]);
  }

  // ---------------------------------------------------------------------------
  // text += piece in a loop
  // ---------------------------------------------------------------------------

  /** Concatenation of `pieces` in order, built the way a Python loop does
      `text += piece`, last piece appended last. */
  function Concat(pieces: seq<string>): string
  {
    if |pieces| == 0 then "" else Concat(pieces[..|pieces| - 1]) + pieces[|pieces| - 1]
  }

  /** Appending one more piece appends its text. */
  lemma ConcatSnoc(pieces: seq<string>, i: nat)
    requires i < |pieces|
    ensures Concat(pieces[..i + 1]) == Concat(pieces[..i]) + pieces[i]
  {
    assert pieces[..i + 1][..i] == pieces[..i];
  }

  /** Concatenation distributes over appending runs of pieces. */
  lemma {:induction false} ConcatAppend(a: seq<string>, b: seq<string>)
    ensures Concat(a + b) == Concat(a) + Concat(b)
    decreases |b|
  {
    if |b| == 0 {
      assert a + b == a;
    } else {
      var b' := b[..|b| - 1];
      assert (a + b)[..|a + b| - 1] == a + b';
      ConcatAppend(a, b');
    }
  }

  /** `text += f(x)` for each `x` in turn, where `f` may raise: the first
      failure ends the loop and is what the whole fold reports. */
  function ConcatResults<A, E>(xs: seq<A>, f: A -> Result<string, E>): Result<string, E>
  {
    if |xs| == 0 then Ok("")
    else
      match ConcatResults(xs[..|xs| - 1], f)
      case Err(e) => Err(e)
      case Ok(text) =>
        match f(xs[|xs| - 1])
        case Err(e) => Err(e)
        case Ok(piece) => Ok(text + piece)
  }

  /** One more step of the fold: a prefix that succeeded extends by the next piece. */
  lemma ConcatResultsSnoc<A, E>(xs: seq<A>, i: nat, f: A -> Result<string, E>)
    requires i < |xs|
    requires ConcatResults(xs[..i], f).Ok?
    ensures f(xs[i]).Ok? ==> ConcatResults(xs[..i + 1], f) == Ok(ConcatResults(xs[..i], f).value + f(xs[i]).value)
    ensures f(xs[i]).Err? ==> ConcatResults(xs[..i + 1], f) == Err(f(xs[i]).error)
  {
    assert xs[..i + 1][..i] == xs[..i];
  }

  /** Once a prefix fails, the whole fold fails with the same error. */
  lemma {:induction false} ConcatResultsPrefixError<A, E>(xs: seq<A>, n: nat, f: A -> Result<string, E>)
    requires n <= |xs|
    requires ConcatResults(xs[..n], f).Err?
    ensures ConcatResults(xs, f) == ConcatResults(xs[..n], f)
    decreases |xs| - n
  {
    if n < |xs| {
      assert xs[..n + 1][..n] == xs[..n];
      ConcatResultsPrefixError(xs, n + 1, f);
    } else {
      assert xs[..n] == xs;
    }
  }

  /** The fold succeeds exactly when no piece fails. */
  lemma {:induction false} ConcatResultsSucceeds<A, E>(xs: seq<A>, f: A -> Result<string, E>)
    ensures ConcatResults(xs, f).Ok? <==> forall i :: 0 <= i < |xs| ==> f(xs[i]).Ok?
    decreases |xs|
  {
    if |xs| > 0 {
      var init := xs[..|xs| - 1];
      ConcatResultsSucceeds(init, f);
      assert forall i :: 0 <= i < |init| ==> init[i] == xs[i];
    }
  }

  /** When no piece fails, the fold is the concatenation of all pieces in order. */
  lemma {:induction false} ConcatResultsOk<A, E>(xs: seq<A>, f: A -> Result<string, E>)
    requires MapAll(xs, f).Ok?
    ensures ConcatResults(xs, f) == Ok(Concat(MapAll(xs, f).value))
    decreases |xs|
  {
    if |xs| > 0 {
      var init := xs[..|xs| - 1];
      var ys := MapAll(xs, f).value;
      assert MapAll(init, f).Ok?;
      assert MapAll(init, f).value == ys[..|ys| - 1];
      ConcatResultsOk(init, f);
    }
  }

  // ---------------------------------------------------------------------------
  // s.split()[0]: the first whitespace-separated word
  // ---------------------------------------------------------------------------

  /** The characters Python's `str.split()` treats as separators (`str.isspace`). */
  predicate IsSpace(c: char)
  {
    var n := c as int;
    n == 0x20 || 0x09 <= n <= 0x0D || 0x1C <= n <= 0x1F || n == 0x85 || n == 0xA0
    || n == 0x1680 || 0x2000 <= n <= 0x200A || n == 0x2028 || n == 0x2029
    || n == 0x202F || n == 0x205F || n == 0x3000
  }

  predicate AllSpace(s: string)
  {
    forall i :: 0 <= i < |s| ==> IsSpace(s[i])
  }

  /** The index of the first non-whitespace character of `s` at or after `i`
      (`|s|` when there is none). */
  function SkipSpaces(s: string, i: nat): (j: nat)
    requires i <= |s|
    ensures i <= j <= |s|
    ensures forall m :: i <= m < j ==> IsSpace(s[m])
    ensures j < |s| ==> !IsSpace(s[j])
    decreases |s| - i
  {
    if i < |s| && IsSpace(s[i]) then SkipSpaces(s, i + 1) else i
  }

  /** The index of the first whitespace character of `s` at or after `i`
      (`|s|` when there is none). */
  function SkipWord(s: string, i: nat): (j: nat)
    requires i <= |s|
    ensures i <= j <= |s|
    ensures forall m :: i <= m < j ==> !IsSpace(s[m])
    ensures j < |s| ==> IsSpace(s[j])
    decreases |s| - i
  {
    if i < |s| && !IsSpace(s[i]) then SkipWord(s, i + 1) else i
  }

  /** `w` is the first word of `s`, starting at index `k`: only whitespace
      before it, and it ends at the end of `s` or at whitespace. */
  predicate IsFirstWordAt(s: string, w: string, k: nat)
  {
    && k + |w| <= |s|
    && |w| > 0
    && (forall m :: 0 <= m < k ==> IsSpace(s[m]))
    && w == s[k..k + |w|]
    && (forall m :: k <= m < k + |w| ==> !IsSpace(s[m]))
    && (k + |w| == |s| || IsSpace(s[k + |w|]))
  }

  /** Python's `s.split()[0]`; `None` stands for the IndexError raised when
      `s` holds no word. */
  function FirstWord(s: string): (r: Option<string>)
    ensures r.None? <==> AllSpace(s)
    ensures r.Some? ==> exists k: nat :: IsFirstWordAt(s, r.value, k)
  {
    var k := SkipSpaces(s, 0);
    if k == |s| then None
    else
      var w := s[k..SkipWord(s, k)];
      assert IsFirstWordAt(s, w, k);
      Some(w)
  }

  /** A run of whitespace from `i` up to a non-whitespace character at `k`
      is what `SkipSpaces` skips. */
  lemma {:induction false} SkipSpacesTo(s: string, i: nat, k: nat)
    requires i <= k <= |s|
    requires forall m :: i <= m < k ==> IsSpace(s[m])
    requires k < |s| ==> !IsSpace(s[k])
    ensures SkipSpaces(s, i) == k
    decreases k - i
  {
    if i < k {
      SkipSpacesTo(s, i + 1, k);
    }
  }

  /** A run of non-whitespace from `i` up to whitespace or the end at `k` is
      what `SkipWord` skips. */
  lemma {:induction false} SkipWordTo(s: string, i: nat, k: nat)
    requires i <= k <= |s|
    requires forall m :: i <= m < k ==> !IsSpace(s[m])
    requires k < |s| ==> IsSpace(s[k])
    ensures SkipWord(s, i) == k
    decreases k - i
  {
    if i < k {
      SkipWordTo(s, i + 1, k);
    }
  }

  /** Conversely, any word that sits first in `s` is what `FirstWord` returns. */
  lemma FirstWordOf(s: string, w: string, k: nat)
    requires IsFirstWordAt(s, w, k)
    ensures FirstWord(s) == Some(w)
  {
    SkipSpacesTo(s, 0, k);
    SkipWordTo(s, k, k + |w|);
  }

  // ---------------------------------------------------------------------------
  // str(n) for Python integers, and its inverse
  // ---------------------------------------------------------------------------

  predicate IsDigit(c: char)
  {
    '0' <= c <= '9'
  }

  predicate AllDigits(s: string)
  {
    forall i :: 0 <= i < |s| ==> IsDigit(s[i])
  }

  function DigitChar(d: nat): (c: char)
    requires d < 10
    ensures IsDigit(c) && c as int - '0' as int == d
  {
    (d + '0' as int) as char
  }

  /** Decimal digits of `n` without leading zeros (Python's `str(n)` for n >= 0). */
  function NatToStr(n: nat): string
  {
    if n < 10 then [DigitChar(n)] else NatToStr(n / 10) + [DigitChar(n % 10)]
  }

  /** The digits of a natural number: only digits, at least one, and no
      leading zero unless the number is 0. */
  lemma {:induction false} NatToStrDigits(n: nat)
    ensures |NatToStr(n)| > 0 && AllDigits(NatToStr(n))
    ensures n > 0 ==> NatToStr(n)[0] != '0'
    decreases n
  {
    if n >= 10 {
      NatToStrDigits(n / 10);
    }
  }

  /** Value of a string of decimal digits. */
  function ParseNat(s: string): nat
    requires AllDigits(s)
  {
    if |s| == 0 then 0 else ParseNat(s[..|s| - 1]) * 10 + (s[|s| - 1] as int - '0' as int)
  }

  lemma {:induction false} ParseNatToStr(n: nat)
    ensures AllDigits(NatToStr(n)) && ParseNat(NatToStr(n)) == n
    decreases n
  {
    NatToStrDigits(n);
    if n >= 10 {
      var s := NatToStr(n);
      assert s[..|s| - 1] == NatToStr(n / 10);
      ParseNatToStr(n / 10);
    }
  }

  /** Python's `str(n)` for an integer: a minus sign for negative numbers, then
      the decimal digits of the magnitude. */
  function IntToStr(n: int): string
  {
    if n < 0 then "-" + NatToStr(-n) else NatToStr(n)
  }

  /** A canonical decimal numeral: an optional minus sign, then digits with no
      leading zero except for "0" itself, and no "-0". */
  predicate IsNumeral(s: string)
  {
    && |s| > 0
    && (s[0] == '-' ==> |s| > 1 && AllDigits(s[1..]) && s[1] != '0')
    && (s[0] != '-' ==> AllDigits(s) && (|s| > 1 ==> s[0] != '0'))
  }

  /** Integers render as canonical numerals, negative exactly when the number is,
      and never contain a line break. */
  lemma IntToStrShape(n: int)
    ensures IsNumeral(IntToStr(n))
    ensures n < 0 <==> IntToStr(n)[0] == '-'
    ensures '\n' !in IntToStr(n)
  {
    if n < 0 {
      NatToStrDigits(-n);
      assert IntToStr(n)[1..] == NatToStr(-n);
    } else {
      NatToStrDigits(n);
    }
  }

  /** Value of a numeral. */
  function ParseInt(s: string): int
    requires IsNumeral(s)
  {
    if s[0] == '-' then -(ParseNat(s[1..]) as int) else ParseNat(s)
  }

  /** Integer rendering loses nothing: the numeral parses back to the number. */
  lemma IntToStrRoundTrip(n: int)
    ensures IsNumeral(IntToStr(n)) && ParseInt(IntToStr(n)) == n
  {
    IntToStrShape(n);
    if n < 0 {
      assert IntToStr(n)[1..] == NatToStr(-n);
      ParseNatToStr(-n);
    } else {
      ParseNatToStr(n);
    }
  }
}
