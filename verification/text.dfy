/** Characters and strings as the application's JavaScript sees them:
    the whitespace class of `\s` and `trim()`, case mapping, `includes`,
    `split` on one separator character and `join`. */
module Text {

  /** Exactly the code points matched by `\s` in a JavaScript regular
      expression, which are also the ones `String.prototype.trim` removes. */
  predicate IsSpace(c: char) {
    var n := c as int;
    || n == 0x09 || n == 0x0A || n == 0x0B || n == 0x0C || n == 0x0D || n == 0x20
    || n == 0xA0 || n == 0x1680 || 0x2000 <= n <= 0x200A || n == 0x2028 || n == 0x2029
    || n == 0x202F || n == 0x205F || n == 0x3000 || n == 0xFEFF
  }

  /** `toLowerCase` on one character of the Basic Latin and Latin-1 blocks;
      every other character is left unchanged. */
  function Lower(c: char): char
  {
    var n := c as int;
    if 'A' <= c <= 'Z' || (0xC0 <= n <= 0xDE && n != 0xD7) then (n + 32) as char else c
  }

  /** Lower-casing is idempotent, fixes every whitespace character and never
      produces one from anything else. */
  lemma LowerFacts(c: char)
    ensures Lower(Lower(c)) == Lower(c)
    ensures IsSpace(Lower(c)) <==> IsSpace(c)
    ensures IsSpace(c) ==> Lower(c) == c
  {
  }

  /** `toUpperCase` on one character of the Basic Latin and Latin-1 blocks, as
      a string because 'ß' becomes "SS"; 'ÿ' and 'µ' map outside Latin-1. */
  function Upper(c: char): (r: string)
    ensures 1 <= |r| <= 2
    ensures 'a' <= c <= 'z' ==> r == [(c as int - 32) as char]
    ensures !('a' <= c <= 'z') && c as int < 0xB5 ==> r == [c]
  {
    var n := c as int;
    if 'a' <= c <= 'z' || (0xE0 <= n <= 0xFE && n != 0xF7) then [(n - 32) as char]
    else if n == 0xDF then "SS"
    else if n == 0xFF then [0x178 as char]
    else if n == 0xB5 then [0x39C as char]
    else [c]
  }

  /** `toLowerCase` on a whole string, character by character. */
  function LowerStr(s: string): (r: string)
    ensures |r| == |s|
    ensures forall i :: 0 <= i < |s| ==> r[i] == Lower(s[i])
  {
    seq(|s|, i requires 0 <= i < |s| => Lower(s[i]))
  }

  lemma LowerStrIdempotent(s: string)
    ensures LowerStr(LowerStr(s)) == LowerStr(s)
  {
    forall i | 0 <= i < |s| {
      LowerFacts(s[i]);
    }
  }

  lemma LowerStrAppend(a: string, b: string)
    ensures LowerStr(a + b) == LowerStr(a) + LowerStr(b)
  {
  }

  /** `needle` occurs in `hay` starting at index `i`. */
  predicate OccursAt(hay: string, needle: string, i: int) {
    0 <= i && i + |needle| <= |hay| && hay[i..i + |needle|] == needle
  }

  /** `hay.includes(needle)`: true for the empty needle. */
  predicate Includes(hay: string, needle: string) {
    exists i :: 0 <= i <= |hay| - |needle| && OccursAt(hay, needle, i)
  }

  lemma IncludesEmpty(hay: string)
    ensures Includes(hay, "")
  {
    assert OccursAt(hay, "", 0);
  }

  lemma IncludesSelf(s: string)
    ensures Includes(s, s)
  {
    assert OccursAt(s, s, 0);
  }

  /** True when the string contains no whitespace at all. */
  predicate NoSpace(s: string) {
    forall i :: 0 <= i < |s| ==> !IsSpace(s[i])
  }

  /** True when the string neither starts nor ends with whitespace, i.e.
      `trim()` leaves it as it is. */
  predicate Trimmed(s: string) {
    s == [] || (!IsSpace(s[0]) && !IsSpace(s[|s| - 1]))
  }

  /** `trimStart()`: drop the leading whitespace. */
  function TrimStart(s: string): (r: string)
    ensures |r| <= |s| && r == s[|s| - |r|..]
    ensures r == [] || !IsSpace(r[0])
    ensures forall i :: 0 <= i < |s| - |r| ==> IsSpace(s[i])
    ensures s != [] && IsSpace(s[0]) ==> |r| < |s|
  {
    if s == [] || !IsSpace(s[0]) then s else TrimStart(s[1..])
  }

  /** `trimEnd()`: drop the trailing whitespace. */
  function TrimEnd(s: string): (r: string)
    ensures |r| <= |s| && r == s[..|r|]
    ensures r == [] || !IsSpace(r[|r| - 1])
    ensures forall i :: |r| <= i < |s| ==> IsSpace(s[i])
  {
    if s == [] || !IsSpace(s[|s| - 1]) then s else TrimEnd(s[..|s| - 1])
  }

  /** `trim()`: the longest infix that neither starts nor ends with
      whitespace; empty exactly when the string is all whitespace. */
  function Trim(s: string): (r: string)
    ensures Trimmed(r)
    ensures exists k :: 0 <= k <= |s| - |r| && OccursAt(s, r, k)
    ensures r == [] <==> forall i :: 0 <= i < |s| ==> IsSpace(s[i])
    ensures Trimmed(s) ==> r == s
  {
    var t := TrimStart(s);
    var r := TrimEnd(t);
    assert OccursAt(s, r, |s| - |t|);
    r
  }

  /** Trimming " " + x gives back x when x is already trimmed. */
  lemma TrimLeadingBlank(x: string)
    requires Trimmed(x)
    ensures Trim(" " + x) == x
  {
    var s := " " + x;
    assert s[1..] == x;
    assert IsSpace(s[0]);
    assert TrimStart(s) == TrimStart(x);
    assert TrimStart(x) == x;
    assert TrimEnd(x) == x;
  }

  /** Number of occurrences of `c` in `s`. */
  function Count(s: string, c: char): (n: nat)
    ensures n <= |s|
    ensures c !in s ==> n == 0
  {
    if s == [] then 0 else (if s[0] == c then 1 else 0) + Count(s[1..], c)
  }

  /** `pieces.join(sep)`: the pieces with `sep` between consecutive ones;
      the empty list joins to "". */
  function Join(pieces: seq<string>, sep: string): (r: string)
    ensures |pieces| == 1 ==> r == pieces[0]
  {
    if |pieces| == 0 then ""
    else if |pieces| == 1 then pieces[0]
    else pieces[0] + sep + Join(pieces[1..], sep)
  }

  /** Joining a list extended by one piece appends the separator and that piece. */
  lemma {:induction false} JoinSnoc(pieces: seq<string>, last: string, sep: string)
    requires |pieces| >= 1
    ensures Join(pieces + [last], sep) == Join(pieces, sep) + sep + last
    decreases |pieces|
  {
    if |pieces| == 1 {
      assert pieces + [last] == [pieces[0], last];
      assert Join([pieces[0], last], sep) == pieces[0] + sep + Join([last], sep);
    } else {
      assert (pieces + [last])[1..] == pieces[1..] + [last];
      JoinSnoc(pieces[1..], last, sep);
    }
  }

  /** `s.split(sep)` for a one-character separator: the maximal runs between
      separators, so there is one more piece than there are separators, and
      "" splits to [""]. */
  function Split(s: string, sep: char): (r: seq<string>)
    ensures |r| >= 1
    decreases |s|
  {
    if s == [] then [""]
    else
      var rest := Split(s[1..], sep);
      if s[0] == sep then [""] + rest
      else [[s[0]] + rest[0]] + rest[1..]
  }

  /** A split has one more piece than the string has separators. */
  lemma {:induction false} SplitCount(s: string, sep: char)
    ensures |Split(s, sep)| == Count(s, sep) + 1
    decreases |s|
  {
    if s != [] {
      SplitCount(s[1..], sep);
    }
  }

  /** No piece of a split contains the separator, and the pieces together
      hold every other character of the string. */
  lemma {:induction false} SplitPieces(s: string, sep: char)
    ensures forall i :: 0 <= i < |Split(s, sep)| ==> sep !in Split(s, sep)[i]
    ensures |Split(s, sep)| - 1 + SumLengths(Split(s, sep)) == |s|
    decreases |s|
  {
    if s != [] {
      SplitPieces(s[1..], sep);
      var rest := Split(s[1..], sep);
      if s[0] == sep {
        SumLengthsCons("", rest);
      } else {
        var r := Split(s, sep);
        assert r == [[s[0]] + rest[0]] + rest[1..];
        SumLengthsCons(rest[0], rest[1..]);
        assert rest == [rest[0]] + rest[1..];
        SumLengthsCons([s[0]] + rest[0], rest[1..]);
      }
    }
  }

  /** Total length of a list of strings. */
  function SumLengths(pieces: seq<string>): nat {
    if pieces == [] then 0 else |pieces[0]| + SumLengths(pieces[1..])
  }

  lemma SumLengthsCons(x: string, xs: seq<string>)
    ensures SumLengths([x] + xs) == |x| + SumLengths(xs)
  {
    assert ([x] + xs)[1..] == xs;
  }

  /** Splitting then joining with the same separator gives back the string. */
  lemma {:induction false} JoinSplit(s: string, sep: char)
    ensures Join(Split(s, sep), [sep]) == s
    decreases |s|
  {
    if s != [] {
      var rest := Split(s[1..], sep);
      JoinSplit(s[1..], sep);
      if s[0] == sep {
        assert Split(s, sep) == [""] + rest;
        assert ([""] + rest)[1..] == rest;
      } else {
        var r := Split(s, sep);
        assert r == [[s[0]] + rest[0]] + rest[1..];
        if |rest| > 1 {
          assert r[1..] == rest[1..];
          assert Join(rest, [sep]) == rest[0] + [sep] + Join(rest[1..], [sep]);
        }
      }
    }
  }

  /** Joining pieces that do not contain the separator, then splitting, gives
      back the pieces (a non-empty list: the empty list joins to "" which
      splits to [""]). */
  lemma {:induction false} SplitJoin(pieces: seq<string>, sep: char)
    requires |pieces| >= 1
    requires forall i :: 0 <= i < |pieces| ==> sep !in pieces[i]
    ensures Split(Join(pieces, [sep]), sep) == pieces
    decreases |pieces|
  {
    if |pieces| == 1 {
      SplitNoSep(pieces[0], sep);
    } else {
      SplitJoin(pieces[1..], sep);
      SplitAppend(pieces[0], Join(pieces[1..], [sep]), sep);
      SplitNoSep(pieces[0], sep);
      assert pieces == [pieces[0]] + pieces[1..];
    }
  }

  /** A string without the separator splits to itself. */
  lemma {:induction false} SplitNoSep(s: string, sep: char)
    requires sep !in s
    ensures Split(s, sep) == [s]
    decreases |s|
  {
    if s != [] {
      assert sep !in s[1..];
      SplitNoSep(s[1..], sep);
      assert s == [s[0]] + s[1..];
    }
  }

  /** One step of `Split`: a leading separator closes an empty piece. */
  lemma SplitConsSep(t: string, sep: char)
    ensures Split([sep] + t, sep) == [""] + Split(t, sep)
  {
    assert ([sep] + t)[1..] == t;
  }

  /** One step of `Split`: any other character opens the first piece. */
  lemma SplitConsOther(c: char, t: string, sep: char)
    requires c != sep
    ensures Split([c] + t, sep) == [[c] + Split(t, sep)[0]] + Split(t, sep)[1..]
  {
    assert ([c] + t)[1..] == t;
  }

  /** Splitting `a + sep + b` splits `a` and `b` separately and concatenates. */
  lemma {:induction false} SplitAppend(a: string, b: string, sep: char)
    ensures Split(a + [sep] + b, sep) == Split(a, sep) + Split(b, sep)
    decreases |a|
  {
    if a == [] {
      assert a + [sep] + b == [sep] + b;
      SplitConsSep(b, sep);
    } else {
      var t := a[1..];
      assert a + [sep] + b == [a[0]] + (t + [sep] + b);
      assert a == [a[0]] + t;
      SplitAppend(t, b, sep);
      SplitAppendStep(a[0], t, b, sep);
    }
  }

  /** The inductive step of `SplitAppend`: prefixing one character. */
  lemma SplitAppendStep(c: char, t: string, b: string, sep: char)
    requires Split(t + [sep] + b, sep) == Split(t, sep) + Split(b, sep)
    ensures Split([c] + (t + [sep] + b), sep) == Split([c] + t, sep) + Split(b, sep)
  {
    if c == sep {
      SplitConsSep(t + [sep] + b, sep);
      SplitConsSep(t, sep);
    } else {
      SplitConsOther(c, t + [sep] + b, sep);
      SplitConsOther(c, t, sep);
      ExtendHead([c], Split(t, sep), Split(b, sep));
    }
  }

  /** Extending the first piece of a list commutes with appending more pieces. */
  lemma ExtendHead(x: string, ra: seq<string>, rb: seq<string>)
    requires |ra| >= 1
    ensures [x + (ra + rb)[0]] + (ra + rb)[1..] == ([x + ra[0]] + ra[1..]) + rb
  {
    assert (ra + rb)[0] == ra[0];
    assert (ra + rb)[1..] == ra[1..] + rb;
  }
}
