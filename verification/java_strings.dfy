/**
 * The java.lang.String and Spring StringUtils operations the modelled code relies on:
 * startsWith, trim, hasText, split(","), Collectors.joining, replace, equalsIgnoreCase.
 * Strings are sequences of characters; one Java `char` is one Dafny `char`.
 */
module JavaStrings {
  import opened Wrappers

  /** String.startsWith */
  predicate StartsWith(s: string, prefix: string) {
    |prefix| <= |s| && s[..|prefix|] == prefix
  }

  /** `target` occurs in `s` starting at index `i` */
  predicate OccursAt(s: string, target: string, i: int) {
    0 <= i <= |s| - |target| && s[i..i + |target|] == target
  }

  /** String.contains, for a literal target */
  predicate Contains(s: string, target: string) {
    exists i | 0 <= i <= |s| - |target| :: OccursAt(s, target, i)
  }

  lemma StartsWithConcat(prefix: string, rest: string)
    ensures StartsWith(prefix + rest, prefix) && (prefix + rest)[|prefix|..] == rest
  {
    assert (prefix + rest)[..|prefix|] == prefix;
  }

  /** String concatenation with a possibly null operand: null is rendered as "null". */
  function NullToString(s: Option<string>): (r: string)
    ensures s.Some? ==> r == s.value
    ensures s.None? ==> r == "null"
  {
    match s
    case Some(v) => v
    case None => "null"
  }

  // ---------------------------------------------------------------------------
  // String.trim: strips leading and trailing characters whose code is <= U+0020.

  predicate IsBlank(s: string) {
    forall i | 0 <= i < |s| :: s[i] <= ' '
  }

  function TrimLeft(s: string): (r: string)
    ensures |r| <= |s| && r == s[|s| - |r|..]
    ensures r != [] ==> r[0] > ' '
    ensures forall i | 0 <= i < |s| - |r| :: s[i] <= ' '
  {
    if s == [] || s[0] > ' ' then s else TrimLeft(s[1..])
  }

  function TrimRight(s: string): (r: string)
    ensures |r| <= |s| && r == s[..|r|]
    ensures r != [] ==> r[|r| - 1] > ' '
    ensures forall i | |r| <= i < |s| :: s[i] <= ' '
  {
    if s == [] || s[|s| - 1] > ' ' then s else TrimRight(s[..|s| - 1])
  }

  function Trim(s: string): (r: string)
    ensures r == [] <==> IsBlank(s)
    ensures r != [] ==> r[0] > ' ' && r[|r| - 1] > ' '
    ensures s != [] && s[0] > ' ' && s[|s| - 1] > ' ' ==> r == s
  {
    var left := TrimLeft(s);
    var r := TrimRight(left);
    assert r == [] ==> left == [];
    r
  }

  // ---------------------------------------------------------------------------
  // Spring's StringUtils.hasText: non-null and holding a character that is not
  // Character.isWhitespace.

  /** Character.isWhitespace: the Unicode space, line and paragraph separators other than
      the non-breaking ones, plus the ASCII controls TAB, LF, VT, FF, CR and FS..US. */
  predicate IsWhitespace(c: char) {
    var k := c as int;
    (0x09 <= k <= 0x0D) || (0x1C <= k <= 0x20)
    || k == 0x1680 || (0x2000 <= k <= 0x200A && k != 0x2007)
    || k == 0x2028 || k == 0x2029 || k == 0x205F || k == 0x3000
  }

  predicate HasText(s: string) {
    exists i :: 0 <= i < |s| && !IsWhitespace(s[i])
  }

  // ---------------------------------------------------------------------------
  // Collectors.joining(sep)

  function Join(xs: seq<string>, sep: string): string {
    if xs == [] then ""
    else if |xs| == 1 then xs[0]
    else xs[0] + sep + Join(xs[1..], sep)
  }

  // ---------------------------------------------------------------------------
  // String.split(regex) for a one-character, non-special separator such as ",".

  /** Every piece between separators, leading and trailing empty pieces included. */
  function SplitAll(s: string, sep: char): (pieces: seq<string>)
    ensures |pieces| >= 1
    ensures forall k | 0 <= k < |pieces| :: sep !in pieces[k]
  {
    if s == [] then [""]
    else
      var rest := SplitAll(s[1..], sep);
      if s[0] == sep then [""] + rest else [[s[0]] + rest[0]] + rest[1..]
  }

  /** Removes the empty pieces at the end, as split with limit 0 does. */
  function DropTrailingEmpty(xs: seq<string>): (r: seq<string>)
    ensures |r| <= |xs| && r == xs[..|r|]
    ensures r == [] || r[|r| - 1] != ""
  {
    if xs != [] && xs[|xs| - 1] == "" then DropTrailingEmpty(xs[..|xs| - 1]) else xs
  }

  /** String.split: a string without the separator splits into itself alone; otherwise
      into its pieces, without the trailing empty ones. */
  function Split(s: string, sep: char): seq<string> {
    if sep !in s then [s] else DropTrailingEmpty(SplitAll(s, sep))
  }

  lemma {:induction false} SplitAllWithoutSeparator(s: string, sep: char)
    requires sep !in s
    ensures SplitAll(s, sep) == [s]
  {
    if s != [] {
      SplitAllWithoutSeparator(s[1..], sep);
      assert [s[0]] + s[1..] == s;
    }
  }

  lemma {:induction false} SplitAllAfterPiece(a: string, sep: char, b: string)
    requires sep !in a
    ensures SplitAll(a + [sep] + b, sep) == [a] + SplitAll(b, sep)
  {
    if a == [] {
      assert a + [sep] + b == [sep] + b;
      assert ([sep] + b)[1..] == b;
    } else {
      var s := a + [sep] + b;
      assert s[1..] == a[1..] + [sep] + b;
      SplitAllAfterPiece(a[1..], sep, b);
      assert [a[0]] + a[1..] == a;
    }
  }

  /** Splitting a joined list gives the list back when no element holds the separator. */
  lemma {:induction false} SplitAllJoin(xs: seq<string>, sep: char)
    requires xs != []
    requires forall k | 0 <= k < |xs| :: sep !in xs[k]
    ensures SplitAll(Join(xs, [sep]), sep) == xs
  {
    if |xs| == 1 {
      SplitAllWithoutSeparator(xs[0], sep);
    } else {
      SplitAllJoin(xs[1..], sep);
      SplitAllAfterPiece(xs[0], sep, Join(xs[1..], [sep]));
      assert xs[0] + [sep] + Join(xs[1..], [sep]) == Join(xs, [sep]);
      assert [xs[0]] + xs[1..] == xs;
    }
  }

  lemma {:induction false} JoinHoldsSeparator(xs: seq<string>, sep: char)
    requires |xs| >= 2
    ensures sep in Join(xs, [sep])
  {
    var j := Join(xs, [sep]);
    assert j == xs[0] + [sep] + Join(xs[1..], [sep]);
    assert j[|xs[0]|] == sep;
  }

  lemma {:induction false} JoinWithoutSeparator(xs: seq<string>, sep: char)
    requires |xs| == 1 && sep !in xs[0]
    ensures sep !in Join(xs, [sep])
  {
  }

  /** The first character of a join is the first character of its first element. */
  lemma {:induction false} JoinStartsWithFirst(xs: seq<string>, sep: string)
    requires xs != [] && xs[0] != []
    ensures Join(xs, sep) != [] && Join(xs, sep)[0] == xs[0][0]
  {
  }

  /** The last character of a join is the last character of its last element. */
  lemma {:induction false} JoinEndsWithLast(xs: seq<string>, sep: string)
    requires xs != [] && xs[|xs| - 1] != []
    ensures var j := Join(xs, sep); j != [] && j[|j| - 1] == xs[|xs| - 1][|xs[|xs| - 1]| - 1]
  {
    if |xs| > 1 {
      JoinEndsWithLast(xs[1..], sep);
    }
  }

  // ---------------------------------------------------------------------------
  // String.replace(target, replacement): every occurrence, scanned left to right.

  function Replace(s: string, target: string, replacement: string): string
    requires target != []
    decreases |s|
  {
    if |s| < |target| then s
    else if s[..|target|] == target then replacement + Replace(s[|target|..], target, replacement)
    else [s[0]] + Replace(s[1..], target, replacement)
  }

  lemma {:induction false} ReplaceAbsent(s: string, target: string, replacement: string)
    requires target != [] && !Contains(s, target)
    ensures Replace(s, target, replacement) == s
    decreases |s|
  {
    if |s| >= |target| {
      assert !OccursAt(s, target, 0);
      assert !Contains(s[1..], target) by {
        if Contains(s[1..], target) {
          var i :| 0 <= i <= |s[1..]| - |target| && OccursAt(s[1..], target, i);
          assert s[i + 1..i + 1 + |target|] == s[1..][i..i + |target|];
          assert OccursAt(s, target, i + 1);
        }
      }
      ReplaceAbsent(s[1..], target, replacement);
    }
  }

  lemma ReplaceLeading(target: string, rest: string, replacement: string)
    requires target != []
    ensures Replace(target + rest, target, replacement)
            == replacement + Replace(rest, target, replacement)
  {
    assert (target + rest)[..|target|] == target;
    assert (target + rest)[|target|..] == rest;
  }

  // ---------------------------------------------------------------------------
  // String.equalsIgnoreCase, with ASCII case folding.

  function ToLowerAscii(c: char): char {
    if 'A' <= c <= 'Z' then (c as int + 32) as char else c
  }

  predicate EqualsIgnoreCase(a: string, b: string) {
    |a| == |b| && forall i | 0 <= i < |a| :: ToLowerAscii(a[i]) == ToLowerAscii(b[i])
  }

  // ---------------------------------------------------------------------------
  // String.getBytes() under UTF-8: the number of bytes each character encodes to.

  function Utf8Length(s: string): nat {
    if s == [] then 0
    else
      var k := s[0] as int;
      (if k < 0x80 then 1 else if k < 0x800 then 2 else if k < 0x10000 then 3 else 4)
      + Utf8Length(s[1..])
  }

  // ---------------------------------------------------------------------------
  // Position of a character, as String.indexOf.

  function IndexOf(s: string, c: char): (r: int)
    ensures r == -1 <==> c !in s
    ensures r != -1 ==> 0 <= r < |s| && s[r] == c && c !in s[..r]
  {
    if s == [] then -1
    else if s[0] == c then 0
    else
      var k := IndexOf(s[1..], c);
      if k == -1 then -1
      else
        assert s[..k + 1] == [s[0]] + s[1..][..k];
        k + 1
  }
}
