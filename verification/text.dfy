/** String helpers with the meaning JavaScript gives them: white space as the
    `\s` regular-expression class and `String.prototype.trim` see it, ASCII
    case folding, `Array.prototype.join` and `String.prototype.split` with a
    one-character separator. Strings are sequences of characters; JavaScript's
    UTF-16 code units are not distinguished from code points, which none of
    the patterns below can observe. */
module Text {
  import opened Wrappers

  /** The ECMAScript WhiteSpace and LineTerminator code points: the set `\s`
      matches and `trim` strips. */
  predicate IsSpace(c: char) {
    var n := c as int;
    || n == 0x09 || n == 0x0A || n == 0x0B || n == 0x0C || n == 0x0D || n == 0x20
    || n == 0xA0 || n == 0x1680 || (0x2000 <= n <= 0x200A)
    || n == 0x2028 || n == 0x2029 || n == 0x202F || n == 0x205F
    || n == 0x3000 || n == 0xFEFF
  }

  predicate AllSpace(s: string) {
    forall i :: 0 <= i < |s| ==> IsSpace(s[i])
  }

  /** `t` occurs in `s` starting at index `i`. */
  predicate OccursAt(s: string, t: string, i: int) {
    0 <= i && i + |t| <= |s| && s[i..i + |t|] == t
  }

  /** JavaScript truthiness of an optional string: present and not empty. */
  predicate Truthy(o: Option<string>) {
    o.Some? && o.value != ""
  }

  /** The first index at or after `i` that is not white space, or |s|. */
  function SkipSpace(s: string, i: nat): (k: nat)
    requires i <= |s|
    ensures i <= k <= |s|
    ensures forall m :: i <= m < k ==> IsSpace(s[m])
    ensures k < |s| ==> !IsSpace(s[k])
    decreases |s| - i
  {
    if i < |s| && IsSpace(s[i]) then SkipSpace(s, i + 1) else i
  }

  /** The least `k <= j` such that s[k..j] is all white space. */
  function SkipSpaceBack(s: string, j: nat): (k: nat)
    requires j <= |s|
    ensures k <= j
    ensures forall m :: k <= m < j ==> IsSpace(s[m])
    ensures 0 < k ==> !IsSpace(s[k - 1])
  {
    if 0 < j && IsSpace(s[j - 1]) then SkipSpaceBack(s, j - 1) else j
  }

  /** `String.prototype.trim`: the slice of `s` left after removing white
      space from both ends. */
  function Trim(s: string): (r: string)
    ensures |r| <= |s|
    ensures r == [] <==> AllSpace(s)
    ensures r != [] ==> !IsSpace(r[0]) && !IsSpace(r[|r| - 1])
    ensures exists a :: 0 <= a <= |s| - |r| && r == s[a..a + |r|]
                        && AllSpace(s[..a]) && AllSpace(s[a + |r|..])
  {
    var a := SkipSpace(s, 0);
    var b := SkipSpaceBack(s, |s|);
    if a == |s| then
      assert AllSpace(s[..|s|]) && AllSpace(s[|s|..]);
      []
    else
      assert !IsSpace(s[a]);
      assert a < b;
      assert AllSpace(s[..a]) && AllSpace(s[b..]);
      s[a..b]
  }

  /** A string without white space at either end is its own trim. */
  lemma TrimmedUnchanged(s: string)
    requires s == [] || (!IsSpace(s[0]) && !IsSpace(s[|s| - 1]))
    ensures Trim(s) == s
  {
    if s != [] {
      assert SkipSpace(s, 0) == 0;
      assert SkipSpaceBack(s, |s|) == |s|;
      assert s[0..|s|] == s;
    }
  }

  /** Trimming an already trimmed string changes nothing. */
  lemma TrimIdempotent(s: string)
    ensures Trim(Trim(s)) == Trim(s)
  {
    TrimmedUnchanged(Trim(s));
  }

  /** Trimming only removes characters, so it adds none. */
  lemma TrimAddsNothing(s: string, c: char)
    requires c !in s
    ensures c !in Trim(s)
  {
    var r := Trim(s);
    var a :| 0 <= a <= |s| - |r| && r == s[a..a + |r|]
             && AllSpace(s[..a]) && AllSpace(s[a + |r|..]);
    assert forall i :: 0 <= i < |r| ==> r[i] == s[a + i];
  }

  /** ASCII case folding, the only folding a non-Unicode `/i` regular
      expression applies to an ASCII pattern character. */
  function LowerAscii(c: char): (d: char)
    ensures 'A' <= c <= 'Z' ==> 'a' <= d <= 'z' && d as int - c as int == 32
    ensures !('A' <= c <= 'Z') ==> d == c
  {
    if 'A' <= c <= 'Z' then (c as int + 32) as char else c
  }

  /** `Array.prototype.join`. */
  function Join(xs: seq<string>, sep: string): string {
    if |xs| == 0 then ""
    else if |xs| == 1 then xs[0]
    else xs[0] + sep + Join(xs[1..], sep)
  }

  /** A join starts with the first element and is empty for no elements. */
  lemma JoinStart(xs: seq<string>, sep: string)
    ensures |xs| == 0 ==> Join(xs, sep) == ""
    ensures |xs| > 0 ==> xs[0] <= Join(xs, sep)
  {
  }

  /** Appending an element to a non-empty list appends the separator and the
      element to its join. */
  lemma {:induction false} JoinAppend(xs: seq<string>, x: string, sep: string)
    requires |xs| > 0
    ensures Join(xs + [x], sep) == Join(xs, sep) + sep + x
    decreases |xs|
  {
    if |xs| == 1 {
      assert xs + [x] == [xs[0], x];
      assert [xs[0], x][1..] == [x];
    } else {
      assert (xs + [x])[1..] == xs[1..] + [x];
      JoinAppend(xs[1..], x, sep);
    }
  }

  /** The index of the first occurrence of `c` in `s`. */
  function IndexOf(s: string, c: char): (i: nat)
    requires c in s
    ensures i < |s| && s[i] == c
    ensures c !in s[..i]
  {
    if s[0] == c then 0 else 1 + IndexOf(s[1..], c)
  }

  /** `String.prototype.split` with a one-character separator. */
  function SplitOn(s: string, sep: char): (parts: seq<string>)
    ensures |parts| >= 1
    ensures forall i :: 0 <= i < |parts| ==> sep !in parts[i]
    decreases |s|
  {
    if sep !in s then [s]
    else
      var i := IndexOf(s, sep);
      [s[..i]] + SplitOn(s[i + 1..], sep)
  }

  /** A string without the separator splits into itself alone. */
  lemma SplitWithoutSeparator(s: string, sep: char)
    requires sep !in s
    ensures SplitOn(s, sep) == [s]
  {
  }

  /** Joining a list with a first element in front puts the separator
      after that element. */
  lemma JoinCons(x: string, xs: seq<string>, sep: string)
    requires |xs| > 0
    ensures Join([x] + xs, sep) == x + sep + Join(xs, sep)
  {
    assert ([x] + xs)[1..] == xs;
  }

  /** Joining the parts of a split with the separator gives back the string. */
  lemma {:induction false} SplitJoin(s: string, sep: char)
    ensures Join(SplitOn(s, sep), [sep]) == s
    decreases |s|
  {
    if sep in s {
      var i := IndexOf(s, sep);
      var rest := SplitOn(s[i + 1..], sep);
      assert SplitOn(s, sep) == [s[..i]] + rest;
      SplitJoin(s[i + 1..], sep);
      JoinCons(s[..i], rest, [sep]);
      assert s == s[..i] + [sep] + s[i + 1..];
    }
  }

  /** Trims every element, as `.map(s => s.trim())` does. */
  function TrimAll(xs: seq<string>): (r: seq<string>)
    ensures |r| == |xs|
    ensures forall i :: 0 <= i < |xs| ==> r[i] == Trim(xs[i])
  {
    if |xs| == 0 then [] else [Trim(xs[0])] + TrimAll(xs[1..])
  }
}
