/** The `str` methods utils/model_naming.py uses, over ASCII case and white space. */
module PyStrings {
  import opened Wrappers

  predicate OccursAt(s: string, sub: string, i: int) {
    0 <= i && i + |sub| <= |s| && s[i..i + |sub|] == sub
  }

  /** `s.find(sub)`; None stands for -1. */
  function Find(s: string, sub: string): (r: Option<nat>)
    ensures r.Some? ==> OccursAt(s, sub, r.value) && forall i :: 0 <= i < r.value ==> !OccursAt(s, sub, i)
    ensures r.None? ==> forall i :: !OccursAt(s, sub, i)
  {
    FindFrom(s, sub, 0)
  }

  function FindFrom(s: string, sub: string, start: nat): (r: Option<nat>)
    ensures r.Some? ==> start <= r.value && OccursAt(s, sub, r.value)
                        && forall i :: start <= i < r.value ==> !OccursAt(s, sub, i)
    ensures r.None? ==> forall i :: start <= i ==> !OccursAt(s, sub, i)
    decreases |s| - start
  {
    if start + |sub| > |s| then None
    else if OccursAt(s, sub, start) then Some(start)
    else FindFrom(s, sub, start + 1)
  }

  /** `s.replace(old, new)`: occurrences of `old` are taken from the left and do not overlap. */
  function Replace(s: string, old_: string, new_: string): string
    requires old_ != ""
    decreases |s|
  {
    if |s| < |old_| then s
    else if s[..|old_|] == old_ then new_ + Replace(s[|old_|..], old_, new_)
    else [s[0]] + Replace(s[1..], old_, new_)
  }

  predicate StartsWith(s: string, prefix: string) {
    |prefix| <= |s| && s[..|prefix|] == prefix
  }

  predicate EndsWith(s: string, suffix: string) {
    |suffix| <= |s| && s[|s| - |suffix|..] == suffix
  }

  predicate IsSpace(c: char) {
    c == ' ' || '\t' <= c <= '\r' || '\U{1C}' <= c <= '\U{1F}'
  }

  function LStrip(s: string, drop: char -> bool): string {
    if s != "" && drop(s[0]) then LStrip(s[1..], drop) else s
  }

  function RStrip(s: string, drop: char -> bool): string {
    if s != "" && drop(s[|s| - 1]) then RStrip(s[..|s| - 1], drop) else s
  }

  function Strip(s: string, drop: char -> bool): string {
    RStrip(LStrip(s, drop), drop)
  }

  /** The longest prefix without white space: `s.split()[0]` when `s` starts with none. */
  function FirstWord(s: string): string {
    if s == "" || IsSpace(s[0]) then "" else [s[0]] + FirstWord(s[1..])
  }

  /** `s.rsplit(c, 1)` at the last `c`, if there is one. */
  function SplitAtLast(s: string, c: char): Option<(string, string)> {
    if s == "" then None
    else if s[|s| - 1] == c then Some((s[..|s| - 1], ""))
    else
      match SplitAtLast(s[..|s| - 1], c)
      case None => None
      case Some((left, right)) => Some((left, right + [s[|s| - 1]]))
  }

  function LowerChar(c: char): char {
    if 'A' <= c <= 'Z' then c + 32 as char else c
  }

  function Lower(s: string): (r: string)
    ensures |r| == |s| && forall i :: 0 <= i < |s| ==> r[i] == LowerChar(s[i])
  {
    seq(|s|, i requires 0 <= i < |s| => LowerChar(s[i]))
  }

  function UpperChar(c: char): char {
    if 'a' <= c <= 'z' then c - 32 as char else c
  }

  function Upper(s: string): string {
    seq(|s|, i requires 0 <= i < |s| => UpperChar(s[i]))
  }

  /** `str(n)` */
  function Decimal(n: nat): string {
    (if n < 10 then "" else Decimal(n / 10)) + [(n % 10) as char + '0']
  }

  // ----- Facts -----------------------------------------------------------------------------

  lemma ReplaceCharStep(s: string, c: char, new_: string)
    requires s != ""
    ensures Replace(s, [c], new_) == (if s[0] == c then new_ else [s[0]]) + Replace(s[1..], [c], new_)
  {
    assert s[..1] == [s[0]];
  }

  lemma {:induction false} ReplaceCharDistributes(a: string, b: string, c: char, new_: string)
    ensures Replace(a + b, [c], new_) == Replace(a, [c], new_) + Replace(b, [c], new_)
  {
    if a == "" {
      assert a + b == b;
    } else {
      hide Replace;
      ReplaceCharDistributes(a[1..], b, c, new_);
      assert (a + b)[1..] == a[1..] + b;
      ReplaceCharStep(a, c, new_);
      ReplaceCharStep(a + b, c, new_);
      Reassociate(if a[0] == c then new_ else [a[0]], Replace(a[1..], [c], new_), Replace(b, [c], new_));
    }
  }

  /** The white space of ASCII, as Python sees it. */
  lemma IsSpaceIff(c: char)
    ensures IsSpace(c) <==> c in {' ', '\t', '\n', '\U{0B}', '\U{0C}', '\r', '\U{1C}', '\U{1D}', '\U{1E}', '\U{1F}'}
  {
    var n := c as int;
    assert IsSpace(c) <==> n == 32 || 9 <= n <= 13 || 28 <= n <= 31;
  }

  /** Letters are lowered and raised in pairs; nothing else changes. */
  lemma CaseIff(c: char)
    ensures LowerChar(c) == c <==> !('A' <= c && c <= 'Z')
    ensures UpperChar(c) == c <==> !('a' <= c && c <= 'z')
    ensures 'A' <= c <= 'Z' ==> LowerChar(c) as int - 'a' as int == c as int - 'A' as int
    ensures 'a' <= c <= 'z' ==> UpperChar(c) as int - 'A' as int == c as int - 'a' as int
  {
  }

  lemma {:induction false} StripsToNothing(s: string, drop: char -> bool)
    ensures Strip(s, drop) == "" <==> forall c :: c in s ==> drop(c)
  {
    LStripsToNothing(s, drop);
    if c :| c in s && !drop(c) {
      StripKeeps(s, drop, c);
    }
  }

  lemma {:induction false} LStripsToNothing(s: string, drop: char -> bool)
    ensures LStrip(s, drop) == "" <==> forall c :: c in s ==> drop(c)
  {
    if s != "" && drop(s[0]) {
      LStripsToNothing(s[1..], drop);
      assert s == [s[0]] + s[1..];
    }
  }

  lemma Reassociate(a: string, b: string, c: string)
    ensures a + (b + c) == a + b + c
  {
  }

  lemma OccursInside(a: string, sub: string, b: string, i: int)
    ensures OccursAt(b, sub, i - |a|) ==> OccursAt(a + b, sub, i)
    ensures i >= |a| && OccursAt(a + b, sub, i) ==> OccursAt(b, sub, i - |a|)
  {
    if i >= |a| && i + |sub| <= |a + b| {
      assert (a + b)[i..i + |sub|] == b[i - |a|..i - |a| + |sub|];
    }
  }

  lemma {:induction false} StripKeeps(s: string, drop: char -> bool, c: char)
    requires !drop(c) && c in s
    ensures c in LStrip(s, drop) && c in RStrip(s, drop) && c in Strip(s, drop)
  {
    LStripKeeps(s, drop, c);
    RStripKeeps(s, drop, c);
    RStripKeeps(LStrip(s, drop), drop, c);
  }

  lemma {:induction false} LStripKeeps(s: string, drop: char -> bool, c: char)
    requires !drop(c) && c in s
    ensures c in LStrip(s, drop)
  {
    if drop(s[0]) {
      assert s == [s[0]] + s[1..];
      LStripKeeps(s[1..], drop, c);
    }
  }

  lemma {:induction false} RStripKeeps(s: string, drop: char -> bool, c: char)
    requires !drop(c) && c in s
    ensures c in RStrip(s, drop)
  {
    if drop(s[|s| - 1]) {
      assert s == s[..|s| - 1] + [s[|s| - 1]];
      RStripKeeps(s[..|s| - 1], drop, c);
    }
  }

  /** Stripping the right end only shortens: what stays is a prefix. */
  lemma {:induction false} RStripPrefix(s: string, drop: char -> bool)
    ensures |RStrip(s, drop)| <= |s| && RStrip(s, drop) == s[..|RStrip(s, drop)|]
    ensures forall i :: |RStrip(s, drop)| <= i < |s| ==> drop(s[i])
  {
    if s != "" && drop(s[|s| - 1]) {
      RStripPrefix(s[..|s| - 1], drop);
    }
  }

  lemma {:induction false} FirstWordOf(word: string, rest: string)
    requires forall c :: c in word ==> !IsSpace(c)
    requires rest == "" || IsSpace(rest[0])
    ensures FirstWord(word + rest) == word
  {
    if word == "" {
      assert word + rest == rest;
    } else {
      assert word[0] in word;
      assert (word + rest)[1..] == word[1..] + rest;
      FirstWordOf(word[1..], rest);
    }
  }

  lemma {:induction false} SplitAtLastOf(left: string, c: char, right: string)
    requires c !in right
    ensures SplitAtLast(left + [c] + right, c) == Some((left, right))
  {
    var s := left + [c] + right;
    if right == "" {
      assert s[..|s| - 1] == left;
    } else {
      var r := right[..|right| - 1];
      assert s[|s| - 1] == right[|right| - 1] && right[|right| - 1] in right;
      assert s[..|s| - 1] == left + [c] + r;
      SplitAtLastOf(left, c, r);
      assert r + [right[|right| - 1]] == right;
    }
  }

  lemma {:induction false} SplitAtLastShape(s: string, c: char)
    ensures match SplitAtLast(s, c)
            case None => c !in s
            case Some((left, right)) => s == left + [c] + right && c !in right
  {
    if s != "" {
      assert s == s[..|s| - 1] + [s[|s| - 1]];
      if s[|s| - 1] != c {
        SplitAtLastShape(s[..|s| - 1], c);
      }
    }
  }
}
