/** The part of Go's `strings` package the tool relies on, over `seq<char>`. */
module GoStrings {
  import opened Common

  /** strings.HasPrefix */
  predicate HasPrefix(s: string, prefix: string) {
    |prefix| <= |s| && s[..|prefix|] == prefix
  }

  /** strings.HasSuffix */
  predicate HasSuffix(s: string, suffix: string) {
    |suffix| <= |s| && s[|s| - |suffix|..] == suffix
  }

  /** strings.TrimPrefix: `s` without a leading `prefix`, or `s` itself. */
  function TrimPrefix(s: string, prefix: string): (r: string)
    ensures HasPrefix(s, prefix) ==> prefix + r == s
    ensures !HasPrefix(s, prefix) ==> r == s
  {
    if HasPrefix(s, prefix) then s[|prefix|..] else s
  }

  /** strings.TrimSuffix: `s` without a trailing `suffix`, or `s` itself. */
  function TrimSuffix(s: string, suffix: string): (r: string)
    ensures HasSuffix(s, suffix) ==> r + suffix == s
    ensures !HasSuffix(s, suffix) ==> r == s
  {
    if HasSuffix(s, suffix) then s[..|s| - |suffix|] else s
  }

  /** `sub` occurs in `s` starting at index `i`. */
  ghost predicate OccursAt(s: string, sub: string, i: int) {
    0 <= i && i + |sub| <= |s| && s[i..i + |sub|] == sub
  }

  /** strings.Contains, scanning from the left. */
  predicate Contains(s: string, sub: string)
    decreases |s|
  {
    HasPrefix(s, sub) || (s != [] && Contains(s[1..], sub))
  }

  lemma {:induction false} ContainsIff(s: string, sub: string)
    ensures Contains(s, sub) <==> exists i :: OccursAt(s, sub, i)
    decreases |s|
  {
    if HasPrefix(s, sub) {
      assert OccursAt(s, sub, 0);
    } else if s != [] {
      ContainsIff(s[1..], sub);
      if Contains(s[1..], sub) {
        var i :| OccursAt(s[1..], sub, i);
        assert s[i + 1..i + 1 + |sub|] == s[1..][i..i + |sub|];
        assert OccursAt(s, sub, i + 1);
      } else {
        forall i | OccursAt(s, sub, i) ensures OccursAt(s[1..], sub, i - 1) {
          assert i > 0;
          var shifted, here := s[1..][i - 1..i - 1 + |sub|], s[i..i + |sub|];
          assert forall j :: 0 <= j < |sub| ==> shifted[j] == here[j];
          assert shifted == here;
        }
      }
    }
  }

  /** Index of the first `c` in `s`, or -1 (strings.IndexByte). */
  function IndexOf(s: string, c: char): (k: int)
    ensures -1 <= k < |s|
    ensures k >= 0 ==> s[k] == c && c !in s[..k]
    ensures k < 0 ==> c !in s
    decreases |s|
  {
    if s == [] then -1
    else if s[0] == c then 0
    else
      var k := IndexOf(s[1..], c);
      assert s[1..][..if k < 0 then 0 else k] == s[1..if k < 0 then 1 else k + 1];
      if k < 0 then -1 else k + 1
  }

  /** The first `c` is at `k` when `s[k]` is `c` and no `c` comes before it. */
  lemma IndexOfAt(s: string, c: char, k: int)
    requires 0 <= k < |s| && s[k] == c && c !in s[..k]
    ensures IndexOf(s, c) == k
  {
    assert s[k] in s;
    assert forall j :: 0 <= j < k ==> s[..k][j] == s[j];
    assert forall m :: k < m <= |s| ==> s[..m][k] == s[k];
  }

  /** `strings.Split(line, ":")[1]`: the text between the first and the
      second ':' (or the end of the line), or None when the line has no ':'
      and the Go expression would index out of range. */
  function SecondField(line: string): Option<string> {
    var i := IndexOf(line, ':');
    if i < 0 then None
    else
      var rest := line[i + 1..];
      var j := IndexOf(rest, ':');
      Some(if j < 0 then rest else rest[..j])
  }

  /** `f` is `line[i + 1..j]`, where `i` is the first ':' of the line and
      `j` the next ':' or the end of the line. */
  ghost predicate BetweenColons(line: string, f: string, i: int, j: int) {
    0 <= i < j <= |line| && line[i] == ':' && ':' !in line[..i]
    && f == line[i + 1..j] && ':' !in f
    && (j == |line| || line[j] == ':')
  }

  lemma SecondFieldIsBetweenColons(line: string)
    ensures SecondField(line).None? <==> ':' !in line
    ensures SecondField(line).Some? ==>
      exists i, j :: BetweenColons(line, SecondField(line).value, i, j)
  {
    var i := IndexOf(line, ':');
    if i >= 0 {
      var rest := line[i + 1..];
      var j := IndexOf(rest, ':');
      if j < 0 {
        assert line[i + 1..|line|] == rest;
        assert BetweenColons(line, SecondField(line).value, i, |line|);
      } else {
        assert line[i + 1..i + 1 + j] == rest[..j];
        assert line[i + 1 + j] == rest[j];
        assert BetweenColons(line, SecondField(line).value, i, i + 1 + j);
      }
    }
  }

  /** `s` without any character of `drop` (regexp ReplaceAllString with a
      character class and an empty replacement). */
  function RemoveAll(s: string, drop: set<char>): (r: string)
    ensures forall k :: 0 <= k < |r| ==> r[k] !in drop
    ensures |r| <= |s|
  {
    if s == [] then []
    else (if s[0] in drop then [] else [s[0]]) + RemoveAll(s[1..], drop)
  }

  /** Every character that is not removed is kept as often as it occurs. */
  lemma {:induction false} RemoveAllCounts(s: string, drop: set<char>)
    ensures forall c :: c !in drop ==> multiset(RemoveAll(s, drop))[c] == multiset(s)[c]
    decreases |s|
  {
    if s != [] {
      RemoveAllCounts(s[1..], drop);
      assert s == [s[0]] + s[1..];
    }
  }

  /** Removal works piece by piece, so the kept characters stay in order. */
  lemma {:induction false} RemoveAllConcat(a: string, b: string, drop: set<char>)
    ensures RemoveAll(a + b, drop) == RemoveAll(a, drop) + RemoveAll(b, drop)
    decreases |a|
  {
    if a == [] {
      assert a + b == b;
    } else {
      assert (a + b)[0] == a[0] && (a + b)[1..] == a[1..] + b;
      RemoveAllConcat(a[1..], b, drop);
      var h := if a[0] in drop then [] else [a[0]];
      Regroup(RemoveAll(a + b, drop), h, RemoveAll(a[1..] + b, drop),
              RemoveAll(a[1..], drop), RemoveAll(b, drop), RemoveAll(a, drop));
    }
  }

  /** A string with nothing to remove is left as it is. */
  lemma {:induction false} RemoveAllKeepsClean(s: string, drop: set<char>)
    requires forall k :: 0 <= k < |s| ==> s[k] !in drop
    ensures RemoveAll(s, drop) == s
    decreases |s|
  {
    if s != [] {
      RemoveAllKeepsClean(s[1..], drop);
    }
  }

  /** A string made only of removed characters leaves nothing. */
  lemma {:induction false} RemoveAllDropsAll(s: string, drop: set<char>)
    requires forall k :: 0 <= k < |s| ==> s[k] in drop
    ensures RemoveAll(s, drop) == []
    decreases |s|
  {
    if s != [] {
      RemoveAllDropsAll(s[1..], drop);
    }
  }

  /** unicode.ToLower restricted to ASCII letters. */
  function LowerChar(c: char): char {
    if 'A' <= c <= 'Z' then (c as int + 32) as char else c
  }

  /** strings.ToLower, letter by letter. */
  function ToLower(s: string): (r: string)
    ensures |r| == |s|
    ensures forall k :: 0 <= k < |s| ==> r[k] == LowerChar(s[k])
  {
    seq(|s|, k requires 0 <= k < |s| => LowerChar(s[k]))
  }

  /** unicode.IsSpace: the Unicode White_Space characters. */
  predicate IsSpace(c: char) {
    var n := c as int;
    (9 <= n <= 13) || n == 32 || n == 0x85 || n == 0xA0 || n == 0x1680
    || (0x2000 <= n <= 0x200A) || n == 0x2028 || n == 0x2029 || n == 0x202F
    || n == 0x205F || n == 0x3000
  }

  function TrimLeftSpace(s: string): (r: string)
    ensures |r| <= |s| && r == s[|s| - |r|..]
    ensures r == [] || !IsSpace(r[0])
    ensures forall k :: 0 <= k < |s| - |r| ==> IsSpace(s[k])
  {
    if s != [] && IsSpace(s[0]) then TrimLeftSpace(s[1..]) else s
  }

  function TrimRightSpace(s: string): (r: string)
    ensures |r| <= |s| && r == s[..|r|]
    ensures r == [] || !IsSpace(r[|r| - 1])
    ensures forall k :: |r| <= k < |s| ==> IsSpace(s[k])
  {
    if s != [] && IsSpace(s[|s| - 1]) then TrimRightSpace(s[..|s| - 1]) else s
  }

  /** `r` is `s[i..]` cut short, with only white space around it in `s`. */
  ghost predicate TrimmedAt(s: string, r: string, i: int) {
    0 <= i <= |s| - |r| && r == s[i..i + |r|]
    && (forall k :: 0 <= k < i ==> IsSpace(s[k]))
    && (forall k :: i + |r| <= k < |s| ==> IsSpace(s[k]))
  }

  /** strings.TrimSpace: `s` without leading and trailing white space. */
  function TrimSpace(s: string): (r: string)
    ensures exists i :: TrimmedAt(s, r, i)
    ensures r == [] || (!IsSpace(r[0]) && !IsSpace(r[|r| - 1]))
  {
    var l := TrimLeftSpace(s);
    var r := TrimRightSpace(l);
    var i := |s| - |l|;
    assert s[i..i + |r|] == r;
    assert TrimmedAt(s, r, i);
    r
  }
}
