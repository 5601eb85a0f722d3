/** JavaScript's `indexOf('.')` and `split('.')`. */
module DotSplit {

  function IndexOfDot(s: string): (i: int)
    ensures i == -1 ==> '.' !in s
    ensures i != -1 ==> 0 <= i < |s| && s[i] == '.' && '.' !in s[..i]
  {
    if s == "" then -1
    else if s[0] == '.' then 0
    else
      var i := IndexOfDot(s[1..]);
      if i == -1 then -1 else assert s[..i + 1] == [s[0]] + s[1..][..i]; i + 1
  }

  function SplitDots(s: string): (parts: seq<string>)
    ensures |parts| > 0
    decreases |s|
  {
    var i := IndexOfDot(s);
    if i == -1 then [s] else [s[..i]] + SplitDots(s[i + 1..])
  }

  lemma {:induction false} FirstDotAt(a: string, rest: string)
    requires '.' !in a
    ensures IndexOfDot(a + ['.'] + rest) == |a|
  {
    var s := a + ['.'] + rest;
    if a != "" {
      assert s[0] == a[0] && a[0] in a;
      assert s[1..] == a[1..] + ['.'] + rest;
      FirstDotAt(a[1..], rest);
    }
  }

  lemma SplitFirst(a: string, rest: string)
    requires '.' !in a
    ensures SplitDots(a + ['.'] + rest) == [a] + SplitDots(rest)
  {
    FirstDotAt(a, rest);
    var s := a + ['.'] + rest;
    assert s[..|a|] == a && s[|a| + 1..] == rest;
  }
}
