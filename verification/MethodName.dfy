/** MethodName of defines.h: index arithmetic on std::string with size_t wrap-around. */
module MethodName {
  import opened Basics

  /** size_t is 64 bits wide, and npos its largest value. */
  const SIZE: int := 0x1_0000_0000_0000_0000
  const NPOS: int := SIZE - 1

  /** A std::string is shorter than npos. */
  predicate Representable(s: string) { |s| < NPOS }

  predicate Absent(s: string, c: char, lo: int, hi: int) {
    forall k :: 0 <= lo <= k < hi <= |s| ==> s[k] != c
  }

  /** s.find(c): the first index, or npos. */
  function Find(s: string, c: char): (r: int)
    ensures r == NPOS || (0 <= r < |s| && s[r] == c && Absent(s, c, 0, r))
    ensures r == NPOS && Representable(s) ==> Absent(s, c, 0, |s|)
  {
    FindFrom(s, c, 0)
  }

  function FindFrom(s: string, c: char, i: nat): (r: int)
    requires i <= |s| && Absent(s, c, 0, i)
    ensures r == NPOS || (i <= r < |s| && s[r] == c && Absent(s, c, 0, r))
    ensures r == NPOS && Representable(s) ==> Absent(s, c, 0, |s|)
    decreases |s| - i
  {
    if i == |s| then NPOS
    else if s[i] == c then i
    else FindFrom(s, c, i + 1)
  }

  /** s.rfind(c): the last index, or npos. */
  function RFind(s: string, c: char): (r: int)
    ensures r == NPOS || (0 <= r < |s| && s[r] == c && Absent(s, c, r + 1, |s|))
    ensures r == NPOS && Representable(s) ==> Absent(s, c, 0, |s|)
  {
    if s == [] then NPOS
    else
      var n := |s| - 1;
      if s[n] == c then n
      else
        var r := RFind(s[..n], c);
        assert forall k :: 0 <= k < n ==> s[k] == s[..n][k];
        r
  }

  /** s.substr(pos, len): throws if pos is past the end; a length past the end is cut. */
  function Substr(s: string, pos: int, len: int): Option<string>
    requires 0 <= pos && 0 <= len
  {
    if pos > |s| then None
    else if len > |s| - pos then Some(s[pos..])
    else Some(s[pos..pos + len])
  }

  function MethodName(s: string): Option<string> {
    var colons := Find(s, '(');
    match Substr(s, 0, colons)
    case None => None
    case Some(head) => NameFrom(s, (RFind(head, ' ') + 1) % SIZE)
  }

  function NameFrom(s: string, begin: nat): Option<string> {
    var end := (RFind(s, '(') - begin) % SIZE;
    Substr(s, begin, end)
  }

  // ---------------------------------------------------------------- what it is meant to be

  /** Where the parameter list starts: the first parenthesis, or the end. */
  predicate HeadEnds(s: string, p: nat) {
    p <= |s| && Absent(s, '(', 0, p) && (p < |s| ==> s[p] == '(')
  }

  /** Where the last word before p starts. */
  predicate WordStarts(s: string, p: nat, lo: nat)
    requires p <= |s|
  {
    lo <= p && Absent(s, ' ', lo, p) && (lo > 0 ==> s[lo - 1] == ' ')
  }

  /** The last parenthesis, or the end if there is none. */
  predicate NameEnds(s: string, hi: nat) {
    hi <= |s| && if hi < |s| then s[hi] == '(' && Absent(s, '(', hi + 1, |s|) else Absent(s, '(', 0, |s|)
  }

  lemma FirstParen(s: string, p: nat)
    requires Representable(s) && HeadEnds(s, p)
    ensures Substr(s, 0, Find(s, '(')) == Some(s[..p])
  {
    assert Find(s, '(') == if p < |s| then p else NPOS;
    assert s[0..] == s[..|s|];
  }

  lemma LastWord(s: string, p: nat, lo: nat)
    requires Representable(s) && p <= |s| && WordStarts(s, p, lo)
    ensures (RFind(s[..p], ' ') + 1) % SIZE == lo
  {
    var head := s[..p];
    assert forall k :: 0 <= k < p ==> s[k] == head[k];
    assert RFind(head, ' ') == if lo == 0 then NPOS else lo - 1;
  }

  lemma LastParen(s: string, hi: nat)
    requires Representable(s) && NameEnds(s, hi)
    ensures RFind(s, '(') == if hi < |s| then hi else NPOS
  {
  }

  lemma FirstBeforeLast(s: string, p: nat, hi: nat)
    requires HeadEnds(s, p) && NameEnds(s, hi)
    ensures p <= hi
  {
  }

  /** For every string, neither substr throws and no subtraction underflows: the result is the slice
      from the last word before the first parenthesis up to the last parenthesis. */
  lemma MethodNameIs(s: string, p: nat, lo: nat, hi: nat)
    requires Representable(s) && HeadEnds(s, p) && WordStarts(s, p, lo) && NameEnds(s, hi)
    ensures lo <= hi && MethodName(s) == Some(s[lo..hi])
  {
    FirstParen(s, p);
    LastWord(s, p, lo);
    FirstBeforeLast(s, p, hi);
    SliceTo(s, lo, hi);
  }

  /** Subtracting the start from npos still gives a length past the end. */
  lemma SliceTo(s: string, lo: nat, hi: nat)
    requires Representable(s) && lo <= hi && NameEnds(s, hi)
    ensures NameFrom(s, lo) == Some(s[lo..hi])
  {
    LastParen(s, hi);
    assert s[lo..|s|] == s[lo..];
  }

  /** Such positions exist in every string, so the result is always defined. */
  lemma MethodNameNeverThrows(s: string)
    requires Representable(s)
    ensures exists p: nat, lo: nat, hi: nat ::
              HeadEnds(s, p) && WordStarts(s, p, lo) && NameEnds(s, hi) && MethodName(s) == Some(s[lo..hi])
  {
    var f, l := Find(s, '('), RFind(s, '(');
    var p: nat := if f == NPOS then |s| else f;
    var hi: nat := if l == NPOS then |s| else l;
    var head := s[..p];
    var w := RFind(head, ' ');
    var lo: nat := if w == NPOS then 0 else w + 1;
    assert forall k :: 0 <= k < p ==> s[k] == head[k];
    assert HeadEnds(s, p) && WordStarts(s, p, lo) && NameEnds(s, hi);
    MethodNameIs(s, p, lo, hi);
  }

  /** The name is free of parentheses exactly if the signature has at most one: it ends at the last
      parenthesis, not at the first, so a function-pointer parameter gets into it. */
  lemma NameIsClean(s: string, p: nat, lo: nat, hi: nat)
    requires Representable(s) && HeadEnds(s, p) && WordStarts(s, p, lo) && NameEnds(s, hi)
    ensures MethodName(s).Some? && ('(' !in MethodName(s).value <==> p == hi)
  {
    MethodNameIs(s, p, lo, hi);
    FirstBeforeLast(s, p, hi);
    var name := s[lo..hi];
    assert forall k :: 0 <= k < |name| ==> name[k] == s[lo + k];
    if p < hi {
      assert name[p - lo] == '(';
    }
  }

  lemma FunctionPointerParameter()
    ensures MethodName("f(g(int))") == Some("f(g")
  {
    var s := "f(g(int))";
    assert HeadEnds(s, 1) && WordStarts(s, 1, 0) && NameEnds(s, 3);
    MethodNameIs(s, 1, 0, 3);
    assert s[0..3] == "f(g";
  }
}
