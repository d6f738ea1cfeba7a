/**
  The truncating printers for containers and arrays. The output stream is a sequence of tokens:
  punctuation as it is written, and one token per element in place of the element's own text.
 */
module Printers {
  import opened Basics

  datatype Token<T> = Text(text: string) | Elem(value: T)

  const MAX_COUNT: nat := 32
  const THRESHOLD: nat := 18
  const CHUNK: nat := 8

  class Stream<T> {
    var out: seq<Token<T>>

    constructor ()
      ensures out == []
    {
      out := [];
    }

    method Put(text: string)
      modifies this
      ensures out == old(out) + [Text(text)]
    {
      out := out + [Text(text)];
    }

    method Print(x: T)
      modifies this
      ensures out == old(out) + [Elem(x)]
    {
      out := out + [Elem(x)];
    }
  }

  // ---------------------------------------------------------------- containers

  /** The first elements of a container: a blank before each, a comma after each but the last. */
  function Items<T>(xs: seq<T>): (r: seq<Token<T>>) {
    if xs == [] then []
    else
      var n := |xs| - 1;
      Items(xs[..n]) + (if n > 0 then [Text(",")] else []) + [Text(" "), Elem(xs[n])]
  }

  function Container<T>(c: seq<T>): (r: seq<Token<T>>) {
    [Text("{")] + Items(c[..Min(MAX_COUNT, |c|)])
    + (if |c| > MAX_COUNT then [Text(","), Text(" ...")] else [])
    + (if |c| > 0 then [Text(" ")] else []) + [Text("}")]
  }

  method DefaultPrintTo<T>(container: seq<T>, os: Stream<T>)
    modifies os
    ensures os.out == old(os.out) + Container(container)
  {
    os.Put("{");
    var count := 0;
    ghost var more: seq<Token<T>> := [];
    while count < |container|
      invariant count <= |container| && count <= MAX_COUNT && more == []
      invariant os.out == old(os.out) + [Text("{")] + Items(container[..count])
    {
      ghost var before := os.out;
      if count > 0 {
        os.Put(",");
        if count == MAX_COUNT {
          os.Put(" ...");
          more := [Text(","), Text(" ...")];
          assert os.out == before + more;
          break;
        }
      }
      os.Put(" ");
      os.Print(container[count]);
      assert container[..count + 1][..count] == container[..count];
      assert os.out == before + ((if count > 0 then [Text(",")] else []) + [Text(" "), Elem(container[count])]);
      count := count + 1;
    }
    assert count == Min(MAX_COUNT, |container|);
    assert more == if |container| > MAX_COUNT then [Text(","), Text(" ...")] else [];
    if count > 0 {
      os.Put(" ");
    }
    os.Put("}");
  }

  /** A reader of what DefaultPrintTo writes: the elements, and whether some were left out. */
  ghost function Parse<T>(ts: seq<Token<T>>): Option<(seq<T>, bool)> {
    if ts == [Text("{"), Text("}")] then Some(([], false))
    else if |ts| >= 3 && ts[0] == Text("{") && ts[|ts| - 1] == Text("}") && ts[|ts| - 2] == Text(" ") then
      var body := ts[1..|ts| - 2];
      var cut := |body| >= 2 && body[|body| - 2..] == [Text(","), Text(" ...")];
      match ParseItems(if cut then body[..|body| - 2] else body)
      case None => None
      case Some(xs) => Some((xs, cut))
    else None
  }

  ghost function ParseItems<T>(ts: seq<Token<T>>): Option<seq<T>> {
    if |ts| == 2 && ts[0] == Text(" ") && ts[1].Elem? then Some([ts[1].value])
    else if |ts| >= 5 && ts[|ts| - 1].Elem? && ts[|ts| - 2] == Text(" ") && ts[|ts| - 3] == Text(",") then
      match ParseItems(ts[..|ts| - 3])
      case None => None
      case Some(xs) => Some(xs + [ts[|ts| - 1].value])
    else None
  }

  lemma {:induction false} ItemsParse<T>(xs: seq<T>)
    requires xs != []
    ensures |Items(xs)| == 3 * |xs| - 1 && Items(xs)[|Items(xs)| - 1] == Elem(xs[|xs| - 1])
    ensures ParseItems(Items(xs)) == Some(xs)
  {
    var n := |xs| - 1;
    var ts := Items(xs);
    assert xs == xs[..n] + [xs[n]];
    if n == 0 {
      assert Items(xs[..0]) == [];
      assert ts == [Text(" "), Elem(xs[0])];
    } else {
      ItemsParse(xs[..n]);
      assert ts == Items(xs[..n]) + [Text(","), Text(" "), Elem(xs[n])];
      assert ts[..|ts| - 3] == Items(xs[..n]);
    }
  }

  lemma ParseBody<T>(xs: seq<T>, cut: bool)
    requires xs != []
    ensures var more := if cut then [Text(","), Text(" ...")] else [];
      Parse([Text("{")] + (Items(xs) + more) + [Text(" "), Text("}")]) == Some((xs, cut))
  {
    ItemsParse(xs);
    var more: seq<Token<T>> := if cut then [Text(","), Text(" ...")] else [];
    var body := Items(xs) + more;
    var ts := [Text("{")] + body + [Text(" "), Text("}")];
    assert |ts| > 2;
    assert ts[1..|ts| - 2] == body;
    if cut {
      assert body[|body| - 2..] == more && body[..|body| - 2] == Items(xs);
    } else {
      assert body == Items(xs);
      assert body[|body| - 2..][1] == Elem(xs[|xs| - 1]);
    }
  }

  /** Reading back what was written gives the first min(32, n) elements in order, and tells that some
      are missing exactly if there are more than 32. */
  lemma ContainerRoundTrip<T>(c: seq<T>)
    ensures Parse(Container(c)) == Some((c[..Min(32, |c|)], |c| > 32))
  {
    var xs := c[..Min(MAX_COUNT, |c|)];
    if c == [] {
      assert Container(c) == [Text("{"), Text("}")];
    } else {
      ParseBody(xs, |c| > MAX_COUNT);
      var more: seq<Token<T>> := if |c| > MAX_COUNT then [Text(","), Text(" ...")] else [];
      assert Container(c) == [Text("{")] + (Items(xs) + more) + [Text(" "), Text("}")];
    }
  }

  // ---------------------------------------------------------------- arrays

  function Separated<T>(xs: seq<T>): (r: seq<Token<T>>)
    requires xs != []
  {
    if |xs| == 1 then [Elem(xs[0])]
    else Separated(xs[..|xs| - 1]) + [Text(", "), Elem(xs[|xs| - 1])]
  }

  function ArrayText<T>(a: seq<T>): (r: seq<Token<T>>) {
    if a == [] then [Text("{}")]
    else if |a| <= THRESHOLD then [Text("{ ")] + Separated(a) + [Text(" }")]
    else [Text("{ ")] + Ends(a) + [Text(" }")]
  }

  /** Prints a[begin .. begin + count]. The loop runs until i equals count, starting from 1: it stops,
      within the array, because no caller passes a count of 0. */
  method PrintRawArrayTo<T>(a: array<T>, begin: nat, count: nat, os: Stream<T>)
    requires 1 <= count && begin + count <= a.Length
    modifies os
    ensures os.out == old(os.out) + Separated(a[begin..begin + count])
  {
    os.Print(a[begin]);
    var i := 1;
    assert a[begin..begin + 1] == [a[begin]];
    while i != count
      invariant 1 <= i <= count
      invariant os.out == old(os.out) + Separated(a[begin..begin + i])
      decreases count - i
    {
      os.Put(", ");
      os.Print(a[begin + i]);
      assert a[begin..begin + i + 1][..i] == a[begin..begin + i];
      i := i + 1;
    }
  }

  /** The elided form: the first and the last CHUNK elements. */
  function Ends<T>(a: seq<T>): (r: seq<Token<T>>)
    requires |a| > THRESHOLD
  {
    Separated(a[..CHUNK]) + [Text(", ..., ")] + Separated(a[|a| - CHUNK..])
  }

  method PrintEnds<T>(a: array<T>, os: Stream<T>)
    requires a.Length > THRESHOLD
    modifies os
    ensures os.out == old(os.out) + Ends(a[..])
  {
    ghost var s := a[..];
    PrintRawArrayTo(a, 0, CHUNK, os);
    assert a[0..CHUNK] == s[..CHUNK];
    os.Put(", ..., ");
    PrintRawArrayTo(a, a.Length - CHUNK, CHUNK, os);
    assert a[a.Length - CHUNK..a.Length] == s[|s| - CHUNK..];
  }

  lemma Bracketed<T>(o: seq<T>, x: seq<T>, m: seq<T>, y: seq<T>)
    ensures o + x + m + y == o + (x + m + y)
  {
  }

  method UniversalPrintArray<T>(a: array<T>, os: Stream<T>)
    modifies os
    ensures os.out == old(os.out) + ArrayText(a[..])
  {
    if a.Length == 0 {
      os.Put("{}");
    } else {
      ghost var middle := if a.Length <= THRESHOLD then Separated(a[..]) else Ends(a[..]);
      os.Put("{ ");
      if a.Length <= THRESHOLD {
        PrintRawArrayTo(a, 0, a.Length, os);
        assert a[0..a.Length] == a[..];
      } else {
        PrintEnds(a, os);
      }
      os.Put(" }");
      Bracketed(old(os.out), [Text("{ ")], middle, [Text(" }")]);
    }
  }

  /** The elements of a token stream, in order. */
  function Elements<T>(ts: seq<Token<T>>): (r: seq<T>) {
    if ts == [] then []
    else Elements(ts[..|ts| - 1]) + match ts[|ts| - 1] case Elem(x) => [x] case Text(_) => []
  }

  lemma {:induction false} ElementsConcat<T>(a: seq<Token<T>>, b: seq<Token<T>>)
    ensures Elements(a + b) == Elements(a) + Elements(b)
    decreases |b|
  {
    if b == [] {
      assert a + b == a;
    } else {
      ElementsConcat(a, b[..|b| - 1]);
      assert (a + b)[..|a + b| - 1] == a + b[..|b| - 1];
    }
  }

  lemma ElementsText<T>(text: string)
    ensures Elements<T>([Text(text)]) == []
  {
    var ts: seq<Token<T>> := [Text(text)];
    assert ts[..0] == [];
  }

  lemma {:induction false} ElementsSeparated<T>(xs: seq<T>)
    requires xs != []
    ensures Elements(Separated(xs)) == xs
  {
    var n := |xs| - 1;
    if n == 0 {
      assert [Elem(xs[0])][..0] == [];
      assert xs == [xs[0]];
    } else {
      ElementsSeparated(xs[..n]);
      ElementsConcat(Separated(xs[..n]), [Text(", "), Elem(xs[n])]);
      assert [Text(", "), Elem(xs[n])][..1] == [Text(", ")];
      ElementsText<T>(", ");
      assert xs == xs[..n] + [xs[n]];
    }
  }

  lemma BracketsShowNothing<T>(m: seq<Token<T>>)
    ensures Elements([Text("{ ")] + m + [Text(" }")]) == Elements(m)
  {
    ElementsText<T>("{ ");
    ElementsText<T>(" }");
    ElementsConcat([Text("{ ")], m);
    ElementsConcat([Text("{ ")] + m, [Text(" }")]);
  }

  lemma EndsShow<T>(a: seq<T>)
    requires |a| > THRESHOLD
    ensures Elements(Ends(a)) == a[..CHUNK] + a[|a| - CHUNK..]
  {
    var l, r := a[..CHUNK], a[|a| - CHUNK..];
    ElementsText<T>(", ..., ");
    ElementsSeparated(l);
    ElementsSeparated(r);
    ElementsConcat(Separated(l), [Text(", ..., ")]);
    ElementsConcat(Separated(l) + [Text(", ..., ")], Separated(r));
  }

  /** Up to 18 elements are all printed, in order; of more, the first 8 and the last 8, which do not
      overlap. So the array can be read back exactly if it has at most 18 elements. */
  lemma ArrayShows<T>(a: seq<T>)
    ensures |a| > 18 ==> Elements(ArrayText(a)) == a[..8] + a[|a| - 8..]
    ensures Elements(ArrayText(a)) == a <==> |a| <= 18
  {
    if |a| > THRESHOLD {
      BracketsShowNothing(Ends(a));
      EndsShow(a);
      assert |a[..CHUNK] + a[|a| - CHUNK..]| == 2 * CHUNK;
    } else if a == [] {
      ElementsText<T>("{}");
    } else {
      BracketsShowNothing(Separated(a));
      ElementsSeparated(a);
    }
  }
}
